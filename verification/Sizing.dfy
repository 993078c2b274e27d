/** The engine's sizing is exact and antitone. */
module SizingLaws {
  import opened Common
  import opened Schemas
  import opened Risk

  /** The quote a leg is opened against shows at least `n` contracts per ratio unit. */
  predicate Displayed(l: Leg, n: nat) {
    var size := if l.side.Buy? then l.askSize else l.bidSize;
    size.Some? && size.value >= n * l.ratio
  }

  /** `n` contracts stay within the tier budget, both headrooms and, in the final-hour tier, the
      displayed size of every leg. */
  predicate Fits(tier: Tier, s: Structure, ctx: RiskContext, n: nat) {
    && Award(s.maximumLoss, n) <= PerBudget(tier, ctx)
    && Award(s.maximumLoss, n) <= ClusterRemaining(ctx)
    && Award(s.maximumLoss, n) <= TotalRemaining(ctx)
    && (tier.FinalHour? ==> s.legs != [] && forall l <- s.legs :: Displayed(l, n))
  }

  lemma ProductMonotone(x: nat, y: nat, b: nat)
    requires x <= y
    ensures x * b <= y * b
  {
  }

  lemma QuotientAtLeast(a: nat, b: nat, n: nat)
    requires b >= 1
    ensures a / b >= n <==> a >= n * b
  {
    var q := a / b;
    assert a == q * b + a % b;
    if q >= n {
      ProductMonotone(n, q, b);
    } else {
      ProductMonotone(q + 1, n, b);
      assert (q + 1) * b == q * b + b;
    }
  }

  lemma CapacityIsDisplayed(l: Leg, n: nat)
    requires n >= 1
    ensures LegCapacity(l).GetOr(0) >= n <==> Displayed(l, n)
  {
    var size := if l.side.Buy? then l.askSize else l.bidSize;
    if size.Some? {
      QuotientAtLeast(size.value, l.ratio, n);
      QuotientAtLeast(n * l.ratio, l.ratio, n);
    }
  }

  lemma {:induction false} DepthIsDisplayed(legs: seq<Leg>, n: nat)
    requires n >= 1
    ensures ExecutableDepth(legs).GetOr(0) >= n <==> legs != [] && forall l <- legs :: Displayed(l, n)
  {
    if legs != [] {
      var m := |legs| - 1;
      CapacityIsDisplayed(legs[m], n);
      assert forall l <- legs :: l in legs[..m] || l == legs[m];
      if m == 0 {
        assert legs == [legs[0]];
      } else {
        DepthIsDisplayed(legs[..m], n);
      }
    }
  }

  lemma FitsAllThree(budget: real, cluster: real, total: real, unit: real, n: nat)
    requires budget >= 0.0 && cluster > 0.0 && total > 0.0 && unit > 0.0
    ensures n <= Whole(MaxReal(0.0, MinReal(budget, MinReal(cluster, total))), unit)
       <==> Award(unit, n) <= budget && Award(unit, n) <= cluster && Award(unit, n) <= total
  {
    WholeFits(MaxReal(0.0, MinReal(budget, MinReal(cluster, total))), unit, n);
  }

  /** The quantity is the largest whole number that fits. */
  lemma QuantityIsLargest(tier: Tier, s: Structure, ctx: RiskContext, n: nat)
    requires s.Valid() && ctx.equity > 0.0 && ClusterRemaining(ctx) > 0.0 && TotalRemaining(ctx) > 0.0 && n >= 1
    ensures n <= Quantity(tier, s, ctx) <==> Fits(tier, s, ctx, n)
  {
    BudgetNonNegative(tier, ctx);
    FitsAllThree(PerBudget(tier, ctx), ClusterRemaining(ctx), TotalRemaining(ctx), s.maximumLoss, n);
    if tier.FinalHour? {
      DepthIsDisplayed(s.legs, n);
    }
  }

  /** Approval is exact: every hard gate passes and one contract fits; the approved quantity is the
      largest that fits; the award is its maximum loss; a rejection carries nothing. */
  lemma VerdictIsExact(d: Decision, c: Candidate, ctx: RiskContext)
    requires c.Valid() && ctx.Valid()
    ensures var v := VerdictOf(d, Some(c), ctx); var tier := TierOf(d, c, ctx);
      && (v.approved <==> !d.action.Abstain? && HardGates(d, c, ctx) && Fits(tier, c.structure, ctx, 1))
      && (v.approved ==>
            && v.quantity >= 1 && v.awarded == Award(c.structure.maximumLoss, v.quantity)
            && Fits(tier, c.structure, ctx, v.quantity)
            && forall n | n > v.quantity :: !Fits(tier, c.structure, ctx, n))
      && (!v.approved ==> v.quantity == 0 && v.awarded == 0.0)
  {
    if !d.action.Abstain? && HardGates(d, c, ctx) {
      var tier := TierOf(d, c, ctx);
      var q := Quantity(tier, c.structure, ctx);
      QuantityIsLargest(tier, c.structure, ctx, 1);
      if q >= 1 {
        QuantityIsLargest(tier, c.structure, ctx, q);
        forall n | n > q ensures !Fits(tier, c.structure, ctx, n) {
          QuantityIsLargest(tier, c.structure, ctx, n);
        }
      }
    }
  }

  /** The same account with at least as much loss already open. */
  predicate MoreLossOpen(less: RiskContext, more: RiskContext) {
    && less.clusterLoss <= more.clusterLoss && less.totalOpenLoss <= more.totalOpenLoss
    && more == less.(clusterLoss := more.clusterLoss, totalOpenLoss := more.totalOpenLoss)
  }

  lemma GatesAntitone(d: Decision, c: Candidate, less: RiskContext, more: RiskContext)
    requires c.Valid() && MoreLossOpen(less, more) && HardGates(d, c, more)
    ensures HardGates(d, c, less)
  {
  }

  /** The only tier that depends on the open loss is the maverick one, and losing it halves the
      budget. */
  lemma BudgetAntitone(d: Decision, c: Candidate, less: RiskContext, more: RiskContext)
    requires c.Valid() && less.Valid() && MoreLossOpen(less, more)
    ensures PerBudget(TierOf(d, c, more), more) <= PerBudget(TierOf(d, c, less), less)
    ensures TierOf(d, c, more).FinalHour? <==> TierOf(d, c, less).FinalHour?
  {
  }

  /** Raising the open defined loss never raises the quantity and never turns a rejection into an
      approval, even across the switch from the maverick to the high-conviction tier. */
  lemma VerdictAntitone(d: Decision, c: Candidate, less: RiskContext, more: RiskContext)
    requires c.Valid() && less.Valid() && MoreLossOpen(less, more)
    ensures VerdictOf(d, Some(c), more).approved ==> VerdictOf(d, Some(c), less).approved
    ensures VerdictOf(d, Some(c), more).quantity <= VerdictOf(d, Some(c), less).quantity
    ensures VerdictOf(d, Some(c), more).awarded <= VerdictOf(d, Some(c), less).awarded
  {
    var v := VerdictOf(d, Some(c), more);
    if v.approved {
      GatesAntitone(d, c, less, more);
      BudgetAntitone(d, c, less, more);
      QuantityIsLargest(TierOf(d, c, more), c.structure, more, v.quantity);
      QuantityIsLargest(TierOf(d, c, less), c.structure, less, v.quantity);
      AwardMonotone(c.structure.maximumLoss, v.quantity, VerdictOf(d, Some(c), less).quantity);
    } else {
      VerdictNonNegative(d, c, less);
    }
  }

  lemma VerdictNonNegative(d: Decision, c: Candidate, ctx: RiskContext)
    requires c.Valid()
    ensures VerdictOf(d, Some(c), ctx).awarded >= 0.0
  {
    if VerdictOf(d, Some(c), ctx).approved {
      AwardMonotone(c.structure.maximumLoss, 0, VerdictOf(d, Some(c), ctx).quantity);
    }
  }

  lemma AwardMonotone(unit: real, m: nat, n: nat)
    requires unit > 0.0 && m <= n
    ensures Award(unit, m) <= Award(unit, n) && Award(unit, 0) == 0.0
  {
    assert unit * (n - m) as real >= 0.0;
  }

  /** An approval leaves both caps respected: what is open plus the award is within each. */
  lemma ApprovalRespectsCaps(d: Decision, c: Candidate, ctx: RiskContext)
    requires c.Valid() && ctx.Valid() && VerdictOf(d, Some(c), ctx).approved
    ensures ctx.clusterLoss + VerdictOf(d, Some(c), ctx).awarded <= ClusterCapDollars(ctx.now, ctx.equity)
    ensures ctx.totalOpenLoss + VerdictOf(d, Some(c), ctx).awarded <= TotalCapDollars(ctx.now, ctx.equity)
    ensures VerdictOf(d, Some(c), ctx).awarded > 0.0
  {
    AwardFits(TierOf(d, c, ctx), c.structure, ctx);
    var q := VerdictOf(d, Some(c), ctx).quantity;
    AwardMonotone(c.structure.maximumLoss, 1, q);
    assert Award(c.structure.maximumLoss, 1) == c.structure.maximumLoss;
  }
}
