/** Deterministic option geometry (domain/options.py) and what it means at expiry. */
module Options {
  import opened Common
  import opened Money
  import opened Schemas

  // ------------------------------------------------------------------ the code

  /** The legs of one right, in their original order. */
  function OfRight(legs: seq<Leg>, right: Right): seq<Leg> {
    if legs == [] then []
    else if legs[0].right == right then [legs[0]] + OfRight(legs[1..], right)
    else OfRight(legs[1..], right)
  }

  /** A stable sort by strike of a two-leg list. */
  function SortedPair(legs: seq<Leg>): seq<Leg>
    requires |legs| == 2
  {
    if legs[0].strike <= legs[1].strike then legs else [legs[1], legs[0]]
  }

  function PairWidth(pair: seq<Leg>): real
    requires |pair| == 2
  {
    AbsReal(pair[1].strike - pair[0].strike)
  }

  function CondorMaximumLoss(legs: seq<Leg>, credit: real): Result<real> {
    if |legs| != 4 then Failure("an iron condor requires exactly four legs")
    else
      var puts, calls := OfRight(legs, Put), OfRight(legs, Call);
      if |puts| != 2 || |calls| != 2 then Failure("an iron condor requires two put and two call legs")
      else
        var p, c := SortedPair(puts), SortedPair(calls);
        if !(p[0].side.Buy? && p[1].side.Sell? && c[0].side.Sell? && c[1].side.Buy?) then
          Failure("condor wings do not bound both short options")
        else if credit <= 0.0 then Failure("condor credit must be positive")
        else
          var width := MaxReal(p[1].strike - p[0].strike, c[1].strike - c[0].strike);
          var loss := (width - credit) * MULTIPLIER;
          if loss <= 0.0 then Failure("condor credit must be less than wing width")
          else Success(RoundCent(loss))
  }

  function DebitSpreadMaximumLoss(legs: seq<Leg>, debit: real): Result<real> {
    if |legs| != 2 then Failure("a debit spread requires exactly two legs")
    else if legs[0].right != legs[1].right then
      Failure("a debit spread requires legs with the same option right")
    else if legs[0].side == legs[1].side then
      Failure("a debit spread requires one long and one short leg")
    else if debit <= 0.0 || debit >= PairWidth(legs) then
      Failure("debit must be positive and less than spread width")
    else Success(RoundCent(debit * MULTIPLIER))
  }

  function CalculateMaximumLoss(strategy: Action, legs: seq<Leg>, netPrice: real): Result<real> {
    match strategy
    case IndexCondor | EarningsCondor => CondorMaximumLoss(legs, netPrice)
    case CallDebitSpread | PutDebitSpread | Hedge => DebitSpreadMaximumLoss(legs, netPrice)
    case Abstain => Failure("unsupported defined-risk strategy")
  }

  predicate DistinctSymbols(legs: seq<Leg>) {
    forall i, j :: 0 <= i < j < |legs| ==> legs[i].symbol != legs[j].symbol
  }

  /** Success carries the recomputed maximum loss. */
  function ValidateDefinedRisk(s: Structure): Result<real> {
    if |s.legs| != 2 && |s.legs| != 4 then
      Failure("only two-leg spreads and four-leg condors are supported")
    else if exists l <- s.legs :: l.underlying != s.underlying then
      Failure("all legs must use one underlying")
    else if exists l <- s.legs :: l.expiration != s.expiration then
      Failure("all legs must use one expiration")
    else if !DistinctSymbols(s.legs) then Failure("option leg symbols must be unique")
    else if exists l <- s.legs :: l.ratio != 1 then
      Failure("initial playbooks require one-to-one leg ratios")
    else if exists l <- s.legs :: !l.intent.Opens() then
      Failure("entry structure legs must open positions")
    else
      var calculated :- CalculateMaximumLoss(s.strategy, s.legs, s.netPrice);
      if calculated != RoundCent(s.maximumLoss) then
        Failure("declared maximum loss does not match leg geometry")
      else Success(calculated)
  }

  // -------------------------------------------------------------- expiry payoff

  /** What one long contract of this leg is worth at expiry, per share. */
  function Intrinsic(l: Leg, spot: real): real {
    MaxReal(0.0, if l.right == Call then spot - l.strike else l.strike - spot)
  }

  function LegValue(l: Leg, spot: real): real {
    (l.ratio * l.side.Sign()) as real * Intrinsic(l, spot)
  }

  function ExpiryValue(legs: seq<Leg>, spot: real): real {
    if legs == [] then 0.0 else LegValue(legs[0], spot) + ExpiryValue(legs[1..], spot)
  }

  /** Dollars lost at expiry by one contract opened for `netPrice` per share. */
  function ExpiryLoss(legs: seq<Leg>, isCredit: bool, netPrice: real, spot: real): real {
    -(ExpiryValue(legs, spot) + (if isCredit then netPrice else -netPrice)) * MULTIPLIER
  }

  // ---------------------------------------------------------------- two-leg math

  predicate UnitRatios(legs: seq<Leg>) {
    forall i :: 0 <= i < |legs| ==> legs[i].ratio == 1
  }

  lemma {:induction false} ExpiryValueByRight(legs: seq<Leg>, spot: real)
    ensures ExpiryValue(legs, spot)
         == ExpiryValue(OfRight(legs, Put), spot) + ExpiryValue(OfRight(legs, Call), spot)
  {
    if legs != [] {
      ExpiryValueByRight(legs[1..], spot);
      var r := legs[0].right;
      assert OfRight(legs, r)[1..] == OfRight(legs[1..], r);
    }
  }

  lemma {:induction false} OfRightKeeps(legs: seq<Leg>, right: Right)
    ensures forall l <- OfRight(legs, right) :: l in legs && l.right == right
    ensures UnitRatios(legs) ==> UnitRatios(OfRight(legs, right))
  {
    if legs != [] {
      OfRightKeeps(legs[1..], right);
      if UnitRatios(legs) {
        assert forall i :: 0 <= i < |legs[1..]| ==> legs[1..][i] == legs[i + 1];
      }
    }
  }

  lemma PairValue(legs: seq<Leg>, spot: real)
    requires |legs| == 2 && UnitRatios(legs)
    ensures ExpiryValue(legs, spot)
         == legs[0].side.Sign() as real * Intrinsic(legs[0], spot)
          + legs[1].side.Sign() as real * Intrinsic(legs[1], spot)
    ensures ExpiryValue(SortedPair(legs), spot) == ExpiryValue(legs, spot)
  {
    hide Intrinsic, ExpiryValue;
    assert legs[0] in legs && legs[1] in legs;
    ExpandPair(legs, spot);
    ExpandPair([legs[1], legs[0]], spot);
  }

  lemma ExpandPair(legs: seq<Leg>, spot: real)
    requires |legs| == 2
    ensures ExpiryValue(legs, spot) == LegValue(legs[0], spot) + LegValue(legs[1], spot)
  {
    assert ExpiryValue(legs[1..], spot) == LegValue(legs[1], spot) + ExpiryValue(legs[1..][1..], spot);
  }

  function Clamp(x: real, hi: real): real
    requires 0.0 <= hi
  {
    MaxReal(0.0, MinReal(x, hi))
  }

  // ------------------------------------------------------------------- condors

  /** The four strikes of a condor the geometry check accepts. */
  datatype Wings = Wings(longPut: real, shortPut: real, shortCall: real, longCall: real) {
    function PutWidth(): real { shortPut - longPut }

    function CallWidth(): real { longCall - shortCall }

    function Width(): real { MaxReal(PutWidth(), CallWidth()) }

    /** How far the short put stands above the short call (negative for an ordinary condor). */
    function Overlap(): real { shortPut - shortCall }
  }

  function CondorWings(legs: seq<Leg>): Wings
    requires |OfRight(legs, Put)| == 2 && |OfRight(legs, Call)| == 2
  {
    var p, c := SortedPair(OfRight(legs, Put)), SortedPair(OfRight(legs, Call));
    Wings(p[0].strike, p[1].strike, c[0].strike, c[1].strike)
  }

  /** What the two verticals cost together at expiry, before the credit. */
  function WingsCost(w: Wings, spot: real): real
    requires w.PutWidth() >= 0.0 && w.CallWidth() >= 0.0
  {
    Clamp(w.shortPut - spot, w.PutWidth()) + Clamp(spot - w.shortCall, w.CallWidth())
  }

  lemma CondorExpiryLoss(legs: seq<Leg>, credit: real, spot: real)
    requires CondorMaximumLoss(legs, credit).Success? && UnitRatios(legs)
    ensures CondorWings(legs).PutWidth() >= 0.0 && CondorWings(legs).CallWidth() >= 0.0
    ensures ExpiryLoss(legs, true, credit, spot)
         == (WingsCost(CondorWings(legs), spot) - credit) * MULTIPLIER
  {
    ExpiryValueByRight(legs, spot);
    OfRightKeeps(legs, Put);
    OfRightKeeps(legs, Call);
    PutWingValue(OfRight(legs, Put), spot);
    CallWingValue(OfRight(legs, Call), spot);
  }

  /** A long lower put and a short upper put. */
  lemma PutWingValue(legs: seq<Leg>, spot: real)
    requires |legs| == 2 && UnitRatios(legs) && forall l <- legs :: l.right == Put
    requires SortedPair(legs)[0].side.Buy? && SortedPair(legs)[1].side.Sell?
    ensures SortedPair(legs)[1].strike >= SortedPair(legs)[0].strike
    ensures ExpiryValue(legs, spot)
         == -Clamp(SortedPair(legs)[1].strike - spot, SortedPair(legs)[1].strike - SortedPair(legs)[0].strike)
  {
    var p := SortedPair(legs);
    assert p[0] in legs && p[1] in legs;
    PairValue(legs, spot);
    PairValue(p, spot);
  }

  /** A short lower call and a long upper call. */
  lemma CallWingValue(legs: seq<Leg>, spot: real)
    requires |legs| == 2 && UnitRatios(legs) && forall l <- legs :: l.right == Call
    requires SortedPair(legs)[0].side.Sell? && SortedPair(legs)[1].side.Buy?
    ensures SortedPair(legs)[1].strike >= SortedPair(legs)[0].strike
    ensures ExpiryValue(legs, spot)
         == -Clamp(spot - SortedPair(legs)[0].strike, SortedPair(legs)[1].strike - SortedPair(legs)[0].strike)
  {
    var c := SortedPair(legs);
    assert c[0] in legs && c[1] in legs;
    PairValue(legs, spot);
    PairValue(c, spot);
  }

  /** The wings never both pay in full beyond the wider one: they cross by no more than it, or one of
      them has no width. */
  predicate WingsApart(w: Wings) { w.Overlap() <= w.Width() || w.PutWidth() == 0.0 || w.CallWidth() == 0.0 }

  /** Pure strike arithmetic behind the condor theorem. */
  lemma WingsCostBoundedIff(w: Wings)
    requires w.PutWidth() >= 0.0 && w.CallWidth() >= 0.0
    ensures (forall spot :: WingsCost(w, spot) <= w.Width()) <==> WingsApart(w)
  {
    if !WingsApart(w) {
      var spot := if w.PutWidth() >= w.CallWidth() then w.longPut else w.longCall;
      assert WingsCost(w, spot) > w.Width();
    }
  }

  /** The declared maximum loss of a condor the geometry check accepts, before rounding to a cent, bounds
      the loss at every underlying price exactly when its wings are apart. The check never compares put
      strikes with call strikes, so this is a condition it leaves to the compiler. */
  lemma CondorLossBoundedIff(legs: seq<Leg>, credit: real)
    requires CondorMaximumLoss(legs, credit).Success? && UnitRatios(legs)
    ensures (forall spot :: ExpiryLoss(legs, true, credit, spot)
                         <= (CondorWings(legs).Width() - credit) * MULTIPLIER)
       <==> WingsApart(CondorWings(legs))
  {
    var w := CondorWings(legs);
    var bound := (w.Width() - credit) * MULTIPLIER;
    CondorExpiryLoss(legs, credit, 0.0);
    WingsCostBoundedIff(w);
    forall spot ensures ExpiryLoss(legs, true, credit, spot) <= bound <==> WingsCost(w, spot) <= w.Width() {
      CondorExpiryLoss(legs, credit, spot);
    }
  }

  /** A condor never earns more than its credit. */
  lemma CondorGainBounded(legs: seq<Leg>, credit: real, spot: real)
    requires CondorMaximumLoss(legs, credit).Success? && UnitRatios(legs)
    ensures -ExpiryLoss(legs, true, credit, spot) <= credit * MULTIPLIER
  {
    CondorExpiryLoss(legs, credit, spot);
  }

  /** The geometry check accepts this crossed condor, declares 300 dollars, and it can lose 800. */
  lemma CrossedCondorLosesMore()
    ensures exists legs: seq<Leg>, spot ::
      && UnitRatios(legs) && DistinctSymbols(legs)
      && CondorMaximumLoss(legs, 2.0) == Success(300.0)
      && ExpiryLoss(legs, true, 2.0, spot) == 800.0
  {
    var quote := (sym: string, r: Right, k: real, s: Side) =>
      Leg(sym, "SPY", 0, r, k, s, if s == Buy then BuyToOpen else SellToOpen, 1, 1.0, 1.1, None, None, None, None);
    var lp, sp := quote("P1", Put, 105.0, Buy), quote("P2", Put, 110.0, Sell);
    var sc, lc := quote("C1", Call, 95.0, Sell), quote("C2", Call, 100.0, Buy);
    var legs := [lp, sp, sc, lc];
    assert legs[1..] == [sp, sc, lc] && [sp, sc, lc][1..] == [sc, lc] && [sc, lc][1..] == [lc];
    assert [lc][1..] == [];
    assert OfRight([lc], Put) == [] && OfRight([lc], Call) == [lc];
    assert OfRight([sc, lc], Put) == [] && OfRight([sc, lc], Call) == [sc, lc];
    assert OfRight([sp, sc, lc], Put) == [sp] && OfRight([sp, sc, lc], Call) == [sc, lc];
    assert OfRight(legs, Put) == [lp, sp] && OfRight(legs, Call) == [sc, lc];
    RoundCentKeepsWholeCents(300.0);
    CondorExpiryLoss(legs, 2.0, 102.0);
    assert ExpiryLoss(legs, true, 2.0, 102.0) == 800.0;
  }

  // -------------------------------------------------------------- debit spreads

  function Long(legs: seq<Leg>): Leg
    requires |legs| == 2
  {
    if legs[0].side == Buy then legs[0] else legs[1]
  }

  function Short(legs: seq<Leg>): Leg
    requires |legs| == 2
  {
    if legs[0].side == Buy then legs[1] else legs[0]
  }

  /** The long leg is the one nearer the money: the lower call or the higher put. */
  predicate LongLegInner(legs: seq<Leg>)
    requires |legs| == 2
  {
    if Long(legs).right == Call then Long(legs).strike <= Short(legs).strike
    else Long(legs).strike >= Short(legs).strike
  }

  lemma DebitExpiryLoss(legs: seq<Leg>, debit: real, spot: real)
    requires DebitSpreadMaximumLoss(legs, debit).Success? && UnitRatios(legs)
    ensures ExpiryLoss(legs, false, debit, spot)
         == (debit - Intrinsic(Long(legs), spot) + Intrinsic(Short(legs), spot)) * MULTIPLIER
  {
    PairValue(legs, spot);
  }

  /** A debit spread can lose no more than its debit at any price exactly when its long leg is the
      inner one; the geometry check does not look at the orientation. When it is, the gain is at
      most the rest of the width. */
  lemma DebitLossBoundedIff(legs: seq<Leg>, debit: real)
    requires DebitSpreadMaximumLoss(legs, debit).Success? && UnitRatios(legs)
    ensures (forall spot :: ExpiryLoss(legs, false, debit, spot) <= debit * MULTIPLIER) <==> LongLegInner(legs)
    ensures LongLegInner(legs) ==>
      forall spot :: -ExpiryLoss(legs, false, debit, spot) <= (PairWidth(legs) - debit) * MULTIPLIER
  {
    var long, short := Long(legs), Short(legs);
    forall spot
      ensures ExpiryLoss(legs, false, debit, spot)
           == (debit - Intrinsic(long, spot) + Intrinsic(short, spot)) * MULTIPLIER
    {
      DebitExpiryLoss(legs, debit, spot);
    }
    if !LongLegInner(legs) {
      var spot := long.strike;
      assert ExpiryLoss(legs, false, debit, spot) > debit * MULTIPLIER;
    }
  }

  // ------------------------------------------------- declared loss, after rounding

  /** The strike condition under which the declared loss of a structure bounds its payoff. */
  predicate WellOriented(s: Structure)
    requires ValidateDefinedRisk(s).Success?
  {
    if |s.legs| == 4 then
      s.isCredit && WingsApart(CondorWings(s.legs))
    else
      !s.isCredit && LongLegInner(s.legs)
  }

  /** Width minus credit, or the debit, in dollars: the loss before rounding. */
  function WorstLoss(s: Structure): real
    requires ValidateDefinedRisk(s).Success?
  {
    (if |s.legs| == 4 then CondorWings(s.legs).Width() - s.netPrice else s.netPrice) * MULTIPLIER
  }

  lemma ValidatedLegs(s: Structure)
    requires ValidateDefinedRisk(s).Success?
    ensures UnitRatios(s.legs) && DistinctSymbols(s.legs)
    ensures forall l <- s.legs :: l.intent.Opens()
    ensures CalculateMaximumLoss(s.strategy, s.legs, s.netPrice) == Success(RoundCent(s.maximumLoss))
  {
    forall i | 0 <= i < |s.legs| ensures s.legs[i].ratio == 1 {
      assert s.legs[i] in s.legs;
    }
  }

  lemma ValidatedGeometry(s: Structure)
    requires ValidateDefinedRisk(s).Success?
    ensures |s.legs| == 4 ==> CondorMaximumLoss(s.legs, s.netPrice).Success?
    ensures |s.legs| == 2 ==> DebitSpreadMaximumLoss(s.legs, s.netPrice).Success?
    ensures RoundCent(s.maximumLoss) == RoundCent(WorstLoss(s))
  {
    hide RoundCent, OfRight, SortedPair, DistinctSymbols;
    ValidatedLegs(s);
    if |s.legs| == 4 {
      assert CondorMaximumLoss(s.legs, s.netPrice) == Success(RoundCent(s.maximumLoss));
    } else {
      assert DebitSpreadMaximumLoss(s.legs, s.netPrice) == Success(RoundCent(s.maximumLoss));
    }
  }

  lemma WorstLossBounds(s: Structure, spot: real)
    requires ValidateDefinedRisk(s).Success? && WellOriented(s)
    ensures ExpiryLoss(s.legs, s.isCredit, s.netPrice, spot) <= WorstLoss(s)
  {
    ValidatedLegs(s);
    ValidatedGeometry(s);
    if |s.legs| == 4 {
      CondorLossBounded(s.legs, s.netPrice, spot);
    } else {
      DebitLossBounded(s.legs, s.netPrice, spot);
    }
  }

  lemma CondorLossBounded(legs: seq<Leg>, credit: real, spot: real)
    requires CondorMaximumLoss(legs, credit).Success? && UnitRatios(legs) && WingsApart(CondorWings(legs))
    ensures ExpiryLoss(legs, true, credit, spot) <= (CondorWings(legs).Width() - credit) * MULTIPLIER
  {
    CondorLossBoundedIff(legs, credit);
  }

  lemma DebitLossBounded(legs: seq<Leg>, debit: real, spot: real)
    requires DebitSpreadMaximumLoss(legs, debit).Success? && UnitRatios(legs) && LongLegInner(legs)
    ensures ExpiryLoss(legs, false, debit, spot) <= debit * MULTIPLIER
  {
    DebitLossBoundedIff(legs, debit);
  }

  lemma LossMovesWithPrice(legs: seq<Leg>, isCredit: bool, price: real, other: real, spot: real)
    ensures ExpiryLoss(legs, isCredit, price, spot)
         == ExpiryLoss(legs, isCredit, other, spot)
          + (if isCredit then other - price else price - other) * MULTIPLIER
  {
  }

  /** Opening a well-oriented structure at `price` instead of its declared net price costs at most
      the declared maximum loss plus the concession, plus a cent for rounding. */
  lemma LossAtPriceBounded(s: Structure, price: real, spot: real)
    requires ValidateDefinedRisk(s).Success? && WellOriented(s)
    ensures ExpiryLoss(s.legs, s.isCredit, price, spot)
         <= s.maximumLoss + 0.01 + (if s.isCredit then s.netPrice - price else price - s.netPrice) * MULTIPLIER
  {
    ValidatedLegs(s);
    ValidatedGeometry(s);
    RoundCentIsNearest(s.maximumLoss);
    RoundCentIsNearest(WorstLoss(s));
    WorstLossBounds(s, spot);
    LossMovesWithPrice(s.legs, s.isCredit, price, s.netPrice, spot);
  }

  /** With strikes, price and declared loss on whole cents nothing is lost to rounding: the declared
      maximum loss bounds the loss at every underlying price. */
  lemma DeclaredLossBounds(s: Structure, spot: real)
    requires ValidateDefinedRisk(s).Success? && WellOriented(s)
    requires WholeCents(s.maximumLoss) && WholeCents(WorstLoss(s))
    ensures s.maximumLoss == WorstLoss(s)
    ensures ExpiryLoss(s.legs, s.isCredit, s.netPrice, spot) <= s.maximumLoss
  {
    ValidatedLegs(s);
    ValidatedGeometry(s);
    RoundCentKeepsWholeCents(s.maximumLoss);
    RoundCentKeepsWholeCents(WorstLoss(s));
    WorstLossBounds(s, spot);
  }

  // ------------------------------------------------------- what a compiler must hand over

  /** Whole-cent price, exact declared profit, and strikes under which the declared loss is a bound. */
  predicate SoundGeometry(s: Structure) {
    && UnitRatios(s.legs) && WholeCents(s.netPrice)
    && if |s.legs| == 4 then
         && CondorMaximumLoss(s.legs, s.netPrice) == Success(s.maximumLoss) && s.isCredit
         && WingsApart(CondorWings(s.legs)) && s.maximumProfit == s.netPrice * MULTIPLIER
       else
         && |s.legs| == 2 && DebitSpreadMaximumLoss(s.legs, s.netPrice) == Success(s.maximumLoss) && !s.isCredit
         && LongLegInner(s.legs) && s.maximumProfit == (PairWidth(s.legs) - s.netPrice) * MULTIPLIER
  }

  lemma WholeStrikesWholeWidth(legs: seq<Leg>)
    requires |OfRight(legs, Put)| == 2 && |OfRight(legs, Call)| == 2 && forall l <- legs :: WholeCents(l.strike)
    ensures WholeCents(CondorWings(legs).Width())
  {
    hide OfRight, WholeCents;
    OfRightKeeps(legs, Put);
    OfRightKeeps(legs, Call);
    var w := CondorWings(legs);
    assert forall right | right == Put || right == Call ::
      OfRight(legs, right)[0] in OfRight(legs, right) && OfRight(legs, right)[1] in OfRight(legs, right);
    WholeCentsClosed(w.shortPut, w.longPut);
    WholeCentsClosed(w.longCall, w.shortCall);
  }

  /** At every underlying price a condor loses at most its declared maximum loss, up to the half cent the
      declaration was rounded by, and gains at most its declared maximum profit; on whole-cent strikes
      the loss bound is exact. */
  lemma CondorPayoffIsDeclared(s: Structure, spot: real)
    requires SoundGeometry(s) && |s.legs| == 4
    ensures ExpiryLoss(s.legs, s.isCredit, s.netPrice, spot) <= s.maximumLoss + 0.005
    ensures -ExpiryLoss(s.legs, s.isCredit, s.netPrice, spot) <= s.maximumProfit
    ensures (forall l <- s.legs :: WholeCents(l.strike)) ==>
      ExpiryLoss(s.legs, s.isCredit, s.netPrice, spot) <= s.maximumLoss
  {
    hide ExpiryLoss, RoundCent, WholeCents;
    var w := CondorWings(s.legs);
    var worst := (w.Width() - s.netPrice) * MULTIPLIER;
    CondorLossBounded(s.legs, s.netPrice, spot);
    CondorGainBounded(s.legs, s.netPrice, spot);
    RoundCentIsNearest(worst);
    if forall l <- s.legs :: WholeCents(l.strike) {
      WholeStrikesWholeWidth(s.legs);
      WholeCentsClosed(w.Width(), s.netPrice);
      WholeCentsClosed(w.Width() - s.netPrice, 0.0);
      RoundCentKeepsWholeCents(worst);
    }
  }

  /** A debit spread stays within both declarations exactly, whatever its strikes. */
  lemma SpreadPayoffIsDeclared(s: Structure, spot: real)
    requires SoundGeometry(s) && |s.legs| == 2
    ensures ExpiryLoss(s.legs, s.isCredit, s.netPrice, spot) <= s.maximumLoss
    ensures -ExpiryLoss(s.legs, s.isCredit, s.netPrice, spot) <= s.maximumProfit
  {
    hide ExpiryLoss, RoundCent, WholeCents;
    DebitLossBoundedIff(s.legs, s.netPrice);
    WholeCentsClosed(s.netPrice, 0.0);
    RoundCentKeepsWholeCents(s.netPrice * MULTIPLIER);
  }
}
