/** The risk engine (domain/risk.py). */
module Risk {
  import opened Common
  import opened Schemas
  import opened Clock
  import opened Options
  import opened Execution

  const INDEX_PER_STRUCTURE_PCT := 0.03
  const HIGH_CONVICTION_INDEX_PER_STRUCTURE_PCT := 0.06
  const MAVERICK_INDEX_PER_STRUCTURE_PCT := 0.12
  const EARNINGS_PER_STRUCTURE_PCT := 0.0035
  const HIGH_CONVICTION_MIN_CONFIDENCE := 0.80
  const HIGH_CONVICTION_MIN_RICHNESS_RATIO := 1.50
  const HIGH_CONVICTION_MIN_CONDOR_REWARD_RISK := 0.25
  const HIGH_CONVICTION_MIN_TREND_STRENGTH := 0.005
  const HIGH_CONVICTION_MIN_DIRECTIONAL_REWARD_RISK := 2.00
  const HIGH_CONVICTION_MAX_DEBIT_TO_WIDTH := 1.0 / 3.0
  const INDEX_CLUSTER_PCT := 0.12
  const TOTAL_DEFINED_LOSS_PCT := 0.15
  const FINAL_DAY_DEFINED_LOSS_PCT := 0.24
  const DAILY_LOSS_PCT := 0.06
  const FINAL_DAY_DAILY_LOSS_PCT := 0.11
  const COMPETITION_DRAWDOWN_PCT := 0.12
  const MAX_DATA_AGE_SECONDS := 90
  const INDEX_UNDERLYINGS := {"SPY", "QQQ", "IWM"}

  /** The daily loss limit in dollars: 6% of the session's opening equity, 11% on the final day. */
  function DailyLimit(now: int, startOfDayEquity: real): real {
    if FinalDay(now) then startOfDayEquity * FINAL_DAY_DAILY_LOSS_PCT else startOfDayEquity * DAILY_LOSS_PCT
  }

  /** The index cluster cap in dollars: 12%, or 24% on the final day. */
  function ClusterCapDollars(now: int, equity: real): real {
    if FinalDay(now) then equity * FINAL_DAY_DEFINED_LOSS_PCT else equity * INDEX_CLUSTER_PCT
  }

  /** The total defined-loss cap in dollars: 15%, or 24% on the final day. */
  function TotalCapDollars(now: int, equity: real): real {
    if FinalDay(now) then equity * FINAL_DAY_DEFINED_LOSS_PCT else equity * TOTAL_DEFINED_LOSS_PCT
  }

  datatype Reason =
    | Approved | Abstained | UnknownCandidate | ActionMismatch | NotFullExecution | KillSwitch | Reconciliation
    | StaleData | InvalidStructure | Liquidity | EventRisk | DailyLoss | Drawdown | PendingUnderlying
    | ExistingStructure | PerStructureCap | ClusterCap | TotalCap | ZeroQuantity

  datatype RiskCheck = RiskCheck(name: string, passed: bool, reason: Reason)

  datatype RiskContext = RiskContext(
    now: int, state: ExecutionState, equity: real, startOfDayEquity: real, peakEquity: real,
    totalOpenLoss: real, clusterLoss: real, pendingUnderlyings: set<Symbol>, openUnderlyings: set<Symbol>,
    openCounts: map<Symbol, nat>, killSwitch: bool, clean: bool, lossHalt: bool,
    maverickIds: set<CandidateName>, maverickUsed: bool)
  {
    predicate Valid() {
      equity > 0.0 && startOfDayEquity > 0.0 && peakEquity > 0.0 && totalOpenLoss >= 0.0 && clusterLoss >= 0.0
    }
  }

  datatype RiskResult = RiskResult(
    approved: bool, quantity: nat, awarded: real, reasons: seq<Reason>, checks: seq<RiskCheck>)

  // ------------------------------------------------------- derived quantities

  function RewardRisk(c: Candidate): real
    requires c.Valid()
  {
    if c.action.IndexCondor? && c.payoffQuality.Some? then c.payoffQuality.value
    else c.structure.maximumProfit / c.structure.maximumLoss
  }

  /** Distance between the two strikes of a spread; zero unless there are exactly two. */
  function SpreadWidth(c: Candidate): real {
    var strikes := set l <- c.structure.legs :: l.strike;
    if |strikes| != 2 then 0.0 else MaxReal(Span(c.structure.legs, Call), Span(c.structure.legs, Put))
  }

  predicate IndexStrategy(c: Candidate) {
    c.action.IndexAction() && c.structure.underlying in INDEX_UNDERLYINGS
  }

  predicate CondorTier(d: Decision, c: Candidate)
    requires c.Valid()
  {
    && IndexStrategy(c) && c.action.IndexCondor?
    && d.confidence >= HIGH_CONVICTION_MIN_CONFIDENCE
    && c.richness >= HIGH_CONVICTION_MIN_RICHNESS_RATIO
    && RewardRisk(c) >= HIGH_CONVICTION_MIN_CONDOR_REWARD_RISK
  }

  predicate DirectionalTier(d: Decision, c: Candidate)
    requires c.Valid()
  {
    && IndexStrategy(c) && c.action.Directional()
    && d.confidence >= HIGH_CONVICTION_MIN_CONFIDENCE
    && c.trendStrength.Some? && c.trendStrength.value >= HIGH_CONVICTION_MIN_TREND_STRENGTH
    && RewardRisk(c) >= HIGH_CONVICTION_MIN_DIRECTIONAL_REWARD_RISK
    && SpreadWidth(c) > 0.0
    && c.structure.netPrice / SpreadWidth(c) <= HIGH_CONVICTION_MAX_DEBIT_TO_WIDTH
  }

  function OpenCount(c: Candidate, ctx: RiskContext): nat {
    var u := c.structure.underlying;
    if u in ctx.openCounts then ctx.openCounts[u] else if u in ctx.openUnderlyings then 1 else 0
  }

  function Hold(d: Decision, c: Candidate, now: int): HoldingPolicy {
    EntryHoldingPolicy(now, d.holdingMinutes,
                       if c.maximumHoldingMinutes == 0 then None else Some(c.maximumHoldingMinutes), c.holdingDeadline)
  }

  function ClusterRemaining(ctx: RiskContext): real { ClusterCapDollars(ctx.now, ctx.equity) - ctx.clusterLoss }

  function TotalRemaining(ctx: RiskContext): real { TotalCapDollars(ctx.now, ctx.equity) - ctx.totalOpenLoss }

  // ------------------------------------------------------------------ hard gates

  predicate CandidateGates(d: Decision, c: Candidate, ctx: RiskContext) {
    && d.action == c.action
    && ctx.state.FullExecution? && !ctx.killSwitch && ctx.clean
    && c.dataAge <= MAX_DATA_AGE_SECONDS && c.liquidityPassed && !c.eventRisk
    && (c.action.Directional() ==> d.confidence >= c.minimumConfidence && c.directionAgrees)
    && ValidateDefinedRisk(c.structure).Success?
  }

  predicate LossGates(ctx: RiskContext) {
    || FinalDay(ctx.now)
    || (&& MaxReal(0.0, ctx.startOfDayEquity - ctx.equity) < DailyLimit(ctx.now, ctx.startOfDayEquity)
        && !ctx.lossHalt
        && MaxReal(0.0, ctx.peakEquity - ctx.equity) < ctx.peakEquity * COMPETITION_DRAWDOWN_PCT)
  }

  predicate PendingGate(c: Candidate, ctx: RiskContext) { c.structure.underlying !in ctx.pendingUnderlyings }

  /** A second structure on an index underlying may be opened on the final day. */
  predicate AdditionalStructure(c: Candidate, ctx: RiskContext) {
    FinalDay(ctx.now) && c.structure.underlying in INDEX_UNDERLYINGS && OpenCount(c, ctx) == 1
  }

  predicate ExistingGate(d: Decision, c: Candidate, ctx: RiskContext)
    requires c.Valid()
  {
    || c.structure.underlying !in ctx.openUnderlyings
    || AdditionalStructure(c, ctx)
    || (FinalHourWindow(ctx.now) && DirectionalTier(d, c))
  }

  predicate PortfolioGates(d: Decision, c: Candidate, ctx: RiskContext)
    requires c.Valid()
  {
    && (FinalHourWindow(ctx.now) ==> DirectionalTier(d, c) && ctx.pendingUnderlyings == {})
    && Hold(d, c, ctx.now).accepted
    && PendingGate(c, ctx)
    && ExistingGate(d, c, ctx)
  }

  predicate HardGates(d: Decision, c: Candidate, ctx: RiskContext)
    requires c.Valid()
  {
    && CandidateGates(d, c, ctx) && LossGates(ctx) && PortfolioGates(d, c, ctx)
    && ClusterRemaining(ctx) > 0.0 && TotalRemaining(ctx) > 0.0
  }

  // --------------------------------------------------------------------- sizing

  datatype Tier = Earnings | FinalHour | Maverick | HighConviction | Standard

  /** The sizing tier once every hard gate has passed. */
  function TierOf(d: Decision, c: Candidate, ctx: RiskContext): Tier
    requires c.Valid()
  {
    if c.action.EarningsCondor? then Earnings
    else if FinalHourWindow(ctx.now) && DirectionalTier(d, c) then FinalHour
    else if DirectionalTier(d, c) && FinalDay(ctx.now) && c.id in ctx.maverickIds && !ctx.maverickUsed
            && ctx.clusterLoss == 0.0 then Maverick
    else if CondorTier(d, c) || DirectionalTier(d, c) then HighConviction
    else Standard
  }

  function PerBudget(tier: Tier, ctx: RiskContext): real {
    match tier
    case Earnings => ctx.equity * EARNINGS_PER_STRUCTURE_PCT
    case FinalHour => MaxReal(0.0, MinReal(ClusterRemaining(ctx), TotalRemaining(ctx)))
    case Maverick => ctx.equity * MAVERICK_INDEX_PER_STRUCTURE_PCT
    case HighConviction => ctx.equity * HIGH_CONVICTION_INDEX_PER_STRUCTURE_PCT
    case Standard => ctx.equity * INDEX_PER_STRUCTURE_PCT
  }

  /** Contracts the displayed size of one leg can fill. */
  function LegCapacity(l: Leg): Option<nat>
  {
    var displayed := if l.side.Buy? then l.askSize else l.bidSize;
    if displayed.None? || displayed.value == 0 then None else Some(displayed.value / l.ratio)
  }

  function ExecutableDepth(legs: seq<Leg>): Option<nat>
  {
    if legs == [] then None
    else
      var n := |legs| - 1;
      var capacity := LegCapacity(legs[n]);
      if n == 0 || capacity.None? then capacity
      else
        match ExecutableDepth(legs[..n])
        case None => None
        case Some(rest) => Some(if rest <= capacity.value then rest else capacity.value)
  }

  method EntryExecutableDepth(legs: seq<Leg>) returns (depth: Option<nat>)
    ensures depth == ExecutableDepth(legs)
  {
    var capacities: seq<nat> := [];
    for i := 0 to |legs|
      invariant |capacities| == i
      invariant forall k :: 0 <= k < i ==> LegCapacity(legs[k]) == Some(capacities[k])
    {
      var displayed := if legs[i].side.Buy? then legs[i].askSize else legs[i].bidSize;
      if displayed.None? || displayed.value == 0 {
        DepthNeedsEveryLeg(legs, i);
        return None;
      }
      capacities := capacities + [displayed.value / legs[i].ratio];
    }
    if capacities == [] {
      return None;
    }
    var least := capacities[0];
    for i := 1 to |capacities|
      invariant ExecutableDepth(legs[..i]) == Some(least)
    {
      assert legs[..i + 1][..i] == legs[..i];
      if capacities[i] < least {
        least := capacities[i];
      }
    }
    assert legs[..|legs|] == legs;
    return Some(least);
  }

  lemma {:induction false} DepthNeedsEveryLeg(legs: seq<Leg>, i: nat)
    requires i < |legs|
    requires LegCapacity(legs[i]).None?
    ensures ExecutableDepth(legs).None?
  {
    if i < |legs| - 1 {
      DepthNeedsEveryLeg(legs[..|legs| - 1], i);
    }
  }

  /** The tier budget cut by both headrooms. */
  function Available(tier: Tier, ctx: RiskContext): real {
    MaxReal(0.0, MinReal(PerBudget(tier, ctx), MinReal(ClusterRemaining(ctx), TotalRemaining(ctx))))
  }

  function Quantity(tier: Tier, s: Structure, ctx: RiskContext): nat
    requires s.Valid()
  {
    var budgeted := Whole(Available(tier, ctx), s.maximumLoss);
    if tier.FinalHour? then Min(budgeted, ExecutableDepth(s.legs).GetOr(0)) else budgeted
  }

  function Award(unit: real, n: nat): real { unit * n as real }

  /** Decimal ROUND_FLOOR of a quotient of non-negative amounts. */
  function Whole(amount: real, unit: real): nat
    requires amount >= 0.0 && unit > 0.0
  {
    QuotientNonNegative(amount, unit);
    (amount / unit).Floor
  }

  lemma QuotientNonNegative(amount: real, unit: real)
    requires amount >= 0.0 && unit > 0.0
    ensures amount / unit >= 0.0
  {
  }

  datatype Verdict = Verdict(approved: bool, quantity: nat, awarded: real)

  const REJECTED := Verdict(false, 0, 0.0)

  function SizedVerdict(tier: Tier, s: Structure, ctx: RiskContext): Verdict
    requires s.Valid()
  {
    var q := Quantity(tier, s, ctx);
    if q < 1 then REJECTED else Verdict(true, q, Award(s.maximumLoss, q))
  }

  /** What the engine decides, without its evidence. */
  function VerdictOf(d: Decision, c: Option<Candidate>, ctx: RiskContext): Verdict
    requires c.Some? ==> c.value.Valid()
  {
    if d.action.Abstain? || c.None? || !HardGates(d, c.value, ctx) then REJECTED
    else SizedVerdict(TierOf(d, c.value, ctx), c.value.structure, ctx)
  }

  // ------------------------------------------------------------------ the engine

  predicate AllPassed(checks: seq<RiskCheck>) {
    forall i :: 0 <= i < |checks| ==> checks[i].passed
  }

  method Add(checks: seq<RiskCheck>, name: string, passed: bool, reason: Reason) returns (r: seq<RiskCheck>)
    ensures r == checks + [RiskCheck(name, passed, reason)]
    ensures AllPassed(r) <==> AllPassed(checks) && passed
  {
    r := checks + [RiskCheck(name, passed, reason)];
    if AllPassed(r) {
      assert r[|checks|].passed;
      assert forall i :: 0 <= i < |checks| ==> r[i] == checks[i];
    }
  }

  /** The reported reasons are exactly those of the failing checks, each once, and there is one. */
  ghost predicate ReasonsAreFailures(r: RiskResult) {
    && r.reasons != []
    && (forall i, j :: 0 <= i < j < |r.reasons| ==> r.reasons[i] != r.reasons[j])
    && (forall reason :: reason in r.reasons <==> exists k <- r.checks :: !k.passed && k.reason == reason)
  }

  /** Zero quantity, zero award, and each failing reason once, in order of first failure. */
  method Rejected(checks: seq<RiskCheck>) returns (r: RiskResult)
    ensures !r.approved && r.quantity == 0 && r.awarded == 0.0 && r.checks == checks
    ensures !AllPassed(checks) ==> ReasonsAreFailures(r)
  {
    var reasons: seq<Reason> := [];
    for i := 0 to |checks|
      invariant forall i, j :: 0 <= i < j < |reasons| ==> reasons[i] != reasons[j]
      invariant forall reason :: reason in reasons <==> exists k <- checks[..i] :: !k.passed && k.reason == reason
    {
      assert checks[..i + 1] == checks[..i] + [checks[i]];
      if !checks[i].passed && checks[i].reason !in reasons {
        reasons := reasons + [checks[i].reason];
      }
    }
    assert checks[..|checks|] == checks;
    if !AllPassed(checks) {
      var i :| 0 <= i < |checks| && !checks[i].passed;
      assert checks[i] in checks && checks[i].reason in reasons;
    }
    r := RiskResult(false, 0, 0.0, if reasons != [] then reasons else [InvalidStructure], checks);
  }

  method EvaluateRisk(d: Decision, candidate: Option<Candidate>, ctx: RiskContext) returns (r: RiskResult)
    requires candidate.Some? ==> candidate.value.Valid()
    requires ctx.Valid()
    ensures Verdict(r.approved, r.quantity, r.awarded) == VerdictOf(d, candidate, ctx)
    ensures r.approved ==> AllPassed(r.checks) && r.reasons == [Approved]
    ensures !r.approved ==> !AllPassed(r.checks) && ReasonsAreFailures(r)
  {
    var checks: seq<RiskCheck> := [];
    if d.action.Abstain? {
      checks := Add(checks, "model_selection", false, Abstained);
      r := Rejected(checks);
      return;
    }
    if candidate.None? {
      checks := Add(checks, "candidate_membership", false, UnknownCandidate);
      r := Rejected(checks);
      return;
    }
    var c := candidate.value;
    checks := CandidateChecks(d, c, ctx);
    checks := LossChecks(checks, ctx);
    checks := PortfolioChecks(checks, d, c, ctx);
    checks := Add(checks, "cluster_defined_loss_headroom", ClusterRemaining(ctx) > 0.0, ClusterCap);
    checks := Add(checks, "total_defined_loss_headroom", TotalRemaining(ctx) > 0.0, TotalCap);
    var hardGatesPassed := AllPassed(checks);
    var tier := TierOf(d, c, ctx);
    var budget := PerBudget(tier, ctx);
    checks := Add(checks, "final_hour_recovery_tier", true, PerStructureCap);
    checks := Add(checks, "maverick_final_day_tier", true, PerStructureCap);
    checks := Add(checks, "high_conviction_index_tier", true, PerStructureCap);
    checks := Add(checks, "effective_per_structure_percent", true, PerStructureCap);
    checks := Add(checks, "effective_per_structure_budget", true, PerStructureCap);
    if !hardGatesPassed {
      r := Rejected(checks);
      return;
    }
    r := Size(c.structure, ctx, checks, tier, budget);
  }

  method LossChecks(earlier: seq<RiskCheck>, ctx: RiskContext) returns (checks: seq<RiskCheck>)
    ensures AllPassed(checks) <==> AllPassed(earlier) && LossGates(ctx)
  {
    var finalDay := FinalDay(ctx.now);
    var dailyLoss := MaxReal(0.0, ctx.startOfDayEquity - ctx.equity);
    checks := Add(earlier, "daily_loss", finalDay || dailyLoss < DailyLimit(ctx.now, ctx.startOfDayEquity), DailyLoss);
    checks := Add(checks, "daily_loss_entry_halt", finalDay || !ctx.lossHalt, DailyLoss);
    var drawdown := MaxReal(0.0, ctx.peakEquity - ctx.equity);
    checks := Add(checks, "competition_drawdown",
                  finalDay || drawdown < ctx.peakEquity * COMPETITION_DRAWDOWN_PCT, Drawdown);
  }

  method PortfolioChecks(
    earlier: seq<RiskCheck>, d: Decision, c: Candidate, ctx: RiskContext) returns (checks: seq<RiskCheck>)
    requires c.Valid()
    ensures AllPassed(checks) <==> AllPassed(earlier) && PortfolioGates(d, c, ctx)
  {
    var u := c.structure.underlying;
    var finalHour := FinalHourWindow(ctx.now);
    var directionalTier := DirectionalTier(d, c);
    checks := Add(earlier, "final_hour_candidate_quality", !finalHour || directionalTier, InvalidStructure);
    checks := Add(checks, "final_hour_no_pending_entries",
                  !finalHour || ctx.pendingUnderlyings == {}, PendingUnderlying);
    checks := Add(checks, "session_holding_window", Hold(d, c, ctx.now).accepted, NotFullExecution);
    checks := Add(checks, "portfolio_underlying_diversification", true, ExistingStructure);
    checks := Add(checks, "pending_underlying", u !in ctx.pendingUnderlyings, PendingUnderlying);
    var additional := FinalDay(ctx.now) && u in INDEX_UNDERLYINGS && OpenCount(c, ctx) == 1;
    checks := Add(checks, "existing_managed_structure",
                  u !in ctx.openUnderlyings || additional || (finalHour && directionalTier), ExistingStructure);
  }

  /** The gates that look only at the decision, the candidate and the operational state. */
  method CandidateChecks(d: Decision, c: Candidate, ctx: RiskContext) returns (checks: seq<RiskCheck>)
    ensures AllPassed(checks) <==> CandidateGates(d, c, ctx)
  {
    checks := Add([], "action_matches_candidate", d.action == c.action, ActionMismatch);
    checks := Add(checks, "execution_state", ctx.state.FullExecution?, NotFullExecution);
    checks := Add(checks, "kill_switch", !ctx.killSwitch, KillSwitch);
    checks := Add(checks, "reconciliation", ctx.clean, Reconciliation);
    checks := Add(checks, "data_freshness", c.dataAge <= MAX_DATA_AGE_SECONDS, StaleData);
    checks := Add(checks, "liquidity", c.liquidityPassed, Liquidity);
    checks := Add(checks, "event_veto", !c.eventRisk, EventRisk);
    if c.action.Directional() {
      checks := Add(checks, "directional_confidence", d.confidence >= c.minimumConfidence, ActionMismatch);
      checks := Add(checks, "deterministic_direction", c.directionAgrees, ActionMismatch);
    }
    checks := Add(checks, "defined_risk_structure", ValidateDefinedRisk(c.structure).Success?, InvalidStructure);
  }

  /** The engine's last stretch: budget, depth and the final cap checks. */
  method Size(s: Structure, ctx: RiskContext, gates: seq<RiskCheck>, tier: Tier, budget: real) returns (r: RiskResult)
    requires s.Valid() && ctx.Valid() && AllPassed(gates)
    requires ClusterRemaining(ctx) > 0.0 && TotalRemaining(ctx) > 0.0
    requires budget == PerBudget(tier, ctx)
    ensures Verdict(r.approved, r.quantity, r.awarded) == SizedVerdict(tier, s, ctx)
    ensures r.approved ==> AllPassed(r.checks) && r.reasons == [Approved]
    ensures !r.approved ==> !AllPassed(r.checks) && ReasonsAreFailures(r)
  {
    var quantity, depthShown := SizeQuantity(s, ctx, tier, budget);
    AwardFits(tier, s, ctx);
    var awarded := Award(s.maximumLoss, quantity);
    r := Conclude(gates, tier, quantity, awarded, depthShown, budget, ClusterRemaining(ctx), TotalRemaining(ctx));
  }

  /** The closing checks. The cap checks cannot fail, because the quantity was rounded down to fit. */
  method Conclude(
    gates: seq<RiskCheck>, tier: Tier, quantity: nat, awarded: real, depthShown: bool, budget: real, cluster: real,
    total: real)
    returns (r: RiskResult)
    requires AllPassed(gates) && awarded <= budget && awarded <= cluster && awarded <= total
    requires tier.FinalHour? && quantity >= 1 ==> depthShown
    ensures r.approved <==> quantity >= 1
    ensures r.approved ==>
      && r.quantity == quantity
      && r.awarded == awarded && AllPassed(r.checks) && r.reasons == [Approved]
    ensures !r.approved ==> r.quantity == 0 && r.awarded == 0.0 && !AllPassed(r.checks) && ReasonsAreFailures(r)
  {
    var checks := gates;
    if tier.FinalHour? {
      checks := Add(checks, "full_quantity_executable_depth", depthShown && quantity >= 1, Liquidity);
    }
    checks := Add(checks, "per_structure_cap", awarded <= budget, PerStructureCap);
    checks := Add(checks, "cluster_cap", awarded <= cluster, ClusterCap);
    checks := Add(checks, "total_defined_loss_cap", awarded <= total, TotalCap);
    checks := Add(checks, "quantity_round_down", quantity >= 1, ZeroQuantity);
    if quantity < 1 || !AllPassed(checks) {
      r := Rejected(checks);
      return;
    }
    r := RiskResult(true, quantity, awarded, [Approved], checks);
  }

  /** The quantity, and whether every leg displays it. */
  method SizeQuantity(
    s: Structure, ctx: RiskContext, tier: Tier, budget: real) returns (quantity: nat, depthShown: bool)
    requires s.Valid() && budget == PerBudget(tier, ctx)
    ensures quantity == Quantity(tier, s, ctx)
    ensures tier.FinalHour? && quantity >= 1 ==> depthShown
  {
    var available := MaxReal(0.0, MinReal(budget, MinReal(ClusterRemaining(ctx), TotalRemaining(ctx))));
    quantity, depthShown := Whole(available, s.maximumLoss), false;
    if tier.FinalHour? {
      var depth := EntryExecutableDepth(s.legs);
      quantity := Min(quantity, depth.GetOr(0));
      depthShown := depth.Some? && depth.value >= quantity;
    }
  }

  /** The award fits the tier budget and both headrooms. */
  lemma AwardFits(tier: Tier, s: Structure, ctx: RiskContext)
    requires s.Valid() && ctx.equity > 0.0 && ClusterRemaining(ctx) > 0.0 && TotalRemaining(ctx) > 0.0
    ensures Award(s.maximumLoss, Quantity(tier, s, ctx)) <= PerBudget(tier, ctx)
    ensures Award(s.maximumLoss, Quantity(tier, s, ctx)) <= ClusterRemaining(ctx)
    ensures Award(s.maximumLoss, Quantity(tier, s, ctx)) <= TotalRemaining(ctx)
  {
    BudgetNonNegative(tier, ctx);
    FitsAll(PerBudget(tier, ctx), ClusterRemaining(ctx), TotalRemaining(ctx), s.maximumLoss, Quantity(tier, s, ctx));
  }

  lemma FitsAll(budget: real, cluster: real, total: real, unit: real, n: nat)
    requires budget >= 0.0 && cluster > 0.0 && total > 0.0 && unit > 0.0
    requires n <= Whole(MaxReal(0.0, MinReal(budget, MinReal(cluster, total))), unit)
    ensures Award(unit, n) <= budget && Award(unit, n) <= cluster && Award(unit, n) <= total
  {
    WholeFits(MaxReal(0.0, MinReal(budget, MinReal(cluster, total))), unit, n);
  }

  lemma BudgetNonNegative(tier: Tier, ctx: RiskContext)
    requires ctx.equity > 0.0
    ensures PerBudget(tier, ctx) >= 0.0
  {
  }

  /** `Whole` is the largest whole number of units that fits. */
  lemma WholeFits(amount: real, unit: real, n: nat)
    requires amount >= 0.0 && unit > 0.0
    ensures n <= Whole(amount, unit) <==> Award(unit, n) <= amount
  {
    var q := amount / unit;
    assert q * unit == amount;
    if n as real <= q {
      assert (q - n as real) * unit >= 0.0;
    } else {
      assert (n as real - q) * unit > 0.0;
    }
  }
}
