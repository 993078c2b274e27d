/** Which compiled candidates enter the auction (service.py), and the history that decides it
    (persistence/repository.py). */
module Policy {
  import opened Common
  import opened Schemas
  import opened Clock
  import opened Orders
  import opened Ledger
  import opened Risk

  // ------------------------------------------------------------- portfolio exclusions

  predicate ExcludedAsPending(c: Candidate, pending: set<Symbol>) { c.structure.underlying in pending }

  predicate ExcludedAsOpen(c: Candidate, open: set<Symbol>, counts: map<Symbol, nat>, now: int) {
    var u := c.structure.underlying;
    && u in open
    && !(FinalDay(now) && u in INDEX_UNDERLYINGS && (if u in counts then counts[u] else 1) == 1)
    && !(FinalHourWindow(now) && u in INDEX_UNDERLYINGS)
  }

  predicate PortfolioExcluded(
    c: Candidate, pending: set<Symbol>, open: set<Symbol>, counts: map<Symbol, nat>, now: int) {
    ExcludedAsPending(c, pending) || ExcludedAsOpen(c, open, counts, now)
  }

  function PortfolioExclusions(
    cs: seq<Candidate>, pending: set<Symbol>, open: set<Symbol>, counts: map<Symbol, nat>, now: int): set<CandidateName>
  {
    set c | c in cs && PortfolioExcluded(c, pending, open, counts, now) :: c.id
  }

  /** The ids of the excluded candidates. */
  method PortfolioCandidateExclusions(
    candidates: seq<Candidate>, pending: set<Symbol>, open: set<Symbol>, counts: map<Symbol, nat>, now: int)
    returns (excluded: set<CandidateName>)
    ensures excluded == PortfolioExclusions(candidates, pending, open, counts, now)
  {
    excluded := {};
    for i := 0 to |candidates|
      invariant forall name :: name in excluded <==>
                  exists c <- candidates[..i] :: c.id == name && PortfolioExcluded(c, pending, open, counts, now)
    {
      assert candidates[..i + 1] == candidates[..i] + [candidates[i]];
      var c := candidates[i];
      var u := c.structure.underlying;
      var reasons: nat := 0;
      if u in pending {
        reasons := reasons + 1;
      }
      var additional := FinalDay(now) && u in INDEX_UNDERLYINGS && (if u in counts then counts[u] else 1) == 1;
      var override := FinalHourWindow(now) && u in INDEX_UNDERLYINGS;
      if u in open && !additional && !override {
        reasons := reasons + 1;
      }
      if reasons > 0 {
        excluded := excluded + {c.id};
      }
    }
    assert candidates[..|candidates|] == candidates;
  }

  /** A candidate excluded before the auction would have failed the risk engine whatever the model
      decided, and outside the final hour one that survives passes both gates. */
  lemma ExclusionRefinesGates(d: Decision, c: Candidate, ctx: RiskContext)
    requires c.Valid()
    ensures var excluded := PortfolioExcluded(c, ctx.pendingUnderlyings, ctx.openUnderlyings, ctx.openCounts, ctx.now);
      && (excluded ==> !PendingGate(c, ctx) || !ExistingGate(d, c, ctx))
      && (!excluded ==> PendingGate(c, ctx))
      && (!excluded && !FinalHourWindow(ctx.now) ==> ExistingGate(d, c, ctx))
      && (!excluded && FinalHourWindow(ctx.now) ==>
            (ExistingGate(d, c, ctx) <==>
               DirectionalTier(d, c) || c.structure.underlying !in ctx.openUnderlyings || AdditionalStructure(c, ctx)))
      && (excluded ==> VerdictOf(d, Some(c), ctx) == REJECTED)
  {
  }

  // --------------------------------------------------------- directional confirmation

  const DIRECTION_THRESHOLD := 0.004

  /** One completed cycle's snapshot of an underlying; None when the stored features do not validate. */
  datatype Observation = Observation(cycleAt: int, snapshot: Option<Snapshot>)

  /** The latest observation of a cycle before `now`; `history` is in cycle order. */
  function Prior(history: seq<Observation>, now: int): Option<Observation> {
    if history == [] then None
    else if history[|history| - 1].cycleAt < now then Some(history[|history| - 1])
    else Prior(history[..|history| - 1], now)
  }

  /** A neutral or opposite signal. */
  predicate Resets(s: Snapshot, bullish: bool) {
    AbsReal(s.trend) < DIRECTION_THRESHOLD || (s.trend > 0.0) != bullish
  }

  /** The first cycle strictly between the stop and `now` whose signal resets a stopped setup. */
  function ResetAt(history: seq<Observation>, bullish: bool, stop: int, now: int): Option<int> {
    if history == [] then None
    else if
      stop < history[0].cycleAt < now && history[0].snapshot.Some? && Resets(history[0].snapshot.value, bullish)
    then
      Some(history[0].cycleAt)
    else ResetAt(history[1..], bullish, stop, now)
  }

  const DEBIT_STOP := "debit_stop_loss"

  predicate StopOf(o: Order, underlying: Symbol, action: Action, now: int) {
    && o.request.exitReason == Some(DEBIT_STOP)
    && SessionDate(o.submittedAt) == SessionDate(now)
    && o.request.candidate.name.underlying == underlying && o.request.candidate.name.action == action
  }

  /** When the session's latest debit stop of this setup was submitted. */
  function LatestStop(
    ids: seq<ClientId>, orders: map<ClientId, Order>, underlying: Symbol, action: Action, now: int): Option<int> {
    if ids == [] then None
    else
      var n := |ids| - 1;
      var earlier := LatestStop(ids[..n], orders, underlying, action, now);
      if ids[n] !in orders || !StopOf(orders[ids[n]], underlying, action, now) then earlier
      else Some(Max(orders[ids[n]].submittedAt, earlier.GetOr(orders[ids[n]].submittedAt)))
  }

  predicate FinalWindow(now: int) { FINAL_HOUR_RECOVERY_STARTS_AT <= now <= EOD_EQUITY_SNAPSHOT_AT }

  function Bucket(at: int, width: int): int
    requires width > 0
  {
    at - at % width
  }

  /** The two cycles are consecutive at the scheduler's pace. */
  predicate Consecutive(prior: int, now: int) {
    if FinalWindow(now) then MINUTE <= Bucket(now, MINUTE) - Bucket(prior, MINUTE) <= 2 * MINUTE
    else 5 * MINUTE <= Bucket(now, 5 * MINUTE) - Bucket(prior, 5 * MINUTE) <= 10 * MINUTE
  }

  /** Two consecutive cycles show the same direction beyond the threshold. */
  predicate Confirmed(current: Option<Snapshot>, prior: Option<Observation>, now: int) {
    && current.Some? && prior.Some? && prior.value.snapshot.Some?
    && AbsReal(current.value.trend) >= DIRECTION_THRESHOLD
    && Consecutive(prior.value.cycleAt, now)
    && AbsReal(prior.value.snapshot.value.trend) >= DIRECTION_THRESHOLD
    && (prior.value.snapshot.value.trend > 0.0) == (current.value.trend > 0.0)
  }

  /** After a stop: a fresh confirmation, or a reset the prior cycle has seen. */
  predicate PostStopPassed(
    current: Option<Snapshot>, history: seq<Observation>, bullish: bool, stop: Option<int>, now: int)
  {
    var prior := Prior(history, now);
    stop.None?
    || (var reset := ResetAt(history, bullish, stop.value, now);
        || (prior.Some? && prior.value.cycleAt > stop.value && Confirmed(current, prior, now))
        || (reset.Some? && prior.Some? && reset.value <= prior.value.cycleAt))
  }

  /** A directional candidate enters the auction with neither reason against it. */
  predicate DirectionalAdmitted(
    current: Option<Snapshot>, history: seq<Observation>, bullish: bool, stop: Option<int>, now: int)
  {
    Confirmed(current, Prior(history, now), now) && PostStopPassed(current, history, bullish, stop, now)
  }

  /** The snapshot of an underlying, the last one listed. */
  function CurrentOf(snapshots: seq<Snapshot>, symbol: Symbol): Option<Snapshot> {
    if snapshots == [] then None
    else if snapshots[|snapshots| - 1].symbol == symbol then Some(snapshots[|snapshots| - 1])
    else CurrentOf(snapshots[..|snapshots| - 1], symbol)
  }

  function HistoryOf(histories: map<Symbol, seq<Observation>>, symbol: Symbol): seq<Observation> {
    if symbol in histories then histories[symbol] else []
  }

  function StopFor(c: Candidate, b: Book, now: int): Option<int> {
    LatestStop(b.ids, b.orders, c.structure.underlying, c.action, now)
  }

  /** Competition policy: no condors, and a directional candidate only once it is admitted. */
  predicate DirectionalExcluded(
    c: Candidate, b: Book, snapshots: seq<Snapshot>, histories: map<Symbol, seq<Observation>>, now: int)
  {
    var u := c.structure.underlying;
    || c.action.IndexCondor?
    || (c.action.Directional()
        && !DirectionalAdmitted(CurrentOf(snapshots, u), HistoryOf(histories, u), c.action.CallDebitSpread?,
                                StopFor(c, b, now), now))
  }

  function DirectionalExclusions(
    cs: seq<Candidate>, b: Book, snapshots: seq<Snapshot>, histories: map<Symbol, seq<Observation>>, now: int)
    : set<CandidateName>
  {
    set c | c in cs && DirectionalExcluded(c, b, snapshots, histories, now) :: c.id
  }

  method DirectionalPolicyExclusions(
    candidates: seq<Candidate>, b: Book, snapshots: seq<Snapshot>, histories: map<Symbol, seq<Observation>>, now: int)
    returns (excluded: set<CandidateName>)
    ensures excluded == DirectionalExclusions(candidates, b, snapshots, histories, now)
  {
    excluded := {};
    for i := 0 to |candidates|
      invariant excluded == DirectionalExclusions(candidates[..i], b, snapshots, histories, now)
    {
      assert candidates[..i + 1] == candidates[..i] + [candidates[i]];
      var c := candidates[i];
      if c.action.IndexCondor? {
        excluded := excluded + {c.id};
        continue;
      }
      if !c.action.Directional() {
        continue;
      }
      var u := c.structure.underlying;
      var current, history := CurrentOf(snapshots, u), HistoryOf(histories, u);
      var confirmed := Confirmed(current, Prior(history, now), now);
      var postStop := PostStopPassed(current, history, c.action.CallDebitSpread?, StopFor(c, b, now), now);
      if !confirmed || !postStop {
        excluded := excluded + {c.id};
      }
    }
    assert candidates[..|candidates|] == candidates;
  }

  /** Any reset found lies after the stop, and before the present cycle. */
  lemma {:induction false} ResetLiesAfterStop(history: seq<Observation>, bullish: bool, stop: int, now: int)
    requires ResetAt(history, bullish, stop, now).Some?
    ensures stop < ResetAt(history, bullish, stop, now).value < now
  {
    if !(stop < history[0].cycleAt < now && history[0].snapshot.Some? && Resets(history[0].snapshot.value, bullish)) {
      ResetLiesAfterStop(history[1..], bullish, stop, now);
    }
  }

  /** After a stop a candidate is admitted exactly when it is confirmed and the prior cycle came after
      the stop: the reset search never admits anything more. */
  lemma AdmittedAfterStopIff(current: Option<Snapshot>, history: seq<Observation>, bullish: bool, stop: int, now: int)
    ensures DirectionalAdmitted(current, history, bullish, Some(stop), now)
       <==> var prior := Prior(history, now); Confirmed(current, prior, now) && prior.value.cycleAt > stop
  {
    if ResetAt(history, bullish, stop, now).Some? {
      ResetLiesAfterStop(history, bullish, stop, now);
    }
  }

  /** So the neutral or opposite signal the specification asks for after a stop is not needed: here none
      is on record and the stopped setup is admitted again. */
  lemma ReadmittedWithoutReset()
    ensures exists current, history, stop, now ::
      DirectionalAdmitted(current, history, true, Some(stop), now) && ResetAt(history, true, stop, now).None?
  {
    var now := SCORING_STARTS_AT + HOUR;
    var s := Snapshot("SPY", 500.0, 0.01, 0.01, 0.005, false);
    var history := [Observation(now - 5 * MINUTE, Some(s))];
    var stop := now - 6 * MINUTE;
    assert Prior(history, now) == Some(history[0]);
    assert Confirmed(Some(s), Prior(history, now), now);
    assert ResetAt(history[1..], true, stop, now).None?;
    assert DirectionalAdmitted(Some(s), history, true, Some(stop), now) && ResetAt(history, true, stop, now).None?;
  }

  /** The latest stop is a stop of the session, and no stop of the setup is later. */
  lemma {:induction false} LatestStopIsLatest(
    ids: seq<ClientId>, orders: map<ClientId, Order>, underlying: Symbol, action: Action, now: int)
    ensures var stop := LatestStop(ids, orders, underlying, action, now);
      && (stop.None? <==> forall id <- ids :: id in orders ==> !StopOf(orders[id], underlying, action, now))
      && (stop.Some? ==>
            && (exists id <- ids ::
                  id in orders && StopOf(orders[id], underlying, action, now) && orders[id].submittedAt == stop.value)
            && SessionDate(stop.value) == SessionDate(now)
            && forall id <- ids :: id in orders && StopOf(orders[id], underlying, action, now)
                  ==> orders[id].submittedAt <= stop.value)
  {
    if ids != [] {
      var n := |ids| - 1;
      LatestStopIsLatest(ids[..n], orders, underlying, action, now);
      assert ids == ids[..n] + [ids[n]];
    }
  }
}
