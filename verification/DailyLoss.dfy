/** The daily-loss control: its rows (persistence/repository.py), the marks that may confirm a breach
    (domain/daily_loss.py) and the transition a cycle makes (service.py). */
module DailyLoss {
  import opened Common
  import opened Schemas
  import opened Clock
  import opened Orders
  import opened Execution
  import opened Inventory
  import opened Ledger
  import opened Risk
  import opened Candidates

  const ENVELOPE_TOLERANCE_PCT := 0.25
  const ENVELOPE_MIN_TOLERANCE := 250.0

  predicate LossIsPlausible(loss: real, envelope: real) {
    loss <= envelope + MaxReal(ENVELOPE_MIN_TOLERANCE, envelope * ENVELOPE_TOLERANCE_PCT)
  }

  // ------------------------------------------------------------------ mark quality

  datatype MarkReason =
    | FlatBook | UnmanagedPositions | InventoryMismatch | MissingQuote(symbol: Symbol) | StaleQuote(symbol: Symbol)
    | InvalidBbo(symbol: Symbol) | InvalidBidDepth(symbol: Symbol) | InvalidAskDepth(symbol: Symbol)
    | IncompleteQuote | ImpossibleClosePrice(candidate: CandidateName) | Complete

  datatype MarkQuality = MarkQuality(passed: bool, reason: MarkReason)

  predicate Recent(q: Quote, now: int) { 0 <= now - q.observedAt <= MAX_QUOTE_AGE_SECONDS }

  predicate TwoSided(q: Quote) { 0.0 < q.bid < q.ask }

  predicate Shown(size: Option<nat>) { size.Some? ==> size.value > 0 }

  predicate MarkOk(q: Quote, now: int) {
    Recent(q, now) && TwoSided(q) && Shown(q.bidSize) && Shown(q.askSize)
  }

  const MARK_CHECK := "daily-loss-mark-check"

  /** The structure's width per share: no executable close can cost more. */
  function WidthOf(s: Structure): real { (s.maximumLoss + s.maximumProfit) / 100.0 }

  predicate CloseIsPossible(m: Managed, quotes: QuoteBook) {
    && ClosingCash(m.structure.legs, quotes).Some?
    && ClosingCash(m.structure.legs, quotes).value != 0.0
    && AbsReal(ClosingCash(m.structure.legs, quotes).value) <= WidthOf(m.structure)
  }

  /** The managed book is exactly what the broker holds, every symbol is freshly and fully quoted, and
      every structure can be closed for at most its width. */
  predicate MarksPass(managed: seq<Managed>, positions: Holdings, quotes: QuoteBook, now: int) {
    && positions == BookInventory(managed, None)
    && (forall s :: s in positions ==> s in quotes && MarkOk(quotes[s], now))
    && (forall m <- managed :: CloseIsPossible(m, quotes))
  }

  /** A failing reason names what is wrong. */
  predicate Explains(r: MarkReason, managed: seq<Managed>, positions: Holdings, quotes: QuoteBook, now: int) {
    match r
    case FlatBook | Complete => false
    case UnmanagedPositions => managed == [] && positions != map[]
    case InventoryMismatch => managed != [] && positions != BookInventory(managed, None)
    case MissingQuote(s) => s in positions && s !in quotes
    case StaleQuote(s) => s in positions && s in quotes && !Recent(quotes[s], now)
    case InvalidBbo(s) => s in positions && s in quotes && !TwoSided(quotes[s])
    case InvalidBidDepth(s) => s in positions && s in quotes && !Shown(quotes[s].bidSize)
    case InvalidAskDepth(s) => s in positions && s in quotes && !Shown(quotes[s].askSize)
    case IncompleteQuote | ImpossibleClosePrice(_) => ExplainsClose(r, managed, quotes)
  }

  method ValidateManagedBookMarks(managed: seq<Managed>, positions: Holdings, quotes: QuoteBook, now: int)
    returns (r: MarkQuality)
    ensures r.passed == MarksPass(managed, positions, quotes, now)
    ensures !r.passed ==> Explains(r.reason, managed, positions, quotes, now)
  {
    if managed == [] {
      return MarkQuality(positions == map[], if positions == map[] then FlatBook else UnmanagedPositions);
    }
    var expected := ExpectedInventory(managed, None);
    if positions != expected {
      return MarkQuality(false, InventoryMismatch);
    }
    var bad := FirstBadMark(expected, quotes, now);
    if bad.Some? {
      return MarkQuality(false, bad.value);
    }
    var impossible := FirstBadClose(managed, quotes);
    if impossible.Some? {
      return MarkQuality(false, impossible.value);
    }
    return MarkQuality(true, Complete);
  }

  predicate ExplainsClose(r: MarkReason, managed: seq<Managed>, quotes: QuoteBook) {
    match r
    case IncompleteQuote => exists m <- managed :: ClosingCash(m.structure.legs, quotes).GetOr(0.0) == 0.0
    case ImpossibleClosePrice(name) => exists m <- managed :: m.candidate == name && !CloseIsPossible(m, quotes)
    case _ => false
  }

  /** The first structure that cannot be closed for at most its width. */
  method FirstBadClose(managed: seq<Managed>, quotes: QuoteBook) returns (bad: Option<MarkReason>)
    ensures bad.None? <==> forall m <- managed :: CloseIsPossible(m, quotes)
    ensures bad.Some? ==> ExplainsClose(bad.value, managed, quotes)
  {
    for i := 0 to |managed|
      invariant forall m <- managed[..i] :: CloseIsPossible(m, quotes)
    {
      var m := managed[i];
      assert m in managed;
      var id := ClientId(0, CandidateId.Closing(m.candidate), m.quantity, 0);
      var request := CloseRequest(m, quotes, id, m.quantity, MARK_CHECK, Urgent);
      if request.Failure? {
        return Some(IncompleteQuote);
      }
      if request.value.limit > WidthOf(m.structure) {
        return Some(ImpossibleClosePrice(m.candidate));
      }
      assert managed[..i + 1] == managed[..i] + [m];
    }
    assert managed[..|managed|] == managed;
    return None;
  }

  /** The symbols are visited in no particular order. */
  method FirstBadMark(expected: Holdings, quotes: QuoteBook, now: int) returns (bad: Option<MarkReason>)
    ensures bad.None? <==> forall s :: s in expected ==> s in quotes && MarkOk(quotes[s], now)
    ensures bad.Some? ==> forall managed | managed != [] && BookInventory(managed, None) == expected ::
                            Explains(bad.value, managed, expected, quotes, now)
  {
    var left := expected.Keys;
    while left != {}
      invariant left <= expected.Keys
      invariant forall s :: s in expected.Keys - left ==> s in quotes && MarkOk(quotes[s], now)
    {
      var s :| s in left;
      if s !in quotes {
        return Some(MissingQuote(s));
      }
      var q := quotes[s];
      var age := now - q.observedAt;
      if age < 0 || age > MAX_QUOTE_AGE_SECONDS {
        return Some(StaleQuote(s));
      }
      if q.bid <= 0.0 || q.ask <= q.bid {
        return Some(InvalidBbo(s));
      }
      if q.bidSize.Some? && q.bidSize.value <= 0 {
        return Some(InvalidBidDepth(s));
      }
      if q.askSize.Some? && q.askSize.value <= 0 {
        return Some(InvalidAskDepth(s));
      }
      left := left - {s};
    }
    return None;
  }

  // ------------------------------------------------------------------ control rows

  datatype LossStatus = Clear | Provisional | Latched

  datatype LossReason =
    | NoBreach | ReleasedOnFinalDay | ReconciliationExit | AwaitingConfirmation | SecondObservationRecovered
    | ConfirmedBreach | ExceedsEnvelope | UnvalidatedMarks | RecoveredBeforeValidation | BelowLimit

  datatype Control = Control(
    status: LossStatus, confirmations: nat, firstBreachAt: Option<int>, observedAt: int, lastLoss: real,
    envelope: real, quotesPassed: bool, reason: LossReason)

  /** One row per New York session date. */
  type Controls = map<int, Control>

  /** What a cycle writes; the envelope it passes is the row's own. */
  datatype Change = Change(
    status: LossStatus, confirmations: nat, firstBreachAt: Option<int>, lastLoss: real, quotesPassed: bool,
    reason: LossReason)

  /** daily_loss_control: creates the session's row, or raises its envelope to the open defined loss. */
  function Opened(t: Controls, now: int, openLoss: real): Controls {
    var date := SessionDate(now);
    if date !in t then t[date := Control(Clear, 0, None, now, 0.0, openLoss, false, NoBreach)]
    else if openLoss > t[date].envelope then t[date := t[date].(envelope := openLoss)]
    else t
  }

  /** update_daily_loss_control. */
  function Updated(t: Controls, now: int, envelope: real, u: Change): Controls {
    var date := SessionDate(now);
    if date !in t then
      t[date := Control(u.status, u.confirmations, u.firstBreachAt, now, u.lastLoss, envelope, u.quotesPassed,
                        u.reason)]
    else
      var row := t[date];
      var first := if row.firstBreachAt.Some? then row.firstBreachAt else u.firstBreachAt;
      t[date := Control(u.status, u.confirmations, first, now, u.lastLoss, MaxReal(row.envelope, envelope),
                        u.quotesPassed, u.reason)]
  }

  /** increase_daily_loss_envelope; None is the raised error of a missing row. */
  function Increased(t: Controls, now: int, amount: real): Option<Controls> {
    var date := SessionDate(now);
    if amount <= 0.0 then Some(t)
    else if date !in t then None
    else Some(t[date := t[date].(envelope := t[date].envelope + amount)])
  }

  // ------------------------------------------------------------------- transition

  /** What one cycle observes. `second` is the confirming account read; None when it raised. */
  datatype LossInputs = LossInputs(
    now: int, startOfDay: real, equity: real, clean: bool, second: Option<real>, marksPassed: bool, flat: bool)
  {
    function Limit(): real { DailyLimit(now, startOfDay) }

    function Loss(): real { MaxReal(0.0, startOfDay - equity) }

    function SecondLoss(): real
      requires second.Some?
    {
      MaxReal(0.0, startOfDay - second.value)
    }
  }

  /** Only the final day's wider limit may release a latch, and only when both the loss that latched it
      and the present one are under it. */
  predicate Release(c: Control, i: LossInputs) {
    c.status.Latched? && FinalDay(i.now) && c.lastLoss < i.Limit() && i.Loss() < i.Limit()
  }

  predicate Credible(c: Control, i: LossInputs)
    requires i.second.Some?
  {
    i.flat || LossIsPlausible(i.SecondLoss(), c.envelope)
  }

  /** The confirming observation's verdict on a breach. */
  function Confirmation(c: Control, i: LossInputs): Change
    requires i.second.Some?
  {
    var loss := i.SecondLoss();
    if loss < i.Limit() then Change(Clear, 0, None, loss, i.marksPassed, SecondObservationRecovered)
    else if Credible(c, i) && i.marksPassed then Change(Latched, 2, None, loss, true, ConfirmedBreach)
    else Change(Provisional, 2, None, loss, i.marksPassed,
                if Credible(c, i) then UnvalidatedMarks else ExceedsEnvelope)
  }

  datatype LossOutcome = LossOutcome(controls: Controls, failed: bool)

  /** The cycle's transition of the session's row. */
  function Observe(t: Controls, i: LossInputs): LossOutcome
    requires SessionDate(i.now) in t
  {
    var c := t[SessionDate(i.now)];
    if c.status.Latched? then
      if Release(c, i) then
        LossOutcome(
          Updated(t, i.now, c.envelope, Change(Clear, 0, None, i.Loss(), false, ReleasedOnFinalDay)), false)
      else LossOutcome(t, false)
    else if i.Loss() < i.Limit() then
      var reason := if c.status.Provisional? then RecoveredBeforeValidation else BelowLimit;
      LossOutcome(Updated(t, i.now, c.envelope, Change(Clear, 0, None, i.Loss(), false, reason)), false)
    else if !i.clean then
      LossOutcome(
        Updated(t, i.now, c.envelope, Change(Provisional, 1, Some(i.now), i.Loss(), false, ReconciliationExit)), false)
    else
      var waiting := Updated(t, i.now, c.envelope,
                             Change(Provisional, 1, Some(i.now), i.Loss(), false, AwaitingConfirmation));
      if i.second.None? then LossOutcome(waiting, true)
      else LossOutcome(Updated(waiting, i.now, c.envelope, Confirmation(c, i)), false)
  }

  /** The rows as the service updates them in place. */
  class LossControlTable {
    var rows: Controls

    method Open(now: int, openLoss: real) returns (c: Control)
      modifies this
      ensures rows == Opened(old(rows), now, openLoss)
      ensures SessionDate(now) in rows && c == rows[SessionDate(now)]
    {
      var date := SessionDate(now);
      if date !in rows {
        rows := rows[date := Control(Clear, 0, None, now, 0.0, openLoss, false, NoBreach)];
      } else if openLoss > rows[date].envelope {
        rows := rows[date := rows[date].(envelope := openLoss)];
      }
      c := rows[date];
    }

    method Update(now: int, envelope: real, u: Change) returns (c: Control)
      modifies this
      ensures rows == Updated(old(rows), now, envelope, u)
      ensures SessionDate(now) in rows && c == rows[SessionDate(now)]
    {
      var date := SessionDate(now);
      if date !in rows {
        rows := rows[date :=
          Control(u.status, u.confirmations, u.firstBreachAt, now, u.lastLoss, envelope, u.quotesPassed, u.reason)];
      } else {
        var row := rows[date].(status := u.status, confirmations := u.confirmations, observedAt := now,
                               lastLoss := u.lastLoss, quotesPassed := u.quotesPassed, reason := u.reason);
        if row.firstBreachAt.None? {
          row := row.(firstBreachAt := u.firstBreachAt);
        }
        rows := rows[date := row.(envelope := MaxReal(row.envelope, envelope))];
      }
      c := rows[date];
    }

    method Increase(now: int, amount: real) returns (ok: bool)
      modifies this
      ensures ok == Increased(old(rows), now, amount).Some?
      ensures rows == Increased(old(rows), now, amount).GetOr(old(rows))
    {
      if amount <= 0.0 {
        return true;
      }
      var date := SessionDate(now);
      if date !in rows {
        return false;
      }
      rows := rows[date := rows[date].(envelope := rows[date].envelope + amount)];
      return true;
    }

    /** The block of run_cycle that moves the control, branch by branch. */
    method Transition(i: LossInputs) returns (failed: bool)
      requires SessionDate(i.now) in rows
      modifies this
      ensures LossOutcome(rows, failed) == Observe(old(rows), i)
    {
      failed := false;
      var control := rows[SessionDate(i.now)];
      var limit, raw := DailyLimit(i.now, i.startOfDay), MaxReal(0.0, i.startOfDay - i.equity);
      var released := false;
      if control.status.Latched? && FinalDay(i.now) && control.lastLoss < limit && raw < limit {
        control := Update(i.now, control.envelope, Change(Clear, 0, None, raw, false, ReleasedOnFinalDay));
        released := true;
      }
      if !control.status.Latched? && raw >= limit && !i.clean {
        control := Update(i.now, control.envelope, Change(Provisional, 1, Some(i.now), raw, false, ReconciliationExit));
      } else if !control.status.Latched? && raw >= limit {
        control := Update(i.now, control.envelope,
                          Change(Provisional, 1, Some(i.now), raw, false, AwaitingConfirmation));
        if i.second.None? {
          return true;
        }
        var confirmed := MaxReal(0.0, i.startOfDay - i.second.value);
        var plausible := i.flat || LossIsPlausible(confirmed, control.envelope);
        if confirmed < limit {
          control := Update(i.now, control.envelope,
                            Change(Clear, 0, None, confirmed, i.marksPassed, SecondObservationRecovered));
        } else if plausible && i.marksPassed {
          control := Update(i.now, control.envelope, Change(Latched, 2, None, confirmed, true, ConfirmedBreach));
        } else {
          control := Update(i.now, control.envelope, Change(
            Provisional, 2, None, confirmed, i.marksPassed,
            if !plausible then ExceedsEnvelope else UnvalidatedMarks));
        }
      } else if control.status.Provisional? && raw < limit {
        control := Update(i.now, control.envelope, Change(Clear, 0, None, raw, false, RecoveredBeforeValidation));
      } else if control.status.Clear? && !released {
        control := Update(i.now, control.envelope, Change(Clear, 0, None, raw, false, BelowLimit));
      }
    }
  }
}

/** What the daily-loss control guarantees over a session. */
module DailyLossLaws {
  import opened Common
  import opened Money
  import opened Schemas
  import opened Clock
  import opened Orders
  import opened Execution
  import opened RepricingLaws
  import opened Inventory
  import opened Options
  import opened Risk
  import opened Equity
  import opened DailyLoss

  /** Two observations at or over the limit, in a clean book, with passed marks and a credible loss. */
  predicate Confirms(c: Control, i: LossInputs) {
    && i.clean && i.Loss() >= i.Limit()
    && i.second.Some? && i.SecondLoss() >= i.Limit()
    && i.marksPassed && Credible(c, i)
  }

  predicate Recovers(i: LossInputs) {
    i.Loss() < i.Limit() || (i.clean && i.second.Some? && i.SecondLoss() < i.Limit())
  }

  /** The transition, exactly: which inputs lead to which status. */
  lemma StatusIsExact(t: Controls, i: LossInputs)
    requires SessionDate(i.now) in t
    ensures var c := t[SessionDate(i.now)]; var s := Observe(t, i).controls[SessionDate(i.now)].status;
      && (s.Latched? <==> if c.status.Latched? then !Release(c, i) else Confirms(c, i))
      && (s.Clear? <==> if c.status.Latched? then Release(c, i) else Recovers(i))
  {
  }

  // ---------------------------------------------------------------------- sessions

  /** What touches the rows over time: a cycle opens the session with the ledger's open loss, checks it,
      and may award risk. */
  datatype LossEvent = Began(at: int, openLoss: real) | Checked(inputs: LossInputs) | Awarded(at: int, amount: real)

  function Step(t: Controls, e: LossEvent): Controls {
    match e
    case Began(at, openLoss) => Opened(t, at, openLoss)
    case Checked(i) => if SessionDate(i.now) in t then Observe(t, i).controls else t
    case Awarded(at, amount) => Increased(t, at, amount).GetOr(t)
  }

  function Run(t: Controls, events: seq<LossEvent>): Controls {
    if events == [] then t else Step(Run(t, events[..|events| - 1]), events[|events| - 1])
  }

  /** Over every run no session's row disappears and its envelope never decreases. */
  lemma {:induction false} EnvelopeNeverDecreases(t: Controls, events: seq<LossEvent>, date: int)
    requires date in t
    ensures date in Run(t, events) && Run(t, events)[date].envelope >= t[date].envelope
  {
    if events != [] {
      EnvelopeNeverDecreases(t, events[..|events| - 1], date);
    }
  }

  predicate OnFinalDay(date: int) { date == SessionDate(EOD_EQUITY_SNAPSHOT_AT) }

  /** Outside the final day a latch holds to the end of its session, whatever is observed. */
  lemma {:induction false} LatchPersists(t: Controls, events: seq<LossEvent>, date: int)
    requires date in t && t[date].status.Latched? && !OnFinalDay(date)
    ensures date in Run(t, events) && Run(t, events)[date].status.Latched?
  {
    if events != [] {
      LatchPersists(t, events[..|events| - 1], date);
    }
  }

  /** Every check of this session measures from the same opening equity. */
  predicate FixedBaseline(events: seq<LossEvent>, date: int, startOfDay: real) {
    forall e <- events :: e.Checked? && SessionDate(e.inputs.now) == date ==> e.inputs.startOfDay == startOfDay
  }

  function LimitOn(date: int, startOfDay: real): real {
    if OnFinalDay(date) then startOfDay * FINAL_DAY_DAILY_LOSS_PCT else startOfDay * DAILY_LOSS_PCT
  }

  /** On the final day too a latch holds, as long as the session's opening equity stays the same: a
      row is latched only by a loss at the limit, and that loss is not overwritten while latched. */
  lemma {:induction false} LatchPersistsFromFixedBaseline(
    t: Controls, events: seq<LossEvent>, date: int, startOfDay: real)
    requires date in t && t[date].status.Latched? && t[date].lastLoss >= LimitOn(date, startOfDay)
    requires FixedBaseline(events, date, startOfDay)
    ensures date in Run(t, events) && Run(t, events)[date].status.Latched?
    ensures Run(t, events)[date].lastLoss >= LimitOn(date, startOfDay)
  {
    if events != [] {
      var n := |events| - 1;
      assert events[n] in events;
      LatchPersistsFromFixedBaseline(t, events[..n], date, startOfDay);
      var e := events[n];
      if e.Checked? && SessionDate(e.inputs.now) == date {
        assert e.inputs.Limit() == LimitOn(date, startOfDay);
      }
    }
  }

  predicate MeetsLimit(t: Controls, date: int, startOfDay: real) {
    date in t && t[date].status.Latched? ==> t[date].lastLoss >= LimitOn(date, startOfDay)
  }

  /** Every latch made against one opening equity has met its limit. */
  lemma {:induction false} NewLatchMeetsLimit(t: Controls, events: seq<LossEvent>, date: int, startOfDay: real)
    requires MeetsLimit(t, date, startOfDay) && FixedBaseline(events, date, startOfDay)
    ensures MeetsLimit(Run(t, events), date, startOfDay)
  {
    if events != [] {
      var n := |events| - 1;
      assert events[n] in events;
      NewLatchMeetsLimit(t, events[..n], date, startOfDay);
      var e := events[n];
      if e.Checked? && SessionDate(e.inputs.now) == date {
        assert e.inputs.Limit() == LimitOn(date, startOfDay);
      }
    }
  }

  /** A latch is released only by a baseline higher than the one whose limit it met. */
  lemma ReleaseNeedsHigherBaseline(c: Control, i: LossInputs, startOfDay: real)
    requires c.lastLoss >= LimitOn(SessionDate(i.now), startOfDay) && Release(c, i)
    ensures i.startOfDay > startOfDay
  {
    assert i.Limit() == LimitOn(SessionDate(i.now), i.startOfDay);
  }

  /** Measured against the session's own opening figure. */
  predicate MeasuredFrom(i: LossInputs, marks: seq<EquityMark>) { i.startOfDay == StartOfDay(marks, i.now, i.equity) }

  /** It happens while the session has no mark yet, when the present equity stands in for the opening one:
      a loss of 11,000 confirmed against 100,000 latches, that cycle leaves no clean mark, and an account
      then read at 101,000 moves the opening equity and the limit above it and releases the latch. */
  lemma HigherBaselineReleasesLatch()
    ensures exists t: Controls, i: LossInputs, j: LossInputs ::
      && SessionDate(i.now) in t && SessionDate(j.now) == SessionDate(i.now) && i.now < j.now
      && MeasuredFrom(i, []) && MeasuredFrom(j, [])
      && Observe(t, i).controls[SessionDate(i.now)].status.Latched?
      && SessionDate(j.now) in Observe(t, i).controls
      && Observe(Observe(t, i).controls, j).controls[SessionDate(i.now)].status.Clear?
  {
    var now := FINAL_HOUR_RECOVERY_STARTS_AT;
    var t: Controls := map[SessionDate(now) := Control(Clear, 0, None, now, 0.0, 20000.0, false, NoBreach)];
    var i := LossInputs(now, 100000.0, 89000.0, true, Some(89000.0), true, false);
    var j := LossInputs(now + MINUTE, 101000.0, 101000.0, true, None, true, true);
    assert FinalDay(now) && FinalDay(now + MINUTE);
    assert FirstOf([], SessionDate(now)) == None;
    assert i.Limit() == 11000.0 && i.SecondLoss() == 11000.0;
    assert j.Limit() == 11110.0 && j.Loss() == 0.0;
    assert Observe(t, i).controls[SessionDate(now)].status.Latched?;
    assert Observe(Observe(t, i).controls, j).controls[SessionDate(now)].status.Clear?;
  }

  /** The check at position k of the run confirmed a breach of this session. */
  predicate ConfirmedAt(t: Controls, events: seq<LossEvent>, k: nat, date: int)
    requires k < |events|
  {
    var e := events[k];
    && e.Checked? && SessionDate(e.inputs.now) == date && date in Run(t, events[..k])
    && Confirms(Run(t, events[..k])[date], e.inputs)
  }

  /** No row is ever found latched without a confirmed breach of its own session behind it. */
  lemma {:induction false} LatchHasCause(t: Controls, events: seq<LossEvent>, date: int)
    requires date in Run(t, events) && Run(t, events)[date].status.Latched?
    requires date in t ==> !t[date].status.Latched?
    ensures exists k: nat | k < |events| :: ConfirmedAt(t, events, k, date)
  {
    assert events != [];
    var n := |events| - 1;
    var earlier := Run(t, events[..n]);
    if date in earlier && earlier[date].status.Latched? {
      LatchHasCause(t, events[..n], date);
      var k: nat :| k < n && ConfirmedAt(t, events[..n], k, date);
      assert events[..n][..k] == events[..k];
      assert ConfirmedAt(t, events, k, date);
    } else {
      assert events[n].Checked?;
      StatusIsExact(earlier, events[n].inputs);
      assert ConfirmedAt(t, events, n, date);
    }
  }

  // ------------------------------------------------------------------- what it stops

  /** daily_loss_entry_halt_active. */
  predicate EntryHalt(status: LossStatus, now: int) { !status.Clear? && !FinalDay(now) }

  /** Outside the final day, a control that is not clear lets no candidate through the risk engine. */
  lemma NotClearNothingApproved(status: LossStatus, d: Decision, c: Option<Candidate>, ctx: RiskContext)
    requires c.Some? ==> c.value.Valid()
    requires ctx.lossHalt == EntryHalt(status, ctx.now) && !FinalDay(ctx.now) && !status.Clear?
    ensures VerdictOf(d, c, ctx) == REJECTED
  {
  }

  /** Once the marks pass, the price at which an urgent close finally rests covers what closing the
      structure costs at those marks. */
  lemma PassedMarksAreCovered(managed: seq<Managed>, positions: Holdings, quotes: QuoteBook, now: int, m: Managed)
    requires MarksPass(managed, positions, quotes, now) && m in managed
    requires ValidateDefinedRisk(m.structure).Success?
    requires WholeCents(m.structure.maximumLoss) && WholeCents(WorstLoss(m.structure))
    requires m.structure.maximumProfit
          == (if |m.structure.legs| == 4 then m.structure.netPrice
              else StructureWidth(m.structure) - m.structure.netPrice) * MULTIPLIER
    ensures Quoted(m.structure.legs, quotes)
    ensures var cap := UrgentDebitCap(CloseLegs(m.structure.legs, quotes));
      cap.Some? && ClosingCash(m.structure.legs, quotes).value <= cap.value
  {
    assert CloseIsPossible(m, quotes);
    DebitCapIsDefinedRisk(m.structure, quotes);
  }
}
