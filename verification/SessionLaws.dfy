/** The daily-loss control as whole cycles drive it. */
module SessionLaws {
  import opened Common
  import opened Schemas
  import opened Clock
  import opened Events
  import opened Ledger
  import Lifecycle
  import opened LifecycleLaws
  import opened Candidates
  import opened Risk
  import opened Equity
  import opened Cycle
  import opened CycleLaws
  import opened AuthorityLaws
  import L = DailyLoss
  import DailyLossLaws

  type Trace = seq<DailyLossLaws.LossEvent>

  /** What one entry adds to the trace. */
  function AwardTrace(r: CycleResult, i: CycleInputs): Trace {
    if r.entry.Some? && i.run in r.world.book.awards
    then [DailyLossLaws.Awarded(i.now, r.world.book.awards[i.run].amount)] else []
  }

  /** The control events of one cycle, in order. */
  function CycleTrace(w: World, i: CycleInputs): Trace
    requires i.Valid()
  {
    if CycleKey(i.now) in w.cycles || i.raised == Some(ReadingBroker) then []
    else
      [DailyLossLaws.Began(i.now, OpenLoss(SyncedBook(w.book, i)))]
      + (if i.raised == Some(ReadingMarket) then [] else [DailyLossLaws.Checked(LossSeen(w, i))])
      + AwardTrace(RunCycle(w, i), i)
  }

  lemma SubmitControls(w: World, c: Candidate, v: Verdict, minutes: nat, i: CycleInputs)
    ensures var r := SubmitEntry(w, c, v, minutes, i);
      r.world.controls == DailyLossLaws.Run(w.controls, AwardTrace(r, i))
  {
    var r := SubmitEntry(w, c, v, minutes, i);
    if r.entry.Some? {
      assert AwardTrace(r, i) == [DailyLossLaws.Awarded(i.now, v.awarded)];
    }
  }

  lemma DecideControls(w: World, synced: Book, ctx: RiskContext, i: CycleInputs)
    requires i.Valid()
    ensures var r := Decide(w, synced, ctx, i);
      r.world.controls == DailyLossLaws.Run(w.controls, AwardTrace(r, i))
  {
    hide Choose, AllCandidates, ExcludedIds;
    var compiled := AllCandidates(COMPETITION_MACRO_EVENTS, i.snapshots, i.chains, i.now);
    if compiled.Success? {
      var listed := w.(book := w.book.(known := w.book.known + SymbolsOf(compiled.value)));
      var auction := Auction(compiled.value, ExcludedIds(compiled.value, synced, listed.book, i));
      if forall c <- auction :: c.Valid() {
        ChooseControls(listed, ctx, auction, i);
      }
    }
  }

  lemma ChooseControls(w: World, ctx: RiskContext, auction: seq<Candidate>, i: CycleInputs)
    requires forall c <- auction :: c.Valid()
    ensures var r := Choose(w, ctx, auction, i);
      r.world.controls == DailyLossLaws.Run(w.controls, AwardTrace(r, i))
  {
    var decision := if auction == [] then ABSTENTION else i.decision;
    var selected := CandidateById(auction, decision.candidateId);
    SelectedIsListed(auction, decision.candidateId);
    if ctx.Valid() {
      var v := VerdictOf(decision, selected, ctx);
      if v.approved && selected.Some? {
        SubmitControls(w, selected.value, v, Risk.Hold(decision, selected.value, i.now).minutes, i);
      }
    }
  }

  lemma ActControls(
    w: World, before: L.Control, l: L.LossInputs, status: L.LossStatus, clean: bool, i: CycleInputs, e: Summary)
    requires i.Valid()
    ensures var r := Act(w, before, l, status, clean, i, e);
      r.world.controls == DailyLossLaws.Run(w.controls, AwardTrace(r, i))
  {
    hide Lifecycle.Pass, Decide, OpenLoss;
    var equity := AccountEquity(before, l);
    var pass := Lifecycle.Pass(w.book, w.working, EnvFor(i, e, clean, equity, status));
    var maintained := w.(book := pass.book, working := pass.working);
    if !pass.failed {
      var ctx := RiskContextFor(w.book, i, e, clean, pass.incidents == [], equity, status, w.killed);
      DecideControls(maintained, w.book, ctx, i);
    }
  }

  lemma {:induction false} RunSplits(t: L.Controls, a: Trace, b: Trace)
    ensures DailyLossLaws.Run(t, a + b) == DailyLossLaws.Run(DailyLossLaws.Run(t, a), b)
  {
    if b == [] {
      assert a + b == a;
    } else {
      var n := |b| - 1;
      assert (a + b)[..|a + b| - 1] == a + b[..n];
      RunSplits(t, a, b[..n]);
    }
  }

  lemma TwoSteps(t: L.Controls, a: DailyLossLaws.LossEvent, b: DailyLossLaws.LossEvent)
    ensures DailyLossLaws.Run(t, [a, b]) == DailyLossLaws.Step(DailyLossLaws.Step(t, a), b)
    ensures DailyLossLaws.Run(t, [a]) == DailyLossLaws.Step(t, a)
  {
    assert [a][..0] == [] && [a, b][..1] == [a];
    assert DailyLossLaws.Run(t, [a]) == DailyLossLaws.Step(t, a);
  }

  /** A cycle moves the control by exactly its trace. */
  lemma CycleFollowsTrace(w: World, i: CycleInputs)
    requires i.Valid()
    ensures RunCycle(w, i).world.controls == DailyLossLaws.Run(w.controls, CycleTrace(w, i))
  {
    hide Act, ReconcileBroker, PersistFills;
    if CycleKey(i.now) !in w.cycles && i.raised != Some(ReadingBroker) {
      var begun := Begun(w, i);
      var synced := Synced(begun, i);
      var l := LossSeen(w, i);
      var first := DailyLossLaws.Began(i.now, OpenLoss(SyncedBook(w.book, i)));
      TwoSteps(w.controls, first, DailyLossLaws.Checked(l));
      if i.raised != Some(ReadingMarket) {
        var outcome := L.Observe(synced.controls, l);
        var observed := synced.(controls := outcome.controls);
        RunSplits(w.controls, [first, DailyLossLaws.Checked(l)], AwardTrace(RunCycle(w, i), i));
        assert [first] + [DailyLossLaws.Checked(l)] == [first, DailyLossLaws.Checked(l)];
        if !outcome.failed {
          ActControls(observed, synced.controls[SessionDate(i.now)], l, StatusOf(outcome.controls, i.now),
                      SyncClean(w.book, i), i, EquitySeen(w, i));
        }
      }
    }
  }

  /** The control events of a whole run. */
  ghost function RunTrace(w: World, events: seq<Event>): Trace
    requires AllValid(events)
  {
    if events == [] then []
    else
      var n := |events| - 1;
      assert AllValid(events[..n]);
      RunTrace(w, events[..n]) + if events[n].CycleDue? then CycleTrace(After(w, events[..n]), events[n].inputs) else []
  }

  /** Over every run of cycles the controls are those of the daily-loss machine on the run's trace, so
      every law of that machine holds of the whole system. */
  lemma {:induction false} RunFollowsTrace(w: World, events: seq<Event>)
    requires AllValid(events)
    ensures After(w, events).controls == DailyLossLaws.Run(w.controls, RunTrace(w, events))
  {
    hide RunCycle, CycleTrace;
    if events != [] {
      var n := |events| - 1;
      assert AllValid(events[..n]);
      RunFollowsTrace(w, events[..n]);
      if events[n].CycleDue? {
        CycleFollowsTrace(After(w, events[..n]), events[n].inputs);
        RunSplits(w.controls, RunTrace(w, events[..n]), CycleTrace(After(w, events[..n]), events[n].inputs));
      } else {
        assert RunTrace(w, events[..n]) + [] == RunTrace(w, events[..n]);
      }
    }
  }

  lemma {:induction false} TraceGrows(w: World, events: seq<Event>, j: nat, k: nat)
    requires j <= k <= |events| && AllValid(events)
    ensures exists more: Trace ::
      WorldAt(w, events, k).controls == DailyLossLaws.Run(WorldAt(w, events, j).controls, more)
  {
    hide RunCycle, CycleTrace, DailyLossLaws.Step;
    if j == k {
      assert DailyLossLaws.Run(WorldAt(w, events, j).controls, []) == WorldAt(w, events, j).controls;
    } else {
      TraceGrows(w, events, j, k - 1);
      var more: Trace :| WorldAt(w, events, k - 1).controls == DailyLossLaws.Run(WorldAt(w, events, j).controls, more);
      assert events[..k][..k - 1] == events[..k - 1];
      if events[k - 1].CycleDue? {
        var u, i := WorldAt(w, events, k - 1), events[k - 1].inputs;
        CycleFollowsTrace(u, i);
        RunSplits(WorldAt(w, events, j).controls, more, CycleTrace(u, i));
      }
    }
  }

  /** Once a session outside the final day is latched, no later cycle of that session submits an entry,
      and each that completes leaves no opening order pending, and at the broker exactly those whose legs
      the positions left for them cover in full. */
  lemma LatchStopsSession(w: World, events: seq<Event>, j: nat, k: nat)
    requires Sane(w) && AllValid(events) && HonestRun(w, events) && j <= k < |events| && events[k].CycleDue?
    requires var date := SessionDate(events[k].inputs.now); var t := WorldAt(w, events, j).controls;
      date in t && t[date].status.Latched? && !DailyLossLaws.OnFinalDay(date)
    ensures var u, r := WorldAt(w, events, k), ResultAt(w, events, k);
      && r.entry.None?
      && (r.completed ==> NoPendingEntry(r.world.book) && OnlyMatchedEntriesWork(u, events[k].inputs, r.world))
  {
    hide RunCycle, MayEnter, OnlyMatchedEntriesWork, NoPendingEntry;
    var u, i := WorldAt(w, events, k), events[k].inputs;
    var date := SessionDate(i.now);
    TraceGrows(w, events, j, k);
    var more: Trace :| u.controls == DailyLossLaws.Run(WorldAt(w, events, j).controls, more);
    DailyLossLaws.LatchPersists(WorldAt(w, events, j).controls, more, date);
    assert u.controls[date].status.Latched?;
    LatchedNoAuthority(u, i);
    NoAuthorityOverRuns(w, events, k);
  }

  lemma LatchedNoAuthority(w: World, i: CycleInputs)
    requires SessionDate(i.now) in w.controls && w.controls[SessionDate(i.now)].status.Latched? && !FinalDay(i.now)
    ensures !MayEnter(w, i)
  {
  }

  /** In a run that starts with no latch, a latched row always has a confirmed breach of its own session
      behind it: a clean book, two observations at the limit, passed marks and a credible loss. */
  lemma EveryLatchWasConfirmed(w: World, events: seq<Event>, date: int)
    requires AllValid(events) && date in After(w, events).controls && After(w, events).controls[date].status.Latched?
    requires date in w.controls ==> !w.controls[date].status.Latched?
    ensures var trace := RunTrace(w, events);
      exists k: nat | k < |trace| :: DailyLossLaws.ConfirmedAt(w.controls, trace, k, date)
  {
    hide RunCycle, CycleTrace, RunTrace, After;
    RunFollowsTrace(w, events);
    DailyLossLaws.LatchHasCause(w.controls, RunTrace(w, events), date);
  }

  /** The envelope of a session never decreases over a run. */
  lemma EnvelopeOnlyGrows(w: World, events: seq<Event>, date: int)
    requires AllValid(events) && date in w.controls
    ensures date in After(w, events).controls && After(w, events).controls[date].envelope >= w.controls[date].envelope
  {
    hide RunCycle, CycleTrace, RunTrace, After;
    RunFollowsTrace(w, events);
    DailyLossLaws.EnvelopeNeverDecreases(w.controls, RunTrace(w, events), date);
  }

  // -------------------------------------------------------------------- the baseline

  /** At most one mark more, taken now. */
  ghost predicate MarksGrow(before: seq<EquityMark>, after: seq<EquityMark>, now: int) {
    after == before || (|after| == |before| + 1 && after[..|before|] == before && after[|before|].at == now)
  }

  lemma DecideMarks(w: World, synced: Book, ctx: RiskContext, i: CycleInputs)
    requires i.Valid()
    ensures Decide(w, synced, ctx, i).world.marks == w.marks
  {
    hide AllCandidates, ExcludedIds, VerdictOf, OpenLoss, L.Increased, Auction, CandidateById;
  }

  lemma ActMarks(
    w: World, before: L.Control, l: L.LossInputs, status: L.LossStatus, clean: bool, i: CycleInputs, e: Summary)
    requires i.Valid()
    ensures MarksGrow(w.marks, Act(w, before, l, status, clean, i, e).world.marks, i.now)
  {
    hide Lifecycle.Pass, Decide, EnvFor, RiskContextFor, AccountEquity;
    var equity := AccountEquity(before, l);
    var pass := Lifecycle.Pass(w.book, w.working, EnvFor(i, e, clean, equity, status));
    var maintained := w.(book := pass.book, working := pass.working);
    if !pass.failed {
      var ctx := RiskContextFor(w.book, i, e, clean, pass.incidents == [], equity, status, w.killed);
      DecideMarks(maintained, w.book, ctx, i);
    }
  }

  lemma CycleMarks(w: World, i: CycleInputs)
    requires i.Valid()
    ensures MarksGrow(w.marks, RunCycle(w, i).world.marks, i.now)
  {
    hide Act, OpenManaged, L.MarksPass, SyncedBook, L.Observe;
    if CycleKey(i.now) !in w.cycles && i.raised != Some(ReadingBroker) && i.raised != Some(ReadingMarket) {
      var synced := Synced(Begun(w, i), i);
      var l := LossSeen(w, i);
      var outcome := L.Observe(synced.controls, l);
      if !outcome.failed {
        ActMarks(synced.(controls := outcome.controls), synced.controls[SessionDate(i.now)], l,
                 StatusOf(outcome.controls, i.now), SyncClean(w.book, i), i, EquitySeen(w, i));
      }
    }
  }

  /** Cycles come in order of time, after every mark on record. */
  predicate TimeOrdered(w: World, events: seq<Event>) {
    && (forall j, k :: 0 <= j < k < |events| && events[j].CycleDue? && events[k].CycleDue? ==>
          events[j].inputs.now <= events[k].inputs.now)
    && (forall m, k :: m in w.marks && 0 <= k < |events| && events[k].CycleDue? ==> m.at <= events[k].inputs.now)
  }

  lemma {:induction false} MarksBehind(w: World, events: seq<Event>, k: nat)
    requires AllValid(events) && TimeOrdered(w, events) && k <= |events|
    ensures forall m, n :: m in WorldAt(w, events, k).marks && k <= n < |events| && events[n].CycleDue? ==>
      m.at <= events[n].inputs.now
  {
    hide RunCycle;
    if k == 0 {
      assert events[..0] == [];
    } else {
      MarksBehind(w, events, k - 1);
      assert events[..k][..k - 1] == events[..k - 1];
      if events[k - 1].CycleDue? {
        CycleMarks(WorldAt(w, events, k - 1), events[k - 1].inputs);
      }
    }
  }

  /** From the session's first clean completed cycle on, its opening equity never changes. */
  lemma {:induction false} BaselineNeverMoves(w: World, events: seq<Event>, j: nat, k: nat, date: int)
    requires AllValid(events) && TimeOrdered(w, events) && j <= k <= |events|
    requires FirstOf(WorldAt(w, events, j).marks, date).Some?
    ensures FirstOf(WorldAt(w, events, k).marks, date) == FirstOf(WorldAt(w, events, j).marks, date)
  {
    hide RunCycle, FirstOf;
    if j < k {
      BaselineNeverMoves(w, events, j, k - 1, date);
      assert events[..k][..k - 1] == events[..k - 1];
      if events[k - 1].CycleDue? {
        var u := WorldAt(w, events, k - 1);
        MarksBehind(w, events, k - 1);
        CycleMarks(u, events[k - 1].inputs);
        var after := WorldAt(w, events, k).marks;
        if after != u.marks {
          assert after == u.marks + [after[|u.marks|]];
          FirstIsFixed(u.marks, [after[|u.marks|]], date);
        }
      }
    }
  }

  lemma TraceMeasuresFrom(w: World, i: CycleInputs, date: int)
    requires i.Valid() && FirstOf(w.marks, date).Some?
    ensures DailyLossLaws.FixedBaseline(CycleTrace(w, i), date, FirstOf(w.marks, date).value.equity)
  {
    hide RunCycle, FirstOf, SyncedBook, OpenLoss, L.MarksPass;
  }

  /** On the final day too a latch holds to the end of its session once the session has its first clean
      mark, provided the loss behind it meets the limit set by that mark. */
  lemma {:induction false} MarkedLatchHolds(w: World, events: seq<Event>, j: nat, k: nat, date: int)
    requires AllValid(events) && TimeOrdered(w, events) && j <= k <= |events|
    requires FirstOf(WorldAt(w, events, j).marks, date).Some? && date in WorldAt(w, events, j).controls
    requires var row := WorldAt(w, events, j).controls[date];
      && row.status.Latched?
      && row.lastLoss >= DailyLossLaws.LimitOn(date, FirstOf(WorldAt(w, events, j).marks, date).value.equity)
    ensures date in WorldAt(w, events, k).controls && WorldAt(w, events, k).controls[date].status.Latched?
    ensures WorldAt(w, events, k).controls[date].lastLoss
         >= DailyLossLaws.LimitOn(date, FirstOf(WorldAt(w, events, j).marks, date).value.equity)
  {
    hide RunCycle, FirstOf, CycleTrace, DailyLossLaws.LimitOn;
    if j < k {
      MarkedLatchHolds(w, events, j, k - 1, date);
      BaselineNeverMoves(w, events, j, k - 1, date);
      assert events[..k][..k - 1] == events[..k - 1];
      if events[k - 1].CycleDue? {
        var u, i := WorldAt(w, events, k - 1), events[k - 1].inputs;
        CycleFollowsTrace(u, i);
        TraceMeasuresFrom(u, i, date);
        DailyLossLaws.LatchPersistsFromFixedBaseline(
          u.controls, CycleTrace(u, i), date, FirstOf(u.marks, date).value.equity);
      }
    }
  }

  /** So a latch that a cycle makes after its session's first clean mark, on the final day or not, is still
      there after every later cycle. */
  lemma LatchAfterMarkHolds(w: World, events: seq<Event>, j: nat, k: nat, date: int)
    requires AllValid(events) && TimeOrdered(w, events) && j < k <= |events| && events[j].CycleDue?
    requires FirstOf(WorldAt(w, events, j).marks, date).Some?
    ensures date in WorldAt(w, events, j + 1).controls && WorldAt(w, events, j + 1).controls[date].status.Latched?
      && !(date in WorldAt(w, events, j).controls && WorldAt(w, events, j).controls[date].status.Latched?)
      ==> date in WorldAt(w, events, k).controls && WorldAt(w, events, k).controls[date].status.Latched?
  {
    hide RunCycle, FirstOf, CycleTrace, DailyLossLaws.LimitOn;
    var u, i := WorldAt(w, events, j), events[j].inputs;
    var v := WorldAt(w, events, j + 1);
    var first := FirstOf(u.marks, date).value.equity;
    if date in v.controls && v.controls[date].status.Latched?
       && !(date in u.controls && u.controls[date].status.Latched?) {
      assert events[..j + 1][..j] == events[..j];
      CycleFollowsTrace(u, i);
      TraceMeasuresFrom(u, i, date);
      DailyLossLaws.NewLatchMeetsLimit(u.controls, CycleTrace(u, i), date, first);
      BaselineNeverMoves(w, events, j, j + 1, date);
      MarkedLatchHolds(w, events, j + 1, k, date);
    }
  }
}
