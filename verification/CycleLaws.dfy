/** What every cycle and every run of cycles keeps. */
module CycleLaws {
  import opened Common
  import opened Schemas
  import opened Clock
  import opened Events
  import opened Orders
  import opened Inventory
  import opened Ledger
  import opened LedgerLaws
  import opened ReconcileLaws
  import opened Lifecycle
  import opened LifecycleLaws
  import opened Candidates
  import opened Risk
  import opened SizingLaws
  import opened Equity
  import opened Cycle
  import L = DailyLoss

  // ---------------------------------------------------------------------- assumptions

  /** The state every run starts from and returns to. */
  ghost predicate Sane(w: World) { Inv(w.book) && OneOpenClose(w.book, w.working) }

  predicate Reported(reports: seq<BrokerOrder>, id: ClientId) { exists r <- reports :: r.id == id }

  /** What is asked of the broker and of the run identifier. Between cycles orders only end; every order
      that may still execute is listed, with a working status; a polled order is unfinished only if it
      may still execute. */
  ghost predicate Honest(w: World, i: CycleInputs) {
    && i.Valid() && i.run !in w.book.awards && i.stillWorking <= w.working
    && (forall r <- i.reports :: r.remaining >= 1 && r.status.Some? && r.status.value.Working())
    && (forall id :: id in i.stillWorking && id in w.book.orders ==> Reported(i.reports, id))
    && (forall id :: i.poll(id).Some? && !i.poll(id).value.status.Terminal() ==> id in i.stillWorking)
  }

  // ----------------------------------------------------------------------------- sync

  lemma {:induction false} SyncListsReported(b: Book, reports: seq<BrokerOrder>, id: ClientId)
    requires id in b.orders && Reported(reports, id)
    requires forall r <- reports :: r.remaining >= 1 && r.status.Some? && r.status.value.Working()
    ensures var o := SyncOrders(b, reports).orders;
      id in o && o[id].status.Working() && o[id].remaining >= 1
  {
    var n := |reports| - 1;
    SyncKeepsRows(b, reports[..n]);
    assert reports[n] in reports;
    if reports[n].id != id {
      assert Reported(reports[..n], id);
      SyncListsReported(b, reports[..n], id);
    }
  }

  lemma {:induction false} CloseAbsentLeavesCloses(b: Book, ids: seq<ClientId>, positions: Holdings, id: ClientId)
    requires id in b.orders && b.orders[id].request.isClosing
    ensures id in CloseAbsent(b, ids, positions).orders && CloseAbsent(b, ids, positions).orders[id] == b.orders[id]
  {
    if ids != [] {
      CloseAbsentLeavesCloses(b, ids[..|ids| - 1], positions, id);
    }
  }

  /** Matching positions touches opening orders only. */
  lemma ReconcileLeavesCloses(b: Book, reports: seq<BrokerOrder>, positions: Holdings, live: bool, id: ClientId)
    requires id in b.orders && b.orders[id].request.isClosing
    ensures var r := ReconcileBroker(b, reports, positions, live).orders;
      id in r && id in SyncOrders(b, reports).orders && r[id] == SyncOrders(b, reports).orders[id]
  {
    var synced := SyncOrders(b, reports);
    SyncKeepsRows(b, reports);
    var rows := ExposureRows(synced);
    NormalizeLength(rows, positions);
    ExposuresAreEntries(BySubmission(synced.ids, synced.orders), synced);
    PromoteKeepsIds(rows, ReserveAll(positions, EstablishedClaims(rows)));
    forall k | 0 <= k < |rows| ensures Normalize(rows, positions)[k].id != id {
      assert rows[k] in rows;
    }
    WriteBackLeavesOthers(synced, rows, Normalize(rows, positions), id);
    var normalized := NormalizeBook(synced, positions);
    CloseAbsentLeavesCloses(normalized, normalized.ids, positions, id);
  }

  lemma SyncKeepsSane(w: World, i: CycleInputs)
    requires Sane(w) && Honest(w, i)
    ensures var b := SyncedBook(w.book, i);
      && Inv(b) && OneOpenClose(b, i.stillWorking) && ClosesListed(b, i.stillWorking)
      && b.awards == w.book.awards && b.orders.Keys == w.book.orders.Keys
  {
    var b1 := PersistFills(w.book, i.activities);
    var b := SyncedBook(w.book, i);
    FillsKeepRows(w.book, i.activities);
    SameRowsKeepsInv(w.book, b1);
    ReconcileKeepsRows(b1, i.reports, i.positions, i.live);
    SameRowsKeepsInv(b1, b);
    forall id | id in i.stillWorking && id in b.orders && b.orders[id].request.isClosing
      ensures b.orders[id].Pending()
    {
      SyncListsReported(b1, i.reports, id);
      ReconcileLeavesCloses(b1, i.reports, i.positions, i.live, id);
      assert RowAt(b, id);
    }
  }

  // --------------------------------------------------------------------------- entry

  lemma AwardKeepsInv(b: Book, run: RunId, a: Award)
    requires Inv(b) && run !in b.awards && a.amount >= 0.0
    ensures Inv(b.(awards := b.awards[run := a]))
  {
    var b' := b.(awards := b.awards[run := a]);
    forall id | id in b'.orders ensures RowAt(b', id) {
      assert RowAt(b, id);
    }
  }

  lemma KnownKeepsInv(b: Book, known: set<Symbol>)
    requires Inv(b)
    ensures Inv(b.(known := known)) && LiveRuns(b.(known := known)) == LiveRuns(b)
  {
    forall id | id in b.orders ensures RowAt(b.(known := known), id) {
      assert RowAt(b, id);
    }
  }

  /** A placed opening order of a recorded award. */
  lemma PlacedEntryKeeps(b: Book, working: set<ClientId>, run: RunId, request: Request, p: Placement)
    requires Inv(b) && OneOpenClose(b, working) && request.id !in b.orders && !request.isClosing && request.Valid()
    requires EntryOk(Order(run, p.status, request.quantity, p.submittedAt, request), b.awards)
    ensures var b' := PersistOrder(b, run, request, p);
      && Inv(b') && OneOpenClose(b', working + {request.id}) && LiveRuns(b') <= LiveRuns(b) + {run}
      && (OneWorkingClose(b) ==> OneWorkingClose(b'))
  {
    PersistKeepsInv(b, run, request, p);
  }

  /** A first order at the award's own price is on its schedule. */
  lemma FirstOrderOk(
    c: Candidate, quantity: nat, amount: real, minutes: nat, i: CycleInputs, p: Placement, awards: map<RunId, Award>)
    requires i.run in awards && awards[i.run] == Award(amount, quantity, c.id, c.structure, minutes)
    ensures EntryOk(Order(i.run, p.status, quantity, p.submittedAt, EntryRequest(c, quantity, i)), awards)
  {
  }

  lemma AwardChangesNoRow(b: Book, working: set<ClientId>, awards: map<RunId, Award>)
    ensures var b' := b.(awards := awards);
      && LiveRuns(b') == LiveRuns(b) && (OneOpenClose(b, working) ==> OneOpenClose(b', working))
      && (OneWorkingClose(b) ==> OneWorkingClose(b'))
  {
  }

  /** What submitting one entry does to the ledger. */
  lemma EntryKeepsSane(w: World, c: Candidate, v: Verdict, minutes: nat, i: CycleInputs)
    requires Sane(w) && i.run !in w.book.awards && v.awarded >= 0.0
    ensures var r := SubmitEntry(w, c, v, minutes, i);
      && Sane(r.world)
      && (OneWorkingClose(w.book) ==> OneWorkingClose(r.world.book))
      && r.world.cycles == w.cycles && (w.killed || !r.completed ==> r.world.killed)
      && (r.entry.Some? ==> r.entry.value == EntryRequest(c, v.quantity, i) && r.completed)
      && r.world.book.awards == w.book.awards[i.run := Award(v.awarded, v.quantity, c.id, c.structure, minutes)]
      && LiveRuns(r.world.book) <= LiveRuns(w.book) + {i.run}
  {
    hide OneWorkingClose, LiveRuns, Request.Valid;
    var a := Award(v.awarded, v.quantity, c.id, c.structure, minutes);
    AwardKeepsInv(w.book, i.run, a);
    var b := w.book.(awards := w.book.awards[i.run := a]);
    AwardChangesNoRow(w.book, w.working, b.awards);
    var request := EntryRequest(c, v.quantity, i);
    if request.id !in w.book.orders && request.Valid() && i.place(request.id).Some? {
      FirstOrderOk(c, v.quantity, v.awarded, minutes, i, i.place(request.id).value, b.awards);
      PlacedEntryKeeps(b, w.working, i.run, request, i.place(request.id).value);
    }
  }

  /** The portfolio cap: the awards of all distinct runs that still have a live opening order, the new
      one included, are within the cluster cap and the total cap. */
  ghost predicate WithinCaps(b: Book, now: int, equity: real) {
    && LiveRuns(b) <= b.awards.Keys
    && TotalAward(LiveRuns(b), b.awards) <= ClusterCapDollars(now, equity)
    && TotalAward(LiveRuns(b), b.awards) <= TotalCapDollars(now, equity)
  }

  lemma CapFromSummary(b1: Book, b2: Book, run: RunId, now: int, equity: real)
    requires Inv(b1) && run !in b1.awards && run in b2.awards
    requires b2.awards == b1.awards[run := b2.awards[run]] && LiveRuns(b2) <= LiveRuns(b1) + {run}
    requires forall r :: r in b2.awards ==> b2.awards[r].amount >= 0.0
    requires OpenLoss(b1) + b2.awards[run].amount <= ClusterCapDollars(now, equity)
    requires OpenLoss(b1) + b2.awards[run].amount <= TotalCapDollars(now, equity)
    ensures WithinCaps(b2, now, equity)
  {
    LedgerSumNeverUndercounts(b1);
    var all := LiveRuns(b1) + {run};
    TotalAwardSplits(all, run, b2.awards);
    assert all - {run} == LiveRuns(b1);
    TotalAwardIgnoresOthers(LiveRuns(b1), b1.awards, b2.awards);
    TotalAwardMonotone(LiveRuns(b2), all, b2.awards);
  }

  // ------------------------------------------------------------------------- decision

  /** The context of a cycle without entry authority. */
  predicate NoAuthority(ctx: RiskContext) { !ctx.state.FullExecution? || (ctx.lossHalt && !FinalDay(ctx.now)) }

  lemma NothingApproved(d: Decision, c: Option<Candidate>, ctx: RiskContext)
    requires c.Some? ==> c.value.Valid()
    requires NoAuthority(ctx) || ctx.killSwitch || !ctx.clean
    ensures VerdictOf(d, c, ctx) == REJECTED
  {
  }

  /** What choosing does: nothing, or one entry the risk engine let through. */
  lemma ChooseKeeps(w: World, synced: Book, ctx: RiskContext, auction: seq<Candidate>, i: CycleInputs)
    requires Sane(w) && Inv(synced) && i.run !in synced.awards && w.book.awards == synced.awards
    requires LiveRuns(w.book) <= LiveRuns(synced)
    requires ctx.now == i.now && ctx.clusterLoss == ctx.totalOpenLoss == OpenLoss(synced)
    requires forall c <- auction :: c.Valid()
    ensures var r := Choose(w, ctx, auction, i);
      && Sane(r.world)
      && (OneWorkingClose(w.book) ==> OneWorkingClose(r.world.book))
      && r.world.cycles == w.cycles && (w.killed || !r.completed ==> r.world.killed)
      && (r.entry.Some? ==>
            && r.completed && r.entry.value.id.cycle == CycleKey(i.now)
            && WithinCaps(r.world.book, ctx.now, ctx.equity)
            && !NoAuthority(ctx) && !ctx.killSwitch && ctx.clean)
      && (NoAuthority(ctx) && NoPendingEntry(w.book) ==> NoPendingEntry(r.world.book))
  {
    var decision := if auction == [] then ABSTENTION else i.decision;
    var selected := CandidateById(auction, decision.candidateId);
    SelectedIsListed(auction, decision.candidateId);
    if ctx.Valid() {
      var v := VerdictOf(decision, selected, ctx);
      if NoAuthority(ctx) || ctx.killSwitch || !ctx.clean {
        NothingApproved(decision, selected, ctx);
      } else if v.approved && selected.Some? {
        var c := selected.value;
        var minutes := Risk.Hold(decision, c, i.now).minutes;
        ApprovalRespectsCaps(decision, c, ctx);
        EntryKeepsSane(w, c, v, minutes, i);
        var r := SubmitEntry(w, c, v, minutes, i);
        CapFromSummary(synced, r.world.book, i.run, ctx.now, ctx.equity);
      }
    }
  }

  lemma DecideKeeps(w: World, synced: Book, ctx: RiskContext, i: CycleInputs)
    requires i.Valid()
    requires Sane(w) && Inv(synced) && i.run !in synced.awards && w.book.awards == synced.awards
    requires LiveRuns(w.book) <= LiveRuns(synced)
    requires ctx.now == i.now && ctx.clusterLoss == ctx.totalOpenLoss == OpenLoss(synced)
    ensures var r := Decide(w, synced, ctx, i);
      && Sane(r.world)
      && (OneWorkingClose(w.book) ==> OneWorkingClose(r.world.book))
      && r.world.cycles == w.cycles && (w.killed || !r.completed ==> r.world.killed)
      && (r.entry.Some? ==>
            && r.completed && r.entry.value.id.cycle == CycleKey(i.now)
            && WithinCaps(r.world.book, ctx.now, ctx.equity)
            && !NoAuthority(ctx) && !ctx.killSwitch && ctx.clean)
      && (NoAuthority(ctx) && NoPendingEntry(w.book) ==> NoPendingEntry(r.world.book))
  {
    hide Choose, AllCandidates, OpenLoss, NoAuthority, WithinCaps, ExcludedIds, SymbolsOf, Auction, RowOk, LiveRuns;
    var compiled := AllCandidates(COMPETITION_MACRO_EVENTS, i.snapshots, i.chains, i.now);
    if compiled.Success? {
      var known := w.book.known + SymbolsOf(compiled.value);
      var listed := w.(book := w.book.(known := known));
      KnownKeepsInv(w.book, known);
      var auction := Auction(compiled.value, ExcludedIds(compiled.value, synced, listed.book, i));
      if forall c <- auction :: c.Valid() {
        ChooseKeeps(listed, synced, ctx, auction, i);
      }
    }
  }

  // ------------------------------------------------------------------------ one cycle

  /** What a cycle guarantees whether or not it completes. */
  ghost predicate Keeps(w: World, i: CycleInputs, r: CycleResult, allowed: bool, equity: real) {
    && Sane(r.world)
    && r.world.cycles == w.cycles && (w.killed || !r.completed ==> r.world.killed)
    && (r.completed ==> OneWorkingClose(r.world.book) && (!allowed ==> NoPendingEntry(r.world.book)))
    && (r.entry.Some? ==>
          && r.completed && allowed && !w.killed && r.entry.value.id.cycle == CycleKey(i.now)
          && WithinCaps(r.world.book, i.now, equity))
  }

  lemma ActKeeps(
    w: World, before: L.Control, l: L.LossInputs, status: L.LossStatus, clean: bool, i: CycleInputs, e: Summary)
    requires i.Valid() && Sane(w) && ClosesListed(w.book, w.working) && i.run !in w.book.awards
    requires forall id :: i.poll(id).Some? && !i.poll(id).value.status.Terminal() ==> id in w.working
    ensures Keeps(w, i, Act(w, before, l, status, clean, i, e), EntriesAllowed(i, e, clean, status),
                  AccountEquity(before, l))
  {
    hide Pass, Decide, PendingUnderlyings, OpenUnderlyings, OpenCounts, OpenLoss, ExitReason;
    var equity := AccountEquity(before, l);
    var env := EnvFor(i, e, clean, equity, status);
    var pass := Pass(w.book, w.working, env);
    PassKeeps(w.book, w.working, env);
    var maintained := w.(book := pass.book, working := pass.working);
    if !pass.failed {
      var ctx := RiskContextFor(w.book, i, e, clean, pass.incidents == [], equity, status, w.killed);
      assert NoAuthority(ctx) <==> !EntriesAllowed(i, e, clean, status);
      DecideKeeps(maintained, w.book, ctx, i);
      var r := Decide(maintained, w.book, ctx, i);
    }
  }

  /** The state in which a new cycle reads the broker. */
  function Begun(w: World, i: CycleInputs): World {
    w.(cycles := w.cycles + {CycleKey(i.now)}, working := i.stillWorking)
  }

  /** The session figures the cycle reads from the stored equity. */
  function EquitySeen(w: World, i: CycleInputs): Summary { Summarise(w.marks, i.now, i.equity) }

  /** The cycle's daily-loss inputs and the row they meet. */
  function LossSeen(w: World, i: CycleInputs): L.LossInputs {
    LossInputsFor(SyncedBook(w.book, i), SyncClean(w.book, i), i, EquitySeen(w, i))
  }

  function LossAfter(w: World, i: CycleInputs): L.Controls {
    L.Observe(Synced(w, i).controls, LossSeen(w, i)).controls
  }

  /** Has the cycle authority to open or reprice entries? */
  predicate MayEnter(w: World, i: CycleInputs) {
    EntriesAllowed(i, EquitySeen(w, i), SyncClean(w.book, i), StatusOf(LossAfter(w, i), i.now))
  }

  function CycleEquity(w: World, i: CycleInputs): real {
    AccountEquity(Synced(w, i).controls[SessionDate(i.now)], LossSeen(w, i))
  }

  lemma ProceedKeeps(w: World, i: CycleInputs)
    requires Sane(w) && Honest(w, i)
    ensures Keeps(Begun(w, i), i, Proceed(Begun(w, i), i), MayEnter(w, i), CycleEquity(w, i))
  {
    hide Act, ReconcileBroker, PersistFills;
    var begun := Begun(w, i);
    SyncKeepsSane(w, i);
    var synced := Synced(begun, i);
    var clean := SyncClean(begun.book, i);
    var l := LossInputsFor(synced.book, clean, i, EquitySeen(w, i));
    var outcome := L.Observe(synced.controls, l);
    var observed := synced.(controls := outcome.controls);
    if i.raised != Some(ReadingMarket) && !outcome.failed {
      ActKeeps(observed, synced.controls[SessionDate(i.now)], l, StatusOf(outcome.controls, i.now), clean, i,
               EquitySeen(w, i));
    }
  }

  /** Every cycle, whatever it observes and whatever an honest broker and the model answer. A key
      already begun changes nothing. Otherwise the ledger stays sound with at most one closing order per
      opening order that may still execute; a cycle that does not complete turns the kill switch on; a
      completed one leaves at most one working closing order per opening order, and without entry
      authority no opening order pending in the ledger; and an entry is submitted only by a completed cycle with
      authority and no kill switch, within both portfolio caps. */
  lemma CycleTheorem(w: World, i: CycleInputs)
    requires Sane(w) && Honest(w, i)
    ensures var r := RunCycle(w, i);
      if CycleKey(i.now) in w.cycles then r == CycleResult(w, false, None)
      else
        && Keeps(Begun(w, i), i, r, MayEnter(w, i), CycleEquity(w, i))
        && CycleKey(i.now) in r.world.cycles
        && (!r.completed ==> r.world.killed)
  {
    hide Proceed;
    if CycleKey(i.now) !in w.cycles {
      ProceedKeeps(w, i);
      assert OneOpenClose(w.book, i.stillWorking);
    }
  }

  /** Outside development there is no entry authority before the scoring window, after the entry cutoff,
      or with the market closed; in production not outside the session's entry hours either; and outside
      the final day not while the daily-loss control is not clear. */
  lemma AuthorityIsBounded(w: World, i: CycleInputs)
    requires MayEnter(w, i)
    ensures i.marketOpen
    ensures !i.development ==> SCORING_STARTS_AT <= i.now <= NEW_ENTRY_CUTOFF
    ensures !i.development && i.production ==> EntryWindowOpen(i.now)
    ensures StatusOf(LossAfter(w, i), i.now).Clear? || FinalDay(i.now)
  {
  }

  // ----------------------------------------------------------------------------- runs

  datatype Event = CycleDue(inputs: CycleInputs) | OperatorSwitch(active: bool)

  ghost function After(w: World, events: seq<Event>): World
    requires AllValid(events)
  {
    if events == [] then w
    else
      var n := |events| - 1;
      assert AllValid(events[..n]);
      match events[n]
      case CycleDue(i) => RunCycle(After(w, events[..n]), i).world
      case OperatorSwitch(active) => After(w, events[..n]).(killed := active)
  }

  predicate AllValid(events: seq<Event>) {
    forall k :: 0 <= k < |events| && events[k].CycleDue? ==> events[k].inputs.Valid()
  }

  ghost predicate HonestRun(w: World, events: seq<Event>)
    requires AllValid(events)
  {
    forall k :: 0 <= k < |events| && events[k].CycleDue? ==> HonestAt(w, events, k)
  }

  ghost predicate HonestAt(w: World, events: seq<Event>, k: nat)
    requires AllValid(events) && k < |events| && events[k].CycleDue?
  {
    Honest(After(w, events[..k]), events[k].inputs)
  }

  lemma PrefixHonest(w: World, events: seq<Event>, n: nat)
    requires n <= |events| && AllValid(events) && HonestRun(w, events)
    ensures AllValid(events[..n]) && HonestRun(w, events[..n])
  {
    hide RunCycle, After;
    forall k | 0 <= k < n && events[..n][k].CycleDue? ensures HonestAt(w, events[..n], k) {
      assert events[..n][..k] == events[..k];
      assert HonestAt(w, events, k);
    }
  }

  /** The invariant holds after every run. */
  lemma {:induction false} RunStaysSane(w: World, events: seq<Event>)
    requires Sane(w) && AllValid(events) && HonestRun(w, events)
    ensures Sane(After(w, events))
  {
    hide RunCycle;
    if events != [] {
      var n := |events| - 1;
      PrefixHonest(w, events, n);
      RunStaysSane(w, events[..n]);
      if events[n].CycleDue? {
        assert HonestAt(w, events, n);
        CycleTheorem(After(w, events[..n]), events[n].inputs);
      }
    }
  }

  /** The state and result of the cycle at position k of a run. */
  ghost function WorldAt(w: World, events: seq<Event>, k: nat): World
    requires AllValid(events) && k <= |events|
  {
    After(w, events[..k])
  }

  ghost function ResultAt(w: World, events: seq<Event>, k: nat): CycleResult
    requires AllValid(events) && k < |events| && events[k].CycleDue?
  {
    RunCycle(WorldAt(w, events, k), events[k].inputs)
  }

  /** In every run, every entry submission respects both portfolio caps over all distinct runs still
      live, and every completed cycle leaves at most one pending close per opening order in the ledger,
      and without entry authority no pending opening order. */
  lemma PortfolioCapOverRuns(w: World, events: seq<Event>, k: nat)
    requires Sane(w) && AllValid(events) && HonestRun(w, events) && k < |events| && events[k].CycleDue?
    ensures var r := ResultAt(w, events, k); var i := events[k].inputs;
      && (r.entry.Some? ==>
            && WithinCaps(r.world.book, i.now, CycleEquity(WorldAt(w, events, k), i))
            && MayEnter(WorldAt(w, events, k), i))
      && (r.completed ==> OneWorkingClose(r.world.book))
      && (r.completed && !MayEnter(WorldAt(w, events, k), i) ==> NoPendingEntry(r.world.book))
  {
    hide RunCycle, Sane, MayEnter, WithinCaps, OneWorkingClose, NoPendingEntry;
    PrefixHonest(w, events, k);
    RunStaysSane(w, events[..k]);
    assert HonestAt(w, events, k);
    CycleTheorem(WorldAt(w, events, k), events[k].inputs);
  }

  /** What the cycle at position k does to the keys and the kill switch. */
  lemma CycleAt(w: World, events: seq<Event>, k: nat)
    requires Sane(w) && AllValid(events) && HonestRun(w, events) && k < |events| && events[k].CycleDue?
    ensures var u := WorldAt(w, events, k); var r := ResultAt(w, events, k); var key := CycleKey(events[k].inputs.now);
      && WorldAt(w, events, k + 1) == r.world
      && u.cycles <= r.world.cycles && (u.killed ==> r.world.killed)
      && (key !in u.cycles ==> key in r.world.cycles && (!r.completed ==> r.world.killed))
      && (r.entry.Some? ==> key !in u.cycles && !u.killed)
  {
    hide RunCycle;
    PrefixHonest(w, events, k);
    RunStaysSane(w, events[..k]);
    assert HonestAt(w, events, k);
    assert events[..k + 1][..k] == events[..k];
    CycleTheorem(WorldAt(w, events, k), events[k].inputs);
  }

  lemma {:induction false} KeysOnlyGrow(w: World, events: seq<Event>, j: nat, k: nat)
    requires j <= k <= |events| && AllValid(events) && Sane(w) && HonestRun(w, events)
    ensures WorldAt(w, events, j).cycles <= WorldAt(w, events, k).cycles
  {
    hide RunCycle, Sane;
    if j < k {
      KeysOnlyGrow(w, events, j, k - 1);
      if events[k - 1].CycleDue? {
        CycleAt(w, events, k - 1);
      } else {
        assert events[..k][..k - 1] == events[..k - 1];
      }
    }
  }

  /** Each cycle key leads to at most one entry submission, however many cycles of it are due. */
  lemma OneEntryPerKey(w: World, events: seq<Event>, j: nat, k: nat)
    requires Sane(w) && AllValid(events) && HonestRun(w, events) && j < k < |events|
    requires events[j].CycleDue? && events[k].CycleDue?
    ensures ResultAt(w, events, j).entry.Some? && ResultAt(w, events, k).entry.Some? ==>
      CycleKey(events[j].inputs.now) != CycleKey(events[k].inputs.now)
  {
    hide *;
    CycleAt(w, events, j);
    CycleAt(w, events, k);
    KeysOnlyGrow(w, events, j + 1, k);
  }

  /** No operator clears the kill switch between positions j and k. */
  predicate NotCleared(events: seq<Event>, j: nat, k: nat)
    requires j <= k <= |events|
  {
    forall n :: j <= n < k ==> events[n] != OperatorSwitch(false)
  }

  lemma {:induction false} KillHolds(w: World, events: seq<Event>, j: nat, k: nat)
    requires j <= k <= |events| && AllValid(events) && Sane(w) && HonestRun(w, events)
    requires WorldAt(w, events, j).killed && NotCleared(events, j, k)
    ensures WorldAt(w, events, k).killed
  {
    hide RunCycle, Sane;
    if j < k {
      KillHolds(w, events, j, k - 1);
      if events[k - 1].CycleDue? {
        CycleAt(w, events, k - 1);
      } else {
        assert events[..k][..k - 1] == events[..k - 1];
      }
    }
  }

  /** After a cycle that did not complete, no later cycle submits an entry until an operator clears the
      kill switch. */
  lemma FailureStopsEntries(w: World, events: seq<Event>, j: nat, k: nat)
    requires Sane(w) && AllValid(events) && HonestRun(w, events) && j < k < |events|
    requires events[j].CycleDue? && events[k].CycleDue? && NotCleared(events, j + 1, k)
    ensures !ResultAt(w, events, j).completed && CycleKey(events[j].inputs.now) !in WorldAt(w, events, j).cycles ==>
      ResultAt(w, events, k).entry.None?
  {
    hide RunCycle;
    CycleAt(w, events, j);
    if !ResultAt(w, events, j).completed && CycleKey(events[j].inputs.now) !in WorldAt(w, events, j).cycles {
      KillHolds(w, events, j + 1, k);
    }
    CycleAt(w, events, k);
  }
}
