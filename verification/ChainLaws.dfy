/** The chain of replacements of one urgent close, over runs of cycles. */
module ChainLaws {
  import opened Orders
  import opened Execution
  import opened Ledger
  import opened LedgerLaws
  import opened Lifecycle
  import opened LifecycleLaws
  import opened EntryLaws
  import opened BoundaryLaws

  // ------------------------------------------------------ where closes come from

  /** The request is what this pass makes of a pending close that the broker may execute. */
  predicate Replaces(b1: Book, w1: set<ClientId>, env: CycleEnv, x: ClientId, request: Request) {
    && x in w1 && x in b1.orders && b1.orders[x].request.isClosing
    && NextAction(b1.orders[x], env).Replace? && request == Replacement(b1.orders[x], env)
  }

  /** A close added by the pass is a first one or replaces another. */
  ghost predicate Sourced(b1: Book, w1: set<ClientId>, env: CycleEnv, request: Request) {
    request.isClosing && request.attempt > 0 ==> exists x :: Replaces(b1, w1, env, x, request)
  }

  ghost predicate AllSourced(b1: Book, w1: set<ClientId>, env: CycleEnv, b: Book) {
    && RowsStand(b1, b)
    && forall id :: id in b.orders && id !in b1.orders ==> Sourced(b1, w1, env, b.orders[id].request)
  }

  lemma EditSourced(b1: Book, w1: set<ClientId>, env: CycleEnv, b: Book, b': Book)
    requires AllSourced(b1, w1, env, b) && RowsStand(b, b') && b'.orders.Keys == b.orders.Keys
    ensures AllSourced(b1, w1, env, b')
  {
    hide Sourced;
  }

  lemma PersistSourced(b1: Book, w1: set<ClientId>, env: CycleEnv, b: Book, run: RunId, request: Request, p: Placement)
    requires AllSourced(b1, w1, env, b) && request.id !in b.orders && Sourced(b1, w1, env, request)
    ensures AllSourced(b1, w1, env, PersistOrder(b, run, request, p))
  {
    hide Sourced;
  }

  lemma MaintainSourced(b1: Book, w1: set<ClientId>, env: CycleEnv, s: PassState, o: Order)
    requires AllSourced(b1, w1, env, s.book) && o.request.id in w1
    requires o.request.id in b1.orders && b1.orders[o.request.id] == o
    ensures AllSourced(b1, w1, env, Maintain(s, o, env).book)
  {
    hide AllSourced, StaleOrderAction, ReplacementRequest, Terms, Sourced, RowsStand;
    var id := o.request.id;
    var action := NextAction(o, env);
    if !action.Wait? && env.cancels(id) {
      var status := if o.IsEntry() && o.status.PartiallyFilled? then PartiallyFilledCanceled else Canceled;
      var t := s.Mark(id, status);
      MarkStands(s.book, id, status);
      MarkKeepsKeys(s.book, id, status);
      EditSourced(b1, w1, env, s.book, t.book);
      if action.Replace? {
        ReplacementIds(o, env);
        ReplacementSourced(b1, w1, env, id);
        var request := Replacement(o, env);
        if request.id !in t.book.orders && env.place(request.id).Some? {
          PersistSourced(b1, w1, env, t.book, o.run, request, env.place(request.id).value);
        }
      }
    }
  }

  lemma MarkKeepsKeys(b: Book, id: ClientId, status: Status)
    ensures MarkStatus(b, id, status).orders.Keys == b.orders.Keys
  {
  }

  lemma ReplacementSourced(b1: Book, w1: set<ClientId>, env: CycleEnv, id: ClientId)
    requires id in w1 && id in b1.orders && NextAction(b1.orders[id], env).Replace?
    ensures Sourced(b1, w1, env, Replacement(b1.orders[id], env))
  {
    ReplacementIds(b1.orders[id], env);
    if b1.orders[id].request.isClosing {
      assert Replaces(b1, w1, env, id, Replacement(b1.orders[id], env));
    }
  }

  lemma HandlePendingSourced(b1: Book, w1: set<ClientId>, env: CycleEnv, s: PassState, o: Order)
    requires AllSourced(b1, w1, env, s.book) && HonestPoll(w1, env)
    requires o.request.id in b1.orders && b1.orders[o.request.id] == o
    ensures AllSourced(b1, w1, env, HandlePending(s, o, env).book)
  {
    hide AllSourced, Settle, Maintain, RowsStand;
    var r := env.poll(o.request.id);
    if r.Some? {
      if r.value.status.Terminal() {
        SettleIsAnEdit(s, o, r.value, env);
        SettledRows(s, o, r.value, Settle(s, o, r.value, env));
        EditSourced(b1, w1, env, s.book, Settle(s, o, r.value, env).book);
      } else {
        MaintainSourced(b1, w1, env, s, o);
      }
    }
  }

  lemma {:induction false} FirstLoopSourced(
    b1: Book, w1: set<ClientId>, env: CycleEnv, s: PassState, orders: seq<Order>)
    requires AllSourced(b1, w1, env, s.book) && HonestPoll(w1, env)
    requires forall o <- orders :: o.request.id in b1.orders && b1.orders[o.request.id] == o
    ensures AllSourced(b1, w1, env, HandleAllPending(s, orders, env).book)
  {
    hide AllSourced, HandlePending;
    if orders != [] {
      var n := |orders| - 1;
      FirstLoopSourced(b1, w1, env, s, orders[..n]);
      HandlePendingSourced(b1, w1, env, HandleAllPending(s, orders[..n], env), orders[n]);
    }
  }

  lemma SubmitSourced(b1: Book, w1: set<ClientId>, env: CycleEnv, s: PassState, m: Managed, signal: ExitSignal)
    requires AllSourced(b1, w1, env, s.book) && signal.Exit? && m.structure.legs != []
    ensures AllSourced(b1, w1, env, SubmitClose(s, m, signal, env).book)
  {
    hide AllSourced, RowsStand, CloseRequest, CloseQuantity, Sourced;
    var id, quantity := CloseIdOf(m, env), CloseQuantity(m, env);
    var built := CloseRequest(m, env.quotes, id, quantity, signal.reason, signal.urgency);
    if quantity >= 1 && id !in s.book.orders && built.Success? && env.place(id).Some? {
      FirstCloseSourced(b1, w1, env, m, id, quantity, signal);
      var b := PersistOrder(s.book, env.run, built.value, env.place(id).value);
      PersistSourced(b1, w1, env, s.book, env.run, built.value, env.place(id).value);
      MarkStands(b, m.id, Status.Closing);
      MarkKeepsKeys(b, m.id, Status.Closing);
      EditSourced(b1, w1, env, b, MarkStatus(b, m.id, Status.Closing));
    }
  }

  lemma FirstCloseSourced(
    b1: Book, w1: set<ClientId>, env: CycleEnv, m: Managed, id: ClientId, quantity: nat, signal: ExitSignal)
    requires signal.Exit? && CloseRequest(m, env.quotes, id, quantity, signal.reason, signal.urgency).Success?
    ensures var r := CloseRequest(m, env.quotes, id, quantity, signal.reason, signal.urgency).value;
      r.id == id && Sourced(b1, w1, env, r)
  {
    hide ClosingCash;
  }

  lemma HandleManagedSourced(b1: Book, w1: set<ClientId>, env: CycleEnv, s: PassState, m: Managed)
    requires AllSourced(b1, w1, env, s.book)
    ensures AllSourced(b1, w1, env, HandleManaged(s, m, env).book)
  {
    hide AllSourced, ExitFor, SubmitClose, RowsStand;
    var legs := m.structure.legs;
    MarkStands(s.book, m.id, Closed);
    MarkKeepsKeys(s.book, m.id, Closed);
    EditSourced(b1, w1, env, s.book, MarkStatus(s.book, m.id, Closed));
    MarkStands(s.book, m.id, ExternallyReduced);
    MarkKeepsKeys(s.book, m.id, ExternallyReduced);
    EditSourced(b1, w1, env, s.book, MarkStatus(s.book, m.id, ExternallyReduced));
    if legs != [] && ExitFor(m, env).Exit? {
      SubmitSourced(b1, w1, env, s, m, ExitFor(m, env));
    }
  }

  lemma {:induction false} SecondLoopSourced(
    b1: Book, w1: set<ClientId>, env: CycleEnv, s: PassState, managed: seq<Managed>)
    requires AllSourced(b1, w1, env, s.book)
    ensures AllSourced(b1, w1, env, HandleAllManaged(s, managed, env).book)
  {
    hide AllSourced, HandleManaged;
    if managed != [] {
      var n := |managed| - 1;
      SecondLoopSourced(b1, w1, env, s, managed[..n]);
      HandleManagedSourced(b1, w1, env, HandleAllManaged(s, managed[..n], env), managed[n]);
    }
  }

  /** Every close a pass adds beyond a first attempt replaces a pending close that the broker could execute. */
  lemma PassSourced(b: Book, working: set<ClientId>, env: CycleEnv)
    requires Inv(b) && HonestPoll(working, env)
    ensures AllSourced(ReconcileFilledParents(b), working, env, Pass(b, working, env).book)
  {
    hide AllSourced, HandleAllPending, HandleAllManaged, PendingOf, ManagedOf, ReconcileFilledParents;
    var s, u := StartPass(b, working, env), AfterPending(b, working, env);
    var b1 := s.book;
    ParentsReconciled(b);
    RowsAreKeyed(b1);
    PendingListed(b1.ids, b1);
    NothingAdded(b1, working, env);
    FirstLoopSourced(b1, working, env, s, Pending(b1));
    SecondLoopSourced(b1, working, env, u, OpenManaged(u.book));
  }

  lemma NothingAdded(b1: Book, w1: set<ClientId>, env: CycleEnv)
    ensures AllSourced(b1, w1, env, b1)
  {
  }

  /** A close of the pass points at the parent of the one it replaces: of the only close of that parent the broker
      can execute. */
  lemma ReplacementIsOf(b: Book, working: set<ClientId>, env: CycleEnv, x: ClientId, y: ClientId)
    requires Inv(b) && OneOpenClose(b, working) && HonestPoll(working, env)
    requires var after := Pass(b, working, env).book;
      && y in after.orders && y !in b.orders
      && after.orders[y].request.isClosing && after.orders[y].request.attempt > 0
      && x in working && x in b.orders && b.orders[x].request.isClosing
      && b.orders[x].request.parent == after.orders[y].request.parent
    ensures var b1 := ReconcileFilledParents(b);
      && x in b1.orders && b1.orders[x].request == b.orders[x].request
      && Replaces(b1, working, env, x, Pass(b, working, env).book.orders[y].request)
  {
    hide Pass, ReconcileFilledParents, Sourced, Replacement, NextAction;
    var b1, after := ReconcileFilledParents(b), Pass(b, working, env).book;
    PassSourced(b, working, env);
    ParentsReconciled(b);
    var request := after.orders[y].request;
    assert Sourced(b1, working, env, request);
    SourceOf(b1, working, env, request, x);
  }

  lemma SourceOf(b1: Book, working: set<ClientId>, env: CycleEnv, request: Request, x: ClientId)
    requires Sourced(b1, working, env, request) && request.isClosing && request.attempt > 0
    requires OneOpenClose(b1, working) && x in working && x in b1.orders && b1.orders[x].request.isClosing
    requires b1.orders[x].request.parent == request.parent
    ensures Replaces(b1, working, env, x, request)
  {
    hide NextAction, Replacement;
    var z :| Replaces(b1, working, env, z, request);
    ReplacementIds(b1.orders[z], env);
    assert z == x;
  }
}

/** Chains over every run of cycles. */
module ChainRunLaws {
  import opened Common
  import opened Schemas
  import opened Clock
  import opened Orders
  import opened Execution
  import opened RepricingLaws
  import opened Ledger
  import opened LedgerLaws
  import opened Lifecycle
  import opened LifecycleLaws
  import opened EntryLaws
  import opened Candidates
  import opened Events
  import opened Risk
  import opened Equity
  import opened Cycle
  import opened CycleLaws
  import opened BoundaryRunLaws
  import opened ChainLaws
  import L = DailyLoss

  // ------------------------------------------------------------------- rows of a run

  /** Requests stand, and only the pass adds closes. */
  ghost predicate AddsEntries(b: Book, b': Book) {
    && RowsStand(b, b')
    && forall id :: id in b'.orders && id !in b.orders ==> b'.orders[id].IsEntry()
  }

  lemma ChooseAddsEntries(w: World, ctx: RiskContext, auction: seq<Candidate>, i: CycleInputs)
    requires forall c <- auction :: c.Valid()
    ensures AddsEntries(w.book, Choose(w, ctx, auction, i).world.book)
  {
    hide VerdictOf, L.Increased, Request.Valid, CandidateById;
    var decision := if auction == [] then ABSTENTION else i.decision;
    SelectedIsListed(auction, decision.candidateId);
  }

  lemma DecideAddsEntries(w: World, synced: Book, ctx: RiskContext, i: CycleInputs)
    requires i.Valid()
    ensures AddsEntries(w.book, Decide(w, synced, ctx, i).world.book)
  {
    hide Choose, AllCandidates, ExcludedIds;
    var compiled := AllCandidates(COMPETITION_MACRO_EVENTS, i.snapshots, i.chains, i.now);
    if compiled.Success? {
      var listed := w.(book := w.book.(known := w.book.known + SymbolsOf(compiled.value)));
      var auction := Auction(compiled.value, ExcludedIds(compiled.value, synced, listed.book, i));
      if forall c <- auction :: c.Valid() {
        ChooseAddsEntries(listed, ctx, auction, i);
      }
    }
  }

  lemma ActAddsEntries(
    w: World, before: L.Control, l: L.LossInputs, status: L.LossStatus, clean: bool, i: CycleInputs, e: Summary)
    requires i.Valid()
    ensures var t := Pass(w.book, w.working, EnvFor(i, e, clean, AccountEquity(before, l), status));
      AddsEntries(t.book, Act(w, before, l, status, clean, i, e).world.book)
  {
    hide Pass, Decide, ExitReason, OpenLoss, PendingUnderlyings, OpenUnderlyings, OpenCounts, AccountEquity;
    var equity := AccountEquity(before, l);
    var pass := Pass(w.book, w.working, EnvFor(i, e, clean, equity, status));
    var maintained := w.(book := pass.book, working := pass.working);
    var ctx := RiskContextFor(w.book, i, e, clean, pass.incidents == [], equity, status, w.killed);
    DecideAddsEntries(maintained, w.book, ctx, i);
  }

  lemma SyncStands(w: World, i: CycleInputs)
    ensures RowsStand(w.book, SyncedBook(w.book, i)) && SyncedBook(w.book, i).orders.Keys == w.book.orders.Keys
  {
    var b1 := PersistFills(w.book, i.activities);
    FillsKeepRows(w.book, i.activities);
    ReconcileKeepsRows(b1, i.reports, i.positions, i.live);
  }

  /** A cycle ends with the rows it began with, as synced, or with those of its pass and perhaps an entry. */
  lemma CycleRows(w: World, i: CycleInputs)
    requires i.Valid()
    ensures var b := RunCycle(w, i).world.book;
      || b == w.book || b == SyncedBook(w.book, i) || AddsEntries(PassSeen(w, i).book, b)
  {
    hide Act, SyncedBook, SyncClean, OpenLoss, OpenManaged, L.MarksPass, L.Observe, EntriesAllowed, Pass, AddsEntries;
    if CycleKey(i.now) !in w.cycles && i.raised != Some(ReadingBroker) && i.raised != Some(ReadingMarket) {
      var synced := Synced(Begun(w, i), i);
      var outcome := L.Observe(synced.controls, LossSeen(w, i));
      if !outcome.failed {
        ActAddsEntries(synced.(controls := outcome.controls), synced.controls[SessionDate(i.now)], LossSeen(w, i),
                       StatusOf(outcome.controls, i.now), SyncClean(w.book, i), i, EquitySeen(w, i));
      }
    }
  }

  lemma StandsThrough(a: Book, b: Book, c: Book)
    requires RowsStand(a, b) && RowsStand(b, c)
    ensures RowsStand(a, c)
  {
  }

  lemma CycleStands(w: World, i: CycleInputs)
    requires Sane(w) && Honest(w, i)
    ensures RowsStand(w.book, RunCycle(w, i).world.book)
  {
    hide RunCycle, SyncedBook, PassSeen, RowsStand, EnvSeen, ReconcileFilledParents;
    CycleRows(w, i);
    SyncStands(w, i);
    SyncKeepsSane(w, i);
    PassStands(w, i);
    var b := RunCycle(w, i).world.book;
    StandsReflexive(w.book);
    if AddsEntries(PassSeen(w, i).book, b) {
      StandsThrough(w.book, PassSeen(w, i).book, b);
    }
  }

  lemma StandsReflexive(b: Book)
    ensures RowsStand(b, b)
  {
  }

  lemma PassStands(w: World, i: CycleInputs)
    requires Sane(w) && Honest(w, i)
    ensures RowsStand(w.book, PassSeen(w, i).book)
  {
    hide SyncedBook, Pass, EnvSeen, RowsStand, ReconcileFilledParents;
    SyncKeepsSane(w, i);
    SyncStands(w, i);
    AuthorityOfEnv(w, i);
    var b := SyncedBook(w.book, i);
    PassSourced(b, i.stillWorking, EnvSeen(w, i));
    ParentsReconciled(b);
    SameRowsStand(b, ReconcileFilledParents(b));
    StandsThrough(w.book, b, ReconcileFilledParents(b));
    StandsThrough(w.book, ReconcileFilledParents(b), PassSeen(w, i).book);
  }

  lemma SameRowsStand(b: Book, b': Book)
    requires SameRows(b, b')
    ensures RowsStand(b, b')
  {
  }

  /** Over every run, a row keeps its request. */
  lemma {:induction false} RunStands(w: World, events: seq<Event>, j: nat, k: nat)
    requires Sane(w) && AllValid(events) && HonestRun(w, events) && j <= k <= |events|
    ensures RowsStand(WorldAt(w, events, j).book, WorldAt(w, events, k).book)
  {
    hide RunCycle, RowsStand, Sane;
    if j == k {
      StandsReflexive(WorldAt(w, events, j).book);
    } else {
      RunStands(w, events, j, k - 1);
      assert events[..k][..k - 1] == events[..k - 1];
      if events[k - 1].CycleDue? {
        PrefixHonest(w, events, k - 1);
        RunStaysSane(w, events[..k - 1]);
        assert HonestAt(w, events, k - 1);
        CycleStands(WorldAt(w, events, k - 1), events[k - 1].inputs);
        StandsThrough(WorldAt(w, events, j).book, WorldAt(w, events, k - 1).book, WorldAt(w, events, k).book);
      }
    }
  }

  // --------------------------------------------------------------------------- chains

  /** At position n of the run the close `x`, which the broker could execute, was replaced by `y`: a new close of
      the same parent that is not a first attempt. */
  ghost predicate ReplacedAt(w: World, events: seq<Event>, n: nat, x: ClientId, y: ClientId)
    requires AllValid(events)
  {
    && n < |events| && events[n].CycleDue?
    && var before, after := WorldAt(w, events, n).book, WorldAt(w, events, n + 1).book;
       && x in events[n].inputs.stillWorking && x in before.orders && before.orders[x].request.isClosing
       && y in after.orders && y !in before.orders
       && after.orders[y].request.isClosing && after.orders[y].request.attempt > 0
       && after.orders[y].request.parent == before.orders[x].request.parent
  }

  /** And it was handled as urgent: not marked soft, or forced, or past the session boundary. */
  ghost predicate UrgentAt(w: World, events: seq<Event>, n: nat, x: ClientId)
    requires AllValid(events) && n < |events| && events[n].CycleDue? && x in WorldAt(w, events, n).book.orders
  {
    var u, i := WorldAt(w, events, n), events[n].inputs;
    || u.book.orders[x].request.urgency != Some(Soft)
    || EnvSeen(u, i).forceClose.Some?
    || i.now >= SessionBoundary(i.now)
  }

  function RestingAs(r: Request): Resting { Resting(r.attempt, r.limit, r.isCredit) }

  /** One urgent replacement in a run is one visit of the repricing laws that replaces. */
  lemma ReplacementIsVisit(w: World, events: seq<Event>, n: nat, x: ClientId, y: ClientId, cap: real) returns (v: Visit)
    requires Sane(w) && AllValid(events) && HonestRun(w, events)
    requires ReplacedAt(w, events, n, x, y) && UrgentAt(w, events, n, x)
    requires UrgentDebitCap(WorldAt(w, events, n).book.orders[x].request.legs) == Some(cap)
    ensures var o, r := WorldAt(w, events, n).book.orders[x].request, WorldAt(w, events, n + 1).book.orders[y].request;
      && UrgentVisit(RestingAs(o), v, cap).Replace?
      && AfterVisit(RestingAs(o), v, cap) == RestingAs(r)
      && UrgentDebitCap(r.legs) == Some(cap)
  {
    hide RunCycle, SyncedBook, PassSeen, ReconcileFilledParents, EnvSeen, Sane, UrgentDebitCap, Honest;
    var u, i := WorldAt(w, events, n), events[n].inputs;
    PrefixHonest(w, events, n);
    RunStaysSane(w, events[..n]);
    assert HonestAt(w, events, n);
    assert events[..n + 1][..n] == events[..n];
    CycleReplacement(u, i, x, y);
    var env, row := EnvSeen(u, i), ReconcileFilledParents(SyncedBook(u.book, i)).orders[x];
    AuthorityOfEnv(u, i);
    v := VisitOf(row, env);
    UrgentPassIsVisit(row, env, cap);
  }

  /** What replaced a close is what the pass makes of it. */
  lemma CycleReplacement(u: World, i: CycleInputs, x: ClientId, y: ClientId)
    requires Sane(u) && Honest(u, i)
    requires var after := RunCycle(u, i).world.book;
      && x in i.stillWorking && x in u.book.orders && u.book.orders[x].request.isClosing
      && y in after.orders && y !in u.book.orders
      && after.orders[y].request.isClosing && after.orders[y].request.attempt > 0
      && after.orders[y].request.parent == u.book.orders[x].request.parent
    ensures var b1 := ReconcileFilledParents(SyncedBook(u.book, i));
      && x in b1.orders && b1.orders[x].request == u.book.orders[x].request
      && Replaces(b1, i.stillWorking, EnvSeen(u, i), x, RunCycle(u, i).world.book.orders[y].request)
  {
    hide RunCycle, SyncedBook, ReconcileFilledParents, EnvSeen, Replaces, Pass;
    CycleRows(u, i);
    SyncStands(u, i);
    SyncKeepsSane(u, i);
    AuthorityOfEnv(u, i);
    ReplacementIsOf(SyncedBook(u.book, i), i.stillWorking, EnvSeen(u, i), x, y);
  }

  /** Closes of which each replaced the one before, as an urgent one, at the given positions of the run. */
  ghost predicate UrgentChain(w: World, events: seq<Event>, at: seq<nat>, ids: seq<ClientId>)
    requires AllValid(events)
  {
    && |ids| == |at| + 1
    && forall k :: 0 <= k < |at| ==> UrgentLink(w, events, at[k], ids[k], ids[k + 1])
  }

  ghost predicate UrgentLink(w: World, events: seq<Event>, n: nat, x: ClientId, y: ClientId)
    requires AllValid(events)
  {
    ReplacedAt(w, events, n, x, y) && UrgentAt(w, events, n, x)
  }

  /** How often the closes of a chain change between debit and credit. */
  function SideChanges(ids: seq<ClientId>, b: Book): nat
    requires forall id <- ids :: id in b.orders
  {
    if |ids| < 2 then 0
    else
      (if b.orders[ids[0]].request.isCredit != b.orders[ids[1]].request.isCredit then 1 else 0)
      + SideChanges(ids[1..], b)
  }

  lemma RowStays(w: World, events: seq<Event>, n: nat, id: ClientId)
    requires Sane(w) && AllValid(events) && HonestRun(w, events) && n <= |events|
    requires id in WorldAt(w, events, n).book.orders
    ensures var b := After(w, events).book;
      id in b.orders && b.orders[id].request == WorldAt(w, events, n).book.orders[id].request
  {
    hide RunCycle, Sane, HonestRun;
    RunStands(w, events, n, |events|);
    assert events[..|events|] == events;
  }

  lemma LinkStands(w: World, events: seq<Event>, n: nat, x: ClientId, y: ClientId)
    requires Sane(w) && AllValid(events) && HonestRun(w, events) && ReplacedAt(w, events, n, x, y)
    ensures var b := After(w, events).book;
      && x in b.orders && b.orders[x].request == WorldAt(w, events, n).book.orders[x].request
      && y in b.orders && b.orders[y].request == WorldAt(w, events, n + 1).book.orders[y].request
  {
    hide After, WorldAt, Sane, HonestRun;
    RowStays(w, events, n, x);
    RowStays(w, events, n + 1, y);
  }

  lemma RestOfChain(w: World, events: seq<Event>, at: seq<nat>, ids: seq<ClientId>)
    requires AllValid(events) && UrgentChain(w, events, at, ids) && at != []
    ensures UrgentChain(w, events, at[1..], ids[1..])
  {
    hide UrgentLink;
    forall k | 0 <= k < |at| - 1 ensures UrgentLink(w, events, at[1..][k], ids[1..][k], ids[1..][k + 1]) {
      assert UrgentLink(w, events, at[k + 1], ids[k + 1], ids[k + 2]);
    }
  }

  lemma ReplacementTakesSide(o: Resting, v: Visit, cap: real)
    requires UrgentVisit(o, v, cap).Replace?
    ensures SideAfter(o.isCredit, v) == AfterVisit(o, v, cap).isCredit
  {
  }

  /** A chain is a sequence of visits that all replace. */
  lemma {:induction false} ChainVisits(w: World, events: seq<Event>, at: seq<nat>, ids: seq<ClientId>, cap: real)
    returns (visits: seq<Visit>)
    requires Sane(w) && AllValid(events) && HonestRun(w, events) && UrgentChain(w, events, at, ids)
    requires ids[0] in After(w, events).book.orders
    requires UrgentDebitCap(After(w, events).book.orders[ids[0]].request.legs) == Some(cap)
    ensures var b := After(w, events).book;
      && (forall id <- ids :: id in b.orders)
      && Replacements(RestingAs(b.orders[ids[0]].request), visits, cap) == |at|
      && Flips(b.orders[ids[0]].request.isCredit, visits) == SideChanges(ids, b)
    decreases at
  {
    hide RunCycle, Sane, HonestRun, UrgentVisit, AfterVisit, SideAfter, UrgentDebitCap, ReplacedAt, UrgentAt, After,
         WorldAt;
    var b := After(w, events).book;
    if at == [] {
      visits := [];
    } else {
      assert UrgentLink(w, events, at[0], ids[0], ids[1]);
      LinkStands(w, events, at[0], ids[0], ids[1]);
      var v := ReplacementIsVisit(w, events, at[0], ids[0], ids[1], cap);
      ReplacementTakesSide(RestingAs(b.orders[ids[0]].request), v, cap);
      RestOfChain(w, events, at, ids);
      var later := ChainVisits(w, events, at[1..], ids[1..], cap);
      visits := [v] + later;
      assert visits[1..] == later;
      assert forall id <- ids :: id == ids[0] || id in ids[1..];
    }
  }

  /** In every run, however long it is and whatever the sync, the quotes and the broker's answers: along a chain
      of closes of which each replaced the one before as an urgent one, there are at most three replacements plus
      one for every change of side. */
  lemma UrgentChainSettles(w: World, events: seq<Event>, at: seq<nat>, ids: seq<ClientId>)
    requires Sane(w) && AllValid(events) && HonestRun(w, events) && UrgentChain(w, events, at, ids)
    requires ids[0] in After(w, events).book.orders
    requires UrgentDebitCap(After(w, events).book.orders[ids[0]].request.legs).Some?
    ensures forall id <- ids :: id in After(w, events).book.orders
    ensures |at| <= 3 + SideChanges(ids, After(w, events).book)
  {
    hide RunCycle, Sane, HonestRun, UrgentLink, Replacements, Flips, SideChanges;
    var first := After(w, events).book.orders[ids[0]].request;
    var cap := UrgentDebitCap(first.legs).value;
    var visits := ChainVisits(w, events, at, ids, cap);
    UrgentCloseSettles(RestingAs(first), visits, first.isCredit, cap);
  }
}
