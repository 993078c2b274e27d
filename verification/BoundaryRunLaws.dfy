/** The session boundary over runs of cycles. */
module BoundaryRunLaws {
  import opened Common
  import opened Schemas
  import opened Clock
  import opened Orders
  import opened Execution
  import opened Ledger
  import opened LedgerLaws
  import opened Lifecycle
  import opened LifecycleLaws
  import opened EntryLaws
  import opened BoundaryLaws
  import opened Candidates
  import opened Events
  import opened Risk
  import opened Equity
  import opened Cycle
  import opened CycleLaws
  import opened AuthorityLaws
  import L = DailyLoss

  // --------------------------------------------------------------------- begun keys

  /** Every order in the ledger carries the key of a cycle that was begun. */
  ghost predicate KeysBegun(w: World) { forall id :: id in w.book.orders ==> id.cycle in w.cycles }

  /** Only orders of this cycle are added. */
  ghost predicate AddsOnly(b: Book, b': Book, cycle: int) {
    forall id :: id in b'.orders ==> id in b.orders || id.cycle == cycle
  }

  lemma HandlePendingAdds(s: PassState, o: Order, env: CycleEnv)
    ensures AddsOnly(s.book, HandlePending(s, o, env).book, env.cycle)
  {
    hide Settle, StaleOrderAction, Terms;
    var r := env.poll(o.request.id);
    if r.Some? && r.value.status.Terminal() {
      SettleIsAnEdit(s, o, r.value, env);
      SettledRows(s, o, r.value, Settle(s, o, r.value, env));
    } else if NextAction(o, env).Replace? {
      ReplacementIds(o, env);
    }
  }

  lemma HandleManagedAdds(s: PassState, m: Managed, env: CycleEnv)
    ensures AddsOnly(s.book, HandleManaged(s, m, env).book, env.cycle)
  {
    hide ExitFor, CloseQuantity, CloseRequest, AllPresent;
    if m.structure.legs != [] && ExitFor(m, env).Exit? {
      var quantity, signal := CloseQuantity(m, env), ExitFor(m, env);
      BuiltCloseFields(m, env, CloseIdOf(m, env), quantity, signal);
    }
  }

  lemma {:induction false} PendingAdds(s: PassState, orders: seq<Order>, env: CycleEnv)
    ensures AddsOnly(s.book, HandleAllPending(s, orders, env).book, env.cycle)
  {
    hide HandlePending;
    if orders != [] {
      var n := |orders| - 1;
      PendingAdds(s, orders[..n], env);
      HandlePendingAdds(HandleAllPending(s, orders[..n], env), orders[n], env);
    }
  }

  lemma {:induction false} ManagedAdds(s: PassState, managed: seq<Managed>, env: CycleEnv)
    ensures AddsOnly(s.book, HandleAllManaged(s, managed, env).book, env.cycle)
  {
    hide HandleManaged;
    if managed != [] {
      var n := |managed| - 1;
      ManagedAdds(s, managed[..n], env);
      HandleManagedAdds(HandleAllManaged(s, managed[..n], env), managed[n], env);
    }
  }

  lemma PassAdds(b: Book, working: set<ClientId>, env: CycleEnv)
    ensures AddsOnly(b, Pass(b, working, env).book, env.cycle)
  {
    hide HandleAllPending, HandleAllManaged, PendingOf, ManagedOf;
    var s, u := StartPass(b, working, env), AfterPending(b, working, env);
    ReconcileParentsKeepsRows(b, FilledClosesOf(b.ids, b.orders));
    PendingAdds(s, Pending(s.book), env);
    ManagedAdds(u, OpenManaged(u.book), env);
  }

  lemma ChooseAdds(w: World, ctx: RiskContext, auction: seq<Candidate>, i: CycleInputs)
    requires forall c <- auction :: c.Valid()
    ensures var r := Choose(w, ctx, auction, i);
      AddsOnly(w.book, r.world.book, CycleKey(i.now)) && r.world.cycles == w.cycles
  {
    hide VerdictOf, L.Increased, Request.Valid, CandidateById;
    var decision := if auction == [] then ABSTENTION else i.decision;
    SelectedIsListed(auction, decision.candidateId);
  }

  lemma DecideAdds(w: World, synced: Book, ctx: RiskContext, i: CycleInputs)
    requires i.Valid()
    ensures var r := Decide(w, synced, ctx, i);
      AddsOnly(w.book, r.world.book, CycleKey(i.now)) && r.world.cycles == w.cycles
  {
    hide Choose, AllCandidates, ExcludedIds;
    var compiled := AllCandidates(COMPETITION_MACRO_EVENTS, i.snapshots, i.chains, i.now);
    if compiled.Success? {
      var listed := w.(book := w.book.(known := w.book.known + SymbolsOf(compiled.value)));
      var auction := Auction(compiled.value, ExcludedIds(compiled.value, synced, listed.book, i));
      if forall c <- auction :: c.Valid() {
        ChooseAdds(listed, ctx, auction, i);
      }
    }
  }

  lemma ActAdds(
    w: World, before: L.Control, l: L.LossInputs, status: L.LossStatus, clean: bool, i: CycleInputs, e: Summary)
    requires i.Valid()
    ensures var r := Act(w, before, l, status, clean, i, e);
      AddsOnly(w.book, r.world.book, CycleKey(i.now)) && r.world.cycles == w.cycles
  {
    hide Pass, Decide, ExitReason, OpenLoss, PendingUnderlyings, OpenUnderlyings, OpenCounts, AccountEquity;
    var equity := AccountEquity(before, l);
    var env := EnvFor(i, e, clean, equity, status);
    var pass := Pass(w.book, w.working, env);
    PassAdds(w.book, w.working, env);
    var maintained := w.(book := pass.book, working := pass.working);
    var ctx := RiskContextFor(w.book, i, e, clean, pass.incidents == [], equity, status, w.killed);
    DecideAdds(maintained, w.book, ctx, i);
  }

  lemma SyncKeepsKeys(w: World, i: CycleInputs)
    ensures SyncedBook(w.book, i).orders.Keys == w.book.orders.Keys
  {
    var b1 := PersistFills(w.book, i.activities);
    FillsKeepRows(w.book, i.activities);
    ReconcileKeepsRows(b1, i.reports, i.positions, i.live);
  }

  lemma CycleKeepsKeys(w: World, i: CycleInputs)
    requires i.Valid() && KeysBegun(w)
    ensures KeysBegun(RunCycle(w, i).world)
  {
    hide Act, SyncedBook, SyncClean, OpenLoss, OpenManaged, L.MarksPass, L.Observe;
    if CycleKey(i.now) !in w.cycles && i.raised != Some(ReadingBroker) {
      SyncKeepsKeys(w, i);
      var synced := Synced(Begun(w, i), i);
      var outcome := L.Observe(synced.controls, LossSeen(w, i));
      if i.raised != Some(ReadingMarket) && !outcome.failed {
        ActAdds(synced.(controls := outcome.controls), synced.controls[SessionDate(i.now)], LossSeen(w, i),
                StatusOf(outcome.controls, i.now), SyncClean(w.book, i), i, EquitySeen(w, i));
      }
    }
  }

  /** In every run the ledger holds orders of begun cycles only. */
  lemma {:induction false} RunKeepsKeys(w: World, events: seq<Event>)
    requires AllValid(events) && KeysBegun(w)
    ensures KeysBegun(After(w, events))
  {
    hide RunCycle;
    if events != [] {
      var n := |events| - 1;
      RunKeepsKeys(w, events[..n]);
      if events[n].CycleDue? {
        CycleKeepsKeys(After(w, events[..n]), events[n].inputs);
      }
    }
  }

  // -------------------------------------------------------------- the cycle's pass

  /** The maintenance pass of a cycle that gets that far. */
  ghost function EnvSeen(w: World, i: CycleInputs): CycleEnv {
    EnvFor(i, EquitySeen(w, i), SyncClean(w.book, i), CycleEquity(w, i), StatusOf(LossAfter(w, i), i.now))
  }

  ghost function PassSeen(w: World, i: CycleInputs): PassState {
    Pass(SyncedBook(w.book, i), i.stillWorking, EnvSeen(w, i))
  }

  /** A completed cycle without entry authority leaves the orders as its pass left them. */
  lemma ActIsItsPass(
    w: World, before: L.Control, l: L.LossInputs, status: L.LossStatus, clean: bool, i: CycleInputs, e: Summary)
    requires i.Valid() && !EntriesAllowed(i, e, clean, status)
    requires Act(w, before, l, status, clean, i, e).completed
    ensures var t := Pass(w.book, w.working, EnvFor(i, e, clean, AccountEquity(before, l), status));
      var after := Act(w, before, l, status, clean, i, e).world;
      && !t.failed && after.working == t.working
      && after.book.orders == t.book.orders && after.book.awards == t.book.awards
  {
    hide Pass, Decide, ExitReason, OpenLoss, PendingUnderlyings, OpenUnderlyings, OpenCounts, AccountEquity;
    var equity := AccountEquity(before, l);
    var pass := Pass(w.book, w.working, EnvFor(i, e, clean, equity, status));
    var maintained := w.(book := pass.book, working := pass.working);
    var ctx := RiskContextFor(w.book, i, e, clean, pass.incidents == [], equity, status, w.killed);
    assert NoAuthority(ctx);
    DecideAddsNothing(maintained, w.book, ctx, i);
  }

  lemma CycleIsItsPass(w: World, i: CycleInputs)
    requires i.Valid()
    ensures var r, t := RunCycle(w, i), PassSeen(w, i);
      r.completed && !MayEnter(w, i) ==>
        && !t.failed && r.world.working == t.working
        && r.world.book.orders == t.book.orders && r.world.book.awards == t.book.awards
  {
    hide Act, SyncedBook, SyncClean, OpenLoss, OpenManaged, L.MarksPass, L.Observe, EntriesAllowed, Pass;
    var r := RunCycle(w, i);
    if r.completed && !MayEnter(w, i) {
      var synced := Synced(Begun(w, i), i);
      var outcome := L.Observe(synced.controls, LossSeen(w, i));
      ActIsItsPass(synced.(controls := outcome.controls), synced.controls[SessionDate(i.now)], LossSeen(w, i),
                   StatusOf(outcome.controls, i.now), SyncClean(w.book, i), i, EquitySeen(w, i));
    }
  }

  /** From the session boundary on a production cycle has no entry authority. */
  lemma NoAuthorityAtBoundary(w: World, i: CycleInputs)
    requires i.production && !i.development && i.now >= SessionBoundary(i.now)
    ensures !MayEnter(w, i)
  {
    hide LossAfter, SyncClean, EquitySeen;
    if MayEnter(w, i) {
      AuthorityIsBounded(w, i);
      assert false;
    }
  }

  // ---------------------------------------------------------- structures and their rows

  /** An established opening order all of whose legs the broker holds. */
  predicate StandsInFull(b: Book, env: CycleEnv, id: ClientId) {
    && id in b.orders && b.orders[id].status.Established() && Joined(b.orders[id], b.awards)
    && var legs := b.awards[b.orders[id].run].structure.legs; legs != [] && AllPresent(legs, env)
  }

  /** Reviewing changes the status of reviewed rows only, and adds only closes. */
  ghost predicate ReviewedOnly(b: Book, s: PassState, managed: seq<Managed>) {
    && s.book.awards == b.awards
    && forall id :: id in s.book.orders ==>
         || s.book.orders[id].request.isClosing
         || (&& id in b.orders && s.book.orders[id] == b.orders[id].(status := s.book.orders[id].status)
             && (s.book.orders[id].status == b.orders[id].status || id in ManagedIds(managed)))
  }

  lemma MarkTouches(b: Book, s: PassState, managed: seq<Managed>, m: Managed, status: Status)
    requires ReviewedOnly(b, s, managed)
    ensures ReviewedOnly(b, s.Mark(m.id, status), managed + [m])
  {
    assert ManagedIds(managed + [m]) == ManagedIds(managed) + {m.id};
  }

  lemma SkipTouches(b: Book, s: PassState, t: PassState, managed: seq<Managed>, m: Managed)
    requires ReviewedOnly(b, s, managed) && t.book == s.book
    ensures ReviewedOnly(b, t, managed + [m])
  {
    assert ManagedIds(managed + [m]) == ManagedIds(managed) + {m.id};
  }

  lemma PersistTouches(
    b: Book, s: PassState, t: PassState, managed: seq<Managed>, run: RunId, request: Request, p: Placement)
    requires ReviewedOnly(b, s, managed) && request.isClosing && t.book == PersistOrder(s.book, run, request, p)
    ensures ReviewedOnly(b, t, managed)
  {
  }

  lemma SubmitTouches(b: Book, s: PassState, managed: seq<Managed>, m: Managed, signal: ExitSignal, env: CycleEnv)
    requires ReviewedOnly(b, s, managed) && signal.Exit? && m.structure.legs != []
    ensures ReviewedOnly(b, SubmitClose(s, m, signal, env), managed + [m])
  {
    hide ReviewedOnly, CloseRequest, CloseQuantity;
    var id, quantity := CloseIdOf(m, env), CloseQuantity(m, env);
    var t := SubmitClose(s, m, signal, env);
    var built := CloseRequest(m, env.quotes, id, quantity, signal.reason, signal.urgency);
    BuiltCloseFields(m, env, id, quantity, signal);
    if quantity >= 1 && id !in s.book.orders && built.Success? && env.place(id).Some? {
      var p := env.place(id).value;
      var u := s.(book := PersistOrder(s.book, env.run, built.value, p), working := s.working + {id});
      PersistTouches(b, s, u, managed, env.run, built.value, p);
      MarkTouches(b, u, managed, m, Status.Closing);
    } else {
      SkipTouches(b, s, t, managed, m);
    }
  }

  lemma ReviewTouches(b: Book, s: PassState, managed: seq<Managed>, m: Managed, env: CycleEnv)
    requires ReviewedOnly(b, s, managed)
    ensures ReviewedOnly(b, HandleManaged(s, m, env), managed + [m])
  {
    hide ReviewedOnly, ExitFor, SubmitClose;
    var legs, t := m.structure.legs, HandleManaged(s, m, env);
    if t.book == s.book {
      SkipTouches(b, s, t, managed, m);
    } else if !AnyPresent(legs, env) {
      MarkTouches(b, s, managed, m, Closed);
    } else if !AllPresent(legs, env) {
      MarkTouches(b, s, managed, m, ExternallyReduced);
      SameBookTouched(b, s.Mark(m.id, ExternallyReduced), t, managed + [m]);
    } else {
      SubmitTouches(b, s, managed, m, ExitFor(m, env), env);
    }
  }

  lemma SameBookTouched(b: Book, s: PassState, t: PassState, managed: seq<Managed>)
    requires ReviewedOnly(b, s, managed) && t.book == s.book
    ensures ReviewedOnly(b, t, managed)
  {
  }

  lemma {:induction false} ReviewsTouch(u: PassState, managed: seq<Managed>, env: CycleEnv)
    ensures ReviewedOnly(u.book, HandleAllManaged(u, managed, env), managed)
  {
    hide HandleManaged;
    if managed != [] {
      var n := |managed| - 1;
      ReviewsTouch(u, managed[..n], env);
      var s := HandleAllManaged(u, managed[..n], env);
      assert managed == managed[..n] + [managed[n]];
      assert ManagedIds(managed) == ManagedIds(managed[..n]) + {managed[n].id};
      ReviewTouches(u.book, s, managed[..n], managed[n], env);
    }
  }

  /** Every established joined row is listed, with its award's structure. */
  lemma {:induction false} EstablishedAreListed(
    ids: seq<ClientId>, orders: map<ClientId, Order>, awards: map<RunId, Award>, fills: seq<FillRow>, id: ClientId)
    requires id in ids && id in orders && orders[id].status.Established() && Joined(orders[id], awards)
    requires orders[id].request.id == id
    ensures exists m <- ManagedOf(ids, orders, awards, fills) :: IsRowOf(m, id, awards[orders[id].run])
  {
    var n := |ids| - 1;
    var earlier, all := ManagedOf(ids[..n], orders, awards, fills), ManagedOf(ids, orders, awards, fills);
    if id == ids[n] {
      assert IsRowOf(all[|all| - 1], id, awards[orders[id].run]);
    } else {
      EstablishedAreListed(ids[..n], orders, awards, fills, id);
      var m :| m in earlier && IsRowOf(m, id, awards[orders[id].run]);
      assert m in all;
    }
  }

  predicate IsRowOf(m: Managed, id: ClientId, a: Award) {
    m.id == id && m.candidate == a.candidate && m.structure.legs == a.structure.legs
  }

  /** A structure that stands after the pass was listed for review. */
  lemma StandingWasListed(u: PassState, env: CycleEnv, id: ClientId)
    requires Inv(u.book)
    requires StandsInFull(HandleAllManaged(u, OpenManaged(u.book), env).book, env, id)
    ensures id in u.book.orders && u.book.orders[id].run in u.book.awards
    ensures exists m <- OpenManaged(u.book) ::
      IsRowOf(m, id, u.book.awards[u.book.orders[id].run]) && HeldInFull(m, env)
  {
    hide HandleAllManaged, ManagedOf;
    var managed := OpenManaged(u.book);
    ReviewsTouch(u, managed, env);
    RowsAreKeyed(u.book);
    OpenManagedListed(u.book.ids, u.book, u.book.fills);
    if id in ManagedIds(managed) {
      var m :| m in managed && m.id == id;
      assert IsManaged(u.book, m);
    }
    EstablishedAreListed(u.book.ids, u.book.orders, u.book.awards, u.book.fills, id);
  }

  lemma PendingKeepsInv(b0: Book, working: set<ClientId>, env: CycleEnv)
    requires Inv(b0) && OneOpenClose(b0, working) && ClosesListed(b0, working) && HonestPoll(working, env)
    ensures Inv(AfterPending(b0, working, env).book)
  {
    var s := StartPass(b0, working, env);
    var pending := Pending(s.book);
    StartPassKeeps(b0, working, env);
    FirstLoopKeeps(b0, s.book, working, s, pending, |pending|, env);
    assert pending[..|pending|] == pending;
  }

  // ------------------------------------------------------------------------- theorem

  /** The broker may execute a close of this candidate. */
  ghost predicate CloseAtBroker(w: World, name: CandidateName) {
    exists id ::
      && id in w.working && id in w.book.orders
      && w.book.orders[id].request.isClosing && w.book.orders[id].request.candidate.name == name
  }

  /** The pass noted that a structure has nothing to close or no executable quote. */
  predicate Obstructed(t: PassState) { CloseZeroQuantity in t.incidents || CloseIncompleteQuotes in t.incidents }

  ghost predicate Flattening(b: Book, env: CycleEnv, t: PassState, after: World, name: CandidateName) {
    || CloseAtBroker(after, name)
    || JustFilled(b, env, name, false)
    || (JustFilled(b, env, name, true) && Disputed(t))
    || Obstructed(t)
  }

  lemma PassFlattens(b: Book, working: set<ClientId>, env: CycleEnv, after: World, id: ClientId)
    requires Inv(b) && OneOpenClose(b, working) && ClosesListed(b, working) && HonestPoll(working, env)
    requires FreshKey(b, env.cycle) && AtBoundary(env) && !env.allowEntries && !Pass(b, working, env).failed
    requires var t := Pass(b, working, env);
      after.working == t.working && after.book.orders == t.book.orders && after.book.awards == t.book.awards
    requires StandsInFull(after.book, env, id)
    ensures var name := after.book.awards[after.book.orders[id].run].candidate;
      Flattening(b, env, Pass(b, working, env), after, name)
  {
    hide AfterPending, HandleAllManaged, ManagedOf, FreshKey, JustFilled, Inv, OneOpenClose, ClosesListed;
    var u, t := AfterPending(b, working, env), Pass(b, working, env);
    PendingKeepsInv(b, working, env);
    assert StandsInFull(t.book, env, id);
    StandingWasListed(u, env, id);
    ReviewsTouch(u, OpenManaged(u.book), env);
    StandingIsEntry(t.book, env, id);
    var m :| m in OpenManaged(u.book) && IsRowOf(m, id, u.book.awards[u.book.orders[id].run]) && HeldInFull(m, env);
    BoundaryPassCloses(b, working, env, m);
    if CloseLive(t, m.candidate) {
      var x :| LiveCloseAs(t, m.candidate, x);
      assert x in after.working && x in after.book.orders;
    }
  }

  lemma StandingIsEntry(b: Book, env: CycleEnv, id: ClientId)
    requires StandsInFull(b, env, id)
    ensures !b.orders[id].request.isClosing
  {
  }

  /** In every run: a completed cycle at or after the session boundary, with the market open and no entry
      authority, leaves no established structure whose legs are all held without a close of its candidate at the
      broker; unless its entry filled only in this cycle, or a disputed fill of its close, an unquoted leg or
      nothing to close is noted. In production there is never entry authority then. */
  lemma BoundaryOverRuns(w: World, events: seq<Event>, k: nat, id: ClientId)
    requires Sane(w) && KeysBegun(w) && AllValid(events) && HonestRun(w, events)
    requires k < |events| && events[k].CycleDue?
    requires var i := events[k].inputs; i.marketOpen && i.now >= SessionBoundary(i.now)
    ensures var u, r, i := WorldAt(w, events, k), ResultAt(w, events, k), events[k].inputs;
      r.completed && (!MayEnter(u, i) || (i.production && !i.development))
        && StandsInFull(r.world.book, EnvSeen(u, i), id) ==>
        var name := r.world.book.awards[r.world.book.orders[id].run].candidate;
        Flattening(SyncedBook(u.book, i), EnvSeen(u, i), PassSeen(u, i), r.world, name)
  {
    hide SyncedBook, SyncClean, MayEnter, Pass, Flattening, StandsInFull, ExitReason, Proceed, CycleEquity, LossAfter,
         Inv, EntriesAllowed;
    var u, r, i := WorldAt(w, events, k), ResultAt(w, events, k), events[k].inputs;
    if i.production && !i.development {
      NoAuthorityAtBoundary(u, i);
    }
    if r.completed && !MayEnter(u, i) && StandsInFull(r.world.book, EnvSeen(u, i), id) {
      PrefixHonest(w, events, k);
      RunStaysSane(w, events[..k]);
      RunKeepsKeys(w, events[..k]);
      assert HonestAt(w, events, k);
      SyncKeepsSane(u, i);
      SyncedIsFresh(u, i);
      CycleIsItsPass(u, i);
      AuthorityOfEnv(u, i);
      PassFlattens(SyncedBook(u.book, i), i.stillWorking, EnvSeen(u, i), r.world, id);
    }
  }

  lemma SyncedIsFresh(w: World, i: CycleInputs)
    requires KeysBegun(w) && i.Valid() && RunCycle(w, i).completed
    ensures FreshKey(SyncedBook(w.book, i), CycleKey(i.now))
  {
    hide Proceed, SyncedBook;
    SyncKeepsKeys(w, i);
    forall id | id in SyncedBook(w.book, i).orders ensures id.cycle != CycleKey(i.now) {
      assert id in w.book.orders;
    }
  }

  lemma AuthorityOfEnv(w: World, i: CycleInputs)
    ensures EnvSeen(w, i).allowEntries == MayEnter(w, i)
    ensures var env := EnvSeen(w, i);
      env.cycle == CycleKey(i.now) && env.now == i.now && env.marketOpen == i.marketOpen && env.poll == i.poll
  {
    hide SyncClean, CycleEquity, LossAfter, EntriesAllowed, ExitReason;
  }
}
