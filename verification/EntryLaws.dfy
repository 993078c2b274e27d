/** Which opening orders the broker may still execute after a cycle without entry authority. */
module EntryLaws {
  import opened Common
  import opened Schemas
  import opened Orders
  import opened Execution
  import opened Inventory
  import opened Ledger
  import opened LedgerLaws
  import opened Lifecycle
  import opened LifecycleLaws

  /** Rows are never lost and never change what they ask for. */
  ghost predicate RowsStand(b: Book, b': Book) {
    forall id :: id in b.orders ==> id in b'.orders && b'.orders[id].request == b.orders[id].request
  }

  predicate WorkingEntry(b: Book, working: set<ClientId>, id: ClientId) {
    id in working && id in b.orders && b.orders[id].IsEntry()
  }

  /** The pass so far: orders it has not had to visit are where they were, and an opening order that may
      still execute either awaits its visit or was not pending. */
  ghost predicate Frontier(b1: Book, w1: set<ClientId>, s: PassState, rest: set<ClientId>) {
    && RowsStand(b1, s.book)
    && (forall id :: id in w1 && id in b1.orders && !b1.orders[id].Pending() ==> id in s.working)
    && (forall id :: WorkingEntry(s.book, s.working, id) ==>
          id in w1 && id in b1.orders && (id in rest || !b1.orders[id].Pending()))
  }

  lemma MarkStands(b: Book, id: ClientId, status: Status)
    ensures RowsStand(b, MarkStatus(b, id, status))
  {
  }

  lemma CloseParentStands(b: Book, name: CandidateName, parent: Option<ClientId>, quantity: nat)
    ensures RowsStand(b, CloseParent(b, name, parent, quantity).0)
  {
  }

  /** A step that only edits statuses, and takes off at most the order under visit. */
  lemma EditKeepsFrontier(b1: Book, w1: set<ClientId>, s: PassState, t: PassState, rest: set<ClientId>, id: ClientId)
    requires Frontier(b1, w1, s, rest + {id}) && RowsStand(s.book, t.book) && t.book.orders.Keys == s.book.orders.Keys
    requires id in b1.orders && b1.orders[id].Pending() && t.working == s.working - {id}
    ensures Frontier(b1, w1, t, rest)
  {
  }

  /** So does a replacement of a close. */
  lemma CloseAddedKeepsFrontier(
    b1: Book, w1: set<ClientId>, s: PassState, t: PassState, rest: set<ClientId>, request: Request, run: RunId,
    p: Placement)
    requires Frontier(b1, w1, s, rest) && request.isClosing && request.id !in s.book.orders
    requires t.book == PersistOrder(s.book, run, request, p) && t.working == s.working + {request.id}
    ensures Frontier(b1, w1, t, rest)
  {
  }

  /** A close that waits or stays unseen leaves every opening order where it was. */
  lemma CloseVisitedKeepsFrontier(
    b1: Book, w1: set<ClientId>, s: PassState, t: PassState, rest: set<ClientId>, id: ClientId)
    requires Frontier(b1, w1, s, rest + {id}) && t.book == s.book && t.working == s.working
    requires id in b1.orders && !b1.orders[id].IsEntry()
    ensures Frontier(b1, w1, t, rest)
  {
  }

  lemma SettleFrontier(
    b1: Book, w1: set<ClientId>, s: PassState, o: Order, rest: set<ClientId>, env: CycleEnv, r: BrokerReport)
    requires Frontier(b1, w1, s, rest + {o.request.id})
      && o.request.id in b1.orders && b1.orders[o.request.id].Pending()
    ensures Frontier(b1, w1, Settle(s, o, r, env), rest)
  {
    hide Settle, Frontier, RowsStand;
    var id, name := o.request.id, o.request.candidate.name;
    var t := s.Mark(id, SettledStatus(o, r)).(working := s.working - {id});
    var u := Settle(s, o, r, env);
    SettleIsAnEdit(s, o, r, env);
    SettledRows(s, o, r, u);
    EditKeepsFrontier(b1, w1, s, u, rest, id);
  }

  lemma SettledRows(s: PassState, o: Order, r: BrokerReport, u: PassState)
    requires var t := s.Mark(o.request.id, SettledStatus(o, r)).(working := s.working - {o.request.id});
      || u.book == t.book
      || u.book == CloseParent(t.book, o.request.candidate.name, o.request.parent, o.request.quantity).0
    ensures RowsStand(s.book, u.book) && u.book.orders.Keys == s.book.orders.Keys
  {
    var t := s.Mark(o.request.id, SettledStatus(o, r));
    MarkStands(s.book, o.request.id, SettledStatus(o, r));
    CloseParentStands(t.book, o.request.candidate.name, o.request.parent, o.request.quantity);
  }

  lemma MaintainFrontier(b1: Book, w1: set<ClientId>, s: PassState, o: Order, rest: set<ClientId>, env: CycleEnv)
    requires Frontier(b1, w1, s, rest + {o.request.id}) && o.request.id in b1.orders && b1.orders[o.request.id] == o
    requires o.Pending() && !env.allowEntries && !Maintain(s, o, env).failed && !s.failed
    ensures Frontier(b1, w1, Maintain(s, o, env), rest)
  {
    hide Frontier, RowsStand, StaleOrderAction, ReplacementRequest, Terms;
    var id := o.request.id;
    var action := NextAction(o, env);
    var m := Maintain(s, o, env);
    if action.Wait? {
      CloseVisitedKeepsFrontier(b1, w1, s, m, rest, id);
    } else {
      var status := if o.IsEntry() && o.status.PartiallyFilled? then PartiallyFilledCanceled else Canceled;
      var t := s.Mark(id, status).(working := s.working - {id});
      MarkStands(s.book, id, status);
      EditKeepsFrontier(b1, w1, s, t, rest, id);
      if action.Replace? && env.marketOpen && o.request.isClosing {
        ReplacementCloses(o, env);
        var request := Replacement(o, env);
        if request.id in t.book.orders {
          SameFrontier(b1, w1, t, m, rest);
        } else {
          CloseAddedKeepsFrontier(b1, w1, t, m, rest, request, o.run, env.place(request.id).value);
        }
      }
    }
  }

  lemma ReplacementCloses(o: Order, env: CycleEnv)
    requires NextAction(o, env).Replace?
    ensures Replacement(o, env).isClosing == o.request.isClosing
  {
  }

  lemma SameFrontier(b1: Book, w1: set<ClientId>, s: PassState, t: PassState, rest: set<ClientId>)
    requires Frontier(b1, w1, s, rest) && t.book == s.book && t.working == s.working
    ensures Frontier(b1, w1, t, rest)
  {
  }

  lemma HandlePendingFrontier(b1: Book, w1: set<ClientId>, s: PassState, o: Order, rest: set<ClientId>, env: CycleEnv)
    requires Frontier(b1, w1, s, rest + {o.request.id}) && o.request.id in b1.orders && b1.orders[o.request.id] == o
    requires o.Pending() && !env.allowEntries && !s.failed && !HandlePending(s, o, env).failed
    ensures Frontier(b1, w1, HandlePending(s, o, env), rest)
  {
    hide Frontier, Settle, Maintain;
    var r := env.poll(o.request.id);
    if r.Some? {
      if r.value.status.Terminal() {
        SettleFrontier(b1, w1, s, o, rest, env, r.value);
      } else if o.request.isClosing && o.request.parent.None? {
        CloseVisitedKeepsFrontier(b1, w1, s, HandlePending(s, o, env), rest, o.request.id);
      } else {
        MaintainFrontier(b1, w1, s, o, rest, env);
      }
    }
  }

  lemma {:induction false} FirstLoopFrontier(
    b1: Book, w1: set<ClientId>, s: PassState, orders: seq<Order>, n: nat, env: CycleEnv)
    requires n <= |orders| && Listed(b1, orders) && !env.allowEntries && Frontier(b1, w1, s, IdsOf(orders))
    requires !s.failed && !HandleAllPending(s, orders[..n], env).failed
    ensures Frontier(b1, w1, HandleAllPending(s, orders[..n], env), IdsOf(orders[n..]))
  {
    hide Frontier, HandlePending;
    if n == 0 {
      assert orders[..0] == [] && orders[0..] == orders;
    } else {
      assert orders[..n][..n - 1] == orders[..n - 1];
      FirstLoopFrontier(b1, w1, s, orders, n - 1, env);
      RestOfListing(b1, orders, n - 1);
      assert orders[n - 1] in orders;
      HandlePendingFrontier(b1, w1, HandleAllPending(s, orders[..n - 1], env), orders[n - 1], IdsOf(orders[n..]), env);
    }
  }

  lemma SubmitCloseFrontier(
    b1: Book, w1: set<ClientId>, s: PassState, m: Managed, signal: ExitSignal, env: CycleEnv, quantity: nat)
    requires Frontier(b1, w1, s, {}) && signal.Exit?
    ensures Frontier(b1, w1, SubmitCloseOf(s, m, signal, env, quantity), {})
  {
    hide Frontier, CloseRequest;
    var id := ClientId(env.cycle, CandidateId.Closing(m.candidate), quantity, 0);
    var t := SubmitCloseOf(s, m, signal, env, quantity);
    var built := CloseRequest(m, env.quotes, id, quantity, signal.reason, signal.urgency);
    if quantity >= 1 && id !in s.book.orders && built.Success? && env.place(id).Some? {
      BuiltCloseId(m, env, id, quantity, signal);
      var p := env.place(id).value;
      var u := s.(book := PersistOrder(s.book, env.run, built.value, p), working := s.working + {id});
      CloseAddedKeepsFrontier(b1, w1, s, u, {}, built.value, env.run, p);
      MarkFrontier(b1, w1, u, m.id, Status.Closing);
    } else {
      SameFrontier(b1, w1, s, t, {});
    }
  }

  lemma BuiltCloseId(m: Managed, env: CycleEnv, id: ClientId, quantity: nat, signal: ExitSignal)
    requires signal.Exit? && CloseRequest(m, env.quotes, id, quantity, signal.reason, signal.urgency).Success?
    ensures var r := CloseRequest(m, env.quotes, id, quantity, signal.reason, signal.urgency).value;
      r.id == id && r.isClosing
  {
  }

  lemma MarkFrontier(b1: Book, w1: set<ClientId>, s: PassState, id: ClientId, status: Status)
    requires Frontier(b1, w1, s, {})
    ensures Frontier(b1, w1, s.Mark(id, status), {})
  {
  }

  lemma HandleManagedFrontier(b1: Book, w1: set<ClientId>, s: PassState, m: Managed, env: CycleEnv)
    requires Frontier(b1, w1, s, {})
    ensures Frontier(b1, w1, HandleManaged(s, m, env), {})
  {
    hide Frontier, ExitFor, SubmitCloseOf, CloseQuantity;
    var legs := m.structure.legs;
    var t := HandleManaged(s, m, env);
    if m.candidate in s.filledEntries || m.candidate in s.active {
    } else if !AnyPresent(legs, env) {
      MarkFrontier(b1, w1, s, m.id, Closed);
    } else if !AllPresent(legs, env) {
      MarkFrontier(b1, w1, s, m.id, ExternallyReduced);
      SameFrontier(b1, w1, s.Mark(m.id, ExternallyReduced), t, {});
    } else if env.marketOpen && ExitFor(m, env).Exit? {
      SubmitCloseFrontier(b1, w1, s, m, ExitFor(m, env), env, CloseQuantity(m, env));
    }
  }

  lemma {:induction false} SecondLoopFrontier(
    b1: Book, w1: set<ClientId>, s: PassState, managed: seq<Managed>, env: CycleEnv)
    requires Frontier(b1, w1, s, {})
    ensures Frontier(b1, w1, HandleAllManaged(s, managed, env), {})
  {
    hide Frontier, HandleManaged;
    if managed != [] {
      var n := |managed| - 1;
      SecondLoopFrontier(b1, w1, s, managed[..n], env);
      var t := HandleAllManaged(s, managed[..n], env);
      if !t.failed {
        HandleManagedFrontier(b1, w1, t, managed[n], env);
      }
    }
  }

  lemma StartFrontier(b1: Book, w1: set<ClientId>, s: PassState, rest: set<ClientId>)
    requires s.book == b1 && s.working == w1 && forall id :: id in b1.orders && b1.orders[id].Pending() ==> id in rest
    ensures Frontier(b1, w1, s, rest)
  {
  }

  lemma EndFrontier(b0: Book, b1: Book, w1: set<ClientId>, t: PassState)
    requires Frontier(b1, w1, t, {}) && RowsStand(b0, b1) && b0.orders.Keys == b1.orders.Keys
    requires forall id :: id in b0.orders ==> b0.orders[id].Pending() == b1.orders[id].Pending()
    ensures forall id :: WorkingEntry(t.book, t.working, id) <==> WorkingEntry(b0, w1, id) && !b0.orders[id].Pending()
  {
  }

  /** A completed pass without entry authority leaves the broker able to execute exactly those opening
      orders that were working there although the ledger no longer listed them as pending. */
  lemma PassLeavesEntries(b0: Book, working: set<ClientId>, env: CycleEnv)
    requires Inv(b0) && !env.allowEntries && !Pass(b0, working, env).failed
    ensures var t := Pass(b0, working, env);
      forall id :: WorkingEntry(t.book, t.working, id) <==> WorkingEntry(b0, working, id) && !b0.orders[id].Pending()
  {
    hide Frontier, WorkingEntry, HandleAllPending, HandleAllManaged, ReconcileFilledParents, PendingOf, ManagedOf;
    var s := StartPass(b0, working, env);
    var b1 := s.book;
    var pending := Pending(b1);
    ParentsReconciled(b0);
    RowsAreKeyed(b1);
    PendingListed(b1.ids, b1);
    StartFrontier(b1, working, s, IdsOf(pending));
    assert pending[..|pending|] == pending && pending[|pending|..] == [];
    FirstLoopFrontier(b1, working, s, pending, |pending|, env);
    var u := AfterPending(b0, working, env);
    assert IdsOf([]) == {};
    SecondLoopFrontier(b1, working, u, OpenManaged(u.book), env);
    EndFrontier(b0, b1, working, Pass(b0, working, env));
  }

  // -------------------------------------------------------------------- an example

  const LEG := Leg("A", "SPY", 0, Call, 500.0, Buy, BuyToOpen, 1, 1.0, 1.1, None, None, None, None)
  const NAME := CandidateName("SPY", CallDebitSpread, 0, [500.0])
  const STRUCTURE := Structure(CallDebitSpread, "SPY", 0, [LEG], 1.0, 100.0, 400.0, false)
  const ENTRY_ID := ClientId(0, Opening(NAME), 1, 0)
  const LISTED_ROW :=
    Order(0, New, 1, 0, Request(ENTRY_ID, Opening(NAME), 1, 1.0, false, [LEG], 0, false, None, None, None, None))
  const MATCHED_ROW := LISTED_ROW.(status := Filled, remaining := 0)

  /** One opening order, as `row`. */
  function OneOrder(row: Order): Book {
    Book([ENTRY_ID], map[ENTRY_ID := row], map[0 := Award(100.0, 1, NAME, STRUCTURE, 0)], {"A"}, [])
  }

  const REPORTS := [BrokerOrder(ENTRY_ID, Some(New), 1)]
  const POSITIONS: Holdings := map["A" := 1]

  /** The market is closed and entries are not allowed. */
  const ENV := CycleEnv(
    1, 300, 300, false, false, false, false, POSITIONS, map[], None, x => None, x => false, x => None)

  lemma ExampleIsSound()
    ensures Inv(OneOrder(LISTED_ROW))
  {
    var b := OneOrder(LISTED_ROW);
    assert LISTED_ROW.request.Valid();
    forall id | id in b.orders ensures RowAt(b, id) {
      assert EntryOk(LISTED_ROW, b.awards);
    }
  }

  lemma ExampleExposure()
    ensures ExposureRows(OneOrder(LISTED_ROW)) == [Exposure(ENTRY_ID, New, [LEG], 1)]
  {
    var b := OneOrder(LISTED_ROW);
    assert [ENTRY_ID][..0] == [];
    assert BySubmission(b.ids, b.orders) == [ENTRY_ID];
    assert ExposureOf(ENTRY_ID, b.orders, b.awards) == [Exposure(ENTRY_ID, New, [LEG], 1)];
    assert ExposuresOf([ENTRY_ID], b.orders, b.awards) == [] + ExposureOf(ENTRY_ID, b.orders, b.awards);
  }

  lemma ExampleMatches()
    ensures Normalize([Exposure(ENTRY_ID, New, [LEG], 1)], POSITIONS) == [Exposure(ENTRY_ID, Filled, [LEG], 1)]
  {
    var e := Exposure(ENTRY_ID, New, [LEG], 1);
    assert [e][..0] == [] && EstablishedClaims([e]) == [];
    assert Covers(POSITIONS, e.Claims());
    assert ReserveAll(POSITIONS, []) == POSITIONS && Promote([], POSITIONS) == ([], POSITIONS);
    assert Promote([e], POSITIONS).0 == [] + [e.(status := Filled)];
  }

  lemma ExampleSync()
    ensures ReconcileBroker(OneOrder(LISTED_ROW), REPORTS, POSITIONS, true) == OneOrder(MATCHED_ROW)
  {
    hide Normalize, ExposuresOf, BySubmission;
    var b := OneOrder(LISTED_ROW);
    assert REPORTS[..0] == [] && [ENTRY_ID][..0] == [];
    assert SyncOrder(b, REPORTS[0]).orders == b.orders;
    assert SyncOrders(b, REPORTS) == SyncOrder(SyncOrders(b, []), REPORTS[0]);
    assert SyncOrders(b, REPORTS) == b;
    ExampleExposure();
    ExampleMatches();
    var before, after := [Exposure(ENTRY_ID, New, [LEG], 1)], [Exposure(ENTRY_ID, Filled, [LEG], 1)];
    assert before[..0] == [] && after[..0] == [];
    assert WriteBack(b, before, after) == WriteRow(b, before[0], after[0]);
    var matched := OneOrder(MATCHED_ROW);
    assert matched.orders == WriteRow(b, before[0], after[0]).orders;
    assert NormalizeBook(b, POSITIONS) == matched;
    assert CloseAbsent(matched, matched.ids, POSITIONS) == CloseAbsent(matched, [], POSITIONS);
  }

  lemma ExampleListings()
    ensures var b := OneOrder(MATCHED_ROW);
      Pending(b) == [] && ReconcileFilledParents(b) == b && !MATCHED_ROW.Pending()
  {
    var b := OneOrder(MATCHED_ROW);
    assert [ENTRY_ID][..0] == [];
    assert FilledClosesOf([ENTRY_ID], b.orders) == FilledClosesOf([], b.orders) + [];
    assert PendingOf([ENTRY_ID], b) == PendingOf([], b) + [];
  }

  lemma ExampleManaged()
    ensures OpenManaged(OneOrder(MATCHED_ROW)) == [ManagedRow(MATCHED_ROW, Award(100.0, 1, NAME, STRUCTURE, 0), None)]
  {
    var b := OneOrder(MATCHED_ROW);
    var a := Award(100.0, 1, NAME, STRUCTURE, 0);
    assert [ENTRY_ID][..0] == [];
    assert OpeningPrice(MATCHED_ROW, STRUCTURE, []) == None by {
      assert FillsOf([], ENTRY_ID) == [];
    }
    assert b.orders[ENTRY_ID] == MATCHED_ROW && b.awards[0] == a && Joined(MATCHED_ROW, b.awards);
    assert ManagedOf([ENTRY_ID], b.orders, b.awards, [])
           == ManagedOf([], b.orders, b.awards, []) + [ManagedRow(MATCHED_ROW, a, None)];
  }

  /** With every leg held and the market closed the pass leaves the structure alone. */
  lemma ExampleHeld(s: PassState, m: Managed)
    requires m.structure.legs == [LEG] && s.active == {} && s.filledEntries == {}
    ensures HandleManaged(s, m, ENV) == s
  {
    assert PositionSize(ENV, [LEG][0].symbol) == 1;
  }

  lemma ExamplePass()
    ensures var t := Pass(OneOrder(MATCHED_ROW), {ENTRY_ID}, ENV);
      !t.failed && NoPendingEntry(t.book) && WorkingEntry(t.book, t.working, ENTRY_ID)
  {
    hide HandleManaged, OpenManaged, ReconcileFilledParents, Pending, ExitFor;
    var b := OneOrder(MATCHED_ROW);
    ExampleListings();
    ExampleManaged();
    var s := StartPass(b, {ENTRY_ID}, ENV);
    assert s == PassState(b, {ENTRY_ID}, {}, {}, [], false);
    var managed := OpenManaged(b);
    assert managed[..0] == [];
    ExampleHeld(s, managed[0]);
    assert AfterPending(b, {ENTRY_ID}, ENV) == s;
    assert HandleAllManaged(s, managed, ENV) == HandleManaged(HandleAllManaged(s, [], ENV), managed[0], ENV);
    assert Pass(b, {ENTRY_ID}, ENV) == s;
    assert b.orders.Keys == {ENTRY_ID};
  }

  /** Such orders exist: an opening order the broker still lists as new, whose leg a position covers, is
      recorded as filled; the pass then finds nothing pending and leaves it working. */
  lemma MatchedEntryKeepsWorking()
    ensures exists b: Book, working: set<ClientId>, reports: seq<BrokerOrder>, positions: Holdings, env: CycleEnv, id ::
      && Inv(b) && !env.allowEntries
      && (forall r <- reports :: r.status.Some? && r.status.value.Working() && r.remaining >= 1)
      && var t := Pass(ReconcileBroker(b, reports, positions, true), working, env);
         !t.failed && NoPendingEntry(t.book) && WorkingEntry(t.book, t.working, id)
  {
    hide ReconcileBroker, Pass, NoPendingEntry, WorkingEntry, OneOrder;
    ExampleIsSound();
    ExampleSync();
    ExamplePass();
    assert !ENV.allowEntries;
    assert var t := Pass(ReconcileBroker(OneOrder(LISTED_ROW), REPORTS, POSITIONS, true), {ENTRY_ID}, ENV);
      !t.failed && NoPendingEntry(t.book) && WorkingEntry(t.book, t.working, ENTRY_ID);
  }
}
