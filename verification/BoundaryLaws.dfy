/** From the session boundary on no structure is left without a close. */
module BoundaryLaws {
  import opened Common
  import opened Clock
  import opened Schemas
  import opened Orders
  import opened Execution
  import opened Ledger
  import opened LedgerLaws
  import opened Lifecycle
  import opened LifecycleLaws
  import opened EntryLaws

  predicate AtBoundary(env: CycleEnv) { env.marketOpen && env.now >= SessionBoundary(env.now) }

  /** Every exit evaluation from the boundary on is an urgent exit, whatever else forces it. */
  lemma BoundaryExits(m: Managed, env: CycleEnv)
    requires AtBoundary(env)
    ensures ExitFor(m, env).Exit? && ExitFor(m, env).urgency == Urgent
  {
    hide ClosingCash;
  }

  // -------------------------------------------------------------- open structures

  /** The id of the close a review of this structure would submit. */
  function CloseIdOf(m: Managed, env: CycleEnv): ClientId
    requires m.structure.legs != []
  {
    ClientId(env.cycle, CandidateId.Closing(m.candidate), CloseQuantity(m, env), 0)
  }

  /** An urgent close of all of this structure that can be closed, live at the broker. */
  predicate UrgentlyClosed(s: PassState, m: Managed, env: CycleEnv)
    requires m.structure.legs != []
  {
    var id := CloseIdOf(m, env);
    && id in s.working && id in s.book.orders
    && var r := s.book.orders[id].request;
       && r.isClosing && r.candidate == CandidateId.Closing(m.candidate) && r.parent == Some(m.id)
       && r.urgency == Some(Urgent) && r.quantity == CloseQuantity(m, env)
  }

  predicate SharesClose(x: Managed, m: Managed, env: CycleEnv)
    requires m.structure.legs != []
  {
    x.structure.legs != [] && CloseIdOf(x, env) == CloseIdOf(m, env)
  }

  /** One of the structures that would be closed under this id is. */
  ghost predicate CloseSubmitted(s: PassState, managed: seq<Managed>, m: Managed, env: CycleEnv)
    requires m.structure.legs != []
  {
    exists x <- managed :: SharesClose(x, m, env) && UrgentlyClosed(s, x, env)
  }

  /** Nothing of it can be closed, or it has no executable quote; either is noted. */
  predicate Unclosable(s: PassState, m: Managed, env: CycleEnv)
    requires m.structure.legs != []
  {
    || (CloseQuantity(m, env) == 0 && CloseZeroQuantity in s.incidents)
    || (ClosingCash(m.structure.legs, env.quotes).GetOr(0.0) == 0.0 && CloseIncompleteQuotes in s.incidents)
  }

  predicate HeldInFull(m: Managed, env: CycleEnv) { m.structure.legs != [] && AllPresent(m.structure.legs, env) }

  /** Every id the reviews added to the ledger is a live urgent close of a reviewed structure. */
  ghost predicate ReviewsAdded(u: PassState, s: PassState, managed: seq<Managed>, env: CycleEnv) {
    forall id :: id in s.book.orders && id !in u.book.orders ==>
      exists x <- managed :: x.structure.legs != [] && id == CloseIdOf(x, env) && UrgentlyClosed(s, x, env)
  }

  lemma BuiltCloseFields(m: Managed, env: CycleEnv, id: ClientId, quantity: nat, signal: ExitSignal)
    requires signal.Exit?
    ensures var built := CloseRequest(m, env.quotes, id, quantity, signal.reason, signal.urgency);
      && (built.Failure? <==> ClosingCash(m.structure.legs, env.quotes).GetOr(0.0) == 0.0)
      && (built.Success? ==>
            var r := built.value;
            && r.id == id && r.isClosing && r.candidate == CandidateId.Closing(m.candidate)
            && r.parent == Some(m.id) && r.urgency == Some(signal.urgency) && r.quantity == quantity)
  {
    hide ClosingCash;
  }

  /** Later reviews take nothing back. */
  ghost predicate Extends(s: PassState, t: PassState) {
    && t.filledEntries == s.filledEntries && t.active == s.active && s.working <= t.working
    && s.incidents <= t.incidents && RowsStand(s.book, t.book)
  }

  /** What submitting the close of a structure comes to: it is live, its id was taken, or the obstacle is noted. */
  lemma SubmitEffect(s: PassState, m: Managed, signal: ExitSignal, env: CycleEnv)
    requires signal.Exit? && signal.urgency == Urgent && m.structure.legs != []
    ensures var t, id := SubmitClose(s, m, signal, env), CloseIdOf(m, env);
      && Extends(s, t)
      && (forall x :: x in t.book.orders ==> x in s.book.orders || (x == id && UrgentlyClosed(t, m, env)))
      && (t.failed || UrgentlyClosed(t, m, env) || id in s.book.orders || Unclosable(t, m, env))
  {
    hide CloseRequest, CloseQuantity, ClosingCash;
    var quantity, id := CloseQuantity(m, env), CloseIdOf(m, env);
    var t := SubmitClose(s, m, signal, env);
    var built := CloseRequest(m, env.quotes, id, quantity, signal.reason, signal.urgency);
    BuiltCloseFields(m, env, id, quantity, signal);
    if quantity < 1 {
      assert t.incidents[|s.incidents|] == CloseZeroQuantity;
    } else if id !in s.book.orders && built.Failure? {
      assert t.incidents[|s.incidents|] == CloseIncompleteQuotes;
    }
  }

  lemma ReviewEffect(s: PassState, m: Managed, env: CycleEnv)
    requires AtBoundary(env)
    ensures var t := HandleManaged(s, m, env);
      && Extends(s, t)
      && (forall x :: x in t.book.orders ==>
            x in s.book.orders || (m.structure.legs != [] && x == CloseIdOf(m, env) && UrgentlyClosed(t, m, env)))
      && (HeldInFull(m, env) && !t.failed ==>
            || m.candidate in s.filledEntries || m.candidate in s.active
            || UrgentlyClosed(t, m, env) || CloseIdOf(m, env) in s.book.orders || Unclosable(t, m, env))
  {
    hide ExitFor, CloseQuantity, SubmitClose, ClosingCash;
    BoundaryExits(m, env);
    if HeldInFull(m, env) {
      assert PositionSize(env, m.structure.legs[0].symbol) > 0;
    }
    if m.structure.legs != [] {
      SubmitEffect(s, m, ExitFor(m, env), env);
    }
  }

  lemma ClosedStays(s: PassState, t: PassState, m: Managed, env: CycleEnv)
    requires m.structure.legs != [] && Extends(s, t)
    ensures UrgentlyClosed(s, m, env) ==> UrgentlyClosed(t, m, env)
    ensures Unclosable(s, m, env) ==> Unclosable(t, m, env)
  {
    hide CloseQuantity, ClosingCash;
  }

  lemma {:induction false} ReviewsExtend(u: PassState, managed: seq<Managed>, env: CycleEnv)
    requires AtBoundary(env)
    ensures Extends(u, HandleAllManaged(u, managed, env))
  {
    hide HandleManaged;
    if managed != [] {
      var n := |managed| - 1;
      ReviewsExtend(u, managed[..n], env);
      ReviewEffect(HandleAllManaged(u, managed[..n], env), managed[n], env);
    }
  }

  lemma {:induction false} ReviewsAddCloses(u: PassState, managed: seq<Managed>, env: CycleEnv)
    requires AtBoundary(env)
    ensures ReviewsAdded(u, HandleAllManaged(u, managed, env), managed, env)
  {
    hide HandleManaged, Extends, UrgentlyClosed;
    if managed != [] {
      var n := |managed| - 1;
      ReviewsAddCloses(u, managed[..n], env);
      var s, t := HandleAllManaged(u, managed[..n], env), HandleAllManaged(u, managed, env);
      if !s.failed {
        ReviewEffect(s, managed[n], env);
        forall id | id in t.book.orders && id !in u.book.orders
          ensures exists x <- managed :: x.structure.legs != [] && id == CloseIdOf(x, env) && UrgentlyClosed(t, x, env)
        {
          if id in s.book.orders {
            var x :| x in managed[..n] && x.structure.legs != [] && id == CloseIdOf(x, env)
                     && UrgentlyClosed(s, x, env);
            ClosedStays(s, t, x, env);
          } else {
            assert managed[n] in managed;
          }
        }
      } else {
        assert t == s;
        forall id | id in t.book.orders && id !in u.book.orders
          ensures exists x <- managed :: x.structure.legs != [] && id == CloseIdOf(x, env) && UrgentlyClosed(t, x, env)
        {
          var x :| x in managed[..n] && x.structure.legs != [] && id == CloseIdOf(x, env) && UrgentlyClosed(s, x, env);
          assert x in managed;
        }
      }
    }
  }

  /** What the reviews, which start from `u`, leave of a structure all of whose legs are held. */
  ghost predicate Attended(u: PassState, t: PassState, managed: seq<Managed>, m: Managed, env: CycleEnv)
    requires m.structure.legs != []
  {
    || m.candidate in u.filledEntries || m.candidate in u.active
    || CloseIdOf(m, env) in u.book.orders
    || CloseSubmitted(t, managed, m, env)
    || Unclosable(t, m, env)
  }

  /** With nothing in its way before the reviews, a structure all of whose legs are held has an urgent close at
      the broker after them, or shares the id of one that has, unless nothing of it can be closed. */
  lemma {:induction false} ReviewsAttend(u: PassState, managed: seq<Managed>, env: CycleEnv, m: Managed)
    requires AtBoundary(env) && m in managed && HeldInFull(m, env)
    ensures var t := HandleAllManaged(u, managed, env); !t.failed ==> Attended(u, t, managed, m, env)
  {
    hide HandleManaged, CloseQuantity, UrgentlyClosed, Unclosable;
    var n := |managed| - 1;
    var s, t := HandleAllManaged(u, managed[..n], env), HandleAllManaged(u, managed, env);
    if !t.failed {
      ReviewEffect(s, managed[n], env);
      ReviewsExtend(u, managed[..n], env);
      ReviewsAddCloses(u, managed, env);
      if m in managed[..n] {
        ReviewsAttend(u, managed[..n], env, m);
        ClosedStays(s, t, m, env);
        if CloseSubmitted(s, managed[..n], m, env) {
          var x :| x in managed[..n] && SharesClose(x, m, env) && UrgentlyClosed(s, x, env);
          ClosedStays(s, t, x, env);
          assert x in managed;
        }
      } else if UrgentlyClosed(t, m, env) || CloseIdOf(m, env) in s.book.orders {
        SharedCloseSubmitted(u, s, t, managed, m, env);
      }
    }
  }

  /** The id of a close added by the reviews names a structure that has it. */
  lemma SharedCloseSubmitted(
    u: PassState, s: PassState, t: PassState, managed: seq<Managed>, m: Managed, env: CycleEnv)
    requires m.structure.legs != [] && Extends(s, t) && ReviewsAdded(u, t, managed, env)
    requires m in managed && (UrgentlyClosed(t, m, env) || CloseIdOf(m, env) in s.book.orders)
    ensures CloseIdOf(m, env) in u.book.orders || CloseSubmitted(t, managed, m, env)
  {
    hide CloseQuantity, UrgentlyClosed;
    if UrgentlyClosed(t, m, env) {
      assert SharesClose(m, m, env);
    } else if CloseIdOf(m, env) !in u.book.orders {
      assert CloseIdOf(m, env) in t.book.orders;
      var x :| x in managed && x.structure.legs != [] && CloseIdOf(m, env) == CloseIdOf(x, env)
               && UrgentlyClosed(t, x, env);
    }
  }

  // --------------------------------------------------------------- pending orders

  /** The ledger holds no order of this cycle yet. */
  predicate FreshKey(b: Book, cycle: int) { forall id :: id in b.orders ==> id.cycle != cycle }

  /** A close of this candidate that the broker may execute. */
  predicate LiveCloseAs(s: PassState, name: CandidateName, id: ClientId) {
    && id in s.working && id in s.book.orders
    && s.book.orders[id].request.isClosing && s.book.orders[id].request.candidate.name == name
  }

  ghost predicate CloseLive(s: PassState, name: CandidateName) { exists id :: LiveCloseAs(s, name, id) }

  /** A pending order of this candidate that the broker just reported as filled. */
  predicate FilledAs(b: Book, env: CycleEnv, name: CandidateName, closing: bool, id: ClientId) {
    && id in b.orders && b.orders[id].Pending() && b.orders[id].request.isClosing == closing
    && b.orders[id].request.candidate.name == name
    && env.poll(id).Some? && env.poll(id).value.status.Filled?
  }

  ghost predicate JustFilled(b: Book, env: CycleEnv, name: CandidateName, closing: bool) {
    exists id :: FilledAs(b, env, name, closing, id)
  }

  /** A fill that disagrees with the ledger was noted. */
  predicate Disputed(s: PassState) { MismatchedFilledClose in s.incidents || FilledCloseResidual in s.incidents }

  /** Why no close of this candidate is submitted: one is live, or a close of it just filled in dispute. */
  ghost predicate Blocked(b1: Book, env: CycleEnv, s: PassState, rest: set<ClientId>, name: CandidateName) {
    || (JustFilled(b1, env, name, true) && Disputed(s))
    || exists id :: LiveCloseAs(s, name, id) && id !in rest
  }

  /** A row this pass added: a live close under its own candidate's id. */
  predicate AddedClose(s: PassState, rest: set<ClientId>, id: ClientId) {
    && id in s.working && id !in rest && id in s.book.orders
    && s.book.orders[id].request.isClosing && s.book.orders[id].request.candidate == id.candidate
  }

  /** The first loop so far, with the orders of `rest` still to be visited. */
  ghost predicate Blocking(b1: Book, w1: set<ClientId>, env: CycleEnv, s: PassState, rest: set<ClientId>) {
    && RowsStand(b1, s.book)
    && (forall id :: id in rest ==> id in b1.orders && (id in w1 ==> id in s.working))
    && (forall name :: name in s.active ==> Blocked(b1, env, s, rest, name))
    && (forall id {:trigger AddedClose(s, rest, id)} :: id in s.book.orders && id !in b1.orders ==>
          AddedClose(s, rest, id))
    && (forall name :: name in s.filledEntries ==> JustFilled(b1, env, name, false))
  }

  /** A step that edits rows and takes the order under visit off the broker's list. */
  lemma EditKeepsBlocking(
    b1: Book, w1: set<ClientId>, env: CycleEnv, s: PassState, t: PassState, rest: set<ClientId>, id: ClientId)
    requires Blocking(b1, w1, env, s, rest + {id}) && id !in rest
    requires RowsStand(s.book, t.book) && t.book.orders.Keys == s.book.orders.Keys && t.working == s.working - {id}
    requires s.incidents <= t.incidents
    requires forall name :: name in t.active ==> name in s.active || (JustFilled(b1, env, name, true) && Disputed(t))
    requires forall name :: name in t.filledEntries ==> name in s.filledEntries || JustFilled(b1, env, name, false)
    ensures Blocking(b1, w1, env, t, rest)
  {
    hide JustFilled, AddedClose;
    forall name | name in t.active ensures Blocked(b1, env, t, rest, name) {
      if name in s.active && !(JustFilled(b1, env, name, true) && Disputed(s)) {
        var x :| LiveCloseAs(s, name, x) && x !in rest + {id};
        assert LiveCloseAs(t, name, x);
      }
    }
    forall x | x in t.book.orders && x !in b1.orders ensures AddedClose(t, rest, x) {
      AddedStays(s, t, rest + {id}, rest, x);
    }
  }

  lemma AddedStays(s: PassState, t: PassState, more: set<ClientId>, rest: set<ClientId>, id: ClientId)
    requires AddedClose(s, more, id) && rest <= more && RowsStand(s.book, t.book)
    requires id in s.working ==> id in t.working || id in more
    ensures AddedClose(t, rest, id)
  {
  }

  /** The order under visit, as the first loop meets it. */
  ghost predicate Visited(
    b1: Book, w1: set<ClientId>, env: CycleEnv, s: PassState, rest: set<ClientId>, o: Order) {
    var id := o.request.id;
    && Blocking(b1, w1, env, s, rest + {id}) && id !in rest && id in b1.orders && b1.orders[id] == o && o.Pending()
  }

  lemma SettleBlocks(
    b1: Book, w1: set<ClientId>, env: CycleEnv, s: PassState, rest: set<ClientId>, o: Order, r: BrokerReport)
    requires Visited(b1, w1, env, s, rest, o) && env.poll(o.request.id) == Some(r)
    ensures Blocking(b1, w1, env, Settle(s, o, r, env), rest)
  {
    hide Settle, Blocking, RowsStand, Disputed;
    var u := Settle(s, o, r, env);
    SettleIsAnEdit(s, o, r, env);
    SettledRows(s, o, r, u);
    SettleNotes(s, o, r, env);
    assert FilledAs(b1, env, o.request.candidate.name, o.request.isClosing, o.request.id) || !r.status.Filled?;
    EditKeepsBlocking(b1, w1, env, s, u, rest, o.request.id);
  }

  /** Settling blocks a candidate only over a disputed fill of its close. */
  lemma SettleNotes(s: PassState, o: Order, r: BrokerReport, env: CycleEnv)
    ensures var u, name := Settle(s, o, r, env), o.request.candidate.name;
      && s.incidents <= u.incidents
      && (u.active != s.active ==>
            u.active == s.active + {name} && o.request.isClosing && r.status.Filled? && Disputed(u))
      && (u.filledEntries != s.filledEntries ==>
            u.filledEntries == s.filledEntries + {name} && o.IsEntry() && r.status.Filled?)
  {
    hide CloseParent, BookInventory, OpenManaged, QuantityMismatch;
    var u := Settle(s, o, r, env);
    if |u.incidents| > |s.incidents| {
      assert u.incidents[|s.incidents|] in u.incidents;
    }
  }

  /** Blocking a candidate whose close is live and behind the pass. */
  lemma BlockKeepsBlocking(
    b1: Book, w1: set<ClientId>, env: CycleEnv, s: PassState, rest: set<ClientId>, name: CandidateName, id: ClientId)
    requires Blocking(b1, w1, env, s, rest) && LiveCloseAs(s, name, id) && id !in rest
    ensures Blocking(b1, w1, env, s.Block(name), rest)
  {
    var t := s.Block(name);
    assert LiveCloseAs(t, name, id);
    forall x | x in t.active ensures Blocked(b1, env, t, rest, x) {
      if x != name && !(JustFilled(b1, env, x, true) && Disputed(s)) {
        var y :| LiveCloseAs(s, x, y) && y !in rest;
        assert LiveCloseAs(t, x, y);
      }
    }
    forall x | x in t.book.orders && x !in b1.orders ensures AddedClose(t, rest, x) {
      assert AddedClose(s, rest, x);
    }
  }

  /** A replacement of a close is live, and blocks its candidate. */
  lemma ReplacedKeepsBlocking(
    b1: Book, w1: set<ClientId>, env: CycleEnv, s: PassState, rest: set<ClientId>, request: Request, run: RunId,
    p: Placement)
    requires Blocking(b1, w1, env, s, rest) && request.isClosing && request.candidate == request.id.candidate
    requires request.id !in s.book.orders && request.id !in rest
    ensures Blocking(b1, w1, env, s.(book := PersistOrder(s.book, run, request, p),
                                     working := s.working + {request.id}).Block(request.candidate.name), rest)
  {
    var t := s.(book := PersistOrder(s.book, run, request, p), working := s.working + {request.id});
    forall x | x in t.active ensures Blocked(b1, env, t, rest, x) {
      if !(JustFilled(b1, env, x, true) && Disputed(s)) {
        var y :| LiveCloseAs(s, x, y) && y !in rest;
        assert LiveCloseAs(t, x, y);
      }
    }
    forall x | x in t.book.orders && x !in b1.orders ensures AddedClose(t, rest, x) {
      if x != request.id {
        assert AddedClose(s, rest, x);
        AddedStays(s, t, rest, rest, x);
      }
    }
    assert LiveCloseAs(t, request.candidate.name, request.id);
    BlockKeepsBlocking(b1, w1, env, t, rest, request.candidate.name, request.id);
  }

  lemma ReplacementIds(o: Order, env: CycleEnv)
    requires NextAction(o, env).Replace?
    ensures var r := Replacement(o, env);
      && r.isClosing == o.request.isClosing && r.candidate == o.request.candidate == r.id.candidate
      && r.id.cycle == env.cycle && r.parent == o.request.parent
  {
  }

  lemma MaintainBlocks(b1: Book, w1: set<ClientId>, env: CycleEnv, s: PassState, rest: set<ClientId>, o: Order)
    requires Visited(b1, w1, env, s, rest, o) && o.request.id in w1 && FreshKey(b1, env.cycle)
    requires !env.allowEntries && !s.failed && !Maintain(s, o, env).failed
    ensures Blocking(b1, w1, env, Maintain(s, o, env), rest)
  {
    hide Blocking, RowsStand, StaleOrderAction, ReplacementRequest, Terms, Disputed;
    var id, name := o.request.id, o.request.candidate.name;
    var action := NextAction(o, env);
    if action.Wait? {
      WaitBlocks(b1, w1, env, s, rest, o);
    } else {
      var status := if o.IsEntry() && o.status.PartiallyFilled? then PartiallyFilledCanceled else Canceled;
      var t := s.Mark(id, status).(working := s.working - {id});
      MarkStands(s.book, id, status);
      EditKeepsBlocking(b1, w1, env, s, t, rest, id);
      if action.Replace? && env.marketOpen && o.request.isClosing {
        ReplacementIds(o, env);
        var request := Replacement(o, env);
        FreshIdIsAdded(b1, w1, env, t, rest, request.id);
        if request.id in t.book.orders {
          BlockKeepsBlocking(b1, w1, env, t, rest, name, request.id);
        } else {
          ReplacedKeepsBlocking(b1, w1, env, t, rest, request, o.run, env.place(request.id).value);
        }
      }
    }
  }

  /** An id of this cycle that stands in the ledger is a live close of the same candidate. */
  lemma FreshIdIsAdded(b1: Book, w1: set<ClientId>, env: CycleEnv, s: PassState, rest: set<ClientId>, id: ClientId)
    requires Blocking(b1, w1, env, s, rest) && FreshKey(b1, env.cycle) && id.cycle == env.cycle
    ensures id !in rest
    ensures id in s.book.orders ==> LiveCloseAs(s, id.candidate.name, id)
  {
    if id in s.book.orders {
      assert AddedClose(s, rest, id);
    }
  }

  lemma WaitBlocks(b1: Book, w1: set<ClientId>, env: CycleEnv, s: PassState, rest: set<ClientId>, o: Order)
    requires Visited(b1, w1, env, s, rest, o) && o.request.id in w1 && o.request.isClosing
    ensures Blocking(b1, w1, env, s.Block(o.request.candidate.name), rest)
  {
    var id := o.request.id;
    assert id in rest + {id};
    VisitEnds(b1, w1, env, s, rest, id);
    assert LiveCloseAs(s, o.request.candidate.name, id);
    BlockKeepsBlocking(b1, w1, env, s, rest, o.request.candidate.name, id);
  }

  lemma VisitEnds(b1: Book, w1: set<ClientId>, env: CycleEnv, s: PassState, rest: set<ClientId>, id: ClientId)
    requires Blocking(b1, w1, env, s, rest + {id})
    ensures Blocking(b1, w1, env, s, rest)
  {
    forall name | name in s.active ensures Blocked(b1, env, s, rest, name) {
      if !(JustFilled(b1, env, name, true) && Disputed(s)) {
        var x :| LiveCloseAs(s, name, x) && x !in rest + {id};
      }
    }
    forall x | x in s.book.orders && x !in b1.orders ensures AddedClose(s, rest, x) {
      assert AddedClose(s, rest + {id}, x);
    }
  }

  lemma HandlePendingBlocks(b1: Book, w1: set<ClientId>, env: CycleEnv, s: PassState, rest: set<ClientId>, o: Order)
    requires Visited(b1, w1, env, s, rest, o) && HonestPoll(w1, env) && FreshKey(b1, env.cycle)
    requires o.request.isClosing ==> o.request.parent.Some?
    requires !env.allowEntries && !s.failed && !HandlePending(s, o, env).failed
    ensures Blocking(b1, w1, env, HandlePending(s, o, env), rest)
  {
    hide Visited, Blocking, Settle, Maintain;
    var r := env.poll(o.request.id);
    if r.value.status.Terminal() {
      SettleBlocks(b1, w1, env, s, rest, o, r.value);
    } else {
      MaintainBlocks(b1, w1, env, s, rest, o);
    }
  }

  lemma {:induction false} FirstLoopBlocks(
    b1: Book, w1: set<ClientId>, env: CycleEnv, s: PassState, orders: seq<Order>, n: nat)
    requires n <= |orders| && Listed(b1, orders) && Keyed(b1) && HonestPoll(w1, env) && FreshKey(b1, env.cycle)
    requires Blocking(b1, w1, env, s, IdsOf(orders)) && !env.allowEntries
    requires !s.failed && !HandleAllPending(s, orders[..n], env).failed
    ensures Blocking(b1, w1, env, HandleAllPending(s, orders[..n], env), IdsOf(orders[n..]))
  {
    hide Blocking, HandlePending, FreshKey;
    if n == 0 {
      assert orders[..0] == [] && orders[0..] == orders;
    } else {
      assert orders[..n][..n - 1] == orders[..n - 1];
      FirstLoopBlocks(b1, w1, env, s, orders, n - 1);
      RestOfListing(b1, orders, n - 1);
      assert orders[n - 1] in orders;
      HandlePendingBlocks(b1, w1, env, HandleAllPending(s, orders[..n - 1], env), IdsOf(orders[n..]), orders[n - 1]);
    }
  }

  // ------------------------------------------------------------------- whole pass

  /** What the pass leaves of a structure all of whose legs are held: a live close of its candidate, unless its
      entry filled only now, or an obstacle is noted. */
  ghost predicate ClosedOut(b: Book, env: CycleEnv, t: PassState, m: Managed)
    requires m.structure.legs != []
  {
    || CloseLive(t, m.candidate)
    || JustFilled(b, env, m.candidate, false)
    || (JustFilled(b, env, m.candidate, true) && Disputed(t))
    || Unclosable(t, m, env)
  }

  lemma StartBlocks(b1: Book, working: set<ClientId>, env: CycleEnv, s: PassState, pending: seq<Order>)
    requires s.book == b1 && s.working == working && s.active == {} && s.filledEntries == {} && Listed(b1, pending)
    ensures Blocking(b1, working, env, s, IdsOf(pending))
  {
  }

  /** The pending orders of a fresh cycle, visited without entry authority. */
  lemma PendingVisited(b: Book, working: set<ClientId>, env: CycleEnv)
    requires Inv(b) && HonestPoll(working, env) && FreshKey(b, env.cycle) && !env.allowEntries
    requires !AfterPending(b, working, env).failed
    ensures Blocking(ReconcileFilledParents(b), working, env, AfterPending(b, working, env), {})
  {
    hide ReconcileFilledParents, PendingOf, HandleAllPending, Blocking;
    var s := StartPass(b, working, env);
    var b1 := s.book;
    var pending := Pending(b1);
    ParentsReconciled(b);
    RowsAreKeyed(b1);
    PendingListed(b1.ids, b1);
    StartBlocks(b1, working, env, s, pending);
    assert pending[..|pending|] == pending && pending[|pending|..] == [];
    FirstLoopBlocks(b1, working, env, s, pending, |pending|);
    assert IdsOf([]) == {};
  }

  /** What stood in the way of a structure before the reviews is still its reason after them. */
  lemma AttendedIsClosedOut(
    b: Book, working: set<ClientId>, env: CycleEnv, u: PassState, t: PassState, managed: seq<Managed>, m: Managed)
    requires FreshKey(b, env.cycle) && m.structure.legs != []
    requires Blocking(b, working, env, u, {}) && Extends(u, t) && Attended(u, t, managed, m, env)
    ensures ClosedOut(b, env, t, m)
  {
    hide JustFilled, Unclosable, CloseQuantity;
    var id := CloseIdOf(m, env);
    if id in u.book.orders {
      assert AddedClose(u, {}, id);
      assert LiveCloseAs(t, m.candidate, id);
    } else if m.candidate in u.active {
      if !(JustFilled(b, env, m.candidate, true) && Disputed(u)) {
        var x :| LiveCloseAs(u, m.candidate, x) && x !in {};
        assert LiveCloseAs(t, m.candidate, x);
      }
    } else if CloseSubmitted(t, managed, m, env) {
      var x :| x in managed && SharesClose(x, m, env) && UrgentlyClosed(t, x, env);
      assert LiveCloseAs(t, m.candidate, CloseIdOf(x, env));
    }
  }

  lemma SamePendingSameFills(b: Book, b1: Book, env: CycleEnv, t: PassState, m: Managed)
    requires b1.orders.Keys == b.orders.Keys
    requires forall id :: id in b1.orders && b1.orders[id].Pending() ==> b1.orders[id] == b.orders[id]
    requires m.structure.legs != [] && ClosedOut(b1, env, t, m)
    ensures ClosedOut(b, env, t, m)
  {
    hide Unclosable, CloseLive;
    if closing: bool :| JustFilled(b1, env, m.candidate, closing) && (closing ==> Disputed(t)) {
      var id :| FilledAs(b1, env, m.candidate, closing, id);
      assert FilledAs(b, env, m.candidate, closing, id);
    }
  }

  /** A completed pass of a fresh cycle at or after the session boundary, without entry authority. Every
      structure whose legs are all held has a live close of its candidate, unless its entry filled only now or
      an obstacle is noted. And where the pending orders left it free, the close is one submitted by this pass:
      urgent, for all that can be closed of it or of the structure it shares the close id with. */
  lemma BoundaryPassCloses(b: Book, working: set<ClientId>, env: CycleEnv, m: Managed)
    requires Inv(b) && HonestPoll(working, env) && FreshKey(b, env.cycle)
    requires AtBoundary(env) && !env.allowEntries
    requires m in OpenManaged(AfterPending(b, working, env).book) && HeldInFull(m, env)
    ensures var u, t := AfterPending(b, working, env), Pass(b, working, env);
      !t.failed ==>
        && ClosedOut(b, env, t, m)
        && (m.candidate !in u.filledEntries && m.candidate !in u.active && CloseIdOf(m, env) !in u.book.orders ==>
              CloseSubmitted(t, OpenManaged(u.book), m, env) || Unclosable(t, m, env))
  {
    hide AfterPending, HandleAllManaged, OpenManaged, ReconcileFilledParents, Blocking, ClosedOut, CloseSubmitted,
         Unclosable, FreshKey, CloseQuantity;
    var u, t := AfterPending(b, working, env), Pass(b, working, env);
    if !t.failed {
      var b1 := ReconcileFilledParents(b);
      var managed := OpenManaged(u.book);
      ParentsReconciled(b);
      PendingVisited(b, working, env);
      FreshStays(b, b1, env.cycle);
      ReviewsExtend(u, managed, env);
      ReviewsAttend(u, managed, env, m);
      AttendedIsClosedOut(b1, working, env, u, t, managed, m);
      SamePendingSameFills(b, b1, env, t, m);
    }
  }

  lemma FreshStays(b: Book, b1: Book, cycle: int)
    requires FreshKey(b, cycle) && b1.orders.Keys == b.orders.Keys
    ensures FreshKey(b1, cycle)
  {
    forall id | id in b1.orders ensures id.cycle != cycle {
      assert id in b.orders;
    }
  }
}
