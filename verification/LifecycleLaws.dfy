/** What one maintenance pass keeps, whatever the broker answers. */
module LifecycleLaws {
  import opened Common
  import opened Schemas
  import opened Orders
  import opened Execution
  import opened RepricingLaws
  import opened Ledger
  import opened LedgerLaws
  import opened Lifecycle
  import SizingLaws

  // -------------------------------------------------------------------- invariants

  /** At most one closing order that may still execute per opening order. */
  ghost predicate OneOpenClose(b: Book, working: set<ClientId>) {
    forall x, y ::
      && x in working && y in working && x in b.orders && y in b.orders
      && b.orders[x].request.isClosing && b.orders[y].request.isClosing
      && b.orders[x].request.parent == b.orders[y].request.parent
      ==> x == y
  }

  ghost predicate NoOpenClose(b: Book, working: set<ClientId>, parent: Option<ClientId>) {
    forall y :: y in working && y in b.orders && b.orders[y].request.isClosing ==> b.orders[y].request.parent != parent
  }

  /** Kept by every step, even one cut short by an exception. */
  ghost predicate Core(b0: Book, s: PassState) {
    && Inv(s.book) && s.book.awards == b0.awards && s.book.known == b0.known
    && OneOpenClose(s.book, s.working)
    && LiveRuns(s.book) <= LiveRuns(b0)
  }

  /** Without entry authority no opening order appears. */
  ghost predicate NoNewEntries(b0: Book, s: PassState, env: CycleEnv) {
    !env.allowEntries ==> forall id :: id in s.book.orders && s.book.orders[id].IsEntry() ==> id in b0.orders
  }

  /** The state with the orders of `rest` still to be visited. */
  ghost predicate Visiting(b1: Book, w1: set<ClientId>, s: PassState, rest: set<ClientId>, env: CycleEnv) {
    && (forall id :: id in rest ==> id in s.book.orders && id in b1.orders && s.book.orders[id] == b1.orders[id])
    && (forall id :: id in rest && id in w1 ==> id in s.working)
    && (forall id :: id in s.working && id in s.book.orders && s.book.orders[id].request.isClosing
          ==> s.book.orders[id].request.candidate.name in s.active || id in rest)
    && (forall id :: id in s.book.orders && s.book.orders[id].request.isClosing && s.book.orders[id].Pending()
          ==> id in s.working || id in rest)
    && (!env.allowEntries ==>
          forall id :: id in s.book.orders && s.book.orders[id].IsEntry() && s.book.orders[id].Pending() ==> id in rest)
  }

  /** The broker reports an order as unfinished only if it may still execute. */
  ghost predicate HonestPoll(working: set<ClientId>, env: CycleEnv) {
    forall id :: env.poll(id).Some? && !env.poll(id).value.status.Terminal() ==> id in working
  }

  // ------------------------------------------------------------------- single edits

  /** A status that neither works nor revives an award. */
  predicate Quiet(before: Status, after: Status) {
    !after.Working() && (after.Exposed() ==> before.Exposed())
  }

  /** Rows whose awards do not come back to life bring no run back. */
  lemma FewerLiveRuns(b: Book, b': Book)
    requires SameRows(b, b')
    requires forall id :: id in b.orders && b'.orders[id].status.Exposed() ==> b.orders[id].status.Exposed()
    ensures LiveRuns(b') <= LiveRuns(b)
  {
    forall r | r in LiveRuns(b') ensures r in LiveRuns(b) {
      var x :| x in b'.orders && LiveRow(b', x) && b'.orders[x].run == r;
      assert LiveRow(b, x);
    }
  }

  lemma MarkKeepsCore(b0: Book, s: PassState, id: ClientId, status: Status)
    requires Core(b0, s) && (id in s.book.orders ==> Quiet(s.book.orders[id].status, status))
    ensures Core(b0, s.Mark(id, status))
    ensures SameRows(s.book, s.Mark(id, status).book)
  {
    var b' := MarkStatus(s.book, id, status);
    SameRowsKeepsInv(s.book, b');
    FewerLiveRuns(s.book, b');
  }

  lemma MarkKeepsVisiting(
    b1: Book, w1: set<ClientId>, s: PassState, rest: set<ClientId>, env: CycleEnv, id: ClientId, status: Status)
    requires Visiting(b1, w1, s, rest, env) && id !in rest && !status.Working()
    ensures Visiting(b1, w1, s.Mark(id, status), rest, env)
  {
  }

  lemma {:induction false} ParentsAreRows(
    ids: seq<ClientId>, orders: map<ClientId, Order>, name: CandidateName, parent: Option<ClientId>, closedToo: bool)
    ensures forall id <- ParentsOf(ids, orders, name, parent, closedToo) ::
      id in orders && (orders[id].status.Established() || orders[id].status.Closed?)
  {
    if ids != [] {
      ParentsAreRows(ids[..|ids| - 1], orders, name, parent, closedToo);
    }
  }

  /** Closing a parent touches only a row that is not awaiting a visit. */
  lemma CloseParentKeeps(
    b0: Book, b1: Book, w1: set<ClientId>, s: PassState, rest: set<ClientId>, env: CycleEnv, name: CandidateName,
    parent: Option<ClientId>, quantity: nat)
    requires Core(b0, s) && Visiting(b1, w1, s, rest, env)
    requires forall id :: id in rest ==> b1.orders[id].Pending()
    ensures var t := s.(book := CloseParent(s.book, name, parent, quantity).0);
      && Core(b0, t) && Visiting(b1, w1, t, rest, env) && SameRows(s.book, t.book)
      && (NoNewEntries(b0, s, env) ==> NoNewEntries(b0, t, env))
  {
    hide Core;
    ParentsAreRows(s.book.ids, s.book.orders, name, parent, true);
    var rows := ParentsOf(s.book.ids, s.book.orders, name, parent, true);
    if CloseParent(s.book, name, parent, quantity).1 {
      var id := rows[0];
      assert id in rows;
      assert id !in rest;
      MarkKeepsCore(b0, s, id, Closed);
      MarkKeepsVisiting(b1, w1, s, rest, env, id, Closed);
      assert s.Mark(id, Closed) == s.(book := CloseParent(s.book, name, parent, quantity).0);
    }
  }

  // ------------------------------------------------------------------ pending orders

  /** The order under visit, as listed and as it now stands. */
  ghost predicate Visit1(
    b0: Book, b1: Book, w1: set<ClientId>, s: PassState, o: Order, rest: set<ClientId>, env: CycleEnv) {
    var id := o.request.id;
    && Core(b0, s) && NoNewEntries(b0, s, env) && Visiting(b1, w1, s, rest + {id}, env)
    && id !in rest && id in b1.orders && o == b1.orders[id] && o.Pending()
    && (forall x :: x in rest ==> b1.orders[x].Pending())
  }

  lemma WorkingShrinks(b0: Book, s: PassState, fewer: set<ClientId>)
    requires Core(b0, s) && fewer <= s.working
    ensures Core(b0, s.(working := fewer))
  {
  }

  lemma EndVisiting(
    b1: Book, w1: set<ClientId>, s: PassState, rest: set<ClientId>, env: CycleEnv, id: ClientId, status: Status)
    requires Visiting(b1, w1, s, rest + {id}, env) && id !in rest && !status.Working()
    ensures Visiting(b1, w1, s.Mark(id, status).(working := s.working - {id}), rest, env)
  {
  }

  lemma MarkAddsNoEntry(b0: Book, s: PassState, env: CycleEnv, id: ClientId, status: Status)
    requires NoNewEntries(b0, s, env)
    ensures NoNewEntries(b0, s.Mark(id, status), env)
  {
  }

  /** Ending the order under visit: it leaves the working set with a quiet status. */
  lemma EndVisited(
    b0: Book, b1: Book, w1: set<ClientId>, s: PassState, o: Order, rest: set<ClientId>, env: CycleEnv, status: Status)
    requires Visit1(b0, b1, w1, s, o, rest, env)
    requires !status.Working() && (status.Exposed() ==> o.status.Exposed())
    ensures var t := s.Mark(o.request.id, status).(working := s.working - {o.request.id});
      && Core(b0, t) && NoNewEntries(b0, t, env) && Visiting(b1, w1, t, rest, env)
  {
    var id := o.request.id;
    assert id in rest + {id};
    MarkKeepsCore(b0, s, id, status);
    WorkingShrinks(b0, s.Mark(id, status), s.working - {id});
    EndVisiting(b1, w1, s, rest, env, id, status);
    MarkAddsNoEntry(b0, s, env, id, status);
  }

  /** Notes, fresh fills and further blocks do not disturb the invariants. */
  lemma NotesKeep(b0: Book, b1: Book, w1: set<ClientId>, s: PassState, u: PassState, rest: set<ClientId>, env: CycleEnv)
    requires Core(b0, s) && NoNewEntries(b0, s, env) && Visiting(b1, w1, s, rest, env)
    requires u.book == s.book && u.working == s.working && s.active <= u.active
    ensures Core(b0, u) && NoNewEntries(b0, u, env) && Visiting(b1, w1, u, rest, env)
  {
  }

  lemma SettleKeeps(
    b0: Book, b1: Book, w1: set<ClientId>, s: PassState, o: Order, rest: set<ClientId>, env: CycleEnv,
    r: BrokerReport)
    requires Visit1(b0, b1, w1, s, o, rest, env) && r.status.Terminal()
    ensures var t := Settle(s, o, r, env);
      Core(b0, t) && NoNewEntries(b0, t, env) && Visiting(b1, w1, t, rest, env) && t.failed == s.failed
  {
    hide Core, NoNewEntries, Visiting, CloseParent, Settle;
    var id, name := o.request.id, o.request.candidate.name;
    EndVisited(b0, b1, w1, s, o, rest, env, SettledStatus(o, r));
    var t := s.Mark(id, SettledStatus(o, r)).(working := s.working - {id});
    CloseParentKeeps(b0, b1, w1, t, rest, env, name, o.request.parent, o.request.quantity);
    SettleIsAnEdit(s, o, r, env);
    var u := Settle(s, o, r, env);
    var closed := t.(book := CloseParent(t.book, name, o.request.parent, o.request.quantity).0);
    NotesKeep(b0, b1, w1, if u.book == t.book then t else closed, u, rest, env);
  }

  /** Apart from its notes, settling marks the row and may close its parent. */
  lemma SettleIsAnEdit(s: PassState, o: Order, r: BrokerReport, env: CycleEnv)
    ensures var t := s.Mark(o.request.id, SettledStatus(o, r)).(working := s.working - {o.request.id});
      var u := Settle(s, o, r, env);
      && u.working == t.working && u.failed == t.failed && t.active <= u.active
      && (|| u.book == t.book
          || u.book == CloseParent(t.book, o.request.candidate.name, o.request.parent, o.request.quantity).0)
  {
  }

  /** A replacement row is as good as the row it replaces. */
  lemma ReplacementRowOk(b: Book, o: Order, env: CycleEnv, p: Placement)
    requires Inv(b) && o.Pending() && RowOk(o, b) && NextAction(o, env).Replace?
    ensures RowOk(Order(o.run, p.status, Replacement(o, env).quantity, p.submittedAt, Replacement(o, env)), b)
  {
    var request := Replacement(o, env);
    var soft := o.request.isClosing && !UrgentClose(o, env);
    var changed := if o.request.isClosing then MateriallyChanged(o.request.legs, o.request.limit, env.quotes) else true;
    ReplacementIsValid(o, request.id, env.now - o.submittedAt, soft, changed, Terms(o, env), env.quotes);
    if o.IsEntry() {
      EntryConcession(env.now - o.submittedAt, o.request.attempt, o.request.limit, o.request.isCredit);
    }
  }

  /** A pass over an urgent close is one visit of the repricing laws: the row it leaves behind is theirs,
      and its debit cap stays the same. So those laws bound how often the ledger replaces the close. */
  lemma UrgentPassIsVisit(o: Order, env: CycleEnv, cap: real)
    requires UrgentClose(o, env) && UrgentDebitCap(o.request.legs) == Some(cap)
    ensures var row := Resting(o.request.attempt, o.request.limit, o.request.isCredit);
      var terms := Terms(o, env);
      var visit := Visit(env.now - o.submittedAt,
                         if terms.Some? then Some(Fresh(terms.value.limit, terms.value.isCredit)) else None);
      && NextAction(o, env) == UrgentVisit(row, visit, cap)
      && (NextAction(o, env).Replace? ==>
            var next := Replacement(o, env);
            && Resting(next.attempt, next.limit, next.isCredit) == AfterVisit(row, visit, cap)
            && UrgentDebitCap(next.legs) == Some(cap))
  {
    var terms := Terms(o, env);
    if terms.Some? {
      SpanIgnoresSides(o.request.legs, terms.value.legs, Call);
      SpanIgnoresSides(o.request.legs, terms.value.legs, Put);
    }
  }

  function VisitOf(o: Order, env: CycleEnv): Visit {
    var terms := Terms(o, env);
    Visit(env.now - o.submittedAt, if terms.Some? then Some(Fresh(terms.value.limit, terms.value.isCredit)) else None)
  }

  lemma PersistKeepsCore(b0: Book, s: PassState, run: RunId, request: Request, p: Placement)
    requires Core(b0, s) && request.id !in s.book.orders
    requires RowOk(Order(run, p.status, request.quantity, p.submittedAt, request), s.book)
    requires !request.isClosing ==> run in LiveRuns(b0)
    requires request.isClosing ==> NoOpenClose(s.book, s.working, request.parent)
    ensures Core(b0, s.(book := PersistOrder(s.book, run, request, p), working := s.working + {request.id}))
  {
    PersistKeepsInv(s.book, run, request, p);
    var b' := PersistOrder(s.book, run, request, p);
    forall r | r in LiveRuns(b') ensures r in LiveRuns(b0) {
      var x :| x in b'.orders && b'.orders[x].IsEntry() && b'.orders[x].status.Exposed() && b'.orders[x].run == r;
      if x != request.id {
        assert r in LiveRuns(s.book);
      }
    }
  }

  /** Once the one open close of a parent is gone, no other open close has that parent. */
  lemma SlotIsFree(s: PassState, id: ClientId, status: Status)
    requires OneOpenClose(s.book, s.working) && id in s.working
      && id in s.book.orders && s.book.orders[id].request.isClosing
    ensures NoOpenClose(MarkStatus(s.book, id, status), s.working - {id}, s.book.orders[id].request.parent)
  {
  }

  /** A new row is working, and blocks its candidate when it closes. */
  lemma PersistKeepsVisiting(
    b1: Book, w1: set<ClientId>, s: PassState, rest: set<ClientId>, env: CycleEnv, run: RunId, request: Request,
    p: Placement)
    requires Visiting(b1, w1, s, rest, env) && request.id !in s.book.orders
    requires request.isClosing || env.allowEntries
    ensures Visiting(b1, w1, s.(book := PersistOrder(s.book, run, request, p),
                                working := s.working + {request.id}).Block(request.candidate.name), rest, env)
  {
  }

  /** Cancel and replace: the replacement takes over the slot of the order under visit. */
  lemma ReplaceKeeps(
    b0: Book, b1: Book, w1: set<ClientId>, s: PassState, o: Order, rest: set<ClientId>, env: CycleEnv, status: Status,
    p: Placement)
    requires Visit1(b0, b1, w1, s, o, rest, env) && o.request.id in s.working
    requires NextAction(o, env).Replace? && (o.request.isClosing || env.allowEntries)
    requires !status.Working() && (status.Exposed() ==> o.status.Exposed())
    requires Replacement(o, env).id !in s.book.orders
    ensures var t := s.Mark(o.request.id, status).(working := s.working - {o.request.id});
      var u := t.(book := PersistOrder(t.book, o.run, Replacement(o, env), p),
                  working := t.working + {Replacement(o, env).id}).Block(o.request.candidate.name);
      Core(b0, u) && NoNewEntries(b0, u, env) && Visiting(b1, w1, u, rest, env)
  {
    var id := o.request.id;
    var request := Replacement(o, env);
    var t := s.Mark(id, status).(working := s.working - {id});
    EndVisited(b0, b1, w1, s, o, rest, env, status);
    VisitedRow(b0, b1, w1, s, o, rest, env);
    ReplacementRowOk(t.book, o, env, p);
    if o.request.isClosing {
      SlotIsFree(s, id, status);
    }
    PersistKeepsCore(b0, t, o.run, request, p);
    PersistKeepsVisiting(b1, w1, t, rest, env, o.run, request, p);
  }

  /** The order under visit is a sound row whose run is live. */
  lemma VisitedRow(b0: Book, b1: Book, w1: set<ClientId>, s: PassState, o: Order, rest: set<ClientId>, env: CycleEnv)
    requires Visit1(b0, b1, w1, s, o, rest, env)
    ensures o.request.id in s.book.orders && s.book.orders[o.request.id] == o
    ensures forall status :: RowOk(o, MarkStatus(s.book, o.request.id, status))
    ensures o.IsEntry() ==> o.run in LiveRuns(b0)
  {
    var id := o.request.id;
    assert id in rest + {id};
    assert RowAt(s.book, id);
    if o.IsEntry() {
      assert o.run in LiveRuns(s.book);
    }
  }

  /** A waiting close blocks its own candidate. */
  lemma WaitKeeps(b0: Book, b1: Book, w1: set<ClientId>, s: PassState, o: Order, rest: set<ClientId>, env: CycleEnv)
    requires Visit1(b0, b1, w1, s, o, rest, env) && o.request.id in s.working && (o.IsEntry() ==> env.allowEntries)
    ensures var t := if o.request.isClosing then s.Block(o.request.candidate.name) else s;
      Core(b0, t) && NoNewEntries(b0, t, env) && Visiting(b1, w1, t, rest, env)
  {
    var id := o.request.id;
    assert id in rest + {id};
  }

  lemma FailureKeeps(b0: Book, s: PassState, env: CycleEnv)
    requires Core(b0, s) && NoNewEntries(b0, s, env)
    ensures var t := s.(failed := true); Core(b0, t) && NoNewEntries(b0, t, env)
  {
  }

  lemma MaintainKeeps(b0: Book, b1: Book, w1: set<ClientId>, s: PassState, o: Order, rest: set<ClientId>, env: CycleEnv)
    requires Visit1(b0, b1, w1, s, o, rest, env) && o.request.id in s.working && !s.failed
    ensures var t := Maintain(s, o, env);
      Core(b0, t) && NoNewEntries(b0, t, env) && (!t.failed ==> Visiting(b1, w1, t, rest, env))
  {
    hide Core, NoNewEntries, Visiting, Replacement, StaleOrderAction;
    var id, name := o.request.id, o.request.candidate.name;
    var action := NextAction(o, env);
    if action.Wait? {
      WaitKeeps(b0, b1, w1, s, o, rest, env);
    } else if !env.cancels(id) {
      FailureKeeps(b0, s, env);
    } else {
      var status := if o.IsEntry() && o.status.PartiallyFilled? then PartiallyFilledCanceled else Canceled;
      EndVisited(b0, b1, w1, s, o, rest, env, status);
      var t := s.Mark(id, status).(working := s.working - {id});
      NotesKeep(b0, b1, w1, t, t.Block(name), rest, env);
      FailureKeeps(b0, t, env);
      if action.Replace? && env.marketOpen && (o.request.isClosing || env.allowEntries) {
        var request := Replacement(o, env);
        if request.id !in t.book.orders && env.place(request.id).Some? {
          ReplaceKeeps(b0, b1, w1, s, o, rest, env, status, env.place(request.id).value);
        }
      }
    }
  }

  lemma HandlePendingKeeps(
    b0: Book, b1: Book, w1: set<ClientId>, s: PassState, o: Order, rest: set<ClientId>, env: CycleEnv)
    requires Visit1(b0, b1, w1, s, o, rest, env) && HonestPoll(w1, env) && !s.failed
    ensures var t := HandlePending(s, o, env);
      Core(b0, t) && NoNewEntries(b0, t, env) && (!t.failed ==> Visiting(b1, w1, t, rest, env))
  {
    var id := o.request.id;
    if env.poll(id).Some? {
      var r := env.poll(id).value;
      if r.status.Terminal() {
        SettleKeeps(b0, b1, w1, s, o, rest, env, r);
      } else if !(o.request.isClosing && o.request.parent.None?) {
        MaintainKeeps(b0, b1, w1, s, o, rest, env);
      }
    }
  }

  // ------------------------------------------------------------------- first loop

  /** Rows stand under their own ids, and every close is linked to its parent. */
  ghost predicate Keyed(b: Book) {
    forall id :: id in b.orders ==>
      b.orders[id].request.id == id && (b.orders[id].request.isClosing ==> b.orders[id].request.parent.Some?)
  }

  lemma RowsAreKeyed(b: Book)
    requires Inv(b)
    ensures Keyed(b)
  {
    forall id | id in b.orders
      ensures b.orders[id].request.id == id && (b.orders[id].request.isClosing ==> b.orders[id].request.parent.Some?)
    {
      assert RowAt(b, id);
    }
  }

  function IdsOf(orders: seq<Order>): set<ClientId> { set o <- orders :: o.request.id }

  ghost predicate Listed(b: Book, orders: seq<Order>) {
    && (forall o <- orders :: o.request.id in b.orders && b.orders[o.request.id] == o && o.Pending())
    && (forall i, j :: 0 <= i < j < |orders| ==> orders[i].request.id != orders[j].request.id)
  }

  /** Linked closes are listed as they stand. */
  lemma PendingStep(ids: seq<ClientId>, b: Book)
    requires Keyed(b) && ids != []
    ensures var n := |ids| - 1;
      PendingOf(ids, b) == PendingOf(ids[..n], b)
                           + if ids[n] in b.orders && b.orders[ids[n]].Pending() then [b.orders[ids[n]]] else []
  {
  }

  lemma NothingPending(b: Book)
    ensures PendingOf([], b) == []
  {
  }

  lemma {:induction false} PendingIds(ids: seq<ClientId>, b: Book)
    requires Keyed(b)
    ensures IdsOf(PendingOf(ids, b)) == set id | id in ids && id in b.orders && b.orders[id].Pending()
  {
    hide PendingOf;
    NothingPending(b);
    if ids != [] {
      var n := |ids| - 1;
      PendingIds(ids[..n], b);
      PendingStep(ids, b);
      var earlier, all := PendingOf(ids[..n], b), PendingOf(ids, b);
      if ids[n] in b.orders && b.orders[ids[n]].Pending() {
        assert all == earlier + [b.orders[ids[n]]];
        assert IdsOf(all) == IdsOf(earlier) + {ids[n]};
      } else {
        assert all == earlier;
      }
      assert forall id :: id in ids <==> id in ids[..n] || id == ids[n];
    }
  }

  lemma {:induction false} PendingListed(ids: seq<ClientId>, b: Book)
    requires DistinctIds(ids) && Keyed(b)
    ensures Listed(b, PendingOf(ids, b))
    ensures IdsOf(PendingOf(ids, b)) == set id | id in ids && id in b.orders && b.orders[id].Pending()
  {
    hide PendingOf;
    PendingIds(ids, b);
    NothingPending(b);
    if ids != [] {
      var n := |ids| - 1;
      PendingListed(ids[..n], b);
      PendingStep(ids, b);
      var earlier := PendingOf(ids[..n], b);
      assert forall o <- earlier :: o.request.id in IdsOf(earlier);
      assert forall o <- earlier :: o.request.id in ids[..n];
    }
  }

  /** The orders after position `n` are other listed orders. */
  lemma RestOfListing(b: Book, orders: seq<Order>, n: nat)
    requires n < |orders| && Listed(b, orders)
    ensures IdsOf(orders[n..]) == IdsOf(orders[n + 1..]) + {orders[n].request.id}
    ensures orders[n].request.id !in IdsOf(orders[n + 1..])
    ensures forall x :: x in IdsOf(orders[n + 1..]) ==> x in b.orders && b.orders[x].Pending()
  {
    assert orders[n..] == [orders[n]] + orders[n + 1..];
    forall q | q in orders[n + 1..]
      ensures q.request.id != orders[n].request.id && q.request.id in b.orders && b.orders[q.request.id].Pending()
    {
      var j :| 0 <= j < |orders[n + 1..]| && orders[n + 1..][j] == q;
      assert orders[n + 1 + j] == q && q in orders;
    }
  }

  lemma {:induction false} FirstLoopKeeps(
    b0: Book, b1: Book, w1: set<ClientId>, s: PassState, orders: seq<Order>, n: nat, env: CycleEnv)
    requires n <= |orders| && Listed(b1, orders) && HonestPoll(w1, env) && !s.failed
    requires Core(b0, s) && NoNewEntries(b0, s, env) && Visiting(b1, w1, s, IdsOf(orders), env)
    ensures var t := HandleAllPending(s, orders[..n], env);
      && Core(b0, t) && NoNewEntries(b0, t, env)
      && (!t.failed ==> Visiting(b1, w1, t, IdsOf(orders[n..]), env))
  {
    if n == 0 {
      assert orders[..0] == [] && orders[0..] == orders;
    } else {
      FirstLoopKeeps(b0, b1, w1, s, orders, n - 1, env);
      assert orders[..n][..n - 1] == orders[..n - 1];
      var t := HandleAllPending(s, orders[..n - 1], env);
      RestOfListing(b1, orders, n - 1);
      if !t.failed {
        assert orders[n - 1] in orders;
        HandlePendingKeeps(b0, b1, w1, t, orders[n - 1], IdsOf(orders[n..]), env);
      }
    }
  }

  // ------------------------------------------------------------------ close sizing

  /** `n` contracts of every leg are within the broker's position, whatever its sign. */
  predicate Held(legs: seq<Leg>, env: CycleEnv, n: nat) {
    forall i :: 0 <= i < |legs| ==> n * legs[i].ratio <= PositionSize(env, legs[i].symbol)
  }

  lemma {:induction false} CloseableIsLargest(legs: seq<Leg>, env: CycleEnv, n: nat)
    requires legs != []
    ensures n <= Closeable(legs, env) <==> Held(legs, env, n)
  {
    var m := |legs| - 1;
    var size := PositionSize(env, legs[m].symbol);
    SizingLaws.QuotientAtLeast(size, legs[m].ratio, n);
    if m > 0 {
      CloseableIsLargest(legs[..m], env, n);
      assert Held(legs, env, n) <==> Held(legs[..m], env, n) && n * legs[m].ratio <= size;
    }
  }

  /** A close takes the most contracts that the structure has and the positions of all its legs hold. */
  lemma CloseQuantityIsLargest(m: Managed, env: CycleEnv, n: nat)
    requires m.structure.legs != []
    ensures n <= CloseQuantity(m, env) <==> n <= m.quantity && Held(m.structure.legs, env, n)
  {
    CloseableIsLargest(m.structure.legs, env, n);
  }

  // ------------------------------------------------------------------ second loop

  predicate ParentOutside(o: Order, rest: set<ClientId>) {
    o.request.parent.Some? && o.request.parent.value !in rest
  }

  /** The structures of `rest` still to be reviewed. */
  ghost predicate Reviewing(b2: Book, s: PassState, rest: set<ClientId>, env: CycleEnv) {
    && (forall id :: id in rest ==> id in s.book.orders && id in b2.orders && s.book.orders[id] == b2.orders[id])
    && (forall id :: id in s.working && id in s.book.orders && s.book.orders[id].request.isClosing
          ==> s.book.orders[id].request.candidate.name in s.active || ParentOutside(s.book.orders[id], rest))
    && (forall id :: id in s.book.orders && s.book.orders[id].request.isClosing && s.book.orders[id].Pending()
          ==> id in s.working)
    && (!env.allowEntries ==>
          forall id :: id in s.book.orders && s.book.orders[id].IsEntry() ==> !s.book.orders[id].Pending())
  }

  ghost predicate IsManaged(b: Book, m: Managed) {
    && m.id in b.orders && b.orders[m.id].status.Established() && Joined(b.orders[m.id], b.awards)
    && m.candidate == b.awards[b.orders[m.id].run].candidate
  }

  ghost predicate Review1(b0: Book, b2: Book, s: PassState, m: Managed, rest: set<ClientId>, env: CycleEnv) {
    && Core(b0, s) && NoNewEntries(b0, s, env) && Reviewing(b2, s, rest + {m.id}, env)
    && m.id !in rest && IsManaged(b2, m) && b2.awards == s.book.awards
    && (forall id :: id in s.working && id in s.book.orders && s.book.orders[id].request.isClosing ==>
          s.book.orders[id].request.parent.Some?)
  }

  lemma EndReviewing(b2: Book, s: PassState, rest: set<ClientId>, env: CycleEnv, id: ClientId, status: Status)
    requires Reviewing(b2, s, rest + {id}, env) && id !in rest && !status.Working()
    ensures Reviewing(b2, s.Mark(id, status), rest, env)
  {
  }

  lemma ReviewedRow(b0: Book, b2: Book, s: PassState, m: Managed, rest: set<ClientId>, env: CycleEnv)
    requires Review1(b0, b2, s, m, rest, env)
    ensures m.id in s.book.orders && s.book.orders[m.id].status.Established()
  {
    assert m.id in rest + {m.id};
  }

  lemma MarkReviewed(b0: Book, b2: Book, s: PassState, m: Managed, rest: set<ClientId>, env: CycleEnv, status: Status)
    requires Review1(b0, b2, s, m, rest, env) && (status.Closed? || status.Closing? || status.ExternallyReduced?)
    ensures var t := s.Mark(m.id, status);
      Core(b0, t) && NoNewEntries(b0, t, env) && Reviewing(b2, t, rest, env)
  {
    hide Core, NoNewEntries, Reviewing;
    ReviewedRow(b0, b2, s, m, rest, env);
    MarkKeepsCore(b0, s, m.id, status);
    MarkAddsNoEntry(b0, s, env, m.id, status);
    EndReviewing(b2, s, rest, env, m.id, status);
  }

  /** No open close already points at the structure under review. */
  lemma ReviewedSlotIsFree(b0: Book, b2: Book, s: PassState, m: Managed, rest: set<ClientId>, env: CycleEnv)
    requires Review1(b0, b2, s, m, rest, env) && m.candidate !in s.active
    ensures NoOpenClose(s.book, s.working, Some(m.id))
  {
    assert m.id in rest + {m.id};
    forall y | y in s.working && y in s.book.orders && s.book.orders[y].request.isClosing
      ensures s.book.orders[y].request.parent != Some(m.id)
    {
      assert RowAt(s.book, y);
    }
  }

  lemma CloseRowOk(b: Book, m: Managed, request: Request, run: RunId, p: Placement)
    requires IsManaged(b, m) && request.Valid() && request.isClosing && request.parent == Some(m.id)
    requires request.candidate == CandidateId.Closing(m.candidate)
    ensures RowOk(Order(run, p.status, request.quantity, p.submittedAt, request), b)
  {
  }

  /** A fresh close of the structure under review takes it off the list. */
  lemma PersistKeepsReviewing(
    b2: Book, s: PassState, m: Managed, rest: set<ClientId>, env: CycleEnv, request: Request, p: Placement)
    requires Reviewing(b2, s, rest + {m.id}, env) && m.id !in rest && request.id !in s.book.orders
    requires request.isClosing && request.parent == Some(m.id)
    ensures var placed := s.(book := PersistOrder(s.book, env.run, request, p), working := s.working + {request.id});
      var t := placed.Mark(m.id, Status.Closing);
      Reviewing(b2, t, rest, env)
  {
    assert m.id in rest + {m.id};
  }

  lemma PersistAddsNoEntry(b0: Book, s: PassState, env: CycleEnv, request: Request, p: Placement)
    requires NoNewEntries(b0, s, env) && request.isClosing
    ensures NoNewEntries(
      b0, s.(book := PersistOrder(s.book, env.run, request, p), working := s.working + {request.id}), env)
  {
  }

  lemma SubmitCloseKeeps(
    b0: Book, b2: Book, s: PassState, m: Managed, rest: set<ClientId>, env: CycleEnv, signal: ExitSignal)
    requires Review1(b0, b2, s, m, rest, env) && !s.failed
    requires signal.Exit? && m.structure.legs != [] && m.candidate !in s.active
    ensures var t := SubmitClose(s, m, signal, env);
      Core(b0, t) && NoNewEntries(b0, t, env) && (!t.failed ==> Reviewing(b2, t, rest, env))
  {
    var quantity := CloseQuantity(m, env);
    SubmitCloseOfKeeps(b0, b2, s, m, rest, env, signal, quantity);
  }

  /** Nothing happens to the structure under review beyond a note or a failure. */
  lemma SkipKeeps(
    b0: Book, b2: Book, s: PassState, m: Managed, rest: set<ClientId>, env: CycleEnv, notes: seq<Incident>,
    failed: bool)
    requires Review1(b0, b2, s, m, rest, env)
    ensures var t := s.(incidents := notes, failed := failed);
      Core(b0, t) && NoNewEntries(b0, t, env) && Reviewing(b2, t, rest, env)
  {
  }

  lemma SubmitCloseOfKeeps(
    b0: Book, b2: Book, s: PassState, m: Managed, rest: set<ClientId>, env: CycleEnv, signal: ExitSignal, quantity: nat)
    requires Review1(b0, b2, s, m, rest, env) && !s.failed
    requires signal.Exit? && m.structure.legs != [] && m.candidate !in s.active
    ensures var t := SubmitCloseOf(s, m, signal, env, quantity);
      Core(b0, t) && NoNewEntries(b0, t, env) && (!t.failed ==> Reviewing(b2, t, rest, env))
  {
    hide Core, NoNewEntries, Reviewing, Review1, CloseRequest;
    var id := ClientId(env.cycle, CandidateId.Closing(m.candidate), quantity, 0);
    var built := CloseRequest(m, env.quotes, id, quantity, signal.reason, signal.urgency);
    if quantity >= 1 && id !in s.book.orders && built.Success? && env.place(id).Some? {
      CloseRequestIsValid(m, env.quotes, id, quantity, signal.reason, signal.urgency);
      SubmittedCloseKeeps(b0, b2, s, m, rest, env, built.value, env.place(id).value, signal, quantity);
    } else {
      var t := SubmitCloseOf(s, m, signal, env, quantity);
      SkipKeeps(b0, b2, s, m, rest, env, t.incidents, t.failed);
      assert t == s.(incidents := t.incidents, failed := t.failed);
    }
  }

  /** The structure under review stands in the present ledger as it was listed. */
  lemma ReviewedStands(b0: Book, b2: Book, s: PassState, m: Managed, rest: set<ClientId>, env: CycleEnv)
    requires Review1(b0, b2, s, m, rest, env)
    ensures IsManaged(s.book, m)
  {
    assert m.id in rest + {m.id};
  }

  lemma SubmittedCloseKeeps(
    b0: Book, b2: Book, s: PassState, m: Managed, rest: set<ClientId>, env: CycleEnv, request: Request, p: Placement,
    signal: ExitSignal, quantity: nat)
    requires Review1(b0, b2, s, m, rest, env) && m.candidate !in s.active && request.id !in s.book.orders
    requires signal.Exit? && m.structure.legs != [] && quantity >= 1
    requires CloseRequest(m, env.quotes, request.id, quantity, signal.reason, signal.urgency) == Success(request)
    ensures var placed := s.(book := PersistOrder(s.book, env.run, request, p), working := s.working + {request.id});
      var t := placed.Mark(m.id, Status.Closing);
      Core(b0, t) && NoNewEntries(b0, t, env) && Reviewing(b2, t, rest, env)
  {
    hide CloseRequest, Core, NoNewEntries, Reviewing, NoOpenClose, RowOk;
    CloseRequestIsValid(m, env.quotes, request.id, quantity, signal.reason, signal.urgency);
    ReviewedStands(b0, b2, s, m, rest, env);
    CloseRowOk(s.book, m, request, env.run, p);
    ReviewedSlotIsFree(b0, b2, s, m, rest, env);
    PersistKeepsCore(b0, s, env.run, request, p);
    PersistAddsNoEntry(b0, s, env, request, p);
    PersistKeepsReviewing(b2, s, m, rest, env, request, p);
    var t := s.(book := PersistOrder(s.book, env.run, request, p), working := s.working + {request.id});
    MarkKeepsCore(b0, t, m.id, Status.Closing);
    MarkAddsNoEntry(b0, t, env, m.id, Status.Closing);
  }

  lemma HandleManagedKeeps(b0: Book, b2: Book, s: PassState, m: Managed, rest: set<ClientId>, env: CycleEnv)
    requires Review1(b0, b2, s, m, rest, env) && !s.failed
    ensures var t := HandleManaged(s, m, env);
      Core(b0, t) && NoNewEntries(b0, t, env) && (!t.failed ==> Reviewing(b2, t, rest, env))
  {
    var legs := m.structure.legs;
    if m.candidate in s.filledEntries || m.candidate in s.active {
    } else if !AnyPresent(legs, env) {
      MarkReviewed(b0, b2, s, m, rest, env, Closed);
    } else if !AllPresent(legs, env) {
      MarkReviewed(b0, b2, s, m, rest, env, ExternallyReduced);
    } else if env.marketOpen && ExitFor(m, env).Exit? {
      SubmitCloseKeeps(b0, b2, s, m, rest, env, ExitFor(m, env));
    }
  }

  function ManagedIds(managed: seq<Managed>): set<ClientId> { set m <- managed :: m.id }

  ghost predicate ManagedListed(b: Book, managed: seq<Managed>) {
    && (forall m <- managed :: IsManaged(b, m))
    && (forall i, j :: 0 <= i < j < |managed| ==> managed[i].id != managed[j].id)
  }

  lemma {:induction false} OpenManagedListed(ids: seq<ClientId>, b: Book, fills: seq<FillRow>)
    requires DistinctIds(ids) && Keyed(b)
    ensures ManagedListed(b, ManagedOf(ids, b.orders, b.awards, fills))
    ensures forall m <- ManagedOf(ids, b.orders, b.awards, fills) :: m.id in ids
  {
    if ids != [] {
      var n := |ids| - 1;
      OpenManagedListed(ids[..n], b, fills);
      var earlier, all := ManagedOf(ids[..n], b.orders, b.awards, fills), ManagedOf(ids, b.orders, b.awards, fills);
      assert forall m <- earlier :: m.id in ids[..n];
      assert forall m <- all :: m in earlier || (m.id == ids[n] && IsManaged(b, m));
    }
  }

  lemma RestOfManaged(managed: seq<Managed>, n: nat)
    requires n < |managed| && forall i, j :: 0 <= i < j < |managed| ==> managed[i].id != managed[j].id
    ensures ManagedIds(managed[n..]) == ManagedIds(managed[n + 1..]) + {managed[n].id}
    ensures managed[n].id !in ManagedIds(managed[n + 1..])
  {
    assert managed[n..] == [managed[n]] + managed[n + 1..];
    forall q | q in managed[n + 1..] ensures q.id != managed[n].id {
      var j :| 0 <= j < |managed[n + 1..]| && managed[n + 1..][j] == q;
      assert managed[n + 1 + j] == q;
    }
  }

  lemma ClosesHaveParents(b: Book)
    requires Inv(b)
    ensures forall id :: id in b.orders && b.orders[id].request.isClosing ==> b.orders[id].request.parent.Some?
  {
    forall id | id in b.orders && b.orders[id].request.isClosing ensures b.orders[id].request.parent.Some? {
      assert RowAt(b, id);
    }
  }

  lemma {:induction false} SecondLoopKeeps(
    b0: Book, b2: Book, s: PassState, managed: seq<Managed>, n: nat, env: CycleEnv)
    requires n <= |managed| && ManagedListed(b2, managed) && !s.failed && b2.awards == b0.awards
    requires Core(b0, s) && NoNewEntries(b0, s, env) && Reviewing(b2, s, ManagedIds(managed), env)
    ensures var t := HandleAllManaged(s, managed[..n], env);
      && Core(b0, t) && NoNewEntries(b0, t, env)
      && (!t.failed ==> Reviewing(b2, t, ManagedIds(managed[n..]), env))
  {
    if n == 0 {
      assert managed[..0] == [] && managed[0..] == managed;
    } else {
      SecondLoopKeeps(b0, b2, s, managed, n - 1, env);
      assert managed[..n][..n - 1] == managed[..n - 1];
      var t := HandleAllManaged(s, managed[..n - 1], env);
      RestOfManaged(managed, n - 1);
      if !t.failed {
        ClosesHaveParents(t.book);
        assert managed[n - 1] in managed;
        HandleManagedKeeps(b0, b2, t, managed[n - 1], ManagedIds(managed[n..]), env);
      }
    }
  }

  // -------------------------------------------------------------------- whole pass

  /** The broker's open closing orders are all listed as pending: what the sync before the pass
      achieves when the broker's list of open orders is complete. */
  ghost predicate ClosesListed(b: Book, working: set<ClientId>) {
    forall id :: id in working && id in b.orders && b.orders[id].request.isClosing ==> b.orders[id].Pending()
  }

  lemma {:induction false} ReconcileParentsKeepsPending(b: Book, closes: seq<Order>)
    ensures SameRows(b, ReconcileParents(b, closes))
    ensures var b' := ReconcileParents(b, closes);
      forall id :: id in b.orders ==>
        b'.orders[id] == b.orders[id] || (b'.orders[id].status.Closed? && b.orders[id].status.Established())
  {
    if closes != [] {
      var n := |closes| - 1;
      ReconcileParentsKeepsPending(b, closes[..n]);
      var rest := ReconcileParents(b, closes[..n]);
      ParentsAreRows(rest.ids, rest.orders, closes[n].request.candidate.name, closes[n].request.parent, false);
      var rows := ParentsOf(rest.ids, rest.orders, closes[n].request.candidate.name, closes[n].request.parent, false);
      if |rows| == 1 {
        assert rows[0] in rows;
      }
    }
  }

  /** Reconciling the parents of filled closes only closes established rows. */
  lemma ParentsReconciled(b0: Book)
    requires Inv(b0)
    ensures var b1 := ReconcileFilledParents(b0);
      && Inv(b1) && SameRows(b0, b1) && LiveRuns(b1) <= LiveRuns(b0)
      && forall id :: id in b1.orders && b1.orders[id].Pending() ==> b1.orders[id] == b0.orders[id]
    ensures forall id :: id in b0.orders && b0.orders[id].Pending() ==>
      ReconcileFilledParents(b0).orders[id] == b0.orders[id]
  {
    hide ReconcileParents, LiveRow, LedgerLaws.RowAt;
    var b1 := ReconcileFilledParents(b0);
    ReconcileParentsKeepsPending(b0, FilledClosesOf(b0.ids, b0.orders));
    SameRowsKeepsInv(b0, b1);
    FewerLiveRuns(b0, b1);
  }

  lemma StartPassKeeps(b0: Book, working: set<ClientId>, env: CycleEnv)
    requires Inv(b0) && OneOpenClose(b0, working) && ClosesListed(b0, working)
    ensures var s := StartPass(b0, working, env);
      && Core(b0, s) && NoNewEntries(b0, s, env) && Listed(s.book, Pending(s.book))
      && Visiting(s.book, working, s, IdsOf(Pending(s.book)), env)
  {
    hide ReconcileFilledParents, NextAction;
    var s := StartPass(b0, working, env);
    ParentsReconciled(b0);
    RowsAreKeyed(s.book);
    PendingListed(s.book.ids, s.book);
    StartVisiting(b0, working, s, env);
  }

  lemma StartVisiting(b0: Book, working: set<ClientId>, s: PassState, env: CycleEnv)
    requires Inv(s.book) && s.working == working && ClosesListed(b0, working) && SameRows(b0, s.book)
    requires forall id :: id in b0.orders && b0.orders[id].Pending() ==> s.book.orders[id] == b0.orders[id]
    requires IdsOf(Pending(s.book)) == set id | id in s.book.ids && id in s.book.orders && s.book.orders[id].Pending()
    ensures Visiting(s.book, working, s, IdsOf(Pending(s.book)), env)
  {
    var rest := IdsOf(Pending(s.book));
    assert forall id :: id in rest <==> id in s.book.orders && s.book.orders[id].Pending();
  }

  /** The pass theorem, for any ledger, any list of pending orders and any answers of an honest
      broker. Whether or not the pass is cut short, the ledger invariant holds, each opening order has
      at most one closing order that may still execute, no run comes alive, and without entry
      authority no opening order is added. A pass that completes leaves at most one working closing
      order per opening order in the ledger too, and without entry authority no pending opening order. */
  lemma PassKeeps(b0: Book, working: set<ClientId>, env: CycleEnv)
    requires Inv(b0) && OneOpenClose(b0, working) && ClosesListed(b0, working) && HonestPoll(working, env)
    ensures var t := Pass(b0, working, env);
      && Core(b0, t) && NoNewEntries(b0, t, env)
      && (!t.failed ==> OneWorkingClose(t.book) && (!env.allowEntries ==> NoPendingEntry(t.book)))
  {
    var s := StartPass(b0, working, env);
    var pending := Pending(s.book);
    StartPassKeeps(b0, working, env);
    FirstLoopKeeps(b0, s.book, working, s, pending, |pending|, env);
    assert pending[..|pending|] == pending && pending[|pending|..] == [];
    var u := AfterPending(b0, working, env);
    if !u.failed {
      SecondHalf(b0, s.book, working, u, env);
    }
  }

  lemma SecondHalf(b0: Book, b1: Book, w1: set<ClientId>, u: PassState, env: CycleEnv)
    requires Core(b0, u) && NoNewEntries(b0, u, env) && !u.failed && Visiting(b1, w1, u, IdsOf([]), env)
    ensures var t := HandleAllManaged(u, OpenManaged(u.book), env);
      && Core(b0, t) && NoNewEntries(b0, t, env)
      && (!t.failed ==> OneWorkingClose(t.book) && (!env.allowEntries ==> NoPendingEntry(t.book)))
  {
    var managed := OpenManaged(u.book);
    RowsAreKeyed(u.book);
    OpenManagedListed(u.book.ids, u.book, u.book.fills);
    VisitedAll(b1, w1, u, managed, env);
    SecondLoopKeeps(b0, u.book, u, managed, |managed|, env);
    assert managed[..|managed|] == managed && managed[|managed|..] == [];
    var t := HandleAllManaged(u, managed, env);
    if !t.failed {
      PendingClosesAreUnique(t, env, u.book, ManagedIds([]));
    }
  }

  lemma VisitedAll(b1: Book, w1: set<ClientId>, u: PassState, managed: seq<Managed>, env: CycleEnv)
    requires Visiting(b1, w1, u, IdsOf([]), env) && ManagedListed(u.book, managed)
    ensures Reviewing(u.book, u, ManagedIds(managed), env)
  {
    assert IdsOf([]) == {};
  }

  lemma PendingClosesAreUnique(t: PassState, env: CycleEnv, b2: Book, rest: set<ClientId>)
    requires OneOpenClose(t.book, t.working) && Reviewing(b2, t, rest, env)
    ensures OneWorkingClose(t.book)
  {
  }

  /** At most one closing order per opening order is pending in the ledger. */
  ghost predicate OneWorkingClose(b: Book) {
    forall x, y ::
      && x in b.orders && y in b.orders && b.orders[x].Pending() && b.orders[y].Pending()
      && b.orders[x].request.isClosing && b.orders[y].request.isClosing
      && b.orders[x].request.parent == b.orders[y].request.parent
      ==> x == y
  }

  ghost predicate NoPendingEntry(b: Book) {
    forall id :: id in b.orders && b.orders[id].IsEntry() ==> !b.orders[id].Pending()
  }
}
