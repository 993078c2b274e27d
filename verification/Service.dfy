/** The order lifecycle as the service runs it, against a broker and the repository's tables
    (service.py, _maintain_order_lifecycle). It does exactly what Lifecycle.Pass says. */
module Service {
  import opened Common
  import opened Schemas
  import opened Orders
  import opened Execution
  import opened Ledger
  import opened Lifecycle
  import opened Repository

  /** The broker: which orders may still execute. What it answers is given. */
  class Broker {
    var working: set<ClientId>

    /** Between cycles orders end on their own. */
    method Advance(stillWorking: set<ClientId>)
      modifies this
      ensures working == stillWorking
    {
      working := stillWorking;
    }

    method OrderById(id: ClientId, poll: ClientId -> Option<BrokerReport>) returns (answer: Option<BrokerReport>)
      modifies this
      ensures answer == poll(id)
      ensures working == if answer.Some? && answer.value.status.Terminal() then old(working) - {id} else old(working)
    {
      answer := poll(id);
      if answer.Some? && answer.value.status.Terminal() {
        working := working - {id};
      }
    }

    method CancelOrder(id: ClientId, cancels: ClientId -> bool) returns (ok: bool)
      modifies this
      ensures ok == cancels(id) && working == if ok then old(working) - {id} else old(working)
    {
      ok := cancels(id);
      if ok {
        working := working - {id};
      }
    }

    method PlaceOptionOrder(request: Request, place: ClientId -> Option<Placement>) returns (answer: Option<Placement>)
      modifies this
      ensures answer == place(request.id)
      ensures working == if answer.Some? then old(working) + {request.id} else old(working)
    {
      answer := place(request.id);
      if answer.Some? {
        working := working + {request.id};
      }
    }
  }

  /** The variables of one pass. */
  class LifecyclePass {
    const repository: AuditRepository
    const broker: Broker
    var active: set<CandidateName>
    var filledEntries: set<CandidateName>
    var incidents: seq<Incident>
    var failed: bool

    constructor (repository: AuditRepository, broker: Broker)
      ensures this.repository == repository && this.broker == broker
      ensures active == {} && filledEntries == {} && incidents == [] && !failed
    {
      this.repository, this.broker := repository, broker;
      active, filledEntries, incidents, failed := {}, {}, [], false;
    }

    function State(): PassState
      reads this, repository, broker
    {
      PassState(repository.Tables(), broker.working, active, filledEntries, incidents, failed)
    }

    // ------------------------------------------------------------------ working orders

    /** The broker says the order is over; its answer has already taken it off the broker's side. */
    method SettleOrder(o: Order, r: BrokerReport, env: CycleEnv)
      requires o.request.id !in broker.working
      modifies this, repository
      ensures State() == Settle(old(State()), o, r, env)
    {
      assert broker.working - {o.request.id} == broker.working;
      var name := o.request.candidate.name;
      var status := r.status;
      if !o.request.isClosing && !r.status.Filled? && r.filled.Some? && r.filled.value > 0 {
        status := PartiallyFilledCanceled;
      }
      var _ := repository.MarkOrderStatus(o.request.id, status);
      if !r.status.Filled? {
        return;
      }
      if !o.request.isClosing {
        filledEntries := filledEntries + {name};
        return;
      }
      var managed := repository.OpenManagedStructures();
      var expected := ExpectedInventory(managed, o.request.parent);
      if QuantityMismatch(o, r) {
        incidents, active := incidents + [MismatchedFilledClose], active + {name};
      } else if NonZero(env.positions) != NonZero(expected) {
        incidents, active := incidents + [FilledCloseResidual], active + {name};
      } else {
        var closed := repository.MarkManagedStructureClosed(name, o.request.parent, o.request.quantity);
        if !closed {
          incidents := incidents + [AmbiguousFilledParent];
        }
      }
    }

    /** Wait, or cancel and perhaps replace. */
    method MaintainOrder(o: Order, env: CycleEnv)
      modifies this, repository, broker
      ensures State() == Maintain(old(State()), o, env)
    {
      var id, name := o.request.id, o.request.candidate.name;
      var action := NextAction(o, env);
      if action.Wait? {
        if o.request.isClosing {
          active := active + {name};
        }
        return;
      }
      var cancelled := broker.CancelOrder(id, env.cancels);
      if !cancelled {
        failed := true;
        return;
      }
      var status := if !o.request.isClosing && o.status.PartiallyFilled? then PartiallyFilledCanceled else Canceled;
      var _ := repository.MarkOrderStatus(id, status);
      var mayReplace := env.marketOpen && (o.request.isClosing || env.allowEntries);
      if !action.Replace? || !mayReplace {
        return;
      }
      var request := Replacement(o, env);
      if request.id in repository.orders {
        active := active + {name};
        return;
      }
      var placement := broker.PlaceOptionOrder(request, env.place);
      if placement.None? {
        failed := true;
        return;
      }
      repository.PersistOrder(o.run, request, placement.value);
      active := active + {name};
    }

    method ReviewOrder(o: Order, env: CycleEnv)
      modifies this, repository, broker
      ensures State() == HandlePending(old(State()), o, env)
    {
      var answer := broker.OrderById(o.request.id, env.poll);
      if answer.None? {
        failed := true;
      } else if answer.value.status.Terminal() {
        SettleOrder(o, answer.value, env);
      } else if o.request.isClosing && o.request.parent.None? {
        incidents, active := incidents + [AmbiguousClosingParent], active + {o.request.candidate.name};
      } else {
        MaintainOrder(o, env);
      }
    }

    // ----------------------------------------------------------------- open structures

    method SubmitClosingOrder(m: Managed, signal: ExitSignal, env: CycleEnv)
      requires signal.Exit? && m.structure.legs != []
      modifies this, repository, broker
      ensures State() == SubmitClose(old(State()), m, signal, env)
    {
      var quantity := CloseQuantity(m, env);
      SubmitClosingOrderOf(m, signal, env, quantity);
    }

    method SubmitClosingOrderOf(m: Managed, signal: ExitSignal, env: CycleEnv, quantity: nat)
      requires signal.Exit?
      modifies this, repository, broker
      ensures State() == SubmitCloseOf(old(State()), m, signal, env, quantity)
    {
      hide CloseRequest;
      if quantity < 1 {
        incidents := incidents + [CloseZeroQuantity];
        return;
      }
      var id := ClientId(env.cycle, CandidateId.Closing(m.candidate), quantity, 0);
      if id in repository.orders {
        return;
      }
      var request := CloseRequest(m, env.quotes, id, quantity, signal.reason, signal.urgency);
      if request.Failure? {
        incidents := incidents + [CloseIncompleteQuotes];
        return;
      }
      CloseRequestKeepsId(m, env.quotes, id, quantity, signal.reason, signal.urgency);
      var placement := broker.PlaceOptionOrder(request.value, env.place);
      if placement.None? {
        failed := true;
        return;
      }
      repository.PersistOrder(env.run, request.value, placement.value);
      var _ := repository.MarkOrderStatus(m.id, Status.Closing);
    }

    method ReviewStructure(m: Managed, env: CycleEnv)
      modifies this, repository, broker
      ensures State() == HandleManaged(old(State()), m, env)
    {
      var legs := m.structure.legs;
      if m.candidate in filledEntries || m.candidate in active {
        return;
      }
      if !AnyPresent(legs, env) {
        var _ := repository.MarkOrderStatus(m.id, Closed);
        return;
      }
      if !AllPresent(legs, env) {
        var _ := repository.MarkOrderStatus(m.id, ExternallyReduced);
        incidents := incidents + [IncompleteStructure];
        return;
      }
      if !env.marketOpen {
        return;
      }
      var signal := ExitFor(m, env);
      if signal.Exit? {
        SubmitClosingOrder(m, signal, env);
      }
    }

    // ----------------------------------------------------------------------- the loops

    /** An exception ends the pass where it is. */
    method ReviewOrders(pending: seq<Order>, env: CycleEnv)
      requires !failed
      modifies this, repository, broker
      ensures State() == HandleAllPending(old(State()), pending, env)
    {
      ghost var start := State();
      var i := 0;
      while i < |pending| && !failed
        invariant i <= |pending|
        invariant State() == HandleAllPending(start, pending[..i], env)
      {
        assert pending[..i + 1][..i] == pending[..i];
        ReviewOrder(pending[i], env);
        i := i + 1;
      }
      if failed {
        FailureEndsPendingLoop(start, pending, i, env);
      } else {
        assert pending[..|pending|] == pending;
      }
    }

    method ReviewStructures(managed: seq<Managed>, env: CycleEnv)
      requires !failed
      modifies this, repository, broker
      ensures State() == HandleAllManaged(old(State()), managed, env)
    {
      ghost var start := State();
      var i := 0;
      while i < |managed| && !failed
        invariant i <= |managed|
        invariant State() == HandleAllManaged(start, managed[..i], env)
      {
        assert managed[..i + 1][..i] == managed[..i];
        ReviewStructure(managed[i], env);
        i := i + 1;
      }
      if failed {
        FailureEndsManagedLoop(start, managed, i, env);
      } else {
        assert managed[..|managed|] == managed;
      }
    }

    /** One pass: the pending orders, then the open structures. */
    method MaintainOrderLifecycle(env: CycleEnv)
      requires active == {} && filledEntries == {} && incidents == [] && !failed
      modifies this, repository, broker
      ensures State() == Pass(old(repository.Tables()), old(broker.working), env)
    {
      repository.ReconcileFilledClosingParents();
      var pending := repository.PendingManagedOrders();
      if env.flatTarget && (env.positions != map[] || pending != []) {
        incidents := incidents + [FlatTargetExposure];
      }
      assert State() == StartPass(old(repository.Tables()), old(broker.working), env);
      ReviewOrders(pending, env);
      if failed {
        return;
      }
      var managed := repository.OpenManagedStructures();
      ReviewStructures(managed, env);
    }
  }

  lemma CloseRequestKeepsId(
    m: Managed, quotes: QuoteBook, id: ClientId, quantity: nat, reason: string, urgency: Urgency)
    requires CloseRequest(m, quotes, id, quantity, reason, urgency).Success?
    ensures CloseRequest(m, quotes, id, quantity, reason, urgency).value.id == id
  {
  }

  lemma {:induction false} FailureEndsPendingLoop(s: PassState, orders: seq<Order>, n: nat, env: CycleEnv)
    requires n <= |orders| && HandleAllPending(s, orders[..n], env).failed
    ensures HandleAllPending(s, orders, env) == HandleAllPending(s, orders[..n], env)
    decreases |orders|
  {
    if n == |orders| {
      assert orders[..n] == orders;
    } else {
      var m := |orders| - 1;
      assert orders[..m][..n] == orders[..n];
      FailureEndsPendingLoop(s, orders[..m], n, env);
    }
  }

  lemma {:induction false} FailureEndsManagedLoop(s: PassState, managed: seq<Managed>, n: nat, env: CycleEnv)
    requires n <= |managed| && HandleAllManaged(s, managed[..n], env).failed
    ensures HandleAllManaged(s, managed, env) == HandleAllManaged(s, managed[..n], env)
    decreases |managed|
  {
    if n == |managed| {
      assert managed[..n] == managed;
    } else {
      var m := |managed| - 1;
      assert managed[..m][..n] == managed[..n];
      FailureEndsManagedLoop(s, managed[..m], n, env);
    }
  }
}
