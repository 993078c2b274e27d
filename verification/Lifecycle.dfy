/** One maintenance pass over working orders and open structures
    (service.py, _maintain_order_lifecycle), as a transition of the ledger. */
module Lifecycle {
  import opened Common
  import opened Schemas
  import opened Clock
  import opened Orders
  import opened Execution
  import opened Inventory
  import opened Ledger

  /** The broker's answer about one order. */
  datatype BrokerReport = BrokerReport(status: Status, quantity: Option<int>, filled: Option<int>)

  /** What a cycle observes and how the broker answers it. A missing answer is a raised exception. */
  datatype CycleEnv = CycleEnv(
    run: RunId, cycle: int, now: int, forceFlatten: bool, flatTarget: bool, marketOpen: bool, allowEntries: bool,
    positions: Holdings, quotes: QuoteBook, forceClose: Option<string>,
    poll: ClientId -> Option<BrokerReport>, cancels: ClientId -> bool, place: ClientId -> Option<Placement>)

  datatype Incident =
    | FlatTargetExposure | MismatchedFilledClose | FilledCloseResidual | AmbiguousFilledParent
    | AmbiguousClosingParent | IncompleteStructure | CloseZeroQuantity | CloseIncompleteQuotes

  /** The pass in flight. `working` is the broker's side: the orders that may still execute. */
  datatype PassState = PassState(
    book: Book, working: set<ClientId>, active: set<CandidateName>, filledEntries: set<CandidateName>,
    incidents: seq<Incident>, failed: bool)
  {
    function Note(i: Incident): PassState { this.(incidents := incidents + [i]) }

    function Mark(id: ClientId, status: Status): PassState { this.(book := MarkStatus(book, id, status)) }

    function Block(name: CandidateName): PassState { this.(active := active + {name}) }
  }

  // ---------------------------------------------------------------- working orders

  /** A partly filled entry the broker ended keeps its filled part. */
  function SettledStatus(o: Order, r: BrokerReport): Status {
    if o.IsEntry() && !r.status.Filled? && r.filled.GetOr(0) > 0 then PartiallyFilledCanceled else r.status
  }

  predicate QuantityMismatch(o: Order, r: BrokerReport) {
    || (r.quantity.Some? && r.quantity.value != o.request.quantity)
    || (r.filled.Some? && r.filled.value != o.request.quantity)
  }

  /** The broker says the order is over. */
  function Settle(s: PassState, o: Order, r: BrokerReport, env: CycleEnv): PassState {
    var id, name := o.request.id, o.request.candidate.name;
    var t := s.Mark(id, SettledStatus(o, r)).(working := s.working - {id});
    if o.IsEntry() then
      if r.status.Filled? then t.(filledEntries := t.filledEntries + {name}) else t
    else if !r.status.Filled? then t
    else if QuantityMismatch(o, r) then t.Note(MismatchedFilledClose).Block(name)
    else if NonZero(env.positions) != NonZero(BookInventory(OpenManaged(t.book), o.request.parent)) then
      t.Note(FilledCloseResidual).Block(name)
    else
      var (book, closed) := CloseParent(t.book, name, o.request.parent, o.request.quantity);
      if closed then t.(book := book) else t.Note(AmbiguousFilledParent)
  }

  predicate UrgentClose(o: Order, env: CycleEnv) {
    o.request.isClosing
    && (o.request.urgency != Some(Soft) || env.forceClose.Some? || env.now >= SessionBoundary(env.now))
  }

  function Terms(o: Order, env: CycleEnv): Option<CloseTerms> {
    if UrgentClose(o, env) then CloseTermsFor(o.request.legs, env.quotes) else None
  }

  /** At the entry cutoff an entry is cancelled outright; otherwise the stale-order rules decide. */
  function NextAction(o: Order, env: CycleEnv): Repricing {
    if o.IsEntry() && !env.allowEntries then Cancel
    else
      var urgent := UrgentClose(o, env);
      var terms := Terms(o, env);
      StaleOrderAction(
        env.now - o.submittedAt, o.request.attempt, o.request.limit, o.request.isCredit,
        o.request.isClosing && !urgent,
        if o.request.isClosing then MateriallyChanged(o.request.legs, o.request.limit, env.quotes) else true,
        urgent, if terms.Some? then Some(Fresh(terms.value.limit, terms.value.isCredit)) else None,
        if urgent then UrgentDebitCap(o.request.legs) else None)
  }

  function NextAttempt(o: Order, env: CycleEnv): nat {
    if UrgentClose(o, env) then Min(o.request.attempt + 1, URGENT_MAX_REPRICE_ATTEMPTS) else o.request.attempt + 1
  }

  function Replacement(o: Order, env: CycleEnv): Request
    requires NextAction(o, env).Replace?
  {
    var a := NextAction(o, env);
    var attempt := NextAttempt(o, env);
    ReplacementRequest(o, ClientId(env.cycle, o.request.candidate, o.remaining, attempt), a.limit, a.side,
                       if Terms(o, env).Some? then Some(Terms(o, env).value.legs) else None, attempt)
  }

  /** The order still works at the broker: wait, cancel, or cancel and replace. */
  function Maintain(s: PassState, o: Order, env: CycleEnv): PassState
  {
    var id, name := o.request.id, o.request.candidate.name;
    var action := NextAction(o, env);
    if action.Wait? then if o.request.isClosing then s.Block(name) else s
    else if !env.cancels(id) then s.(failed := true)
    else
      var kept := o.IsEntry() && o.status.PartiallyFilled?;
      var t := s.Mark(id, if kept then PartiallyFilledCanceled else Canceled).(working := s.working - {id});
      if !action.Replace? || !env.marketOpen || !(o.request.isClosing || env.allowEntries) then t
      else
        var request := Replacement(o, env);
        if request.id in t.book.orders then t.Block(name)
        else
          match env.place(request.id)
          case None => t.(failed := true)
          case Some(p) =>
            t.(book := PersistOrder(t.book, o.run, request, p), working := t.working + {request.id}).Block(name)
  }

  function HandlePending(s: PassState, o: Order, env: CycleEnv): PassState
  {
    match env.poll(o.request.id)
    case None => s.(failed := true)
    case Some(r) =>
      if r.status.Terminal() then Settle(s, o, r, env)
      else if o.request.isClosing && o.request.parent.None? then
        s.Note(AmbiguousClosingParent).Block(o.request.candidate.name)
      else Maintain(s, o, env)
  }

  function HandleAllPending(s: PassState, orders: seq<Order>, env: CycleEnv): PassState
  {
    if orders == [] then s
    else
      var n := |orders| - 1;
      var t := HandleAllPending(s, orders[..n], env);
      if t.failed then t else HandlePending(t, orders[n], env)
  }

  // --------------------------------------------------------------- open structures

  function PositionSize(env: CycleEnv, symbol: Symbol): nat {
    var held := Contracts(env.positions, symbol);
    if held >= 0 then held else -held
  }

  function WholeSets(size: nat, ratio: Ratio): nat { size / ratio }

  /** The most contracts of a structure its legs' positions can close. */
  function Closeable(legs: seq<Leg>, env: CycleEnv): nat
    requires legs != []
  {
    var n := |legs| - 1;
    var own := WholeSets(PositionSize(env, legs[n].symbol), legs[n].ratio);
    if n == 0 then own
    else
      var rest := Closeable(legs[..n], env);
      if rest <= own then rest else own
  }

  predicate AnyPresent(legs: seq<Leg>, env: CycleEnv) {
    exists i :: 0 <= i < |legs| && PositionSize(env, legs[i].symbol) > 0
  }

  predicate AllPresent(legs: seq<Leg>, env: CycleEnv) {
    forall i :: 0 <= i < |legs| ==> PositionSize(env, legs[i].symbol) > 0
  }

  function ExitFor(m: Managed, env: CycleEnv): ExitSignal {
    var deadline :=
      if env.forceFlatten then Some("forced_liquidation_window")
      else if m.status.Closing? then Some("close_recovery")
      else None;
    StructureExitSignal(m, env.quotes, env.now, if deadline.Some? then deadline else env.forceClose)
  }

  function CloseQuantity(m: Managed, env: CycleEnv): nat
    requires m.structure.legs != []
  {
    var most := Closeable(m.structure.legs, env);
    if m.quantity <= most then m.quantity else most
  }

  function SubmitClose(s: PassState, m: Managed, signal: ExitSignal, env: CycleEnv): PassState
    requires signal.Exit? && m.structure.legs != []
  {
    SubmitCloseOf(s, m, signal, env, CloseQuantity(m, env))
  }

  function SubmitCloseOf(s: PassState, m: Managed, signal: ExitSignal, env: CycleEnv, quantity: nat): PassState
    requires signal.Exit?
  {
    var id := ClientId(env.cycle, CandidateId.Closing(m.candidate), quantity, 0);
    if quantity < 1 then s.Note(CloseZeroQuantity)
    else if id in s.book.orders then s
    else
      match CloseRequest(m, env.quotes, id, quantity, signal.reason, signal.urgency)
      case Failure(_) => s.Note(CloseIncompleteQuotes)
      case Success(request) =>
        match env.place(id)
        case None => s.(failed := true)
        case Some(p) =>
          s.(book := PersistOrder(s.book, env.run, request, p), working := s.working + {id}).Mark(m.id, Status.Closing)
  }

  function HandleManaged(s: PassState, m: Managed, env: CycleEnv): PassState
  {
    var legs := m.structure.legs;
    if m.candidate in s.filledEntries || m.candidate in s.active then s
    else if !AnyPresent(legs, env) then s.Mark(m.id, Closed)
    else if !AllPresent(legs, env) then s.Mark(m.id, ExternallyReduced).Note(IncompleteStructure)
    else if !env.marketOpen || ExitFor(m, env).Hold? then s
    else SubmitClose(s, m, ExitFor(m, env), env)
  }

  function HandleAllManaged(s: PassState, managed: seq<Managed>, env: CycleEnv): PassState
  {
    if managed == [] then s
    else
      var n := |managed| - 1;
      var t := HandleAllManaged(s, managed[..n], env);
      if t.failed then t else HandleManaged(t, managed[n], env)
  }

  // ------------------------------------------------------------------- whole pass

  function StartPass(b: Book, working: set<ClientId>, env: CycleEnv): PassState {
    var book := ReconcileFilledParents(b);
    PassState(book, working, {}, {},
              if env.flatTarget && (env.positions != map[] || Pending(book) != [])
              then [FlatTargetExposure] else [], false)
  }

  function AfterPending(b: Book, working: set<ClientId>, env: CycleEnv): PassState {
    var s := StartPass(b, working, env);
    HandleAllPending(s, Pending(s.book), env)
  }

  function Pass(b: Book, working: set<ClientId>, env: CycleEnv): PassState
  {
    var s := AfterPending(b, working, env);
    if s.failed then s else HandleAllManaged(s, OpenManaged(s.book), env)
  }
}
