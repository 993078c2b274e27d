/** Orders, their identifiers and the vocabulary of their statuses. */
module Orders {
  import opened Common
  import opened Schemas

  type RunId = nat

  /** The source appends ":close" to the opening candidate's id. */
  datatype CandidateId = Opening(name: CandidateName) | Closing(name: CandidateName)

  /** The source hashes exactly these four values into the client order id. */
  datatype ClientId = ClientId(cycle: int, candidate: CandidateId, quantity: nat, attempt: nat)

  datatype Status =
    | Proposed | Accepted | AcceptedForBidding | Calculated | Held | PendingNew | PendingCancel
    | PendingReplace | New | Stopped | Submitted | PartiallyFilled | PartiallyFilledCanceled
    | Filled | Closing | ExternallyReduced | Closed | Canceled | Expired | Rejected
  {
    /** The statuses `pending_managed_orders` asks the broker about. */
    predicate Working() {
      || Accepted? || AcceptedForBidding? || Calculated? || Held? || PendingNew? || PendingCancel?
      || PendingReplace? || New? || Stopped? || Submitted? || PartiallyFilled?
    }

    /** The statuses of an opening order whose structure the book still holds. */
    predicate Established() { Filled? || Closing? || PartiallyFilledCanceled? || ExternallyReduced? }

    /** The statuses whose award counts as open defined loss. */
    predicate Exposed() { Working() || Established() }

    /** The answers that end an order at the broker. */
    predicate Terminal() { Canceled? || Expired? || Filled? || Rejected? }
  }

  datatype Urgency = Soft | Urgent

  datatype Request = Request(
    id: ClientId, candidate: CandidateId, quantity: nat, limit: real, isCredit: bool,
    legs: seq<Leg>, attempt: nat, isClosing: bool, parent: Option<ClientId>,
    exitReason: Option<string>, urgency: Option<Urgency>, takeProfit: Option<real>)
  {
    /** What constructing a BrokerOrderRequest checks. */
    predicate Valid() {
      && quantity >= 1 && limit > 0.0 && attempt <= 2
      && legs != [] && (forall l <- legs :: if isClosing then l.intent.Closes() else l.intent.Opens())
      && isClosing == parent.Some?
      && (takeProfit.Some? ==> takeProfit.value > 0.0)
    }
  }

  /** One row of the broker_orders table. */
  datatype Order = Order(
    run: RunId, status: Status, remaining: nat, submittedAt: int, request: Request)
  {
    predicate IsEntry() { !request.isClosing }

    /** Listed by `pending_managed_orders`. */
    predicate Pending() { status.Working() && remaining >= 1 && request.legs != [] }
  }

  /** An opening order joined with its run's structure, as `open_managed_structures` yields it. */
  datatype Managed = Managed(
    id: ClientId, candidate: CandidateName, status: Status, quantity: nat, openedAt: int,
    holdingMinutes: nat, structure: Structure, takeProfit: Option<real>)
}
