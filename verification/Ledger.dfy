/** The order ledger as a value: its tables and what each repository call makes of them
    (persistence/repository.py). */
module Ledger {
  import opened Common
  import opened Schemas
  import opened Clock
  import opened Orders
  import opened Execution
  import opened Inventory
  import opened Folds

  /** An approved risk decision with the structure it was made about. */
  datatype Award = Award(
    amount: real, quantity: nat, candidate: CandidateName, structure: Structure, holdingMinutes: nat)

  /** `ids` lists the order rows in the order they were inserted; awards are keyed by run; `known`
      holds the leg symbols of every structure ever compiled; `fills` is the fill table. */
  datatype Book = Book(
    ids: seq<ClientId>, orders: map<ClientId, Order>, awards: map<RunId, Award>, known: set<Symbol>,
    fills: seq<FillRow>)

  /** One fill of an order, under the broker's activity id. */
  datatype FillRow = FillRow(order: ClientId, activity: string, fill: Fill)

  /** The order joins the candidate and structure its run selected. */
  predicate Joined(o: Order, awards: map<RunId, Award>) {
    && !o.request.isClosing && o.run in awards
    && o.request.candidate == CandidateId.Opening(awards[o.run].candidate)
  }

  // ------------------------------------------------------------------- row edits

  function MarkStatus(b: Book, id: ClientId, status: Status): Book {
    if id !in b.orders then b else b.(orders := b.orders[id := b.orders[id].(status := status)])
  }

  /** What the broker answers to a placed order. */
  datatype Placement = Placement(status: Status, submittedAt: int)

  function PersistOrder(b: Book, run: RunId, request: Request, p: Placement): Book {
    b.(ids := b.ids + [request.id],
       orders := b.orders[request.id := Order(run, p.status, request.quantity, p.submittedAt, request)])
  }

  // --------------------------------------------------------------------- listings

  /** A stored close without a parent is given the one established order of its candidate, if it is alone. */
  function WithParent(o: Order, ids: seq<ClientId>, orders: map<ClientId, Order>): Order {
    if !o.request.isClosing || o.request.parent.Some? then o
    else
      var rows := ParentsOf(ids, orders, o.request.candidate.name, None, false);
      if |rows| == 1 then o.(request := o.request.(parent := Some(rows[0]))) else o
  }

  /** What `pending_managed_orders` returns for the rows of `ids`, in order. */
  function PendingOf(ids: seq<ClientId>, b: Book): seq<Order> {
    if ids == [] then []
    else
      var n := |ids| - 1;
      PendingOf(ids[..n], b)
      + if ids[n] in b.orders && b.orders[ids[n]].Pending() then [WithParent(b.orders[ids[n]], b.ids, b.orders)] else []
  }

  function Pending(b: Book): seq<Order> { PendingOf(b.ids, b) }

  /** The fills of one order. */
  function FillsOf(rows: seq<FillRow>, order: ClientId): seq<Fill> {
    if rows == [] then []
    else
      var n := |rows| - 1;
      FillsOf(rows[..n], order) + if rows[n].order == order then [rows[n].fill] else []
  }

  /** The target stored with the order; a final-day directional order without one, such as a replacement,
      keeps the final-day target. */
  function ManagedTakeProfit(o: Order, s: Structure): Option<real> {
    if o.request.takeProfit.Some? then o.request.takeProfit
    else if FinalDay(o.submittedAt) && s.strategy.Directional()
    then Some(MAVERICK_DIRECTIONAL_DEBIT_TAKE_PROFIT_MULTIPLE)
    else None
  }

  /** A fully reconstructed fill is authoritative; the accepted limit is the fallback. */
  function ManagedRow(o: Order, a: Award, fill: Option<real>): Managed {
    var price := if fill.GetOr(0.0) != 0.0 then fill.value else o.request.limit;
    Managed(o.request.id, a.candidate, o.status, o.request.quantity, o.submittedAt, a.holdingMinutes,
            a.structure.(netPrice := price), ManagedTakeProfit(o, a.structure))
  }

  /** The opening price the fills of an order reconstruct. */
  function OpeningPrice(o: Order, s: Structure, fills: seq<FillRow>): Option<real> {
    FilledPrice(FillsOf(fills, o.request.id), s.legs, o.request.quantity)
  }

  function ManagedOf(
    ids: seq<ClientId>, orders: map<ClientId, Order>, awards: map<RunId, Award>, fills: seq<FillRow>): seq<Managed>
  {
    if ids == [] then []
    else
      var n := |ids| - 1;
      ManagedOf(ids[..n], orders, awards, fills)
      + if ids[n] in orders && orders[ids[n]].status.Established() && Joined(orders[ids[n]], awards)
        then [ManagedRow(orders[ids[n]], awards[orders[ids[n]].run],
                         OpeningPrice(orders[ids[n]], awards[orders[ids[n]].run].structure, fills))]
        else []
  }

  function OpenManaged(b: Book): seq<Managed> { ManagedOf(b.ids, b.orders, b.awards, b.fills) }

  // ----------------------------------------------------------------- closing links

  /** Rows of `ids` that may be the opening parent of a close of `name`. */
  function ParentsOf(
    ids: seq<ClientId>, orders: map<ClientId, Order>, name: CandidateName, parent: Option<ClientId>, closedToo: bool)
    : seq<ClientId>
  {
    if ids == [] then []
    else
      var n := |ids| - 1;
      var id := ids[n];
      ParentsOf(ids[..n], orders, name, parent, closedToo)
      + if && id in orders
           && (orders[id].status.Established() || (closedToo && parent.Some? && orders[id].status.Closed?))
           && (if parent.Some? then id == parent.value else orders[id].request.candidate == CandidateId.Opening(name))
        then [id] else []
  }

  /** mark_managed_structure_closed: exactly one parent, of this candidate and quantity. */
  function CloseParent(b: Book, name: CandidateName, parent: Option<ClientId>, quantity: nat): (Book, bool) {
    var rows := ParentsOf(b.ids, b.orders, name, parent, true);
    if |rows| != 1 || rows[0] !in b.orders || b.orders[rows[0]].request.candidate != CandidateId.Opening(name)
       || b.orders[rows[0]].request.quantity != quantity then (b, false)
    else (MarkStatus(b, rows[0], Closed), true)
  }

  /** One filled close: its single established parent is closed. */
  function ReconcileParent(b: Book, close: Order): Book {
    var name := close.request.candidate.name;
    var rows := ParentsOf(b.ids, b.orders, name, close.request.parent, false);
    if |rows| != 1 || rows[0] !in b.orders || b.orders[rows[0]].request.candidate != CandidateId.Opening(name) then b
    else MarkStatus(b, rows[0], Closed)
  }

  function FilledClosesOf(ids: seq<ClientId>, orders: map<ClientId, Order>): seq<Order> {
    if ids == [] then []
    else
      var n := |ids| - 1;
      FilledClosesOf(ids[..n], orders)
      + if ids[n] in orders && orders[ids[n]].status.Filled? && orders[ids[n]].request.isClosing
        then [orders[ids[n]]] else []
  }

  function ReconcileParents(b: Book, closes: seq<Order>): Book {
    if closes == [] then b
    else
      var n := |closes| - 1;
      ReconcileParent(ReconcileParents(b, closes[..n]), closes[n])
  }

  /** reconcile_filled_closing_parents. */
  function ReconcileFilledParents(b: Book): Book { ReconcileParents(b, FilledClosesOf(b.ids, b.orders)) }

  // ------------------------------------------------------------------ broker sync

  /** A fill activity; leaves of zero (or none reported) mean the order is complete. */
  datatype Activity = Activity(id: string, order: ClientId, fill: Fill, leaves: nat)

  predicate Recorded(rows: seq<FillRow>, a: Activity) {
    exists r <- rows :: r.order == a.order && r.activity == a.id
  }

  /** Records the fill once, and advances its order whenever it is reported. */
  function PersistFill(b: Book, a: Activity): Book {
    var rows := if Recorded(b.fills, a) then b.fills else b.fills + [FillRow(a.order, a.id, a.fill)];
    if a.order !in b.orders then b.(fills := rows)
    else
      b.(fills := rows,
         orders := b.orders[a.order := b.orders[a.order].(
           status := if a.leaves == 0 then Filled else PartiallyFilled, remaining := a.leaves)])
  }

  function PersistFills(b: Book, activities: seq<Activity>): Book {
    if activities == [] then b
    else
      var n := |activities| - 1;
      PersistFill(PersistFills(b, activities[..n]), activities[n])
  }

  /** An order the broker lists as open. */
  datatype BrokerOrder = BrokerOrder(id: ClientId, status: Option<Status>, remaining: nat)

  function SyncOrder(b: Book, r: BrokerOrder): Book {
    if r.id !in b.orders then b
    else
      var o := b.orders[r.id];
      b.(orders := b.orders[r.id := o.(status := r.status.GetOr(o.status), remaining := r.remaining)])
  }

  function SyncOrders(b: Book, reports: seq<BrokerOrder>): Book {
    if reports == [] then b
    else
      var n := |reports| - 1;
      SyncOrder(SyncOrders(b, reports[..n]), reports[n])
  }

  /** The exposure of one row, if it has any. */
  function ExposureOf(id: ClientId, orders: map<ClientId, Order>, awards: map<RunId, Award>): seq<Exposure> {
    if id in orders && orders[id].status.Exposed() && Joined(orders[id], awards)
    then [Exposure(id, orders[id].status, awards[orders[id].run].structure.legs, orders[id].request.quantity)]
    else []
  }

  function ExposuresOf(ids: seq<ClientId>, orders: map<ClientId, Order>, awards: map<RunId, Award>): seq<Exposure> {
    if ids == [] then []
    else
      var n := |ids| - 1;
      ExposuresOf(ids[..n], orders, awards) + ExposureOf(ids[n], orders, awards)
  }

  function SubmittedAt(
    id: ClientId, orders: map<ClientId, Order>): int { if id in orders then orders[id].submittedAt else 0 }

  /** Puts a row after every row submitted no later. */
  function InsertBySubmission(id: ClientId, sorted: seq<ClientId>, orders: map<ClientId, Order>): seq<ClientId> {
    if sorted == [] || SubmittedAt(sorted[|sorted| - 1], orders) <= SubmittedAt(id, orders) then sorted + [id]
    else InsertBySubmission(id, sorted[..|sorted| - 1], orders) + [sorted[|sorted| - 1]]
  }

  /** The rows ordered by submission, rows submitted together in the order of insertion. */
  function BySubmission(ids: seq<ClientId>, orders: map<ClientId, Order>): seq<ClientId> {
    if ids == [] then [] else InsertBySubmission(ids[|ids| - 1], BySubmission(ids[..|ids| - 1], orders), orders)
  }

  /** The exposed rows in the order they are matched to positions. */
  function ExposureRows(b: Book): seq<Exposure> { ExposuresOf(BySubmission(b.ids, b.orders), b.orders, b.awards) }

  function WriteRow(b: Book, before: Exposure, after: Exposure): Book {
    if after.status == before.status || after.id !in b.orders then b
    else b.(orders := b.orders[after.id := b.orders[after.id].(status := after.status, remaining := 0)])
  }

  /** Rows the normalisation promoted become filled with nothing remaining. */
  function WriteBack(b: Book, before: seq<Exposure>, after: seq<Exposure>): Book
    requires |before| == |after|
  {
    if before == [] then b
    else
      var n := |before| - 1;
      WriteRow(WriteBack(b, before[..n], after[..n]), before[n], after[n])
  }

  function NormalizeBook(b: Book, positions: Holdings): Book {
    var rows := ExposureRows(b);
    NormalizeLength(rows, positions);
    WriteBack(b, rows, Normalize(rows, positions))
  }

  lemma {:induction false} PromoteLength(rows: seq<Exposure>, h: Holdings)
    ensures |Promote(rows, h).0| == |rows|
  {
    if rows != [] {
      PromoteLength(rows[..|rows| - 1], h);
    }
  }

  lemma NormalizeLength(rows: seq<Exposure>, positions: Holdings)
    ensures |Normalize(rows, positions)| == |rows|
  {
    PromoteLength(rows, ReserveAll(positions, EstablishedClaims(rows)));
  }

  predicate AbsentFrom(legs: seq<Leg>, positions: Holdings) {
    forall l <- legs :: l.symbol !in positions
  }

  /** A structure being closed with no leg left at the broker is closed. */
  function CloseAbsent(b: Book, ids: seq<ClientId>, positions: Holdings): Book {
    if ids == [] then b
    else
      var n := |ids| - 1;
      var rest := CloseAbsent(b, ids[..n], positions);
      var id := ids[n];
      if id in b.orders && b.orders[id].status.Closing? && Joined(b.orders[id], b.awards)
         && AbsentFrom(b.awards[b.orders[id].run].structure.legs, positions)
      then MarkStatus(rest, id, Closed) else rest
  }

  /** reconcile_broker_state, apart from its incidents. */
  function ReconcileBroker(b: Book, reports: seq<BrokerOrder>, positions: Holdings, live: bool): Book {
    var synced := NormalizeBook(SyncOrders(b, reports), positions);
    if live then CloseAbsent(synced, synced.ids, positions) else synced
  }

  /** No open order or position at the broker is unknown to the ledger. */
  predicate Reconciled(b: Book, reports: seq<BrokerOrder>, positions: Holdings) {
    && (forall r <- reports :: r.id in b.orders)
    && positions.Keys <= b.known
  }

  // ---------------------------------------------------------------- book inventory

  function AddLegs(h: Holdings, legs: seq<Leg>, quantity: nat): Holdings {
    if legs == [] then h
    else
      var n := |legs| - 1;
      var rest := AddLegs(h, legs[..n], quantity);
      rest[legs[n].symbol := Contracts(rest, legs[n].symbol) + legs[n].side.Sign() * (quantity * legs[n].ratio)]
  }

  /** Signed contracts the managed structures account for, leaving out the structure of `skip`. */
  function BookInventory(managed: seq<Managed>, skip: Option<ClientId>): Holdings {
    if managed == [] then map[]
    else
      var n := |managed| - 1;
      var rest := BookInventory(managed[..n], skip);
      if skip == Some(managed[n].id) then rest else AddLegs(rest, managed[n].structure.legs, managed[n].quantity)
  }

  function NonZero(h: Holdings): Holdings { map s | s in h && h[s] != 0 :: h[s] }

  method ExpectedInventory(managed: seq<Managed>, skip: Option<ClientId>) returns (expected: Holdings)
    ensures expected == BookInventory(managed, skip)
  {
    expected := map[];
    for i := 0 to |managed|
      invariant expected == BookInventory(managed[..i], skip)
    {
      assert managed[..i + 1][..i] == managed[..i];
      if skip == Some(managed[i].id) {
        continue;
      }
      var legs := managed[i].structure.legs;
      ghost var before := expected;
      for k := 0 to |legs|
        invariant expected == AddLegs(before, legs[..k], managed[i].quantity)
      {
        assert legs[..k + 1][..k] == legs[..k];
        expected := expected[legs[k].symbol :=
          Contracts(expected, legs[k].symbol) + legs[k].side.Sign() * (managed[i].quantity * legs[k].ratio)];
      }
      assert legs[..|legs|] == legs;
    }
    assert managed[..|managed|] == managed;
  }

  // ------------------------------------------------------------------ risk summary

  /** The ledger's sum: every exposed row of an approved run adds that run's award again. */
  function OpenLossOf(ids: seq<ClientId>, b: Book): real {
    if ids == [] then 0.0
    else
      var n := |ids| - 1;
      OpenLossOf(ids[..n], b)
      + if ids[n] in b.orders && b.orders[ids[n]].status.Exposed() && b.orders[ids[n]].run in b.awards
        then b.awards[b.orders[ids[n]].run].amount else 0.0
  }

  function OpenLoss(b: Book): real { OpenLossOf(b.ids, b) }

  /** Statuses that make an opening order's underlying pending. */
  predicate PendingEntry(s: Status) { s.Working() || s.Proposed? }

  /** Statuses that make an opening order's underlying already managed. */
  predicate OpenEntry(s: Status) { s.PartiallyFilled? || s.Established() }

  function PendingUnderlyings(b: Book): set<Symbol> {
    set id | id in b.orders && PendingEntry(b.orders[id].status) && Joined(b.orders[id], b.awards)
      :: b.awards[b.orders[id].run].structure.underlying
  }

  function OpenUnderlyings(b: Book): set<Symbol> {
    set id | id in b.orders && OpenEntry(b.orders[id].status) && Joined(b.orders[id], b.awards)
      :: b.awards[b.orders[id].run].structure.underlying
  }

  function OpenRows(b: Book, underlying: Symbol): set<ClientId> {
    set id | id in b.orders && OpenEntry(b.orders[id].status) && Joined(b.orders[id], b.awards)
             && b.awards[b.orders[id].run].structure.underlying == underlying
  }

  function OpenCounts(b: Book): map<Symbol, nat> {
    map u | u in OpenUnderlyings(b) :: |OpenRows(b, u)|
  }
}

/** Invariants of the ledger and what its edits keep. */
module LedgerLaws {
  import opened Options
  import opened Orders
  import opened RepricingLaws
  import opened Inventory
  import opened Ledger

  predicate DistinctIds(ids: seq<ClientId>) {
    forall i, j :: 0 <= i < j < |ids| ==> ids[i] != ids[j]
  }

  /** An opening order stands in for its run's award, on the concession schedule. */
  predicate EntryOk(o: Order, awards: map<RunId, Award>) {
    && Joined(o, awards)
    && o.request.isCredit == awards[o.run].structure.isCredit
    && OnSchedule(awards[o.run].structure.netPrice, o.request.isCredit, o.request.attempt, o.request.limit)
  }

  /** A closing order points at one opening order of the same candidate. */
  predicate CloseOk(o: Order, orders: map<ClientId, Order>) {
    && o.request.parent.Some? && o.request.parent.value in orders
    && o.request.candidate.Closing?
    && var p := orders[o.request.parent.value];
       p.IsEntry() && p.request.candidate == CandidateId.Opening(o.request.candidate.name)
  }

  predicate RowOk(o: Order, b: Book) {
    o.request.Valid() && if o.request.isClosing then CloseOk(o, b.orders) else EntryOk(o, b.awards)
  }

  predicate RowAt(b: Book, id: ClientId) {
    id in b.orders && b.orders[id].request.id == id && RowOk(b.orders[id], b)
  }

  /** The ledger invariant. */
  ghost predicate Inv(b: Book) {
    && DistinctIds(b.ids)
    && (forall id :: id in b.ids <==> id in b.orders)
    && (forall id {:trigger RowAt(b, id)} :: id in b.orders ==> RowAt(b, id))
    && (forall r :: r in b.awards ==> b.awards[r].amount >= 0.0)
  }

  /** Only statuses and remaining quantities may differ. */
  ghost predicate SameRows(b: Book, b': Book) {
    && b'.ids == b.ids && b'.awards == b.awards && b'.known == b.known && b'.orders.Keys == b.orders.Keys
    && forall id :: id in b.orders ==>
         b'.orders[id] == b.orders[id].(status := b'.orders[id].status, remaining := b'.orders[id].remaining)
  }

  lemma SameRowsKeepsInv(b: Book, b': Book)
    requires Inv(b) && SameRows(b, b')
    ensures Inv(b')
  {
    forall id | id in b'.orders ensures RowAt(b', id) {
      assert RowAt(b, id);
    }
  }

  lemma PersistKeepsInv(b: Book, run: RunId, request: Request, p: Placement)
    requires Inv(b) && request.id !in b.orders
    requires RowOk(Order(run, p.status, request.quantity, p.submittedAt, request), b)
    ensures Inv(PersistOrder(b, run, request, p))
  {
    var b' := PersistOrder(b, run, request, p);
    forall id | id in b'.orders ensures RowAt(b', id) {
      if id != request.id {
        assert RowAt(b, id);
      }
    }
    assert forall id :: id in b'.ids <==> id in b.ids || id == request.id;
  }

  // ----------------------------------------------------------- sync keeps the rows

  lemma {:induction false} FillsKeepRows(b: Book, activities: seq<Activity>)
    ensures SameRows(b, PersistFills(b, activities))
  {
    if activities != [] {
      FillsKeepRows(b, activities[..|activities| - 1]);
    }
  }

  lemma {:induction false} SyncKeepsRows(b: Book, reports: seq<BrokerOrder>)
    ensures SameRows(b, SyncOrders(b, reports))
  {
    if reports != [] {
      SyncKeepsRows(b, reports[..|reports| - 1]);
    }
  }

  lemma {:induction false} WriteBackKeepsRows(b: Book, before: seq<Exposure>, after: seq<Exposure>)
    requires |before| == |after|
    ensures SameRows(b, WriteBack(b, before, after))
  {
    if before != [] {
      var n := |before| - 1;
      WriteBackKeepsRows(b, before[..n], after[..n]);
    }
  }

  lemma {:induction false} CloseAbsentKeepsRows(b: Book, ids: seq<ClientId>, positions: Holdings)
    ensures SameRows(b, CloseAbsent(b, ids, positions))
  {
    if ids != [] {
      CloseAbsentKeepsRows(b, ids[..|ids| - 1], positions);
    }
  }

  lemma ReconcileKeepsRows(b: Book, reports: seq<BrokerOrder>, positions: Holdings, live: bool)
    ensures SameRows(b, ReconcileBroker(b, reports, positions, live))
  {
    var synced := SyncOrders(b, reports);
    SyncKeepsRows(b, reports);
    var rows := ExposureRows(synced);
    NormalizeLength(rows, positions);
    WriteBackKeepsRows(synced, rows, Normalize(rows, positions));
    var normalized := NormalizeBook(synced, positions);
    CloseAbsentKeepsRows(normalized, normalized.ids, positions);
  }

  lemma {:induction false} ReconcileParentsKeepsRows(b: Book, closes: seq<Order>)
    ensures SameRows(b, ReconcileParents(b, closes))
  {
    if closes != [] {
      ReconcileParentsKeepsRows(b, closes[..|closes| - 1]);
    }
  }

  // ------------------------------------------------------------------ recorded fills

  /** No activity of an order is recorded twice. */
  predicate FillsUnique(rows: seq<FillRow>) {
    forall i, j :: 0 <= i < j < |rows| ==> rows[i].order != rows[j].order || rows[i].activity != rows[j].activity
  }

  lemma {:induction false} FillsRecordedOnce(b: Book, activities: seq<Activity>)
    requires FillsUnique(b.fills)
    ensures var after := PersistFills(b, activities).fills;
      && FillsUnique(after) && b.fills <= after
      && (forall a <- activities :: Recorded(after, a))
  {
    if activities != [] {
      var n := |activities| - 1;
      FillsRecordedOnce(b, activities[..n]);
      var rows, a := PersistFills(b, activities[..n]).fills, activities[n];
      var after := PersistFills(b, activities).fills;
      forall x | x in activities ensures Recorded(after, x) {
        if x != a {
          assert x in activities[..n];
          var r :| r in rows && r.order == x.order && r.activity == x.id;
          assert r in after;
        } else if !Recorded(rows, a) {
          assert after[|rows|] == FillRow(a.order, a.id, a.fill);
        }
      }
    }
  }

  lemma {:induction false} RecordedAddNothing(b: Book, activities: seq<Activity>)
    requires forall a <- activities :: Recorded(b.fills, a)
    ensures PersistFills(b, activities).fills == b.fills
  {
    if activities != [] {
      RecordedAddNothing(b, activities[..|activities| - 1]);
    }
  }

  /** Persisting the same activities again records no fill a second time. */
  lemma FillsIdempotent(b: Book, activities: seq<Activity>)
    requires FillsUnique(b.fills)
    ensures var once := PersistFills(b, activities); PersistFills(once, activities).fills == once.fills
  {
    FillsRecordedOnce(b, activities);
    RecordedAddNothing(PersistFills(b, activities), activities);
  }

  // ------------------------------------------------------------------ live awards

  /** A row that is an opening order whose award still counts. */
  predicate LiveRow(b: Book, id: ClientId) {
    id in b.orders && b.orders[id].IsEntry() && b.orders[id].status.Exposed()
  }

  function LiveRuns(b: Book): set<RunId> {
    set id | id in b.orders && LiveRow(b, id) :: b.orders[id].run
  }

  function LiveRunsOf(ids: seq<ClientId>, b: Book): set<RunId> {
    set id | id in ids && LiveRow(b, id) :: b.orders[id].run
  }

  /** The awards of a set of runs, each counted once. */
  ghost function TotalAward(runs: set<RunId>, awards: map<RunId, Award>): real
    requires runs <= awards.Keys
  {
    if runs == {} then 0.0
    else
      var r :| r in runs;
      awards[r].amount + TotalAward(runs - {r}, awards)
  }

  lemma {:induction false} TotalAwardSplits(runs: set<RunId>, r: RunId, awards: map<RunId, Award>)
    requires runs <= awards.Keys && r in runs
    ensures TotalAward(runs, awards) == awards[r].amount + TotalAward(runs - {r}, awards)
    decreases runs
  {
    var picked :| picked in runs
      && TotalAward(runs, awards) == awards[picked].amount + TotalAward(runs - {picked}, awards);
    if picked != r {
      TotalAwardSplits(runs - {picked}, r, awards);
      TotalAwardSplits(runs - {r}, picked, awards);
      assert runs - {picked} - {r} == runs - {r} - {picked};
    }
  }

  lemma {:induction false} TotalAwardMonotone(fewer: set<RunId>, more: set<RunId>, awards: map<RunId, Award>)
    requires fewer <= more <= awards.Keys
    requires forall r :: r in awards ==> awards[r].amount >= 0.0
    ensures 0.0 <= TotalAward(fewer, awards) <= TotalAward(more, awards)
    decreases more
  {
    if more != {} {
      if fewer == {} {
        var r :| r in more;
        TotalAwardMonotone({}, more - {r}, awards);
        TotalAwardSplits(more, r, awards);
      } else {
        var r :| r in fewer;
        TotalAwardMonotone(fewer - {r}, more - {r}, awards);
        TotalAwardSplits(fewer, r, awards);
        TotalAwardSplits(more, r, awards);
      }
    }
  }

  lemma {:induction false} TotalAwardIgnoresOthers(
    runs: set<RunId>, awards: map<RunId, Award>, awards': map<RunId, Award>)
    requires runs <= awards.Keys && runs <= awards'.Keys
    requires forall r :: r in runs ==> awards[r] == awards'[r]
    ensures TotalAward(runs, awards) == TotalAward(runs, awards')
    decreases runs
  {
    if runs != {} {
      var r :| r in runs;
      TotalAwardSplits(runs, r, awards);
      TotalAwardSplits(runs, r, awards');
      TotalAwardIgnoresOthers(runs - {r}, awards, awards');
    }
  }

  /** The ledger sum may count a run several times, for replacements and for closes submitted in the
      same run, but it never misses one. */
  lemma LedgerSumNeverUndercounts(b: Book)
    requires Inv(b)
    ensures LiveRuns(b) <= b.awards.Keys
    ensures TotalAward(LiveRuns(b), b.awards) <= OpenLoss(b)
  {
    SumCoversLiveRuns(b.ids, b);
    assert LiveRunsOf(b.ids, b) == LiveRuns(b);
  }

  lemma {:induction false} SumCoversLiveRuns(ids: seq<ClientId>, b: Book)
    requires Inv(b)
    ensures LiveRunsOf(ids, b) <= b.awards.Keys
    ensures 0.0 <= TotalAward(LiveRunsOf(ids, b), b.awards) <= OpenLossOf(ids, b)
  {
    hide TotalAward, LiveRunsOf;
    if ids == [] {
      NoRowsNoRuns(b);
    } else {
      var n := |ids| - 1;
      SumCoversLiveRuns(ids[..n], b);
      LastRowAddsItsRun(ids, b);
      var rest, all := LiveRunsOf(ids[..n], b), LiveRunsOf(ids, b);
      if LiveRow(b, ids[n]) {
        assert RowAt(b, ids[n]);
        if b.orders[ids[n]].run !in rest {
          TotalAwardSplits(all, b.orders[ids[n]].run, b.awards);
          assert all - {b.orders[ids[n]].run} == rest;
        } else {
          assert all == rest;
        }
      } else {
        assert all == rest;
      }
      TotalAwardMonotone({}, all, b.awards);
    }
  }

  lemma NoRowsNoRuns(b: Book)
    ensures LiveRunsOf([], b) == {} && TotalAward({}, b.awards) == 0.0
  {
  }

  lemma LastRowAddsItsRun(ids: seq<ClientId>, b: Book)
    requires ids != []
    ensures var n := |ids| - 1;
      LiveRunsOf(ids, b) == LiveRunsOf(ids[..n], b) + if LiveRow(b, ids[n]) then {b.orders[ids[n]].run} else {}
  {
    assert ids == ids[..|ids| - 1] + [ids[|ids| - 1]];
  }

  /** Every opening order in the book is a bounded concession away from what was awarded: a contract
      filled at its limit loses at expiry at most the maximum loss awarded for it plus fifteen dollars
      and a cent. */
  lemma EveryEntryIsBounded(b: Book, id: ClientId, spot: real)
    requires Inv(b) && id in b.orders && b.orders[id].IsEntry()
    requires b.orders[id].run in b.awards
    requires ValidateDefinedRisk(b.awards[b.orders[id].run].structure).Success?
    requires WellOriented(b.awards[b.orders[id].run].structure)
    ensures var o, s := b.orders[id], b.awards[b.orders[id].run].structure;
      ExpiryLoss(s.legs, s.isCredit, o.request.limit, spot) <= s.maximumLoss + 15.0 + 0.01
  {
    assert RowAt(b, id);
    var o := b.orders[id];
    ChainLossBounded(b.awards[o.run].structure, o.request.attempt, o.request.limit, spot);
  }
}
