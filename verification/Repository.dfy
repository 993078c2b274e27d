/** The audit repository: its order tables, updated in place (persistence/repository.py). Every method
    leaves exactly the tables its function in Ledger describes. */
module Repository {
  import opened Common
  import opened Schemas
  import opened Orders
  import opened Inventory
  import opened Folds
  import opened Ledger

  class AuditRepository {
    var ids: seq<ClientId>
    var orders: map<ClientId, Order>
    var awards: map<RunId, Award>
    var known: set<Symbol>
    var fills: seq<FillRow>

    constructor (tables: Book)
      ensures Tables() == tables
    {
      ids, orders, awards, known := tables.ids, tables.orders, tables.awards, tables.known;
      fills := tables.fills;
    }

    function Tables(): Book
      reads this
    {
      Book(ids, orders, awards, known, fills)
    }

    // ------------------------------------------------------------------- row edits

    /** False is the raised error of an unknown order. */
    method MarkOrderStatus(id: ClientId, status: Status) returns (found: bool)
      modifies this
      ensures Tables() == MarkStatus(old(Tables()), id, status) && found == (id in old(orders))
    {
      if id !in orders {
        return false;
      }
      orders := orders[id := orders[id].(status := status)];
      return true;
    }

    method PersistOrder(run: RunId, request: Request, p: Placement)
      modifies this
      ensures Tables() == Ledger.PersistOrder(old(Tables()), run, request, p)
    {
      ids := ids + [request.id];
      orders := orders[request.id := Order(run, p.status, request.quantity, p.submittedAt, request)];
    }

    method OrderExists(id: ClientId) returns (found: bool)
      ensures found == (id in orders)
    {
      found := id in orders;
    }

    /** The legs of every compiled candidate become known symbols. */
    method PersistCandidates(symbols: set<Symbol>)
      modifies this
      ensures Tables() == old(Tables()).(known := old(known) + symbols)
    {
      known := known + symbols;
    }

    /** An approved risk decision. */
    method PersistDecision(run: RunId, award: Award)
      modifies this
      ensures Tables() == old(Tables()).(awards := old(awards)[run := award])
    {
      awards := awards[run := award];
    }

    /** Appends each fill once and advances known orders. */
    method PersistFills(activities: seq<Activity>)
      modifies this
      ensures Tables() == Ledger.PersistFills(old(Tables()), activities)
    {
      for i := 0 to |activities|
        invariant Tables() == Ledger.PersistFills(old(Tables()), activities[..i])
      {
        assert activities[..i + 1][..i] == activities[..i];
        var a := activities[i];
        if !Recorded(fills, a) {
          fills := fills + [FillRow(a.order, a.id, a.fill)];
        }
        if a.order in orders {
          orders := orders[a.order := orders[a.order].(
            status := if a.leaves == 0 then Filled else PartiallyFilled, remaining := a.leaves)];
        }
      }
      assert activities[..|activities|] == activities;
    }

    // -------------------------------------------------------------------- listings

    method PendingManagedOrders() returns (managed: seq<Order>)
      ensures managed == Pending(Tables())
    {
      managed := [];
      for i := 0 to |ids|
        invariant managed == PendingOf(ids[..i], Tables())
      {
        assert ids[..i + 1][..i] == ids[..i];
        if ids[i] !in orders {
          continue;
        }
        var row := orders[ids[i]];
        if !row.status.Working() || row.request.legs == [] || row.remaining < 1 {
          continue;
        }
        if row.request.isClosing && row.request.parent.None? {
          var possible := CandidateParents(row.request.candidate.name, None, false);
          if |possible| == 1 {
            row := row.(request := row.request.(parent := Some(possible[0])));
          }
        }
        managed := managed + [row];
      }
      assert ids[..|ids|] == ids;
    }

    method OpenManagedStructures() returns (managed: seq<Managed>)
      ensures managed == OpenManaged(Tables())
    {
      managed := [];
      for i := 0 to |ids|
        invariant managed == ManagedOf(ids[..i], orders, awards, fills)
      {
        assert ids[..i + 1][..i] == ids[..i];
        if ids[i] !in orders {
          continue;
        }
        var row := orders[ids[i]];
        if !row.status.Established() || !Joined(row, awards) {
          continue;
        }
        var a := awards[row.run];
        var price := FilledStructurePrice(FillsOf(fills, row.request.id), a.structure.legs, row.request.quantity);
        managed := managed + [ManagedRow(row, a, price)];
      }
      assert ids[..|ids|] == ids;
    }

    // --------------------------------------------------------------- closing links

    method CandidateParents(
      name: CandidateName, parent: Option<ClientId>, closedToo: bool) returns (rows: seq<ClientId>)
      ensures rows == ParentsOf(ids, orders, name, parent, closedToo)
    {
      rows := [];
      for i := 0 to |ids|
        invariant rows == ParentsOf(ids[..i], orders, name, parent, closedToo)
      {
        assert ids[..i + 1][..i] == ids[..i];
        if ids[i] !in orders {
          continue;
        }
        var row := orders[ids[i]];
        var eligible := row.status.Established() || (closedToo && parent.Some? && row.status.Closed?);
        var linked := if parent.Some? then ids[i] == parent.value
                      else row.request.candidate == CandidateId.Opening(name);
        if eligible && linked {
          rows := rows + [ids[i]];
        }
      }
      assert ids[..|ids|] == ids;
    }

    method MarkManagedStructureClosed(
      name: CandidateName, parent: Option<ClientId>, quantity: nat) returns (closed: bool)
      modifies this
      ensures (Tables(), closed) == CloseParent(old(Tables()), name, parent, quantity)
    {
      var rows := CandidateParents(name, parent, true);
      if |rows| != 1 || rows[0] !in orders {
        return false;
      }
      var row := orders[rows[0]];
      if row.request.candidate != CandidateId.Opening(name) || row.request.quantity != quantity {
        return false;
      }
      orders := orders[rows[0] := row.(status := Closed)];
      return true;
    }

    method FilledCloses() returns (closes: seq<Order>)
      ensures closes == FilledClosesOf(ids, orders)
    {
      closes := [];
      for i := 0 to |ids|
        invariant closes == FilledClosesOf(ids[..i], orders)
      {
        assert ids[..i + 1][..i] == ids[..i];
        if ids[i] in orders && orders[ids[i]].status.Filled? && orders[ids[i]].request.isClosing {
          closes := closes + [orders[ids[i]]];
        }
      }
      assert ids[..|ids|] == ids;
    }

    method ReconcileFilledClosingParents()
      modifies this
      ensures Tables() == ReconcileFilledParents(old(Tables()))
    {
      var closes := FilledCloses();
      hide ParentsOf, FilledClosesOf;
      for i := 0 to |closes|
        invariant Tables() == ReconcileParents(old(Tables()), closes[..i])
      {
        assert closes[..i + 1][..i] == closes[..i];
        var name := closes[i].request.candidate.name;
        var rows := CandidateParents(name, closes[i].request.parent, false);
        if |rows| == 1 && rows[0] in orders && orders[rows[0]].request.candidate == CandidateId.Opening(name) {
          orders := orders[rows[0] := orders[rows[0]].(status := Closed)];
        }
      }
      assert closes[..|closes|] == closes;
    }

    // ---------------------------------------------------------------- broker sync

    /** Sync the listed orders, match positions to structures, and on a live broker close what is
        wholly absent. Clean exactly when nothing at the broker is unknown. */
    method ReconcileBrokerState(reports: seq<BrokerOrder>, positions: Holdings, live: bool) returns (clean: bool)
      modifies this
      ensures Tables() == ReconcileBroker(old(Tables()), reports, positions, live)
      ensures clean == Reconciled(old(Tables()), reports, positions)
    {
      clean := SyncListedOrders(reports);
      var left := positions.Keys;
      while left != {}
        invariant left <= positions.Keys
        invariant clean <==> (forall r <- reports :: r.id in old(orders)) && positions.Keys - left <= known
      {
        var symbol :| symbol in left;
        clean := clean && symbol in known;
        left := left - {symbol};
      }
      NormalizeFromInventory(positions);
      if live {
        CloseAbsentStructures(positions);
      }
    }

    method SyncListedOrders(reports: seq<BrokerOrder>) returns (allKnown: bool)
      modifies `orders
      ensures Tables() == SyncOrders(old(Tables()), reports)
      ensures allKnown <==> forall r <- reports :: r.id in old(orders)
    {
      allKnown := true;
      for i := 0 to |reports|
        invariant Tables() == SyncOrders(old(Tables()), reports[..i])
        invariant orders.Keys == old(orders).Keys
        invariant allKnown <==> forall r <- reports[..i] :: r.id in old(orders)
      {
        assert reports[..i + 1] == reports[..i] + [reports[i]];
        assert reports[..i + 1][..i] == reports[..i];
        var r := reports[i];
        if r.id !in orders {
          allKnown := false;
        } else {
          var row := orders[r.id];
          orders := orders[r.id := row.(status := r.status.GetOr(row.status), remaining := r.remaining)];
        }
      }
      assert reports[..|reports|] == reports;
    }

    /** The exposed rows, ordered by submission as the query asks. */
    method ListExposures() returns (rows: seq<Exposure>)
      ensures rows == ExposureRows(Tables())
    {
      var listed := BySubmission(ids, orders);
      rows := [];
      for i := 0 to |listed|
        invariant rows == ExposuresOf(listed[..i], orders, awards)
      {
        assert listed[..i + 1][..i] == listed[..i];
        var id := listed[i];
        if id in orders && orders[id].status.Exposed() && Joined(orders[id], awards) {
          var row := orders[id];
          rows := rows + [Exposure(id, row.status, awards[row.run].structure.legs, row.request.quantity)];
        }
      }
      assert listed[..|listed|] == listed;
    }

    method ReserveEstablished(rows: seq<Exposure>, positions: Holdings) returns (inventory: BrokerInventory)
      ensures fresh(inventory) && inventory.held == ReserveAll(positions, EstablishedClaims(rows))
    {
      inventory := new BrokerInventory(positions);
      for i := 0 to |rows|
        invariant inventory.held == ReserveAll(positions, EstablishedClaims(rows[..i]))
      {
        assert rows[..i + 1][..i] == rows[..i];
        if rows[i].status.Established() {
          inventory.Reserve(rows[i].legs, rows[i].quantity);
          ReserveSplits(positions, EstablishedClaims(rows[..i]), rows[i].Claims());
        } else {
          assert EstablishedClaims(rows[..i]) + [] == EstablishedClaims(rows[..i]);
        }
      }
      assert rows[..|rows|] == rows;
    }

    /** A pending row the remaining inventory covers in full becomes filled. */
    method PromoteCovered(rows: seq<Exposure>, inventory: BrokerInventory)
      modifies `orders, inventory
      ensures |Promote(rows, old(inventory.held)).0| == |rows|
      ensures Tables() == WriteBack(old(Tables()), rows, Promote(rows, old(inventory.held)).0)
    {
      ghost var reserved := inventory.held;
      for i := 0 to |rows|
        invariant |Promote(rows[..i], reserved).0| == i && inventory.held == Promote(rows[..i], reserved).1
        invariant Tables() == WriteBack(old(Tables()), rows[..i], Promote(rows[..i], reserved).0)
      {
        assert rows[..i + 1][..i] == rows[..i];
        ghost var after := Promote(rows[..i + 1], reserved).0;
        assert after[..i] == Promote(rows[..i], reserved).0;
        if rows[i].status.Established() {
          continue;
        }
        var complete := inventory.Consume(rows[i].legs, rows[i].quantity);
        if complete && rows[i].id in orders {
          orders := orders[rows[i].id := orders[rows[i].id].(status := Filled, remaining := 0)];
        }
      }
      assert rows[..|rows|] == rows;
    }

    /** Reserve for the established structures, then let pending ones consume what is left. */
    method NormalizeFromInventory(positions: Holdings)
      modifies `orders
      ensures Tables() == NormalizeBook(old(Tables()), positions)
    {
      var rows := ListExposures();
      var inventory := ReserveEstablished(rows, positions);
      PromoteCovered(rows, inventory);
    }

    method CloseAbsentStructures(positions: Holdings)
      modifies `orders
      ensures Tables() == CloseAbsent(old(Tables()), old(ids), positions)
    {
      ghost var before := Tables();
      var rows := orders;
      for i := 0 to |ids|
        invariant Tables() == CloseAbsent(before, ids[..i], positions) && ids == before.ids && awards == before.awards
        invariant orders.Keys == rows.Keys
      {
        assert ids[..i + 1][..i] == ids[..i];
        if ids[i] in rows && rows[ids[i]].status.Closing? && Joined(rows[ids[i]], awards) {
          if AbsentFrom(awards[rows[ids[i]].run].structure.legs, positions) {
            orders := orders[ids[i] := orders[ids[i]].(status := Closed)];
          }
        }
      }
      assert ids[..|ids|] == ids;
    }

    // ---------------------------------------------------------------- risk summary

    /** The sum joins every exposed row with its run's approved award. */
    method TotalOpenDefinedLoss() returns (total: real)
      ensures total == OpenLoss(Tables())
    {
      total := 0.0;
      for i := 0 to |ids|
        invariant total == OpenLossOf(ids[..i], Tables())
      {
        assert ids[..i + 1][..i] == ids[..i];
        if ids[i] in orders && orders[ids[i]].status.Exposed() && orders[ids[i]].run in awards {
          total := total + awards[orders[ids[i]].run].amount;
        }
      }
      assert ids[..|ids|] == ids;
    }
  }
}
