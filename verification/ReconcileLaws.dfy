/** Matching positions to structures, seen on the ledger's own rows. */
module ReconcileLaws {
  import opened Schemas
  import opened Orders
  import opened Inventory
  import opened InventoryLaws
  import opened Ledger
  import opened LedgerLaws

  lemma {:induction false} ExposuresAreEntries(ids: seq<ClientId>, b: Book)
    ensures forall e <- ExposuresOf(ids, b.orders, b.awards) :: e.id in b.orders && b.orders[e.id].IsEntry()
  {
    if ids != [] {
      ExposuresAreEntries(ids[..|ids| - 1], b);
    }
  }

  lemma {:induction false} PromoteKeepsIds(rows: seq<Exposure>, h: Holdings)
    ensures |Promote(rows, h).0| == |rows|
    ensures forall k :: 0 <= k < |rows| ==> Promote(rows, h).0[k].id == rows[k].id
  {
    if rows != [] {
      PromoteKeepsIds(rows[..|rows| - 1], h);
    }
  }

  lemma {:induction false} WriteBackLeavesOthers(b: Book, before: seq<Exposure>, after: seq<Exposure>, id: ClientId)
    requires |before| == |after| && forall k :: 0 <= k < |after| ==> after[k].id != id
    ensures id in b.orders
      ==> id in WriteBack(b, before, after).orders && WriteBack(b, before, after).orders[id] == b.orders[id]
  {
    if before != [] {
      var n := |before| - 1;
      WriteBackLeavesOthers(b, before[..n], after[..n], id);
    }
  }

  // ------------------------------------------------------------------------- row order

  lemma {:induction false} InsertKeeps(id: ClientId, sorted: seq<ClientId>, orders: map<ClientId, Order>)
    ensures multiset(InsertBySubmission(id, sorted, orders)) == multiset(sorted) + multiset{id}
  {
    if sorted != [] {
      var n := |sorted| - 1;
      InsertKeeps(id, sorted[..n], orders);
      assert sorted == sorted[..n] + [sorted[n]];
    }
  }

  lemma {:induction false} BySubmissionKeeps(ids: seq<ClientId>, orders: map<ClientId, Order>)
    ensures multiset(BySubmission(ids, orders)) == multiset(ids)
  {
    if ids != [] {
      var n := |ids| - 1;
      BySubmissionKeeps(ids[..n], orders);
      InsertKeeps(ids[n], BySubmission(ids[..n], orders), orders);
      assert ids == ids[..n] + [ids[n]];
    }
  }

  lemma {:induction false} CountsOfDistinct(ids: seq<ClientId>)
    ensures DistinctIds(ids) ==> forall id :: multiset(ids)[id] <= 1
    ensures !DistinctIds(ids) ==> exists id :: multiset(ids)[id] >= 2
  {
    if DistinctIds(ids) {
      if ids != [] {
        var n := |ids| - 1;
        CountsOfDistinct(ids[..n]);
        assert ids == ids[..n] + [ids[n]];
        assert ids[n] !in ids[..n];
      }
    } else {
      var i, j :| 0 <= i < j < |ids| && ids[i] == ids[j];
      assert ids == ids[..j] + ([ids[j]] + ids[j + 1..]);
      assert ids[i] in ids[..j];
      assert multiset(ids)[ids[i]] >= 2;
    }
  }

  lemma BySubmissionDistinct(ids: seq<ClientId>, orders: map<ClientId, Order>)
    requires DistinctIds(ids)
    ensures DistinctIds(BySubmission(ids, orders))
    ensures forall id :: id in BySubmission(ids, orders) <==> id in ids
  {
    BySubmissionKeeps(ids, orders);
    CountsOfDistinct(ids);
    CountsOfDistinct(BySubmission(ids, orders));
    forall id ensures id in BySubmission(ids, orders) <==> id in ids {
      assert id in multiset(BySubmission(ids, orders)) <==> id in multiset(ids);
    }
  }

  predicate SortedBySubmission(ids: seq<ClientId>, orders: map<ClientId, Order>) {
    forall i, j :: 0 <= i < j < |ids| ==> SubmittedAt(ids[i], orders) <= SubmittedAt(ids[j], orders)
  }

  lemma {:induction false} InsertMembers(id: ClientId, sorted: seq<ClientId>, orders: map<ClientId, Order>)
    ensures forall x <- InsertBySubmission(id, sorted, orders) :: x in sorted || x == id
  {
    if sorted != [] {
      InsertMembers(id, sorted[..|sorted| - 1], orders);
    }
  }

  lemma AppendSorts(s: seq<ClientId>, last: ClientId, orders: map<ClientId, Order>)
    requires SortedBySubmission(s, orders) && forall x <- s :: SubmittedAt(x, orders) <= SubmittedAt(last, orders)
    ensures SortedBySubmission(s + [last], orders)
  {
  }

  lemma {:induction false} InsertSorts(id: ClientId, sorted: seq<ClientId>, orders: map<ClientId, Order>)
    requires SortedBySubmission(sorted, orders)
    ensures SortedBySubmission(InsertBySubmission(id, sorted, orders), orders)
  {
    if sorted == [] || SubmittedAt(sorted[|sorted| - 1], orders) <= SubmittedAt(id, orders) {
      AppendSorts(sorted, id, orders);
    } else {
      var n := |sorted| - 1;
      InsertSorts(id, sorted[..n], orders);
      InsertMembers(id, sorted[..n], orders);
      AppendSorts(InsertBySubmission(id, sorted[..n], orders), sorted[n], orders);
    }
  }

  /** The matching visits a permutation of the rows, earlier submissions first. */
  lemma {:induction false} BySubmissionSorts(ids: seq<ClientId>, orders: map<ClientId, Order>)
    ensures SortedBySubmission(BySubmission(ids, orders), orders)
    ensures multiset(BySubmission(ids, orders)) == multiset(ids)
  {
    BySubmissionKeeps(ids, orders);
    if ids != [] {
      var n := |ids| - 1;
      BySubmissionSorts(ids[..n], orders);
      InsertSorts(ids[n], BySubmission(ids[..n], orders), orders);
    }
  }

  lemma {:induction false} InsertIgnoresStatus(
    id: ClientId, sorted: seq<ClientId>, a: map<ClientId, Order>, b: map<ClientId, Order>)
    requires forall x :: SubmittedAt(x, a) == SubmittedAt(x, b)
    ensures InsertBySubmission(id, sorted, a) == InsertBySubmission(id, sorted, b)
  {
    if sorted != [] {
      InsertIgnoresStatus(id, sorted[..|sorted| - 1], a, b);
    }
  }

  lemma {:induction false} OrderIgnoresStatus(ids: seq<ClientId>, a: map<ClientId, Order>, b: map<ClientId, Order>)
    requires forall x :: SubmittedAt(x, a) == SubmittedAt(x, b)
    ensures BySubmission(ids, a) == BySubmission(ids, b)
  {
    if ids != [] {
      var n := |ids| - 1;
      OrderIgnoresStatus(ids[..n], a, b);
      InsertIgnoresStatus(ids[n], BySubmission(ids[..n], a), a, b);
    }
  }

  // ------------------------------------------------------------------------ idempotence

  lemma {:induction false} ExposureIdsListed(
    ids: seq<ClientId>, orders: map<ClientId, Order>, awards: map<RunId, Award>)
    ensures forall e <- ExposuresOf(ids, orders, awards) :: e.id in ids
  {
    if ids != [] {
      ExposureIdsListed(ids[..|ids| - 1], orders, awards);
    }
  }

  /** Exposures of listed rows do not depend on a row outside the list. */
  lemma {:induction false} ExposuresIgnoreOthers(
    ids: seq<ClientId>, orders: map<ClientId, Order>, awards: map<RunId, Award>, id: ClientId, o: Order)
    requires id !in ids
    ensures ExposuresOf(ids, orders[id := o], awards) == ExposuresOf(ids, orders, awards)
  {
    if ids != [] {
      ExposuresIgnoreOthers(ids[..|ids| - 1], orders, awards, id, o);
    }
  }

  /** The same rows, some of them now filled. */
  ghost predicate Promoted(before: seq<Exposure>, after: seq<Exposure>) {
    && |before| == |after|
    && forall k :: 0 <= k < |before| ==>
         && after[k] == before[k].(status := after[k].status)
         && (after[k].status == before[k].status || after[k].status.Filled?)
  }

  lemma {:induction false} PromoteIsPromoted(rows: seq<Exposure>, h: Holdings)
    ensures Promoted(rows, Promote(rows, h).0)
  {
    if rows != [] {
      PromoteIsPromoted(rows[..|rows| - 1], h);
    }
  }

  /** Writing back one row changes its exposure to the written one. */
  lemma RowExposes(id: ClientId, rest: Book, awards: map<RunId, Award>, before: Exposure, after: Exposure)
    requires id in rest.orders && ExposureOf(id, rest.orders, awards) == [before]
    requires after == before.(status := after.status) && (after.status == before.status || after.status.Filled?)
    ensures ExposureOf(id, WriteRow(rest, before, after).orders, awards) == [after]
  {
    assert [before][0] == before;
  }

  lemma WrittenRow(ids: seq<ClientId>, rest: Book, before: Exposure, after: Exposure)
    requires ids != [] && DistinctIds(ids) && ids[|ids| - 1] in rest.orders
    requires ExposureOf(ids[|ids| - 1], rest.orders, rest.awards) == [before] && before.id == ids[|ids| - 1]
    requires after == before.(status := after.status) && (after.status == before.status || after.status.Filled?)
    ensures ExposuresOf(ids, WriteRow(rest, before, after).orders, rest.awards)
         == ExposuresOf(ids[..|ids| - 1], rest.orders, rest.awards) + [after]
  {
    hide ExposureOf;
    var id := ids[|ids| - 1];
    RowExposes(id, rest, rest.awards, before, after);
    ExposuresIgnoreOthers(ids[..|ids| - 1], rest.orders, rest.awards, id,
                          rest.orders[id].(status := after.status, remaining := 0));
  }

  lemma LastExposure(ids: seq<ClientId>, b: Book)
    requires ids != []
    ensures var n := |ids| - 1; var last := ExposureOf(ids[n], b.orders, b.awards);
      && ExposuresOf(ids, b.orders, b.awards) == ExposuresOf(ids[..n], b.orders, b.awards) + last
      && (last == [] || (|last| == 1 && last[0].id == ids[n]
            && ids[n] in b.orders && last[0].status == b.orders[ids[n]].status))
  {
  }

  /** Reading the exposures back after the write finds the promoted rows. */
  lemma {:induction false} WriteBackExposes(ids: seq<ClientId>, b: Book, after: seq<Exposure>)
    requires DistinctIds(ids) && Promoted(ExposuresOf(ids, b.orders, b.awards), after)
    ensures ExposuresOf(ids, WriteBack(b, ExposuresOf(ids, b.orders, b.awards), after).orders, b.awards) == after
  {
    hide ExposureOf;
    if ids != [] {
      var n, id := |ids| - 1, ids[|ids| - 1];
      var earlier, last := ExposuresOf(ids[..n], b.orders, b.awards), ExposureOf(id, b.orders, b.awards);
      var m := |earlier|;
      LastExposure(ids, b);
      ExposureIdsListed(ids[..n], b.orders, b.awards);
      assert (earlier + last)[..m] == earlier;
      assert forall k :: 0 <= k < m ==> (earlier + last)[k] == earlier[k];
      forall k | 0 <= k < m ensures after[..m][k].id != id {
        assert earlier[k] in earlier;
      }
      WriteBackExposes(ids[..n], b, after[..m]);
      var rest := WriteBack(b, earlier, after[..m]);
      WriteBackLeavesOthers(b, earlier, after[..m], id);
      WriteBackKeepsRows(b, earlier, after[..m]);
      if last == [] {
        WriteLastUnchanged(ids, b, rest, after, earlier, last);
      } else {
        WriteLastRow(ids, b, rest, after, earlier, last);
      }
    }
  }

  lemma WriteLastUnchanged(
    ids: seq<ClientId>, b: Book, rest: Book, after: seq<Exposure>, earlier: seq<Exposure>, last: seq<Exposure>)
    requires ids != [] && DistinctIds(ids) && last == ExposureOf(ids[|ids| - 1], b.orders, b.awards)
    requires earlier == ExposuresOf(ids[..|ids| - 1], b.orders, b.awards)
    requires Promoted(earlier + last, after) && rest == WriteBack(b, earlier, after[..|earlier|])
    requires ExposuresOf(ids[..|ids| - 1], rest.orders, b.awards) == after[..|earlier|]
    requires rest.orders.Keys == b.orders.Keys
    requires ids[|ids| - 1] in b.orders ==> rest.orders[ids[|ids| - 1]] == b.orders[ids[|ids| - 1]]
    requires last == []
    ensures ExposuresOf(ids, WriteBack(b, earlier + last, after).orders, b.awards) == after
  {
    hide ExposureOf, WriteBack;
    LastExposure(ids, b);
    LastExposure(ids, rest);
    assert earlier + last == earlier && after[..|earlier|] == after;
    SameRowSameExposure(ids[|ids| - 1], b.orders, rest.orders, b.awards);
  }

  lemma WriteBackAppends(b: Book, before: seq<Exposure>, x: Exposure, after: seq<Exposure>, y: Exposure)
    requires |before| == |after|
    ensures WriteBack(b, before + [x], after + [y]) == WriteRow(WriteBack(b, before, after), x, y)
  {
    hide WriteRow;
    assert (before + [x])[..|before|] == before && (after + [y])[..|after|] == after;
  }

  lemma PromotedSplits(before: seq<Exposure>, x: Exposure, after: seq<Exposure>)
    requires Promoted(before + [x], after)
    ensures |after| == |before| + 1 && after == after[..|before|] + [after[|before|]]
    ensures var y := after[|before|]; y == x.(status := y.status) && (y.status == x.status || y.status.Filled?)
  {
    assert (before + [x])[|before|] == x;
  }

  lemma WriteLastRow(
    ids: seq<ClientId>, b: Book, rest: Book, after: seq<Exposure>, earlier: seq<Exposure>, last: seq<Exposure>)
    requires ids != [] && DistinctIds(ids) && last == ExposureOf(ids[|ids| - 1], b.orders, b.awards)
    requires earlier == ExposuresOf(ids[..|ids| - 1], b.orders, b.awards)
    requires Promoted(earlier + last, after) && rest == WriteBack(b, earlier, after[..|earlier|])
    requires ExposuresOf(ids[..|ids| - 1], rest.orders, b.awards) == after[..|earlier|]
    requires rest.orders.Keys == b.orders.Keys
    requires ids[|ids| - 1] in b.orders ==> rest.orders[ids[|ids| - 1]] == b.orders[ids[|ids| - 1]]
    requires last != []
    ensures ExposuresOf(ids, WriteBack(b, earlier + last, after).orders, b.awards) == after
  {
    hide ExposureOf, ExposuresOf, WriteRow, WriteBack, Promoted;
    var id, m := ids[|ids| - 1], |earlier|;
    LastExposure(ids, b);
    assert last == [last[0]];
    PromotedSplits(earlier, last[0], after);
    WriteBackAppends(b, earlier, last[0], after[..m], after[m]);
    SameRowSameExposure(id, b.orders, rest.orders, b.awards);
    WriteBackKeepsRows(b, earlier, after[..m]);
    WrittenRow(ids, rest, last[0], after[m]);
  }

  lemma SameRowSameExposure(id: ClientId, a: map<ClientId, Order>, b: map<ClientId, Order>, awards: map<RunId, Award>)
    requires (id in a <==> id in b) && (id in a ==> a[id] == b[id])
    ensures ExposureOf(id, a, awards) == ExposureOf(id, b, awards)
  {
  }

  lemma {:induction false} WriteBackOfSame(b: Book, rows: seq<Exposure>)
    ensures WriteBack(b, rows, rows) == b
  {
    if rows != [] {
      WriteBackOfSame(b, rows[..|rows| - 1]);
    }
  }

  /** Structures the risk engine lets through, on every exposed row. */
  ghost predicate ValidRows(b: Book) {
    forall e <- ExposureRows(b) :: ValidRow(e)
  }

  /** After matching, the exposed rows are the promoted ones, in the same order. */
  lemma NormalizedRows(b: Book, positions: Holdings)
    requires DistinctIds(b.ids)
    ensures ExposureRows(NormalizeBook(b, positions)) == Normalize(ExposureRows(b), positions)
    ensures SameRows(b, NormalizeBook(b, positions))
  {
    var rows := ExposureRows(b);
    var after := Normalize(rows, positions);
    BySubmissionDistinct(b.ids, b.orders);
    PromoteIsPromoted(rows, ReserveAll(positions, EstablishedClaims(rows)));
    WriteBackExposes(BySubmission(b.ids, b.orders), b, after);
    WriteBackKeepsRows(b, rows, after);
    OrderIgnoresStatus(b.ids, b.orders, NormalizeBook(b, positions).orders);
  }

  /** Matching the same positions again changes nothing in the ledger. */
  lemma NormalizeBookIdempotent(b: Book, positions: Holdings)
    requires DistinctIds(b.ids) && ValidRows(b)
    ensures NormalizeBook(NormalizeBook(b, positions), positions) == NormalizeBook(b, positions)
  {
    NormalizedRows(b, positions);
    NormalizeIdempotent(ExposureRows(b), positions);
    WriteBackOfSame(NormalizeBook(b, positions), ExposureRows(NormalizeBook(b, positions)));
  }

  /** What matching leaves the ledger claiming: on every symbol, what remains of the positions is their
      sign times the magnitude less everything the established rows claim on that side. */
  lemma NormalizedBookConserves(b: Book, positions: Holdings, symbol: Symbol)
    requires DistinctIds(b.ids) && ValidRows(b)
    ensures var rows := ExposureRows(b);
      var held := Contracts(positions, symbol);
      Contracts(Promote(rows, ReserveAll(positions, EstablishedClaims(rows))).1, symbol)
      == Residual(held, Claimed(EstablishedClaims(ExposureRows(NormalizeBook(b, positions))),
          symbol, InventoryLaws.Side(held)))
  {
    NormalizedRows(b, positions);
    NormalizeConserves(ExposureRows(b), positions, symbol);
  }
}
