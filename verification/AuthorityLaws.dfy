/** What cycles without entry authority leave behind, and what an entry needs in production. */
module AuthorityLaws {
  import opened Schemas
  import opened Clock
  import opened Events
  import opened Orders
  import opened Inventory
  import opened Ledger
  import opened LedgerLaws
  import opened ReconcileLaws
  import opened Lifecycle
  import opened LifecycleLaws
  import opened EntryLaws
  import opened Candidates
  import opened Risk
  import opened Policy
  import opened Equity
  import opened Cycle
  import opened CycleLaws
  import L = DailyLoss

  // ------------------------------------------------------------------ matched entries

  /** Matching either leaves a row alone or fills it. */
  lemma {:induction false} WriteBackFills(b: Book, before: seq<Exposure>, after: seq<Exposure>, id: ClientId)
    requires Promoted(before, after) && id in b.orders
    ensures var r := WriteBack(b, before, after).orders;
      id in r && (r[id] == b.orders[id] || r[id] == b.orders[id].(status := Filled, remaining := 0))
  {
    if before != [] {
      var n := |before| - 1;
      assert forall k :: 0 <= k < n ==> before[..n][k] == before[k] && after[..n][k] == after[k];
      WriteBackFills(b, before[..n], after[..n], id);
      assert after[n].status == before[n].status || after[n].status.Filled?;
    }
  }

  /** A row that is not being closed is not closed for absence. */
  lemma {:induction false} CloseAbsentLeavesOpen(b: Book, ids: seq<ClientId>, positions: Holdings, id: ClientId)
    requires id in b.orders && !b.orders[id].status.Closing?
    ensures id in CloseAbsent(b, ids, positions).orders && CloseAbsent(b, ids, positions).orders[id] == b.orders[id]
  {
    if ids != [] {
      CloseAbsentLeavesOpen(b, ids[..|ids| - 1], positions, id);
    }
  }

  /** A listed working order comes out of the sync as listed, or filled by a matching position. */
  lemma ReportedComesOut(b: Book, reports: seq<BrokerOrder>, positions: Holdings, live: bool, id: ClientId)
    requires id in b.orders && Reported(reports, id)
    requires forall r <- reports :: r.remaining >= 1 && r.status.Some? && r.status.value.Working()
    ensures var o := ReconcileBroker(b, reports, positions, live).orders;
      id in o && ((o[id].status.Working() && o[id].remaining >= 1) || o[id].status.Filled?)
  {
    hide CloseAbsent, WriteBack, SyncOrders, ExposureRows, Normalize;
    var synced := SyncOrders(b, reports);
    SyncListsReported(b, reports, id);
    var rows := ExposureRows(synced);
    NormalizeLength(rows, positions);
    MatchingPromotes(rows, positions);
    WriteBackFills(synced, rows, Normalize(rows, positions), id);
    var normalized := NormalizeBook(synced, positions);
    CloseAbsentLeavesOpen(normalized, normalized.ids, positions, id);
  }

  lemma MatchingPromotes(rows: seq<Exposure>, positions: Holdings)
    ensures Promoted(rows, Normalize(rows, positions))
  {
    PromoteIsPromoted(rows, ReserveAll(positions, EstablishedClaims(rows)));
  }

  /** The exposed rows this cycle matches to positions, as the broker's list of open orders left them. */
  function RowsToMatch(w: World, i: CycleInputs): seq<Exposure> {
    ExposureRows(SyncOrders(PersistFills(w.book, i.activities), i.reports))
  }

  /** What is left of the positions for row k: without all established claims and what earlier rows took. */
  function LeftFor(rows: seq<Exposure>, positions: Holdings, k: nat): Holdings
    requires k <= |rows|
  {
    Promote(rows[..k], ReserveAll(positions, EstablishedClaims(rows))).1
  }

  predicate CoveredAt(rows: seq<Exposure>, positions: Holdings, k: nat, id: ClientId)
    requires k < |rows|
  {
    rows[k].id == id && Covers(LeftFor(rows, positions, k), rows[k].Claims())
  }

  /** An opening order still working at the broker whose legs the positions left for it cover in full. */
  ghost predicate MatchedEntry(w: World, i: CycleInputs, id: ClientId) {
    && WorkingEntry(w.book, i.stillWorking, id)
    && var rows := RowsToMatch(w, i); exists k :: 0 <= k < |rows| && CoveredAt(rows, i.positions, k, id)
  }

  lemma {:induction false} PromoteAt(rows: seq<Exposure>, h: Holdings, k: nat)
    requires k < |rows|
    ensures |Promote(rows, h).0| == |rows|
    ensures Promote(rows, h).0[k] ==
      if rows[k].status.Established() || !Covers(Promote(rows[..k], h).1, rows[k].Claims()) then rows[k]
      else rows[k].(status := Filled)
  {
    hide Covers, DeductAll;
    var n := |rows| - 1;
    PromoteLength(rows[..n], h);
    if k < n {
      PromoteAt(rows[..n], h, k);
      assert rows[..n][..k] == rows[..k];
    }
  }

  lemma {:induction false} ExposuresCarryStatus(
    ids: seq<ClientId>, orders: map<ClientId, Order>, awards: map<RunId, Award>)
    ensures forall e <- ExposuresOf(ids, orders, awards) :: e.id in orders && e.status == orders[e.id].status
  {
    if ids != [] {
      ExposuresCarryStatus(ids[..|ids| - 1], orders, awards);
    }
  }

  lemma {:induction false} ExposedIsListed(
    ids: seq<ClientId>, orders: map<ClientId, Order>, awards: map<RunId, Award>, id: ClientId)
    requires id in ids && id in orders && orders[id].status.Exposed() && Joined(orders[id], awards)
    ensures exists e <- ExposuresOf(ids, orders, awards) :: e.id == id
  {
    var n := |ids| - 1;
    if id == ids[n] {
      assert ExposureOf(id, orders, awards)[0] in ExposuresOf(ids, orders, awards);
    } else {
      ExposedIsListed(ids[..n], orders, awards, id);
    }
  }

  /** Matching fills a row exactly when what is left of the positions covers it. */
  lemma MatchingFillsIff(b: Book, positions: Holdings, k: nat)
    requires DistinctIds(b.ids) && k < |ExposureRows(b)| && ExposureRows(b)[k].status.Working()
    ensures var rows, after := ExposureRows(b), NormalizeBook(b, positions).orders;
      && rows[k].id in after
      && (after[rows[k].id].status.Filled? <==> CoveredAt(rows, positions, k, rows[k].id))
      && (after[rows[k].id].status.Filled? || after[rows[k].id].status == rows[k].status)
  {
    hide NormalizeBook, Covers, ReserveAll;
    var rows, normalized := ExposureRows(b), NormalizeBook(b, positions);
    NormalizedRows(b, positions);
    PromoteAt(rows, ReserveAll(positions, EstablishedClaims(rows)), k);
    ExposuresCarryStatus(BySubmission(normalized.ids, normalized.orders), normalized.orders, normalized.awards);
    assert ExposureRows(normalized)[k] in ExposureRows(normalized);
  }

  /** A listed working entry is one of the rows to match, still working there. */
  lemma WorkingEntryIsMatchable(w: World, i: CycleInputs, id: ClientId)
    requires Sane(w) && Honest(w, i) && WorkingEntry(w.book, i.stillWorking, id)
    ensures var b := SyncOrders(PersistFills(w.book, i.activities), i.reports);
      && DistinctIds(b.ids) && id in b.orders && b.orders[id].status.Working()
      && (exists e <- RowsToMatch(w, i) :: e.id == id)
      && forall e <- RowsToMatch(w, i) :: e.id == id ==> e.status.Working()
  {
    hide PersistFills, SyncOrders, ExposuresOf, BySubmission, OneOpenClose;
    var b1 := PersistFills(w.book, i.activities);
    var b := SyncOrders(b1, i.reports);
    FillsKeepRows(w.book, i.activities);
    SameRowsKeepsInv(w.book, b1);
    SyncKeepsRows(b1, i.reports);
    SameRowsKeepsInv(b1, b);
    SyncListsReported(b1, i.reports, id);
    assert RowAt(b, id);
    var sorted := BySubmission(b.ids, b.orders);
    BySubmissionDistinct(b.ids, b.orders);
    ExposedIsListed(sorted, b.orders, b.awards, id);
    ExposuresCarryStatus(sorted, b.orders, b.awards);
  }

  /** The condition is that of the ledger's own verdict: a working opening order is recorded as filled exactly
      when its legs are so covered. */
  lemma MatchedIsFilled(w: World, i: CycleInputs, id: ClientId)
    requires Sane(w) && Honest(w, i) && WorkingEntry(w.book, i.stillWorking, id)
    ensures id in SyncedBook(w.book, i).orders
    ensures MatchedEntry(w, i, id) <==> SyncedBook(w.book, i).orders[id].status.Filled?
  {
    hide NormalizeBook, CloseAbsent, PersistFills, SyncOrders, ExposureRows, CoveredAt, Sane, Honest;
    var b, rows := SyncOrders(PersistFills(w.book, i.activities), i.reports), RowsToMatch(w, i);
    WorkingEntryIsMatchable(w, i, id);
    var normalized := NormalizeBook(b, i.positions);
    forall k | 0 <= k < |rows| && rows[k].id == id
      ensures id in SyncedBook(w.book, i).orders
      ensures CoveredAt(rows, i.positions, k, id) <==> SyncedBook(w.book, i).orders[id].status.Filled?
    {
      assert rows[k] in rows;
      MatchingFillsIff(b, i.positions, k);
      CloseAbsentLeavesOpen(normalized, normalized.ids, i.positions, id);
    }
    CoveredMeansItsRow(rows, i.positions, id);
  }

  lemma CoveredMeansItsRow(rows: seq<Exposure>, positions: Holdings, id: ClientId)
    ensures forall k :: 0 <= k < |rows| && CoveredAt(rows, positions, k, id) ==> rows[k].id == id
  {
  }

  /** After the sync, a working opening order is pending in the ledger unless it is so covered. */
  lemma SyncMatchesOrLists(w: World, i: CycleInputs, id: ClientId)
    requires Sane(w) && Honest(w, i)
    ensures var b := SyncedBook(w.book, i);
      WorkingEntry(b, i.stillWorking, id) && !b.orders[id].Pending() <==> MatchedEntry(w, i, id)
  {
    hide ReconcileBroker, PersistFills, Reported, Inv, OneOpenClose, RowsToMatch, CoveredAt;
    var b1, b := PersistFills(w.book, i.activities), SyncedBook(w.book, i);
    FillsKeepRows(w.book, i.activities);
    ReconcileKeepsRows(b1, i.reports, i.positions, i.live);
    SyncKeepsSane(w, i);
    if id in i.stillWorking && id in b.orders {
      ReportedComesOut(b1, i.reports, i.positions, i.live, id);
      assert RowAt(b, id);
      if WorkingEntry(w.book, i.stillWorking, id) {
        MatchedIsFilled(w, i, id);
      }
    }
  }

  // -------------------------------------------------------------- without authority

  /** The broker may still execute exactly the matched entries of this cycle. */
  ghost predicate OnlyMatchedEntriesWork(w: World, i: CycleInputs, after: World) {
    forall id :: WorkingEntry(after.book, after.working, id) <==> MatchedEntry(w, i, id)
  }

  lemma ChooseAddsNothing(w: World, ctx: RiskContext, auction: seq<Candidate>, i: CycleInputs)
    requires NoAuthority(ctx) && forall c <- auction :: c.Valid()
    ensures var r := Choose(w, ctx, auction, i); r.world.working == w.working && r.world.book == w.book
  {
    hide VerdictOf;
    var decision := if auction == [] then ABSTENTION else i.decision;
    var selected := CandidateById(auction, decision.candidateId);
    SelectedIsListed(auction, decision.candidateId);
    NothingApproved(decision, selected, ctx);
  }

  lemma DecideAddsNothing(w: World, synced: Book, ctx: RiskContext, i: CycleInputs)
    requires i.Valid() && NoAuthority(ctx)
    ensures var r := Decide(w, synced, ctx, i);
      && r.world.working == w.working
      && r.world.book.orders == w.book.orders && r.world.book.awards == w.book.awards
  {
    hide Choose, AllCandidates, ExcludedIds, NoAuthority;
    var compiled := AllCandidates(COMPETITION_MACRO_EVENTS, i.snapshots, i.chains, i.now);
    if compiled.Success? {
      var listed := w.(book := w.book.(known := w.book.known + SymbolsOf(compiled.value)));
      var auction := Auction(compiled.value, ExcludedIds(compiled.value, synced, listed.book, i));
      if forall c <- auction :: c.Valid() {
        ChooseAddsNothing(listed, ctx, auction, i);
      }
    }
  }

  lemma ActLeavesEntries(
    w: World, before: L.Control, l: L.LossInputs, status: L.LossStatus, clean: bool, i: CycleInputs, e: Summary)
    requires i.Valid() && Inv(w.book) && !EntriesAllowed(i, e, clean, status)
    requires Act(w, before, l, status, clean, i, e).completed
    ensures var after := Act(w, before, l, status, clean, i, e).world;
      forall id :: WorkingEntry(after.book, after.working, id) <==>
        WorkingEntry(w.book, w.working, id) && !w.book.orders[id].Pending()
  {
    hide Pass, Decide, ExitReason, OpenLoss, PendingUnderlyings, OpenUnderlyings, OpenCounts, AccountEquity;
    var equity := AccountEquity(before, l);
    var env := EnvFor(i, e, clean, equity, status);
    var pass := Pass(w.book, w.working, env);
    PassLeavesEntries(w.book, w.working, env);
    var maintained := w.(book := pass.book, working := pass.working);
    var ctx := RiskContextFor(w.book, i, e, clean, pass.incidents == [], equity, status, w.killed);
    assert NoAuthority(ctx);
    DecideAddsNothing(maintained, w.book, ctx, i);
  }

  /** A completed cycle without entry authority leaves the broker able to execute exactly the opening
      orders it still listed whose legs the positions cover in full, after all established claims and what
      earlier rows took. */
  lemma CycleLeavesMatched(w: World, i: CycleInputs)
    requires Sane(w) && Honest(w, i)
    ensures var r := RunCycle(w, i);
      r.completed && !MayEnter(w, i) ==> OnlyMatchedEntriesWork(w, i, r.world)
  {
    hide Act, ReconcileBroker, PersistFills, EntriesAllowed, L.Observe, WorkingEntry;
    var r := RunCycle(w, i);
    if r.completed && !MayEnter(w, i) {
      var synced := Synced(Begun(w, i), i);
      var outcome := L.Observe(synced.controls, LossSeen(w, i));
      SyncKeepsSane(w, i);
      ActLeavesEntries(synced.(controls := outcome.controls), synced.controls[SessionDate(i.now)], LossSeen(w, i),
                       StatusOf(outcome.controls, i.now), SyncClean(w.book, i), i, EquitySeen(w, i));
      forall id ensures WorkingEntry(r.world.book, r.world.working, id) <==> MatchedEntry(w, i, id) {
        SyncMatchesOrLists(w, i, id);
      }
    }
  }

  // ------------------------------------------------------------------------------ runs

  /** In every run, a completed cycle without authority leaves no pending opening order in the ledger, and
      at the broker exactly those whose legs the positions left for them cover in full. */
  lemma NoAuthorityOverRuns(w: World, events: seq<Event>, k: nat)
    requires Sane(w) && AllValid(events) && HonestRun(w, events) && k < |events| && events[k].CycleDue?
    ensures var u, r, i := WorldAt(w, events, k), ResultAt(w, events, k), events[k].inputs;
      !MayEnter(u, i) ==>
        && r.entry.None?
        && (r.completed ==> NoPendingEntry(r.world.book) && OnlyMatchedEntriesWork(u, i, r.world))
  {
    hide RunCycle, MayEnter, OnlyMatchedEntriesWork, NoPendingEntry;
    PortfolioCapOverRuns(w, events, k);
    PrefixHonest(w, events, k);
    RunStaysSane(w, events[..k]);
    assert HonestAt(w, events, k);
    CycleLeavesMatched(WorldAt(w, events, k), events[k].inputs);
  }

  /** Outside development, every cycle after the entry cutoff submits no entry; once completed it leaves
      none pending, however many were, and at the broker exactly those the positions left for them cover. */
  lemma NothingOpensAfterCutoff(w: World, events: seq<Event>, k: nat)
    requires Sane(w) && AllValid(events) && HonestRun(w, events) && k < |events| && events[k].CycleDue?
    requires !events[k].inputs.development && events[k].inputs.now > NEW_ENTRY_CUTOFF
    ensures var u, r := WorldAt(w, events, k), ResultAt(w, events, k);
      && r.entry.None?
      && (r.completed ==> NoPendingEntry(r.world.book) && OnlyMatchedEntriesWork(u, events[k].inputs, r.world))
  {
    hide RunCycle, OnlyMatchedEntriesWork, NoPendingEntry;
    NoAuthorityOverRuns(w, events, k);
  }

  // ---------------------------------------------------------------- entries in production

  /** What the directional policy asks of an entry: two consecutive cycles in one direction and, after a debit
      stop of the same setup in the session, the earlier of them after the stop. */
  ghost predicate DirectionallySound(c: Candidate, i: CycleInputs, orders: Book) {
    var u := c.structure.underlying;
    var prior := Prior(HistoryOf(i.histories, u), i.now);
    var stop := StopFor(c, orders, i.now);
    && !c.action.IndexCondor?
    && (c.action.Directional() ==>
          && Confirmed(CurrentOf(i.snapshots, u), prior, i.now)
          && (stop.Some? ==> prior.value.cycleAt > stop.value))
  }

  lemma {:induction false} AuctionIsAdmitted(cs: seq<Candidate>, excluded: set<CandidateName>)
    ensures forall c <- Auction(cs, excluded) :: c in cs && c.id !in excluded
  {
    if cs != [] {
      AuctionIsAdmitted(cs[..|cs| - 1], excluded);
    }
  }

  lemma AdmittedIsSound(cs: seq<Candidate>, c: Candidate, synced: Book, present: Book, i: CycleInputs)
    requires c in cs && c.id !in ExcludedIds(cs, synced, present, i) && i.production
    ensures DirectionallySound(c, i, present)
  {
    hide PortfolioExclusions, LatestStop, Confirmed, Prior;
    assert !DirectionalExcluded(c, present, i.snapshots, i.histories, i.now);
    var stop := StopFor(c, present, i.now);
    var u := c.structure.underlying;
    if c.action.Directional() && stop.Some? {
      AdmittedAfterStopIff(CurrentOf(i.snapshots, u), HistoryOf(i.histories, u), c.action.CallDebitSpread?,
                           stop.value, i.now);
    }
  }

  lemma ChooseTakesListed(w: World, ctx: RiskContext, auction: seq<Candidate>, i: CycleInputs)
    requires forall c <- auction :: c.Valid()
    ensures var r := Choose(w, ctx, auction, i);
      r.entry.Some? ==> exists c <- auction :: r.entry.value == EntryRequest(c, r.entry.value.quantity, i)
  {
    hide VerdictOf, EntryRequest;
    var decision := if auction == [] then ABSTENTION else i.decision;
    var selected := CandidateById(auction, decision.candidateId);
    SelectedIsListed(auction, decision.candidateId);
    if selected.Some? && Choose(w, ctx, auction, i).entry.Some? {
      RequestQuantity(selected.value, VerdictOf(decision, selected, ctx).quantity, i);
    }
  }

  lemma RequestQuantity(c: Candidate, quantity: nat, i: CycleInputs)
    ensures EntryRequest(c, quantity, i).quantity == quantity
  {
  }

  lemma {:induction false} StopsIgnoreEntry(
    ids: seq<ClientId>, orders: map<ClientId, Order>, id: ClientId, o: Order, underlying: Symbol, action: Action,
    now: int)
    requires id !in ids
    ensures LatestStop(ids, orders[id := o], underlying, action, now)
      == LatestStop(ids, orders, underlying, action, now)
  {
    if ids != [] {
      StopsIgnoreEntry(ids[..|ids| - 1], orders, id, o, underlying, action, now);
    }
  }

  /** An opening order is no stop. */
  lemma EntryIsNoStop(b: Book, run: RunId, request: Request, p: Placement, c: Candidate, now: int)
    requires Inv(b) && request.id !in b.orders && request.exitReason.None?
    ensures StopFor(c, PersistOrder(b, run, request, p), now) == StopFor(c, b, now)
  {
    var b' := PersistOrder(b, run, request, p);
    assert b'.ids[..|b.ids|] == b.ids;
    StopsIgnoreEntry(b.ids, b.orders, request.id, b'.orders[request.id], c.structure.underlying, c.action, now);
  }

  lemma ChooseKeepsStops(w: World, ctx: RiskContext, auction: seq<Candidate>, i: CycleInputs, c: Candidate)
    requires Inv(w.book) && forall x <- auction :: x.Valid()
    ensures StopFor(c, Choose(w, ctx, auction, i).world.book, i.now) == StopFor(c, w.book, i.now)
  {
    hide VerdictOf, LatestStop, Inv;
    var decision := if auction == [] then ABSTENTION else i.decision;
    var selected := CandidateById(auction, decision.candidateId);
    SelectedIsListed(auction, decision.candidateId);
    if ctx.Valid() && selected.Some? {
      var v := VerdictOf(decision, selected, ctx);
      SubmitKeepsStops(w, selected.value, v, Risk.Hold(decision, selected.value, i.now).minutes, i, c);
    }
  }

  lemma SubmitKeepsStops(w: World, x: Candidate, v: Verdict, minutes: nat, i: CycleInputs, c: Candidate)
    requires Inv(w.book)
    ensures StopFor(c, SubmitEntry(w, x, v, minutes, i).world.book, i.now) == StopFor(c, w.book, i.now)
  {
    var request := EntryRequest(x, v.quantity, i);
    if request.id !in w.book.orders && request.Valid() && i.place(request.id).Some? {
      EntryIsNoStop(w.book, i.run, request, i.place(request.id).value, c, i.now);
    }
  }

  lemma DecideAdmits(w: World, synced: Book, ctx: RiskContext, i: CycleInputs)
    requires i.Valid() && i.production && Inv(w.book)
    ensures var r := Decide(w, synced, ctx, i); r.entry.Some? ==> EntryAdmitted(r, i)
  {
    hide Choose, AllCandidates, ExcludedIds, EntryRequest, DirectionallySound, StopFor, Inv;
    var compiled := AllCandidates(COMPETITION_MACRO_EVENTS, i.snapshots, i.chains, i.now);
    var r := Decide(w, synced, ctx, i);
    if r.entry.Some? {
      var listed := w.(book := w.book.(known := w.book.known + SymbolsOf(compiled.value)));
      var excluded := ExcludedIds(compiled.value, synced, listed.book, i);
      var auction := Auction(compiled.value, excluded);
      ChooseTakesListed(listed, ctx, auction, i);
      AuctionIsAdmitted(compiled.value, excluded);
      var c :| c in auction && r.entry.value == EntryRequest(c, r.entry.value.quantity, i);
      AdmittedIsSound(compiled.value, c, synced, listed.book, i);
      KnownKeepsInv(w.book, listed.book.known);
      ChooseKeepsStops(listed, ctx, auction, i, c);
      SameStopsSameSound(c, i, listed.book, r.world.book);
    }
  }

  lemma SameStopsSameSound(c: Candidate, i: CycleInputs, a: Book, b: Book)
    requires StopFor(c, a, i.now) == StopFor(c, b, i.now)
    ensures DirectionallySound(c, i, a) == DirectionallySound(c, i, b)
  {
  }

  /** The entry is for a candidate the directional policy admits, judged with the stops on record when the
      cycle ends. */
  ghost predicate EntryAdmitted(r: CycleResult, i: CycleInputs)
    requires r.entry.Some? && i.Valid()
  {
    exists c :: Compiled(c, i) && r.entry.value == EntryRequest(c, r.entry.value.quantity, i)
                && DirectionallySound(c, i, r.world.book)
  }

  predicate Compiled(c: Candidate, i: CycleInputs)
    requires i.Valid()
  {
    var compiled := AllCandidates(COMPETITION_MACRO_EVENTS, i.snapshots, i.chains, i.now);
    compiled.Success? && c in compiled.value
  }

  lemma ActAdmits(
    w: World, before: L.Control, l: L.LossInputs, status: L.LossStatus, clean: bool, i: CycleInputs, e: Summary)
    requires i.Valid() && i.production && Sane(w) && ClosesListed(w.book, w.working)
    requires forall id :: i.poll(id).Some? && !i.poll(id).value.status.Terminal() ==> id in w.working
    ensures var r := Act(w, before, l, status, clean, i, e); r.entry.Some? ==> EntryAdmitted(r, i)
  {
    hide Pass, Decide, EntryRequest, DirectionallySound, ExitReason, OpenLoss, AccountEquity;
    var equity := AccountEquity(before, l);
    var env := EnvFor(i, e, clean, equity, status);
    PassKeeps(w.book, w.working, env);
    var pass := Pass(w.book, w.working, env);
    var maintained := w.(book := pass.book, working := pass.working);
    var ctx := RiskContextFor(w.book, i, e, clean, pass.incidents == [], equity, status, w.killed);
    DecideAdmits(maintained, w.book, ctx, i);
    var r, d := Act(w, before, l, status, clean, i, e), Decide(maintained, w.book, ctx, i);
    if r.entry.Some? {
      assert r.entry == d.entry && r.world.book == d.world.book;
    }
  }

  /** In every run, a production cycle's entry is directional, confirmed by two consecutive cycles, and, after
      a debit stop of its setup in the session, confirmed by cycles after that stop. */
  lemma ReentryIsConfirmed(w: World, events: seq<Event>, k: nat)
    requires Sane(w) && AllValid(events) && HonestRun(w, events) && k < |events| && events[k].CycleDue?
    ensures var r, i := ResultAt(w, events, k), events[k].inputs; i.production && r.entry.Some? ==> EntryAdmitted(r, i)
  {
    hide Act, ReconcileBroker, PersistFills, L.Observe, EntryAdmitted;
    var u, r, i := WorldAt(w, events, k), ResultAt(w, events, k), events[k].inputs;
    PrefixHonest(w, events, k);
    RunStaysSane(w, events[..k]);
    assert HonestAt(w, events, k);
    if i.production && r.entry.Some? {
      var synced := Synced(Begun(u, i), i);
      var outcome := L.Observe(synced.controls, LossSeen(u, i));
      SyncKeepsSane(u, i);
      ActAdmits(synced.(controls := outcome.controls), synced.controls[SessionDate(i.now)], LossSeen(u, i),
                StatusOf(outcome.controls, i.now), SyncClean(u.book, i), i, EquitySeen(u, i));
    }
  }
}
