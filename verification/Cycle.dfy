/** One whole cycle of the service (service.py, run_cycle): what it makes of the stored tables, for
    every observation and every answer of the broker and the model. */
module Cycle {
  import opened Common
  import opened Schemas
  import opened Clock
  import opened Events
  import opened Orders
  import opened Execution
  import opened Inventory
  import opened Ledger
  import opened Lifecycle
  import opened Candidates
  import opened Risk
  import opened Policy
  import opened Equity
  import L = DailyLoss

  const FINAL_DAY_PROFIT_TARGET_EQUITY := 104000.0

  /** Where a foreign call raised, other than those with their own answers below. */
  datatype Stage = ReadingBroker | ReadingMarket | Deciding

  /** Everything a cycle learns from outside. */
  datatype CycleInputs = CycleInputs(
    now: int, run: RunId, live: bool, production: bool, development: bool, raised: Option<Stage>,
    // the broker
    equity: real, secondEquity: Option<real>, marketOpen: bool, reports: seq<BrokerOrder>, positions: Holdings,
    activities: seq<Activity>, stillWorking: set<ClientId>,
    poll: ClientId -> Option<BrokerReport>, cancels: ClientId -> bool, place: ClientId -> Option<Placement>,
    // the market
    snapshots: seq<Snapshot>, chains: map<Symbol, seq<Quote>>, quotes: QuoteBook,
    // the stored observations of completed cycles, by underlying
    histories: map<Symbol, seq<Observation>>,
    // the model, rotation and repetition
    decision: Decision, excluded: set<CandidateName>, maverickIds: set<CandidateName>, maverickUsed: bool)
  {
    predicate Valid() { forall s <- snapshots :: s.Valid() }
  }

  /** The stored state, and the broker's orders that may still execute. */
  datatype World = World(
    book: Book, working: set<ClientId>, controls: L.Controls, marks: seq<EquityMark>, cycles: set<int>, killed: bool)

  datatype CycleResult = CycleResult(world: World, completed: bool, entry: Option<Request>)

  /** The cycle fails closed: the kill switch goes on. */
  function Fail(w: World): CycleResult { CycleResult(w.(killed := true), false, None) }

  function Complete(w: World, entry: Option<Request>): CycleResult { CycleResult(w, true, entry) }

  /** One key per five-minute bucket, per minute from the final hour on. */
  function CycleKey(now: int): int {
    Bucket(now, if FINAL_HOUR_RECOVERY_STARTS_AT <= now then MINUTE else 5 * MINUTE)
  }

  // ---------------------------------------------------------------------- observation

  function SyncedBook(b: Book, i: CycleInputs): Book {
    ReconcileBroker(PersistFills(b, i.activities), i.reports, i.positions, i.live)
  }

  predicate SyncClean(b: Book, i: CycleInputs) { Reconciled(PersistFills(b, i.activities), i.reports, i.positions) }

  function ObservedPeak(e: Summary, equity: real): real { MaxReal(equity, MaxReal(e.peak, BASELINE_EQUITY)) }

  predicate ProfitTargetReached(i: CycleInputs, e: Summary, clean: bool) {
    && i.production && SCORING_STARTS_AT <= i.now <= EOD_EQUITY_SNAPSHOT_AT && clean
    && FinalDay(i.now) && ObservedPeak(e, i.equity) >= FINAL_DAY_PROFIT_TARGET_EQUITY
  }

  function ExecutionStateFor(i: CycleInputs, e: Summary, clean: bool): ExecutionState {
    var byClock := CompetitionState(i.now, i.positions != map[] || i.reports != []);
    var state :=
      if i.development then if i.marketOpen then FullExecution else ObserveOnly
      else if byClock.FullExecution? && (!i.marketOpen || (i.production && !EntryWindowOpen(i.now))) then ObserveOnly
      else byClock;
    if ProfitTargetReached(i, e, clean) && state.FullExecution? then CloseOnly else state
  }

  /** Marks are judged against the book as synced. */
  function LossInputsFor(b: Book, clean: bool, i: CycleInputs, e: Summary): L.LossInputs {
    var marksPassed := L.MarksPass(OpenManaged(b), i.positions, i.quotes, i.now);
    L.LossInputs(i.now, e.startOfDay, i.equity, clean, i.secondEquity, marksPassed, i.positions == map[])
  }

  /** The equity the rest of the cycle uses: the confirming read, when there was one. */
  function AccountEquity(c: L.Control, l: L.LossInputs): real {
    if !c.status.Latched? && l.Loss() >= l.Limit() && l.clean && l.second.Some? then l.second.value else l.equity
  }

  function ExitReason(i: CycleInputs, e: Summary, clean: bool, equity: real, status: L.LossStatus): Option<string> {
    var breached := !clean && MaxReal(0.0, e.startOfDay - i.equity) >= DailyLimit(i.now, e.startOfDay);
    var peak := ObservedPeak(e, equity);
    var drawdown := MaxReal(0.0, peak - MinReal(i.equity, equity));
    if ProfitTargetReached(i, e, clean) then Some("competition_profit_target_reached")
    else if FinalDay(i.now) then if breached then Some("reconciliation_safety_incident") else None
    else if drawdown >= peak * COMPETITION_DRAWDOWN_PCT then Some("competition_drawdown_limit")
    else if breached then Some("reconciliation_safety_incident")
    else if status.Latched? then Some("daily_loss_limit")
    else None
  }

  /** May this cycle open or reprice entries? */
  predicate EntriesAllowed(i: CycleInputs, e: Summary, clean: bool, status: L.LossStatus) {
    ExecutionStateFor(i, e, clean).FullExecution? && (status.Clear? || FinalDay(i.now))
  }

  function EnvFor(i: CycleInputs, e: Summary, clean: bool, equity: real, status: L.LossStatus): CycleEnv {
    CycleEnv(
      i.run, CycleKey(i.now), i.now, i.now >= FORCED_FLATTEN_STARTS_AT, i.now >= FLAT_TARGET_AT, i.marketOpen,
      EntriesAllowed(i, e, clean, status), i.positions, i.quotes, ExitReason(i, e, clean, equity, status),
      i.poll, i.cancels, i.place)
  }

  // ------------------------------------------------------------------------- decision

  function SymbolsOf(cs: seq<Candidate>): set<Symbol> { set c, l | c in cs && l in c.structure.legs :: l.symbol }

  /** The ids kept out of the auction: by the portfolio as synced, in production by direction and earlier
      stops, by rotation and by repetition. */
  function ExcludedIds(cs: seq<Candidate>, synced: Book, present: Book, i: CycleInputs): set<CandidateName> {
    PortfolioExclusions(cs, PendingUnderlyings(synced), OpenUnderlyings(synced), OpenCounts(synced), i.now)
    + (if i.production then DirectionalExclusions(cs, present, i.snapshots, i.histories, i.now) else {})
    + i.excluded
  }

  function Auction(cs: seq<Candidate>, excluded: set<CandidateName>): seq<Candidate> {
    if cs == [] then []
    else
      var n := |cs| - 1;
      Auction(cs[..n], excluded) + if cs[n].id in excluded then [] else [cs[n]]
  }

  /** The first candidate with this id. */
  function CandidateById(cs: seq<Candidate>, id: Option<CandidateName>): Option<Candidate> {
    if cs == [] then None else if Some(cs[0].id) == id then Some(cs[0]) else CandidateById(cs[1..], id)
  }

  const ABSTENTION := Decision(Abstain, None, 1.0, 0)

  function TakeProfit(c: Candidate, now: int): Option<real> {
    if FinalDay(now) && c.action.Directional() then Some(MAVERICK_DIRECTIONAL_DEBIT_TAKE_PROFIT_MULTIPLE) else None
  }

  function EntryRequest(c: Candidate, quantity: nat, i: CycleInputs): Request {
    Request(ClientId(CycleKey(i.now), Opening(c.id), quantity, 0), Opening(c.id), quantity, c.structure.netPrice,
            c.structure.isCredit, c.structure.legs, 0, false, None, None, None, TakeProfit(c, i.now))
  }

  /** The summary's figures are those of the book as synced, before the maintenance pass. */
  function RiskContextFor(
    synced: Book, i: CycleInputs, e: Summary, clean: bool, passClean: bool, equity: real, status: L.LossStatus,
    killed: bool)
    : RiskContext
  {
    RiskContext(
      i.now, ExecutionStateFor(i, e, clean), equity, e.startOfDay, ObservedPeak(e, equity),
      OpenLoss(synced), OpenLoss(synced),
      PendingUnderlyings(synced), OpenUnderlyings(synced), OpenCounts(synced), killed, clean && passClean,
      !status.Clear? && !FinalDay(i.now), i.maverickIds, i.maverickUsed)
  }

  /** An approved candidate: the award is recorded, then the order is placed. */
  function SubmitEntry(w: World, c: Candidate, v: Verdict, minutes: nat, i: CycleInputs): CycleResult {
    var award := Award(v.awarded, v.quantity, c.id, c.structure, minutes);
    var awarded := w.(book := w.book.(awards := w.book.awards[i.run := award]));
    var request := EntryRequest(c, v.quantity, i);
    if request.id in w.book.orders then Complete(awarded, None)
    else if !request.Valid() then Fail(awarded)
    else
      match i.place(request.id)
      case None => Fail(awarded)
      case Some(p) =>
        var placed := awarded.(book := PersistOrder(awarded.book, i.run, request, p),
                               working := w.working + {request.id});
        match L.Increased(w.controls, i.now, v.awarded)
        case None => Fail(placed)
        case Some(controls) => Complete(placed.(controls := controls), Some(request))
  }

  /** The auction and the risk decision over compiled candidates. */
  function Choose(w: World, ctx: RiskContext, auction: seq<Candidate>, i: CycleInputs): CycleResult
    requires forall c <- auction :: c.Valid()
  {
    var decision := if auction == [] then ABSTENTION else i.decision;
    var selected := CandidateById(auction, decision.candidateId);
    SelectedIsListed(auction, decision.candidateId);
    if !ctx.Valid() then Fail(w)
    else
      var v := VerdictOf(decision, selected, ctx);
      if !v.approved || selected.None? then Complete(w, None)
      else SubmitEntry(w, selected.value, v, Risk.Hold(decision, selected.value, i.now).minutes, i)
  }

  lemma {:induction false} SelectedIsListed(cs: seq<Candidate>, id: Option<CandidateName>)
    ensures CandidateById(cs, id).Some? ==> CandidateById(cs, id).value in cs
  {
    if cs != [] {
      SelectedIsListed(cs[1..], id);
    }
  }

  /** Compile, filter, choose. */
  function Decide(w: World, synced: Book, ctx: RiskContext, i: CycleInputs): CycleResult
    requires i.Valid()
  {
    match AllCandidates(COMPETITION_MACRO_EVENTS, i.snapshots, i.chains, i.now)
    case Failure(_) => Fail(w)
    case Success(compiled) =>
      var listed := w.(book := w.book.(known := w.book.known + SymbolsOf(compiled)));
      var auction := Auction(compiled, ExcludedIds(compiled, synced, listed.book, i));
      if i.raised == Some(Deciding) || !(forall c <- auction :: c.Valid()) then Fail(listed)
      else Choose(listed, ctx, auction, i)
  }

  // ---------------------------------------------------------------------------- cycle

  /** After the sync and the daily-loss transition: maintain, then decide. */
  function Act(
    w: World, before: L.Control, l: L.LossInputs, status: L.LossStatus, clean: bool, i: CycleInputs, e: Summary)
    : CycleResult
    requires i.Valid()
  {
    var equity := AccountEquity(before, l);
    var pass := Pass(w.book, w.working, EnvFor(i, e, clean, equity, status));
    var maintained := w.(book := pass.book, working := pass.working);
    if pass.failed then Fail(maintained)
    else
      var ctx := RiskContextFor(w.book, i, e, clean, pass.incidents == [], equity, status, w.killed);
      WithMark(Decide(maintained, w.book, ctx, i), i, clean && pass.incidents == [], equity)
  }

  /** A completed, clean, official cycle leaves its equity on record. */
  function WithMark(r: CycleResult, i: CycleInputs, clean: bool, equity: real): CycleResult {
    if r.completed && clean && i.production && SCORING_STARTS_AT <= i.now <= EOD_EQUITY_SNAPSHOT_AT
    then r.(world := r.world.(marks := r.world.marks + [EquityMark(i.now, equity)])) else r
  }

  function Synced(w: World, i: CycleInputs): World {
    var book := SyncedBook(w.book, i);
    w.(book := book, controls := L.Opened(w.controls, i.now, OpenLoss(book)))
  }

  /** From the sync on. */
  function Proceed(w: World, i: CycleInputs): CycleResult
    requires i.Valid()
  {
    var synced := Synced(w, i);
    if i.raised == Some(ReadingMarket) then Fail(synced)
    else
      var clean := SyncClean(w.book, i);
      var e := Summarise(w.marks, i.now, i.equity);
      var l := LossInputsFor(synced.book, clean, i, e);
      var outcome := L.Observe(synced.controls, l);
      var observed := synced.(controls := outcome.controls);
      if outcome.failed then Fail(observed)
      else Act(observed, synced.controls[SessionDate(i.now)], l, StatusOf(outcome.controls, i.now), clean, i, e)
  }

  function StatusOf(t: L.Controls, now: int): L.LossStatus {
    if SessionDate(now) in t then t[SessionDate(now)].status else L.Clear
  }

  /** A cycle key already begun is suppressed and changes nothing. */
  function RunCycle(w: World, i: CycleInputs): CycleResult
    requires i.Valid()
  {
    if CycleKey(i.now) in w.cycles then CycleResult(w, false, None)
    else
      var begun := w.(cycles := w.cycles + {CycleKey(i.now)}, working := i.stillWorking);
      if i.raised == Some(ReadingBroker) then Fail(begun) else Proceed(begun, i)
  }
}
