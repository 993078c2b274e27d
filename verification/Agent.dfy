/** The agent service: a whole cycle run step by step against the repository, the broker and the
    loss-control rows (service.py, run_cycle). It does exactly what Cycle.RunCycle says. */
module Agent {
  import opened Common
  import opened Schemas
  import opened Clock
  import opened Events
  import opened Orders
  import opened Ledger
  import opened Lifecycle
  import opened Candidates
  import opened Risk
  import opened Policy
  import opened Repository
  import opened Service
  import opened Equity
  import C = Cycle
  import L = DailyLoss

  class AgentService {
    const repository: AuditRepository
    const broker: Broker
    const losses: L.LossControlTable
    const equities: EquityHistory
    var cycles: set<int>
    var killed: bool

    constructor (repository: AuditRepository, broker: Broker, losses: L.LossControlTable, equities: EquityHistory)
      ensures this.repository == repository && this.broker == broker && this.losses == losses
      ensures this.equities == equities
      ensures cycles == {} && !killed
    {
      this.repository, this.broker, this.losses, this.equities := repository, broker, losses, equities;
      cycles, killed := {}, false;
    }

    function World(): C.World
      reads this, repository, broker, losses, equities
    {
      C.World(repository.Tables(), broker.working, losses.rows, equities.marks, cycles, killed)
    }

    /** False for a key already begun. */
    method BeginRun(key: int) returns (created: bool)
      modifies `cycles
      ensures created == (key !in old(cycles)) && cycles == old(cycles) + {key}
    {
      created := key !in cycles;
      cycles := cycles + {key};
    }

    method FailClosed()
      modifies `killed
      ensures killed
    {
      killed := true;
    }

    // ----------------------------------------------------------------------- decision

    method SubmitEntry(
      c: Candidate, v: Verdict, minutes: nat, i: C.CycleInputs) returns (completed: bool, entry: Option<Request>)
      modifies this, repository, broker, losses
      ensures C.CycleResult(World(), completed, entry) == C.SubmitEntry(old(World()), c, v, minutes, i)
    {
      repository.PersistDecision(i.run, Award(v.awarded, v.quantity, c.id, c.structure, minutes));
      var request := C.EntryRequest(c, v.quantity, i);
      var known := repository.OrderExists(request.id);
      if known {
        return true, None;
      }
      if !request.Valid() {
        FailClosed();
        return false, None;
      }
      var placement := broker.PlaceOptionOrder(request, i.place);
      if placement.None? {
        FailClosed();
        return false, None;
      }
      repository.PersistOrder(i.run, request, placement.value);
      var raised := losses.Increase(i.now, v.awarded);
      if !raised {
        FailClosed();
        return false, None;
      }
      return true, Some(request);
    }

    method Choose(
      ctx: RiskContext, auction: seq<Candidate>, i: C.CycleInputs) returns (completed: bool, entry: Option<Request>)
      requires forall c <- auction :: c.Valid()
      modifies this, repository, broker, losses
      ensures C.CycleResult(World(), completed, entry) == C.Choose(old(World()), ctx, auction, i)
    {
      var decision := if auction == [] then C.ABSTENTION else i.decision;
      var selected := C.CandidateById(auction, decision.candidateId);
      C.SelectedIsListed(auction, decision.candidateId);
      if !ctx.Valid() {
        FailClosed();
        return false, None;
      }
      var risk := EvaluateRisk(decision, selected, ctx);
      if !risk.approved || selected.None? {
        return true, None;
      }
      var minutes := Risk.Hold(decision, selected.value, i.now).minutes;
      completed, entry := SubmitEntry(selected.value, Verdict(risk.approved, risk.quantity, risk.awarded), minutes, i);
    }

    method AuctionCandidates(compiled: seq<Candidate>, excluded: set<CandidateName>) returns (auction: seq<Candidate>)
      ensures auction == C.Auction(compiled, excluded)
    {
      auction := [];
      for k := 0 to |compiled|
        invariant auction == C.Auction(compiled[..k], excluded)
      {
        assert compiled[..k + 1][..k] == compiled[..k];
        if compiled[k].id !in excluded {
          auction := auction + [compiled[k]];
        }
      }
      assert compiled[..|compiled|] == compiled;
    }

    method Exclusions(compiled: seq<Candidate>, synced: Book, i: C.CycleInputs) returns (excluded: set<CandidateName>)
      ensures excluded == C.ExcludedIds(compiled, synced, repository.Tables(), i)
    {
      excluded := PortfolioCandidateExclusions(
        compiled, PendingUnderlyings(synced), OpenUnderlyings(synced), OpenCounts(synced), i.now);
      if i.production {
        var directional := DirectionalPolicyExclusions(compiled, repository.Tables(), i.snapshots, i.histories, i.now);
        excluded := excluded + directional;
      }
      excluded := excluded + i.excluded;
    }

    method Decide(synced: Book, ctx: RiskContext, i: C.CycleInputs) returns (completed: bool, entry: Option<Request>)
      requires i.Valid()
      modifies this, repository, broker, losses
      ensures C.CycleResult(World(), completed, entry) == C.Decide(old(World()), synced, ctx, i)
    {
      hide C.Choose, C.ExcludedIds, C.Auction, C.SymbolsOf, AllCandidates;
      var compiled := BuildCandidates(COMPETITION_MACRO_EVENTS, i.snapshots, i.chains, i.now);
      if compiled.Failure? {
        FailClosed();
        return false, None;
      }
      repository.PersistCandidates(C.SymbolsOf(compiled.value));
      var excluded := Exclusions(compiled.value, synced, i);
      var auction := AuctionCandidates(compiled.value, excluded);
      if i.raised == Some(C.Deciding) || !(forall c <- auction :: c.Valid()) {
        FailClosed();
        return false, None;
      }
      completed, entry := Choose(ctx, auction, i);
    }

    // -------------------------------------------------------------------------- cycle

    method Act(before: L.Control, l: L.LossInputs, status: L.LossStatus, clean: bool, i: C.CycleInputs, e: Summary)
      returns (completed: bool, entry: Option<Request>)
      requires i.Valid()
      modifies this, repository, broker, losses, equities
      ensures C.CycleResult(World(), completed, entry) == C.Act(old(World()), before, l, status, clean, i, e)
    {
      hide C.Decide, Pass, C.EnvFor, C.RiskContextFor, C.AccountEquity;
      var equity := C.AccountEquity(before, l);
      var synced := repository.Tables();
      var pass := new LifecyclePass(repository, broker);
      pass.MaintainOrderLifecycle(C.EnvFor(i, e, clean, equity, status));
      if pass.failed {
        FailClosed();
        return false, None;
      }
      var ctx := C.RiskContextFor(synced, i, e, clean, pass.incidents == [], equity, status, killed);
      completed, entry := Decide(synced, ctx, i);
      if completed && clean && pass.incidents == [] && i.production
         && SCORING_STARTS_AT <= i.now <= EOD_EQUITY_SNAPSHOT_AT {
        equities.Record(EquityMark(i.now, equity));
      }
    }

    method Proceed(i: C.CycleInputs) returns (completed: bool, entry: Option<Request>)
      requires i.Valid()
      modifies this, repository, broker, losses, equities
      ensures C.CycleResult(World(), completed, entry) == C.Proceed(old(World()), i)
    {
      hide C.Act, ReconcileBroker, PersistFills, L.MarksPass, L.Observe, Reconciled, OpenLoss, OpenManaged, Summarise;
      repository.PersistFills(i.activities);
      var clean := repository.ReconcileBrokerState(i.reports, i.positions, i.live);
      var openLoss := repository.TotalOpenDefinedLoss();
      var e := equities.PortfolioEquity(i.now, i.equity);
      var before := losses.Open(i.now, openLoss);
      if i.raised == Some(C.ReadingMarket) {
        FailClosed();
        return false, None;
      }
      var managed := repository.OpenManagedStructures();
      var marks := L.ValidateManagedBookMarks(managed, i.positions, i.quotes, i.now);
      var l := L.LossInputs(i.now, e.startOfDay, i.equity, clean, i.secondEquity, marks.passed, i.positions == map[]);
      var raised := losses.Transition(l);
      if raised {
        FailClosed();
        return false, None;
      }
      completed, entry := Act(before, l, C.StatusOf(losses.rows, i.now), clean, i, e);
    }

    method RunCycle(i: C.CycleInputs) returns (completed: bool, entry: Option<Request>)
      requires i.Valid()
      modifies this, repository, broker, losses, equities
      ensures C.CycleResult(World(), completed, entry) == C.RunCycle(old(World()), i)
    {
      hide C.Proceed;
      ghost var w := World();
      var created := BeginRun(C.CycleKey(i.now));
      if !created {
        assert cycles == w.cycles;
        return false, None;
      }
      broker.Advance(i.stillWorking);
      if i.raised == Some(C.ReadingBroker) {
        FailClosed();
        return false, None;
      }
      completed, entry := Proceed(i);
    }
  }
}
