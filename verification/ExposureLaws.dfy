/** From quotes to the ledger: what any opening order ever recorded can lose at expiry. */
module ExposureLaws {
  import opened Common
  import opened Schemas
  import opened Clock
  import opened Events
  import opened Orders
  import opened Options
  import opened Ledger
  import opened LedgerLaws
  import opened Inventory
  import opened InventoryLaws
  import opened ReconcileLaws
  import opened Lifecycle
  import opened LifecycleLaws
  import opened Candidates
  import DailyLoss
  import opened CompilerLaws
  import opened Risk
  import opened SizingLaws
  import opened Equity
  import opened Cycle
  import opened CycleLaws

  /** An award is the declared loss of its structure, times its quantity, and the declaration is sound. */
  ghost predicate AwardOk(a: Ledger.Award) {
    && ValidateDefinedRisk(a.structure).Success? && WellOriented(a.structure)
    && a.quantity >= 1 && a.amount == Risk.Award(a.structure.maximumLoss, a.quantity)
  }

  ghost predicate AwardsSound(awards: map<RunId, Ledger.Award>) {
    forall r :: r in awards ==> AwardOk(awards[r])
  }

  lemma {:induction false} AuctionKeeps(cs: seq<Candidate>, excluded: set<CandidateName>)
    ensures forall c <- Auction(cs, excluded) :: c in cs
  {
    if cs != [] {
      AuctionKeeps(cs[..|cs| - 1], excluded);
    }
  }

  /** An approved candidate has passed the structure check; its compiled geometry orients it. */
  lemma ApprovedIsValidated(c: Candidate)
    requires SoundGeometry(c.structure) && ValidateDefinedRisk(c.structure).Success?
    ensures WellOriented(c.structure)
  {
  }

  lemma ChooseAwards(w: World, ctx: RiskContext, auction: seq<Candidate>, i: CycleInputs)
    requires AwardsSound(w.book.awards) && forall c <- auction :: c.Valid() && SoundGeometry(c.structure)
    ensures AwardsSound(Choose(w, ctx, auction, i).world.book.awards)
  {
    var decision := if auction == [] then ABSTENTION else i.decision;
    var selected := CandidateById(auction, decision.candidateId);
    SelectedIsListed(auction, decision.candidateId);
    if ctx.Valid() {
      var v := VerdictOf(decision, selected, ctx);
      if v.approved && selected.Some? {
        var c := selected.value;
        VerdictIsExact(decision, c, ctx);
        ApprovedIsValidated(c);
        var minutes := Risk.Hold(decision, c, i.now).minutes;
        SubmitAwards(w, c, v, minutes, i);
        assert AwardOk(Ledger.Award.Award(v.awarded, v.quantity, c.id, c.structure, minutes));
      }
    }
  }

  lemma SubmitAwards(w: World, c: Candidate, v: Verdict, minutes: nat, i: CycleInputs)
    ensures SubmitEntry(w, c, v, minutes, i).world.book.awards
         == w.book.awards[i.run := Ledger.Award.Award(v.awarded, v.quantity, c.id, c.structure, minutes)]
  {
  }

  lemma DecideAwards(w: World, synced: Book, ctx: RiskContext, i: CycleInputs)
    requires AwardsSound(w.book.awards) && i.Valid()
    ensures AwardsSound(Decide(w, synced, ctx, i).world.book.awards)
  {
    hide AllCandidates, AwardsSound, Choose, ExcludedIds;
    var compiled := AllCandidates(COMPETITION_MACRO_EVENTS, i.snapshots, i.chains, i.now);
    if compiled.Success? {
      CompiledCandidatesAreSound(COMPETITION_MACRO_EVENTS, i.snapshots, i.chains, i.now);
      var listed := w.(book := w.book.(known := w.book.known + SymbolsOf(compiled.value)));
      AuctionKeeps(compiled.value, ExcludedIds(compiled.value, synced, listed.book, i));
      ChooseAwards(listed, ctx, Auction(compiled.value, ExcludedIds(compiled.value, synced, listed.book, i)), i);
    }
  }

  lemma CycleAwards(w: World, i: CycleInputs)
    requires Sane(w) && Honest(w, i) && AwardsSound(w.book.awards)
    ensures AwardsSound(RunCycle(w, i).world.book.awards)
  {
    hide SyncedBook, SyncClean, Act, Summarise, AwardsSound;
    if CycleKey(i.now) !in w.cycles && i.raised != Some(ReadingBroker) {
      SyncKeepsSane(w, i);
      var begun := Begun(w, i);
      var synced := Synced(begun, i);
      var clean := SyncClean(begun.book, i);
      var l := LossInputsFor(synced.book, clean, i, EquitySeen(w, i));
      var outcome := DailyLoss.Observe(synced.controls, l);
      var observed := synced.(controls := outcome.controls);
      if i.raised != Some(ReadingMarket) && !outcome.failed {
        ActAwards(observed, synced.controls[SessionDate(i.now)], l, StatusOf(outcome.controls, i.now), clean, i,
                  EquitySeen(w, i));
      }
    }
  }

  lemma ActAwards(
    w: World, before: DailyLoss.Control, l: DailyLoss.LossInputs, status: DailyLoss.LossStatus, clean: bool,
    i: CycleInputs, e: Summary)
    requires Sane(w) && ClosesListed(w.book, w.working) && AwardsSound(w.book.awards) && i.Valid()
    requires forall id :: i.poll(id).Some? && !i.poll(id).value.status.Terminal() ==> id in w.working
    ensures AwardsSound(Act(w, before, l, status, clean, i, e).world.book.awards)
  {
    hide Pass, Decide, AwardsSound, OpenLoss;
    var equity := AccountEquity(before, l);
    var env := EnvFor(i, e, clean, equity, status);
    var pass := Pass(w.book, w.working, env);
    PassKeeps(w.book, w.working, env);
    var maintained := w.(book := pass.book, working := pass.working);
    if !pass.failed {
      var ctx := RiskContextFor(w.book, i, e, clean, pass.incidents == [], equity, status, w.killed);
      DecideAwards(maintained, w.book, ctx, i);
    }
  }

  lemma {:induction false} RunAwards(w: World, events: seq<Event>)
    requires Sane(w) && AllValid(events) && HonestRun(w, events) && AwardsSound(w.book.awards)
    ensures AwardsSound(After(w, events).book.awards)
  {
    hide RunCycle, AwardsSound, Sane;
    if events != [] {
      var n := |events| - 1;
      PrefixHonest(w, events, n);
      RunStaysSane(w, events[..n]);
      RunAwards(w, events[..n]);
      if events[n].CycleDue? {
        assert HonestAt(w, events, n);
        CycleAwards(After(w, events[..n]), events[n].inputs);
      }
    }
  }

  /** In every run, every opening order ever in the ledger, first or replacement, filled at its limit,
      loses at expiry at most what was awarded per contract, plus fifteen dollars and a cent, whatever
      the underlying's price. */
  lemma EveryRunIsBounded(w: World, events: seq<Event>, id: ClientId, spot: real)
    requires Sane(w) && AllValid(events) && HonestRun(w, events) && AwardsSound(w.book.awards)
    requires id in After(w, events).book.orders && After(w, events).book.orders[id].IsEntry()
    ensures var b := After(w, events).book; var o := b.orders[id];
      && o.run in b.awards && AwardOk(b.awards[o.run])
      && var s := b.awards[o.run].structure;
         ExpiryLoss(s.legs, s.isCredit, o.request.limit, spot) <= s.maximumLoss + 15.0 + 0.01
  {
    hide RunCycle;
    RunStaysSane(w, events);
    RunAwards(w, events);
    var b := After(w, events).book;
    assert RowAt(b, id);
    EveryEntryIsBounded(b, id, spot);
  }

  lemma SoundClaims(legs: seq<Leg>, quantity: nat)
    requires UnitRatios(legs) && DistinctSymbols(legs) && quantity >= 1
    ensures ValidClaims(ClaimsOf(legs, quantity)) && DistinctClaims(ClaimsOf(legs, quantity))
  {
    forall i | 0 <= i < |legs| ensures ClaimOf(legs[i], quantity).Valid() {
      assert legs[i] in legs;
    }
  }

  lemma SoundExposure(b: Book, id: ClientId)
    requires RowAt(b, id) && AwardsSound(b.awards)
    ensures forall e <- ExposureOf(id, b.orders, b.awards) :: ValidRow(e)
  {
    var o := b.orders[id];
    if ExposureOf(id, b.orders, b.awards) != [] {
      var s := b.awards[o.run].structure;
      assert AwardOk(b.awards[o.run]);
      ValidatedLegs(s);
      SoundClaims(s.legs, o.request.quantity);
    }
  }

  lemma {:induction false} SoundExposures(ids: seq<ClientId>, b: Book)
    requires LedgerLaws.Inv(b) && AwardsSound(b.awards)
    ensures forall e <- ExposuresOf(ids, b.orders, b.awards) :: ValidRow(e)
  {
    hide ValidRow, AwardsSound;
    if ids != [] {
      SoundExposures(ids[..|ids| - 1], b);
      if ids[|ids| - 1] in b.orders {
        assert RowAt(b, ids[|ids| - 1]);
        SoundExposure(b, ids[|ids| - 1]);
      }
    }
  }

  /** So in every run the ledger's own structures meet what the position matching needs: repeating it on
      the same positions changes nothing. */
  lemma RunsNormalizeOnce(w: World, events: seq<Event>, positions: Holdings)
    requires Sane(w) && AllValid(events) && HonestRun(w, events) && AwardsSound(w.book.awards)
    ensures var b := After(w, events).book;
      NormalizeBook(NormalizeBook(b, positions), positions) == NormalizeBook(b, positions)
  {
    hide RunCycle, NormalizeBook, BySubmission, HonestRun;
    RunStaysSane(w, events);
    RunAwards(w, events);
    SoundExposures(BySubmission(After(w, events).book.ids, After(w, events).book.orders), After(w, events).book);
    NormalizeBookIdempotent(After(w, events).book, positions);
  }
}
