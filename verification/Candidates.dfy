/** The structure compiler (domain/candidates.py). */
module Candidates {
  import opened Common
  import opened Money
  import opened Schemas
  import opened Clock
  import opened Events
  import opened Options
  import opened Ranking

  const MIN_VOLUME := 25
  const MIN_OPEN_INTEREST := 200
  const MAX_QUOTE_AGE_SECONDS := 90
  const MIN_RICHNESS_RATIO := 1.20
  const MIN_IMPLIED_MOVE_PCT := 0.003
  const MAX_IMPLIED_MOVE_PCT := 0.08
  const MAX_STRUCTURE_SPREAD_TO_EDGE := 0.45
  const MIN_CREDIT := 0.20
  const MIN_CONDOR_REWARD_RISK := 0.20
  const DIRECTIONAL_TREND_THRESHOLD := 0.004
  const DIRECTIONAL_MIN_CONFIDENCE := 0.72
  const DIRECTIONAL_SPREAD_WIDTH := 5.0
  const MIN_DIRECTIONAL_REWARD_RISK := 0.70
  const CONDOR_HOLDING_MINUTES := 360
  const UNIVERSE := {"SPY", "QQQ", "IWM"}

  // ------------------------------------------------------------ fresh quotes

  function Age(now: int, observedAt: int): nat { Max(0, now - observedAt) }

  predicate FreshQuote(q: Quote, now: int) {
    q.expiration / DAY >= SessionDate(now) && Age(now, q.observedAt) <= MAX_QUOTE_AGE_SECONDS
  }

  /** The fresh quotes of one expiration, in chain order. */
  function Group(chain: seq<Quote>, now: int, expiration: int): seq<Quote> {
    if chain == [] then []
    else
      var n := |chain| - 1;
      Group(chain[..n], now, expiration)
      + if FreshQuote(chain[n], now) && chain[n].expiration == expiration then [chain[n]] else []
  }

  method FreshExpiryGroups(chain: seq<Quote>, now: int) returns (groups: map<int, seq<Quote>>)
    ensures forall e :: e in groups <==> Group(chain, now, e) != []
    ensures forall e <- groups :: groups[e] == Group(chain, now, e)
  {
    groups := map[];
    for i := 0 to |chain|
      invariant forall e :: e in groups <==> Group(chain[..i], now, e) != []
      invariant forall e <- groups :: groups[e] == Group(chain[..i], now, e)
    {
      assert chain[..i + 1][..i] == chain[..i];
      var q := chain[i];
      if q.expiration / DAY < SessionDate(now) || Age(now, q.observedAt) > MAX_QUOTE_AGE_SECONDS {
        continue;
      }
      var prior := if q.expiration in groups then groups[q.expiration] else [];
      groups := groups[q.expiration := prior + [q]];
    }
    assert chain[..|chain|] == chain;
  }

  /** The earliest expiration with a fresh quote. */
  function NearestExpiration(chain: seq<Quote>, now: int): Option<int> {
    if chain == [] then None
    else
      var n := |chain| - 1;
      var rest := NearestExpiration(chain[..n], now);
      if !FreshQuote(chain[n], now) then rest
      else if rest.None? then Some(chain[n].expiration)
      else Some(Min(rest.value, chain[n].expiration))
  }

  /** The group the builders take: the least key of `FreshExpiryGroups`. */
  lemma {:induction false} NearestExpirationIsLeastGroup(chain: seq<Quote>, now: int)
    ensures match NearestExpiration(chain, now)
            case None => forall e :: Group(chain, now, e) == []
            case Some(least) => Group(chain, now, least) != [] && forall e :: Group(chain, now, e) != [] ==> least <= e
  {
    if chain != [] {
      NearestExpirationIsLeastGroup(chain[..|chain| - 1], now);
    }
  }

  lemma {:induction false} GroupKeeps(chain: seq<Quote>, now: int, expiration: int)
    ensures forall q <- Group(chain, now, expiration) :: q in chain && q.expiration == expiration && FreshQuote(q, now)
  {
    if chain != [] {
      GroupKeeps(chain[..|chain| - 1], now, expiration);
    }
  }

  // --------------------------------------------------------- strike selection

  predicate Nearer(a: Quote, b: Quote, target: real) {
    var da, db := AbsReal(a.strike - target), AbsReal(b.strike - target);
    da < db || (da == db && a.strike < b.strike)
  }

  /** Least distance to the target; ties go to the lower strike, then to the first quote. */
  function Nearest(quotes: seq<Quote>, right: Right, target: real): Option<Quote> {
    if quotes == [] then None
    else
      var n := |quotes| - 1;
      var best := Nearest(quotes[..n], right, target);
      if quotes[n].right != right then best
      else if best.None? || Nearer(quotes[n], best.value, target) then Some(quotes[n])
      else best
  }

  /** The nearest strike at or beyond the target on one side. */
  function NearestExactSide(quotes: seq<Quote>, right: Right, target: real, lower: bool): Option<Quote> {
    if quotes == [] then None
    else
      var n := |quotes| - 1;
      var best := NearestExactSide(quotes[..n], right, target, lower);
      if quotes[n].right != right
         || !(if lower then quotes[n].strike <= target else quotes[n].strike >= target)
      then best
      else if best.None? || AbsReal(quotes[n].strike - target) < AbsReal(best.value.strike - target)
      then Some(quotes[n])
      else best
  }

  function ExactStrike(quotes: seq<Quote>, right: Right, target: real): Option<Quote> {
    if quotes == [] then None
    else if quotes[0].right == right && quotes[0].strike == target then Some(quotes[0])
    else ExactStrike(quotes[1..], right, target)
  }

  lemma {:induction false} NearestIsLeast(quotes: seq<Quote>, right: Right, target: real)
    ensures match Nearest(quotes, right, target)
            case None => forall q <- quotes :: q.right != right
            case Some(best) => best in quotes && best.right == right
                               && forall q <- quotes :: q.right == right ==> !Nearer(q, best, target)
  {
    if quotes != [] {
      var n := |quotes| - 1;
      NearestIsLeast(quotes[..n], right, target);
      assert forall q <- quotes :: q in quotes[..n] || q == quotes[n];
    }
  }

  lemma {:induction false} NearestExactSideKeeps(quotes: seq<Quote>, right: Right, target: real, lower: bool)
    ensures var r := NearestExactSide(quotes, right, target, lower);
      r.Some? ==> r.value in quotes && r.value.right == right
                  && (if lower then r.value.strike <= target else r.value.strike >= target)
  {
    if quotes != [] {
      NearestExactSideKeeps(quotes[..|quotes| - 1], right, target, lower);
    }
  }

  lemma {:induction false} ExactStrikeKeeps(quotes: seq<Quote>, right: Right, target: real)
    ensures var r := ExactStrike(quotes, right, target);
      r.Some? ==> r.value in quotes && r.value.right == right && r.value.strike == target
  {
    if quotes != [] {
      ExactStrikeKeeps(quotes[1..], right, target);
    }
  }

  predicate Lists(quotes: seq<Quote>, right: Right, strike: real) {
    exists q <- quotes :: q.right == right && q.strike == strike
  }

  ghost predicate SameLadder(quotes: seq<Quote>) {
    forall strike :: Lists(quotes, Put, strike) <==> Lists(quotes, Call, strike)
  }

  /** Selection is monotone in the target: on coinciding ladders a put chosen near a lower target
      never stands above a call chosen near a higher one. */
  lemma NearestMonotone(quotes: seq<Quote>, putTarget: real, callTarget: real)
    requires SameLadder(quotes) && putTarget <= callTarget
    requires Nearest(quotes, Put, putTarget).Some? && Nearest(quotes, Call, callTarget).Some?
    ensures Nearest(quotes, Put, putTarget).value.strike <= Nearest(quotes, Call, callTarget).value.strike
  {
    NearestIsLeast(quotes, Put, putTarget);
    NearestIsLeast(quotes, Call, callTarget);
    var p, c := Nearest(quotes, Put, putTarget).value, Nearest(quotes, Call, callTarget).value;
    assert Lists(quotes, Put, p.strike) && Lists(quotes, Call, c.strike);
    assert Lists(quotes, Call, p.strike) && Lists(quotes, Put, c.strike);
    var p' :| p' in quotes && p'.right.Put? && p'.strike == c.strike;
    var c' :| c' in quotes && c'.right.Call? && c'.strike == p.strike;
    assert !Nearer(p', p, putTarget) && !Nearer(c', c, callTarget);
    LeastStrikesOrdered(p.strike, c.strike, putTarget, callTarget);
  }

  lemma LeastStrikesOrdered(low: real, high: real, lowTarget: real, highTarget: real)
    requires lowTarget <= highTarget
    requires !(AbsReal(high - lowTarget) < AbsReal(low - lowTarget)
               || (AbsReal(high - lowTarget) == AbsReal(low - lowTarget) && high < low))
    requires !(AbsReal(low - highTarget) < AbsReal(high - highTarget)
               || (AbsReal(low - highTarget) == AbsReal(high - highTarget) && low < high))
    ensures low <= high
  {
  }

  // ---------------------------------------------------------------- liquidity

  predicate QuoteIsLiquid(q: Quote) {
    && q.bid > 0.0 && q.ask > q.bid
    && q.volume.Some? && q.volume.value >= MIN_VOLUME
    && (q.openInterest.Some? ==> q.openInterest.value >= MIN_OPEN_INTEREST)
    && (q.bidSize.Some? ==> q.bidSize.value > 0)
    && (q.askSize.Some? ==> q.askSize.value > 0)
  }

  function OpeningLeg(q: Quote, side: Side): Leg {
    Leg(q.symbol, q.underlying, q.expiration, q.right, q.strike, side,
        if side.Buy? then BuyToOpen else SellToOpen, 1, q.bid, q.ask,
        q.volume, q.openInterest, q.bidSize, q.askSize)
  }

  // ----------------------------------------------------------------- builders

  /** Skipped: no candidate, with the recorded reason; Raised: a ValueError escapes the compiler. */
  datatype Built = Emitted(candidate: Candidate) | Skipped(reason: string) | Raised(error: string)

  /** The four quotes of a condor. */
  datatype Selection = Selection(longPut: Quote, shortPut: Quote, shortCall: Quote, longCall: Quote) {
    function Legs(): seq<Leg> {
      [OpeningLeg(longPut, Buy), OpeningLeg(shortPut, Sell), OpeningLeg(shortCall, Sell), OpeningLeg(longCall, Buy)]
    }

    function MidpointCredit(): real {
      RoundCent(-longPut.Midpoint() + shortPut.Midpoint() + shortCall.Midpoint() - longCall.Midpoint())
    }

    function ExecutableCredit(): real {
      RoundCent(shortPut.bid + shortCall.bid - longPut.ask - longCall.ask)
    }

    function OldestAge(now: int): nat {
      Max(Max(Age(now, longPut.observedAt), Age(now, shortPut.observedAt)),
          Max(Age(now, shortCall.observedAt), Age(now, longCall.observedAt)))
    }
  }

  function CondorWidth(symbol: Symbol): real { if symbol == "IWM" then 3.0 else 5.0 }

  /** Short strikes nearest the two targets, protective wings at least `width` beyond them. */
  function SelectCondor(quotes: seq<Quote>, putTarget: real, callTarget: real, width: real): Result<Selection> {
    var shortPut, shortCall := Nearest(quotes, Put, putTarget), Nearest(quotes, Call, callTarget);
    if shortPut.None? || shortCall.None? then Failure("missing short strikes around implied move")
    else
      var longPut := NearestExactSide(quotes, Put, shortPut.value.strike - width, true);
      var longCall := NearestExactSide(quotes, Call, shortCall.value.strike + width, false);
      if longPut.None? || longCall.None? then Failure("missing protective wing for condor")
      else Success(Selection(longPut.value, shortPut.value, shortCall.value, longCall.value))
  }

  /** Short strikes one implied move either side of spot. */
  function CondorSelection(s: Snapshot, quotes: seq<Quote>): Result<Selection> {
    SelectCondor(quotes, s.spot - MoveOf(s), s.spot + MoveOf(s), CondorWidth(s.symbol))
  }

  function MoveOf(s: Snapshot): real { s.spot * s.impliedMove }

  predicate SelectionLiquid(x: Selection) {
    QuoteIsLiquid(x.longPut) && QuoteIsLiquid(x.shortPut) && QuoteIsLiquid(x.shortCall) && QuoteIsLiquid(x.longCall)
  }

  function BuildCondor(s: Snapshot, chain: seq<Quote>, now: int): Built
    requires s.Valid()
  {
    if s.Richness() < MIN_RICHNESS_RATIO then Skipped("richness below minimum")
    else if !(MIN_IMPLIED_MOVE_PCT <= s.impliedMove <= MAX_IMPLIED_MOVE_PCT) then
      Skipped("implied move outside conservative sanity range")
    else if s.eventRisk then Skipped("scheduled macro event overlaps intended holding period")
    else
      match NearestExpiration(chain, now)
      case None => Skipped("option chain is empty, incomplete, or stale")
      case Some(expiration) =>
        match CondorSelection(s, Group(chain, now, expiration))
        case Failure(reason) => Skipped(reason)
        case Success(x) => PriceCondor(s, x, expiration, now)
  }

  function PriceCondor(s: Snapshot, x: Selection, expiration: int, now: int): Built
    requires s.Valid()
  {
    var midpoint, executable := x.MidpointCredit(), x.ExecutableCredit();
    var spread := AbsReal(midpoint - executable);
    if !SelectionLiquid(x) then Skipped("fresh quote, daily volume, or available depth liquidity gate failed")
    else if midpoint < MIN_CREDIT then Skipped("expected condor credit is below minimum")
    else if spread > midpoint * MAX_STRUCTURE_SPREAD_TO_EDGE then
      Skipped("structure spread consumes too much expected credit")
    else
      match CalculateMaximumLoss(IndexCondor, x.Legs(), midpoint)
      case Failure(error) => Raised(error)
      case Success(maximumLoss) =>
        match CalculateMaximumLoss(IndexCondor, x.Legs(), executable)
        case Failure(error) => Raised(error)
        case Success(executableLoss) =>
          var rewardRisk :=
            if executable > 0.0 && executableLoss != 0.0 then executable * MULTIPLIER / executableLoss else 0.0;
          var structure := Structure(IndexCondor, s.symbol, expiration, x.Legs(), midpoint,
                                     maximumLoss, RoundCent(midpoint * MULTIPLIER), true);
          if maximumLoss <= 0.0 || (executable > 0.0 && executableLoss == 0.0) then
            Raised("declared maximum loss rounds to zero")
          else
            Emitted(Candidate(
              CandidateName(s.symbol, IndexCondor, expiration, Strikes(x.Legs())), IndexCondor, structure,
              RoundCentEven(s.Richness() * 100.0 - spread * 10.0), s.Richness(),
              x.OldestAge(now), false, true, None, true, 0.0, Some(rewardRisk), 0, None))
  }

  function Strikes(legs: seq<Leg>): seq<real> {
    seq(|legs|, i requires 0 <= i < |legs| => legs[i].strike)
  }

  /** A near-the-money long leg and a short leg exactly one width further out. */
  function SelectDirectional(quotes: seq<Quote>, bullish: bool, spot: real): Result<(Quote, Quote)> {
    var right := if bullish then Call else Put;
    match Nearest(quotes, right, spot)
    case None => Failure("missing near-the-money directional long leg")
    case Some(long) =>
      var target := if bullish then long.strike + DIRECTIONAL_SPREAD_WIDTH else long.strike - DIRECTIONAL_SPREAD_WIDTH;
      match ExactStrike(quotes, right, target)
      case None => Failure("missing directional short wing at configured width")
      case Some(short) => Success((long, short))
  }

  function BuildDirectional(events: seq<MacroEvent>, s: Snapshot, chain: seq<Quote>, now: int): Built
    requires s.Valid()
  {
    var window := DirectionalWindow(events, now);
    if AbsReal(s.trend) < DIRECTIONAL_TREND_THRESHOLD then Skipped("no trend")
    else if s.eventRisk then Skipped("explicit upstream event risk vetoed directional structure")
    else if !window.accepted then Skipped("event window")
    else
      match NearestExpiration(chain, now)
      case None => Skipped("directional chain is empty, incomplete, or stale")
      case Some(expiration) =>
        match SelectDirectional(Group(chain, now, expiration), s.trend > 0.0, s.spot)
        case Failure(reason) => Skipped(reason)
        case Success((long, short)) => PriceDirectional(s, long, short, expiration, window, now)
  }

  function PriceDirectional(s: Snapshot, long: Quote, short: Quote, expiration: int, window: Window, now: int): Built
    requires s.Valid()
  {
    var action := if s.trend > 0.0 then CallDebitSpread else PutDebitSpread;
    var legs := [OpeningLeg(long, Buy), OpeningLeg(short, Sell)];
    var debit := RoundCent(long.Midpoint() - short.Midpoint());
    if !(QuoteIsLiquid(long) && QuoteIsLiquid(short)) then Skipped("directional spread liquidity gate failed")
    else if debit <= 0.0 || debit >= DIRECTIONAL_SPREAD_WIDTH then
      Skipped("directional debit is outside defined-risk bounds")
    else
      match CalculateMaximumLoss(action, legs, debit)
      case Failure(error) => Raised(error)
      case Success(maximumLoss) =>
        var maximumProfit := RoundCent((DIRECTIONAL_SPREAD_WIDTH - debit) * MULTIPLIER);
        if maximumLoss <= 0.0 || maximumProfit <= 0.0 then Raised("declared bound rounds to zero")
        else if maximumProfit / maximumLoss < MIN_DIRECTIONAL_REWARD_RISK then
          Skipped("directional reward-to-risk below 0.70")
        else
          Emitted(Candidate(
            CandidateName(s.symbol, action, expiration, Strikes(legs)), action,
            Structure(action, s.symbol, expiration, legs, debit, maximumLoss, maximumProfit, false),
            RoundCentEven(AbsReal(s.trend) * 10000.0), s.Richness(),
            Max(Age(now, long.observedAt), Age(now, short.observedAt)), false, true,
            Some(AbsReal(s.trend)), true, DIRECTIONAL_MIN_CONFIDENCE, None,
            window.maximumHoldingMinutes, Some(window.deadline)))
  }

  // ------------------------------------------------------------------ compiler

  /** A condor enters the auction only with an executable reward/risk of at least 0.20. */
  predicate CondorRewarding(c: Candidate)
    requires c.structure.maximumLoss > 0.0
  {
    var ratio := if c.payoffQuality.GetOr(0.0) != 0.0 then c.payoffQuality.value
                 else c.structure.maximumProfit / c.structure.maximumLoss;
    ratio >= MIN_CONDOR_REWARD_RISK
  }

  function CondorFor(events: seq<MacroEvent>, s: Snapshot, chain: seq<Quote>, now: int): Built
    requires s.Valid()
  {
    BuildCondor(s.(eventRisk := s.eventRisk || ScheduledRisk(events, now, CONDOR_HOLDING_MINUTES)), chain, now)
  }

  /** The candidates of one underlying, or the error that escapes. */
  function CandidatesFor(events: seq<MacroEvent>, s: Snapshot, chain: seq<Quote>, now: int): Result<seq<Candidate>>
    requires s.Valid()
  {
    var condor := CondorFor(events, s, chain, now);
    var directional :=
      if s.symbol in UNIVERSE then BuildDirectional(events, s, chain, now) else Skipped("not a directional underlying");
    if condor.Raised? then Failure(condor.error)
    else if directional.Raised? then Failure(directional.error)
    else
      Success((if condor.Emitted? && condor.candidate.structure.maximumLoss > 0.0 && CondorRewarding(condor.candidate)
               then [condor.candidate] else [])
              + if directional.Emitted? then [directional.candidate] else [])
  }

  function ChainOf(chains: map<Symbol, seq<Quote>>, symbol: Symbol): seq<Quote> {
    if symbol in chains then chains[symbol] else []
  }

  function PerSnapshot(
    events: seq<MacroEvent>, snapshots: seq<Snapshot>, chains: map<Symbol, seq<Quote>>, now: int)
    : (r: seq<Result<seq<Candidate>>>)
    requires forall s <- snapshots :: s.Valid()
    ensures |r| == |snapshots|
  {
    seq(|snapshots|, i requires 0 <= i < |snapshots| =>
      CandidatesFor(events, snapshots[i], ChainOf(chains, snapshots[i].symbol), now))
  }

  /** Appends every list in order; the first failure wins. */
  function Gather(results: seq<Result<seq<Candidate>>>): Result<seq<Candidate>> {
    if results == [] then Success([])
    else
      var n := |results| - 1;
      var earlier :- Gather(results[..n]);
      var more :- results[n];
      Success(earlier + more)
  }

  function AllCandidates(
    events: seq<MacroEvent>, snapshots: seq<Snapshot>, chains: map<Symbol, seq<Quote>>, now: int)
    : Result<seq<Candidate>>
    requires forall s <- snapshots :: s.Valid()
  {
    var compiled :- Gather(PerSnapshot(events, snapshots, chains, now));
    Success(Ranked(compiled))
  }

  lemma {:induction false} FailureSticks(results: seq<Result<seq<Candidate>>>, n: nat)
    requires n <= |results| && Gather(results[..n]).Failure?
    ensures Gather(results) == Gather(results[..n])
  {
    if n < |results| {
      var m := |results| - 1;
      assert results[..m][..n] == results[..n];
      FailureSticks(results[..m], n);
    } else {
      assert results[..n] == results;
    }
  }

  method BuildCandidates(
    events: seq<MacroEvent>, snapshots: seq<Snapshot>, chains: map<Symbol, seq<Quote>>, now: int)
    returns (r: Result<seq<Candidate>>)
    requires forall s <- snapshots :: s.Valid()
    ensures r == AllCandidates(events, snapshots, chains, now)
  {
    hide CandidatesFor;
    ghost var results := PerSnapshot(events, snapshots, chains, now);
    var candidates: seq<Candidate> := [];
    for i := 0 to |snapshots|
      invariant Gather(results[..i]) == Success(candidates)
    {
      assert results[..i + 1][..i] == results[..i];
      var found := SnapshotCandidates(events, snapshots[i], ChainOf(chains, snapshots[i].symbol), now);
      assert found == results[i];
      if found.Failure? {
        FailureSticks(results, i + 1);
        return Failure(found.error);
      }
      candidates := candidates + found.value;
    }
    assert results[..|snapshots|] == results;
    return Success(Ranked(candidates));
  }

  method SnapshotCandidates(events: seq<MacroEvent>, s: Snapshot, chain: seq<Quote>, now: int)
    returns (r: Result<seq<Candidate>>)
    requires s.Valid()
    ensures r == CandidatesFor(events, s, chain, now)
  {
    hide CondorFor, BuildDirectional, CondorRewarding;
    var condor := CondorFor(events, s, chain, now);
    if condor.Raised? {
      return Failure(condor.error);
    }
    var first: seq<Candidate> := [];
    var second: seq<Candidate> := [];
    if condor.Emitted? && condor.candidate.structure.maximumLoss > 0.0 && CondorRewarding(condor.candidate) {
      first := [condor.candidate];
    }
    if s.symbol in UNIVERSE {
      var directional := BuildDirectional(events, s, chain, now);
      if directional.Raised? {
        return Failure(directional.error);
      }
      if directional.Emitted? {
        second := [directional.candidate];
      }
    }
    return Success(first + second);
  }
}
