/** What the structure compiler guarantees about the candidates it emits. */
module CompilerLaws {
  import opened Common
  import opened Money
  import opened Schemas
  import opened Events
  import opened Options
  import opened Candidates
  import opened Ranking

  /** One option chain: quotes of one underlying, one per option symbol. */
  predicate ProperChain(chain: seq<Quote>, underlying: Symbol) {
    && (forall q <- chain :: q.Valid() && q.underlying == underlying)
    && (forall a, b :: a in chain && b in chain && a.symbol == b.symbol ==> a == b)
  }

  // ------------------------------------------------------------------- condors

  /** A selection the builder can make from one expiration of a chain. */
  predicate Selected(x: Selection, chain: seq<Quote>, expiration: int, width: real) {
    && x.longPut in chain && x.shortPut in chain && x.shortCall in chain && x.longCall in chain
    && x.longPut.right.Put? && x.shortPut.right.Put? && x.shortCall.right.Call? && x.longCall.right.Call?
    && x.longPut.strike + width <= x.shortPut.strike && x.shortCall.strike + width <= x.longCall.strike
    && x.longPut.expiration == x.shortPut.expiration == x.shortCall.expiration == x.longCall.expiration == expiration
  }

  lemma SelectionFromGroup(quotes: seq<Quote>, putTarget: real, callTarget: real, width: real)
    requires SelectCondor(quotes, putTarget, callTarget, width).Success?
    ensures var x := SelectCondor(quotes, putTarget, callTarget, width).value;
      && x.longPut in quotes && x.shortPut in quotes && x.shortCall in quotes && x.longCall in quotes
      && x.longPut.right.Put? && x.shortPut.right.Put? && x.shortCall.right.Call? && x.longCall.right.Call?
      && x.longPut.strike <= x.shortPut.strike - width && x.shortCall.strike + width <= x.longCall.strike
      && (SameLadder(quotes) && putTarget <= callTarget ==> x.shortPut.strike <= x.shortCall.strike)
      && !Nearer(x.longPut, x.shortPut, putTarget) && !Nearer(x.longCall, x.shortCall, callTarget)
  {
    NearestIsLeast(quotes, Put, putTarget);
    NearestIsLeast(quotes, Call, callTarget);
    NearestExactSideKeeps(quotes, Put, Nearest(quotes, Put, putTarget).value.strike - width, true);
    NearestExactSideKeeps(quotes, Call, Nearest(quotes, Call, callTarget).value.strike + width, false);
    if SameLadder(quotes) && putTarget <= callTarget {
      NearestMonotone(quotes, putTarget, callTarget);
    }
  }

  /** Each long strike was itself a choice for the short one and was not preferred, so the short strikes
      cross by at most half the two wing widths together. */
  lemma ShortStrikesStayApart(x: Selection, putTarget: real, callTarget: real)
    requires putTarget <= callTarget
    requires x.longPut.strike < x.shortPut.strike && x.shortCall.strike < x.longCall.strike
    requires !Nearer(x.longPut, x.shortPut, putTarget) && !Nearer(x.longCall, x.shortCall, callTarget)
    ensures 2.0 * (x.shortPut.strike - x.shortCall.strike)
         <= (x.shortPut.strike - x.longPut.strike) + (x.longCall.strike - x.shortCall.strike)
  {
    assert x.shortPut.strike + x.longPut.strike <= 2.0 * putTarget;
    assert 2.0 * callTarget <= x.shortCall.strike + x.longCall.strike;
  }

  /** The wings of a selection are apart, whatever ladders it was taken from. */
  predicate Apart(x: Selection) {
    WingsApart(Wings(x.longPut.strike, x.shortPut.strike, x.shortCall.strike, x.longCall.strike))
  }

  lemma MovePositive(s: Snapshot)
    requires s.Valid()
    ensures MoveOf(s) > 0.0
  {
  }

  lemma SelectionFromChain(s: Snapshot, chain: seq<Quote>, now: int, expiration: int)
    requires s.Valid() && CondorSelection(s, Group(chain, now, expiration)).Success?
    ensures var x := CondorSelection(s, Group(chain, now, expiration)).value;
      && Selected(x, chain, expiration, CondorWidth(s.symbol)) && Apart(x)
      && (SameLadder(Group(chain, now, expiration)) ==> x.shortPut.strike <= x.shortCall.strike)
  {
    hide MoveOf, SelectCondor, Nearer;
    MovePositive(s);
    GroupKeeps(chain, now, expiration);
    SelectionFromGroup(Group(chain, now, expiration), s.spot - MoveOf(s), s.spot + MoveOf(s), CondorWidth(s.symbol));
    var x := CondorSelection(s, Group(chain, now, expiration)).value;
    ShortStrikesStayApart(x, s.spot - MoveOf(s), s.spot + MoveOf(s));
  }

  lemma SelectionRights(x: Selection, chain: seq<Quote>, expiration: int, width: real)
    requires Selected(x, chain, expiration, width)
    ensures OfRight(x.Legs(), Put) == [OpeningLeg(x.longPut, Buy), OpeningLeg(x.shortPut, Sell)]
    ensures OfRight(x.Legs(), Call) == [OpeningLeg(x.shortCall, Sell), OpeningLeg(x.longCall, Buy)]
  {
    var l := x.Legs();
    assert l[1..] == [l[1], l[2], l[3]] && l[1..][1..] == [l[2], l[3]];
    assert l[1..][1..][1..] == [l[3]] && l[1..][1..][1..][1..] == [];
    assert OfRight([l[3]], Call) == [l[3]] && OfRight([l[3]], Put) == [];
    assert OfRight([l[2], l[3]], Call) == [l[2], l[3]] && OfRight([l[2], l[3]], Put) == [];
    assert OfRight([l[1], l[2], l[3]], Put) == [l[1]];
  }

  /** The geometry check on a selection reduces to: positive credit below the wider wing. */
  lemma SelectionGeometry(x: Selection, chain: seq<Quote>, expiration: int, width: real, credit: real)
    requires Selected(x, chain, expiration, width) && width > 0.0
    ensures |OfRight(x.Legs(), Put)| == 2 && |OfRight(x.Legs(), Call)| == 2
    ensures CondorWings(x.Legs()) == Wings(x.longPut.strike, x.shortPut.strike, x.shortCall.strike, x.longCall.strike)
    ensures CondorMaximumLoss(x.Legs(), credit).Success? <==> 0.0 < credit < CondorWings(x.Legs()).Width()
    ensures CondorMaximumLoss(x.Legs(), credit).Success? ==>
      CondorMaximumLoss(x.Legs(), credit).value == RoundCent((CondorWings(x.Legs()).Width() - credit) * MULTIPLIER)
  {
    SelectionRights(x, chain, expiration, width);
  }

  /** Selling at the touch never pays more than selling at the midpoint. */
  lemma ExecutableBelowMidpoint(x: Selection)
    requires TwoSided(x)
    ensures x.ExecutableCredit() <= x.MidpointCredit()
  {
    RoundCentMonotone(x.shortPut.bid + x.shortCall.bid - x.longPut.ask - x.longCall.ask,
                      -x.longPut.Midpoint() + x.shortPut.Midpoint() + x.shortCall.Midpoint() - x.longCall.Midpoint());
  }

  lemma RatioMonotone(a: real, b: real, c: real, d: real)
    requires 0.0 < a <= b && 0.0 < d <= c
    ensures a / c <= b / d
  {
    assert a / c <= b / c by {
      assert (b - a) / c >= 0.0;
    }
    assert b / c <= b / d by {
      assert b / d - b / c == b * (c - d) / (c * d);
    }
  }

  /** What the builder's gates ask of the two credits. */
  predicate PassesSpreadGate(x: Selection) {
    && x.MidpointCredit() >= MIN_CREDIT
    && AbsReal(x.MidpointCredit() - x.ExecutableCredit()) <= x.MidpointCredit() * MAX_STRUCTURE_SPREAD_TO_EDGE
  }

  /** Four two-sided quotes. */
  predicate TwoSided(x: Selection) {
    x.longPut.Valid() && x.shortPut.Valid() && x.shortCall.Valid() && x.longCall.Valid()
  }

  lemma PricedPassesSpreadGate(s: Snapshot, x: Selection, expiration: int, now: int)
    requires s.Valid()
    ensures !PriceCondor(s, x, expiration, now).Skipped? ==> PassesSpreadGate(x) && TwoSided(x)
  {
  }

  /** Once the spread gate has passed, the executable credit keeps at least 0.55 of the midpoint
      credit, so the geometry call on it cannot raise when the one on the midpoint did not. */
  lemma SpreadGateProtectsExecutable(x: Selection, chain: seq<Quote>, expiration: int, width: real)
    requires Selected(x, chain, expiration, width) && width > 0.0 && TwoSided(x) && PassesSpreadGate(x)
    ensures 0.55 * x.MidpointCredit() <= x.ExecutableCredit() <= x.MidpointCredit()
    ensures CalculateMaximumLoss(IndexCondor, x.Legs(), x.MidpointCredit()).Success? ==>
      && CalculateMaximumLoss(IndexCondor, x.Legs(), x.ExecutableCredit()).Success?
      && CalculateMaximumLoss(IndexCondor, x.Legs(), x.MidpointCredit()).value
         <= CalculateMaximumLoss(IndexCondor, x.Legs(), x.ExecutableCredit()).value
  {
    hide RoundCent, OfRight, CondorWings;
    ExecutableBelowMidpoint(x);
    SelectionGeometry(x, chain, expiration, width, x.MidpointCredit());
    SelectionGeometry(x, chain, expiration, width, x.ExecutableCredit());
    if CalculateMaximumLoss(IndexCondor, x.Legs(), x.MidpointCredit()).Success? {
      var wider := CondorWings(x.Legs()).Width();
      RoundCentMonotone((wider - x.MidpointCredit()) * MULTIPLIER, (wider - x.ExecutableCredit()) * MULTIPLIER);
    }
  }

  lemma CondorMidpointIsExact(x: Selection)
    ensures WholeCents(x.MidpointCredit())
    ensures RoundCent(x.MidpointCredit() * MULTIPLIER) == x.MidpointCredit() * MULTIPLIER
  {
    RoundCentIsNearest(-x.longPut.Midpoint() + x.shortPut.Midpoint() + x.shortCall.Midpoint() - x.longCall.Midpoint());
    WholeCentsClosed(x.MidpointCredit(), 0.0);
    RoundCentKeepsWholeCents(x.MidpointCredit() * MULTIPLIER);
  }

  /** Legs of one underlying with unique symbols. */
  predicate OneChain(s: Structure) {
    DistinctSymbols(s.legs) && forall l <- s.legs :: l.underlying == s.underlying
  }

  /** The structure check adds to a sound geometry only that the quotes came from one proper chain. */
  lemma OpeningLegsValidate(s: Structure)
    requires |s.legs| == 2 || |s.legs| == 4
    requires forall l <- s.legs :: l.expiration == s.expiration && l.ratio == 1 && l.intent.Opens()
    requires CalculateMaximumLoss(s.strategy, s.legs, s.netPrice) == Success(s.maximumLoss) && WholeCents(s.maximumLoss)
    ensures ValidateDefinedRisk(s).Success? <==> OneChain(s)
  {
    hide CalculateMaximumLoss, RoundCent, WholeCents;
    RoundCentKeepsWholeCents(s.maximumLoss);
  }

  lemma SelectionDistinct(x: Selection, chain: seq<Quote>, expiration: int, width: real)
    requires Selected(x, chain, expiration, width) && width > 0.0
    requires forall a, b :: a in chain && b in chain && a.symbol == b.symbol ==> a == b
    ensures DistinctSymbols(x.Legs())
  {
    assert x.longPut != x.shortPut && x.shortCall != x.longCall;
    assert x.longPut.symbol != x.shortPut.symbol && x.shortCall.symbol != x.longCall.symbol;
    assert x.longPut.symbol != x.shortCall.symbol && x.longPut.symbol != x.longCall.symbol;
    assert x.shortPut.symbol != x.shortCall.symbol && x.shortPut.symbol != x.longCall.symbol;
  }

  /** Reads an emitted condor back field by field. */
  lemma PricedCondorFields(s: Snapshot, x: Selection, expiration: int, now: int)
    requires s.Valid() && PriceCondor(s, x, expiration, now).Emitted?
    ensures var c := PriceCondor(s, x, expiration, now).candidate;
      var mid, exec := x.MidpointCredit(), x.ExecutableCredit();
      && CondorMaximumLoss(x.Legs(), mid).Success? && CondorMaximumLoss(x.Legs(), exec).Success?
      && c.structure == Structure(IndexCondor, s.symbol, expiration, x.Legs(), mid,
                                  CondorMaximumLoss(x.Legs(), mid).value, RoundCent(mid * MULTIPLIER), true)
      && mid >= MIN_CREDIT && c.structure.maximumLoss > 0.0
      && c.richness > 0.0 && c.maximumHoldingMinutes == 0
      && (exec > 0.0 ==>
            && CondorMaximumLoss(x.Legs(), exec).value != 0.0
            && c.payoffQuality == Some(exec * MULTIPLIER / CondorMaximumLoss(x.Legs(), exec).value))
  {
    hide CondorMaximumLoss, RoundCent;
  }

  /** Every emitted condor is a valid record with a sound geometry, and the structure check accepts it
      exactly when its quotes are of one underlying with unique symbols. */
  lemma PricedCondorIsSound(s: Snapshot, x: Selection, chain: seq<Quote>, expiration: int, now: int)
    requires s.Valid() && Selected(x, chain, expiration, CondorWidth(s.symbol)) && Apart(x)
    requires PriceCondor(s, x, expiration, now).Emitted?
    ensures var c := PriceCondor(s, x, expiration, now).candidate;
      && c.structure.legs == x.Legs() && c.structure.underlying == s.symbol
      && c.Valid() && SoundGeometry(c.structure)
      && (ValidateDefinedRisk(c.structure).Success? <==> OneChain(c.structure))
  {
    hide PriceCondor, RoundCent, CondorMaximumLoss, CondorWings, WingsApart, WholeCents;
    var c := PriceCondor(s, x, expiration, now).candidate;
    PricedCondorFields(s, x, expiration, now);
    PricedPassesSpreadGate(s, x, expiration, now);
    SelectionGeometry(x, chain, expiration, CondorWidth(s.symbol), x.MidpointCredit());
    CondorMidpointIsExact(x);
    RoundCentIsNearest((CondorWings(x.Legs()).Width() - x.MidpointCredit()) * MULTIPLIER);
    OpeningLegsValidate(c.structure);
  }

  lemma ExecutableRewardBelowMidpoint(s: Snapshot, x: Selection, chain: seq<Quote>, expiration: int, now: int)
    requires s.Valid() && Selected(x, chain, expiration, CondorWidth(s.symbol))
    requires PriceCondor(s, x, expiration, now).Emitted?
    ensures var c := PriceCondor(s, x, expiration, now).candidate;
      && c.structure.maximumLoss > 0.0 && c.payoffQuality.Some?
      && 0.0 < c.payoffQuality.value <= c.structure.maximumProfit / c.structure.maximumLoss
  {
    hide PriceCondor, RoundCent, CondorWings, OfRight;
    var c := PriceCondor(s, x, expiration, now).candidate;
    PricedCondorFields(s, x, expiration, now);
    PricedPassesSpreadGate(s, x, expiration, now);
    SpreadGateProtectsExecutable(x, chain, expiration, CondorWidth(s.symbol));
    CondorMidpointIsExact(x);
    var execLoss := CondorMaximumLoss(x.Legs(), x.ExecutableCredit()).value;
    RatioMonotone(x.ExecutableCredit() * MULTIPLIER, x.MidpointCredit() * MULTIPLIER, execLoss,
                  c.structure.maximumLoss);
    PositiveRatio(x.ExecutableCredit() * MULTIPLIER, execLoss);
  }

  lemma PositiveRatio(a: real, b: real)
    requires a > 0.0 && b > 0.0
    ensures a / b > 0.0
  {
  }

  /** End to end, for any chain: an emitted condor has a sound geometry, so its declared loss bounds it at
      every price, although the geometry check itself never compares puts with calls; on coinciding
      ladders its short strikes do not cross at all. */
  lemma EmittedCondorIsSound(s: Snapshot, chain: seq<Quote>, now: int)
    requires s.Valid() && BuildCondor(s, chain, now).Emitted?
    ensures var c := BuildCondor(s, chain, now).candidate;
      && c.Valid() && |c.structure.legs| == 4 && SoundGeometry(c.structure)
      && (ValidateDefinedRisk(c.structure).Success? <==> OneChain(c.structure))
      && c.payoffQuality.Some? && 0.0 < c.payoffQuality.value <= c.structure.maximumProfit / c.structure.maximumLoss
      && (SameLadder(Group(chain, now, NearestExpiration(chain, now).value)) ==>
            CondorWings(c.structure.legs).Overlap() <= 0.0)
      && (ProperChain(chain, s.symbol) ==> OneChain(c.structure))
  {
    hide PriceCondor, RoundCent, ValidateDefinedRisk, SameLadder, SoundGeometry, Apart;
    var expiration := NearestExpiration(chain, now).value;
    var quotes := Group(chain, now, expiration);
    var x := CondorSelection(s, quotes).value;
    assert BuildCondor(s, chain, now) == PriceCondor(s, x, expiration, now);
    SelectionFromChain(s, chain, now, expiration);
    PricedCondorIsSound(s, x, chain, expiration, now);
    ExecutableRewardBelowMidpoint(s, x, chain, expiration, now);
    SelectionGeometry(x, chain, expiration, CondorWidth(s.symbol), x.MidpointCredit());
    if ProperChain(chain, s.symbol) {
      SelectionDistinct(x, chain, expiration, CondorWidth(s.symbol));
    }
  }

  // -------------------------------------------------------------- debit spreads

  /** Every emitted directional spread, from any chain, has a sound geometry: one width apart with the long
      leg inner, so that debit and rest of width bound it at every price. */
  lemma EmittedDirectionalIsSound(events: seq<MacroEvent>, s: Snapshot, chain: seq<Quote>, now: int)
    requires s.Valid() && BuildDirectional(events, s, chain, now).Emitted?
    ensures var c := BuildDirectional(events, s, chain, now).candidate;
      && c.Valid() && |c.structure.legs| == 2 && SoundGeometry(c.structure)
      && (ValidateDefinedRisk(c.structure).Success? <==> OneChain(c.structure))
      && PairWidth(c.structure.legs) == DIRECTIONAL_SPREAD_WIDTH
      && c.holdingDeadline == Some(DirectionalWindow(events, now).deadline)
      && c.maximumHoldingMinutes == DirectionalWindow(events, now).maximumHoldingMinutes
      && (ProperChain(chain, s.symbol) ==> OneChain(c.structure))
  {
    hide PriceDirectional, SoundGeometry, ValidateDefinedRisk;
    var expiration := NearestExpiration(chain, now).value;
    var (long, short) := SelectDirectional(Group(chain, now, expiration), s.trend > 0.0, s.spot).value;
    var window := DirectionalWindow(events, now);
    assert BuildDirectional(events, s, chain, now) == PriceDirectional(s, long, short, expiration, window, now);
    DirectionalPair(chain, now, expiration, s.trend > 0.0, s.spot);
    PricedDirectionalIsSound(s, long, short, expiration, window, now);
    PricedDirectionalFields(s, long, short, expiration, window, now);
  }

  lemma DirectionalPairFromGroup(quotes: seq<Quote>, bullish: bool, spot: real)
    requires SelectDirectional(quotes, bullish, spot).Success?
    ensures var (long, short) := SelectDirectional(quotes, bullish, spot).value;
      && long in quotes && short in quotes
      && long.right == short.right == (if bullish then Call else Put)
      && short.strike
         == if bullish then long.strike + DIRECTIONAL_SPREAD_WIDTH else long.strike - DIRECTIONAL_SPREAD_WIDTH
  {
    var right := if bullish then Call else Put;
    NearestIsLeast(quotes, right, spot);
    var long := Nearest(quotes, right, spot).value;
    var target := if bullish then long.strike + DIRECTIONAL_SPREAD_WIDTH else long.strike - DIRECTIONAL_SPREAD_WIDTH;
    ExactStrikeKeeps(quotes, right, target);
  }

  lemma DirectionalPair(chain: seq<Quote>, now: int, expiration: int, bullish: bool, spot: real)
    requires SelectDirectional(Group(chain, now, expiration), bullish, spot).Success?
    ensures var (long, short) := SelectDirectional(Group(chain, now, expiration), bullish, spot).value;
      && long in chain && short in chain && long.expiration == short.expiration == expiration
      && long.right == short.right == (if bullish then Call else Put)
      && short.strike
         == if bullish then long.strike + DIRECTIONAL_SPREAD_WIDTH else long.strike - DIRECTIONAL_SPREAD_WIDTH
  {
    GroupKeeps(chain, now, expiration);
    DirectionalPairFromGroup(Group(chain, now, expiration), bullish, spot);
  }

  /** Reads an emitted spread back field by field. */
  lemma PricedDirectionalFields(s: Snapshot, long: Quote, short: Quote, expiration: int, window: Window, now: int)
    requires s.Valid() && PriceDirectional(s, long, short, expiration, window, now).Emitted?
    ensures var c := PriceDirectional(s, long, short, expiration, window, now).candidate;
      var debit := c.structure.netPrice;
      && debit == RoundCent(long.Midpoint() - short.Midpoint()) && 0.0 < debit < DIRECTIONAL_SPREAD_WIDTH
      && c.structure == Structure(
           if s.trend > 0.0 then CallDebitSpread else PutDebitSpread, s.symbol, expiration,
           [OpeningLeg(long, Buy), OpeningLeg(short, Sell)], debit, c.structure.maximumLoss,
           RoundCent((DIRECTIONAL_SPREAD_WIDTH - debit) * MULTIPLIER), false)
      && CalculateMaximumLoss(c.structure.strategy, c.structure.legs, debit) == Success(c.structure.maximumLoss)
      && c.structure.Valid() && c.richness > 0.0
      && c.holdingDeadline == Some(window.deadline) && c.maximumHoldingMinutes == window.maximumHoldingMinutes
  {
    hide RoundCent, CalculateMaximumLoss;
  }

  lemma PricedDirectionalIsSound(s: Snapshot, long: Quote, short: Quote, expiration: int, window: Window, now: int)
    requires s.Valid() && PriceDirectional(s, long, short, expiration, window, now).Emitted?
    requires long.expiration == expiration == short.expiration
    requires long.right == short.right == (if s.trend > 0.0 then Call else Put)
    requires short.strike
          == if s.trend > 0.0 then long.strike + DIRECTIONAL_SPREAD_WIDTH else long.strike - DIRECTIONAL_SPREAD_WIDTH
    requires window.maximumHoldingMinutes <= DIRECTIONAL_MAX_HOLDING_MINUTES
    ensures var c := PriceDirectional(s, long, short, expiration, window, now).candidate;
      && c.structure.legs == [OpeningLeg(long, Buy), OpeningLeg(short, Sell)] && c.structure.underlying == s.symbol
      && c.Valid() && SoundGeometry(c.structure) && PairWidth(c.structure.legs) == DIRECTIONAL_SPREAD_WIDTH
      && (ValidateDefinedRisk(c.structure).Success? <==> OneChain(c.structure))
  {
    hide PriceDirectional, RoundCent, WholeCents;
    var c := PriceDirectional(s, long, short, expiration, window, now).candidate;
    PricedDirectionalFields(s, long, short, expiration, window, now);
    var debit := c.structure.netPrice;
    RoundCentIsNearest(long.Midpoint() - short.Midpoint());
    WidthIsWhole();
    WholeCentsClosed(DIRECTIONAL_SPREAD_WIDTH, debit);
    WholeCentsClosed(DIRECTIONAL_SPREAD_WIDTH - debit, debit);
    WholeCentsClosed(debit, debit);
    RoundCentKeepsWholeCents(debit * MULTIPLIER);
    RoundCentKeepsWholeCents((DIRECTIONAL_SPREAD_WIDTH - debit) * MULTIPLIER);
    OpeningLegsValidate(c.structure);
  }

  lemma WidthIsWhole()
    ensures WholeCents(DIRECTIONAL_SPREAD_WIDTH)
  {
    CentsOf(DIRECTIONAL_SPREAD_WIDTH, 500);
  }

  // ----------------------------------------------------------- whole compilation

  /** What the portfolio may rely on, whatever the chains. */
  ghost predicate Sound(c: Candidate) {
    && c.Valid() && SoundGeometry(c.structure)
    && (ValidateDefinedRisk(c.structure).Success? <==> OneChain(c.structure))
  }

  lemma CandidatesForAreSound(events: seq<MacroEvent>, s: Snapshot, chain: seq<Quote>, now: int)
    requires s.Valid() && CandidatesFor(events, s, chain, now).Success?
    ensures forall c <- CandidatesFor(events, s, chain, now).value :: Sound(c)
    ensures ProperChain(chain, s.symbol)
      ==> forall c <- CandidatesFor(events, s, chain, now).value :: OneChain(c.structure)
  {
    hide BuildDirectional, BuildCondor, SoundGeometry, ValidateDefinedRisk, OneChain, ProperChain;
    var dated := s.(eventRisk := s.eventRisk || ScheduledRisk(events, now, CONDOR_HOLDING_MINUTES));
    if CondorFor(events, s, chain, now).Emitted? {
      EmittedCondorIsSound(dated, chain, now);
    }
    if BuildDirectional(events, s, chain, now).Emitted? {
      EmittedDirectionalIsSound(events, s, chain, now);
    }
  }

  /** Every gathered candidate came from one of the lists. */
  lemma {:induction false} GatheredFrom(results: seq<Result<seq<Candidate>>>)
    requires Gather(results).Success?
    ensures forall c <- Gather(results).value ::
      exists i :: 0 <= i < |results| && results[i].Success? && c in results[i].value
  {
    if results != [] {
      var n := |results| - 1;
      GatheredFrom(results[..n]);
      forall c | c in Gather(results).value
        ensures exists i :: 0 <= i < |results| && results[i].Success? && c in results[i].value
      {
        if c in Gather(results[..n]).value {
          var i :| 0 <= i < n && results[..n][i].Success? && c in results[..n][i].value;
          assert results[i] == results[..n][i];
        } else {
          assert c in results[n].value;
        }
      }
    }
  }

  /** Every compiled candidate has a sound geometry, from any chains at all; the structure check accepts it
      exactly when its quotes are of one underlying with unique symbols, as they are on proper chains. */
  lemma CompiledCandidatesAreSound(
    events: seq<MacroEvent>, snapshots: seq<Snapshot>, chains: map<Symbol, seq<Quote>>, now: int)
    requires forall s <- snapshots :: s.Valid()
    requires AllCandidates(events, snapshots, chains, now).Success?
    ensures forall c <- AllCandidates(events, snapshots, chains, now).value :: Sound(c)
    ensures (forall s <- snapshots :: ProperChain(ChainOf(chains, s.symbol), s.symbol)) ==>
      forall c <- AllCandidates(events, snapshots, chains, now).value :: ValidateDefinedRisk(c.structure).Success?
  {
    hide CandidatesFor, SoundGeometry, ValidateDefinedRisk, OneChain, ProperChain;
    var results := PerSnapshot(events, snapshots, chains, now);
    GatheredFrom(results);
    RankedSorts(Gather(results).value);
    forall c | c in AllCandidates(events, snapshots, chains, now).value
      ensures Sound(c)
      ensures (forall s <- snapshots :: ProperChain(ChainOf(chains, s.symbol), s.symbol)) ==>
        ValidateDefinedRisk(c.structure).Success?
    {
      var i :| 0 <= i < |results| && results[i].Success? && c in results[i].value;
      assert snapshots[i] in snapshots;
      CandidatesForAreSound(events, snapshots[i], ChainOf(chains, snapshots[i].symbol), now);
    }
  }

  /** The compiler's promise: at every expiry price a compiled structure loses at most its declared maximum
      loss and gains at most its declared maximum profit. For a condor on strikes that are not whole cents
      the loss may exceed the declaration by the half cent it was rounded by, and by no more. */
  lemma CompiledPayoffIsDeclared(
    events: seq<MacroEvent>, snapshots: seq<Snapshot>, chains: map<Symbol, seq<Quote>>, now: int, c: Candidate,
    spot: real)
    requires forall s <- snapshots :: s.Valid()
    requires AllCandidates(events, snapshots, chains, now).Success?
    requires c in AllCandidates(events, snapshots, chains, now).value
    ensures var s := c.structure; var loss := ExpiryLoss(s.legs, s.isCredit, s.netPrice, spot);
      && loss <= s.maximumLoss + 0.005
      && -loss <= s.maximumProfit
      && (|s.legs| == 2 || (forall l <- s.legs :: WholeCents(l.strike)) ==> loss <= s.maximumLoss)
  {
    hide AllCandidates, SoundGeometry, ExpiryLoss, WholeCents, ValidateDefinedRisk;
    CompiledCandidatesAreSound(events, snapshots, chains, now);
    assert Sound(c);
    SoundHasTwoOrFourLegs(c.structure);
    if |c.structure.legs| == 4 {
      CondorPayoffIsDeclared(c.structure, spot);
    } else {
      SpreadPayoffIsDeclared(c.structure, spot);
    }
  }

  lemma SoundHasTwoOrFourLegs(s: Structure)
    requires SoundGeometry(s)
    ensures |s.legs| == 2 || |s.legs| == 4
  {
  }

  /** Clear of every event of the list from now to its deadline, if it is directional. */
  ghost predicate KeepsClear(events: seq<MacroEvent>, now: int, c: Candidate) {
    c.action.Directional() ==>
      c.holdingDeadline.Some? && forall e <- events :: Clear(e, now, c.holdingDeadline.value)
  }

  lemma CandidatesForKeepClear(events: seq<MacroEvent>, s: Snapshot, chain: seq<Quote>, now: int)
    requires s.Valid() && CandidatesFor(events, s, chain, now).Success? && SortedByRelease(events)
    ensures forall c <- CandidatesFor(events, s, chain, now).value :: KeepsClear(events, now, c)
  {
    hide PriceDirectional, PriceCondor, Group, NearestExpiration, CondorSelection, ScheduledRisk, SelectDirectional,
         SoundGeometry, ValidateDefinedRisk, OneChain, PairWidth, ActiveCooldown, NextEvent, Clear;
    var dated := s.(eventRisk := s.eventRisk || ScheduledRisk(events, now, CONDOR_HOLDING_MINUTES));
    if BuildCondor(dated, chain, now).Emitted? {
      CondorIsNoSpread(dated, chain, now);
    }
    if BuildDirectional(events, s, chain, now).Emitted? {
      EmittedDirectionalIsSound(events, s, chain, now);
      AcceptedWindowAvoidsEvents(events, now);
    }
  }

  lemma CondorIsNoSpread(s: Snapshot, chain: seq<Quote>, now: int)
    requires s.Valid() && BuildCondor(s, chain, now).Emitted?
    ensures BuildCondor(s, chain, now).candidate.action == IndexCondor
  {
    hide CalculateMaximumLoss, CondorSelection, SelectionLiquid;
  }

  /** From any chains, every directional candidate compiled against the competition's calendar may be held from
      now to its deadline without meeting an event of it. */
  lemma CompiledDeadlinesAvoidEvents(
    snapshots: seq<Snapshot>, chains: map<Symbol, seq<Quote>>, now: int, c: Candidate)
    requires forall s <- snapshots :: s.Valid()
    requires AllCandidates(COMPETITION_MACRO_EVENTS, snapshots, chains, now).Success?
    requires c in AllCandidates(COMPETITION_MACRO_EVENTS, snapshots, chains, now).value
    ensures KeepsClear(COMPETITION_MACRO_EVENTS, now, c)
  {
    hide CandidatesFor, KeepsClear;
    var results := PerSnapshot(COMPETITION_MACRO_EVENTS, snapshots, chains, now);
    GatheredFrom(results);
    RankedSorts(Gather(results).value);
    var i :| 0 <= i < |results| && results[i].Success? && c in results[i].value;
    assert snapshots[i] in snapshots;
    CompetitionCalendarSorted();
    CandidatesForKeepClear(COMPETITION_MACRO_EVENTS, snapshots[i], ChainOf(chains, snapshots[i].symbol), now);
  }
}
