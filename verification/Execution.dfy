/** Repricing, exits and close construction (execution.py). */
module Execution {
  import opened Common
  import opened Schemas
  import opened Clock
  import opened Orders

  const STALE_AFTER := 90
  const SOFT_STALE_AFTER := 15 * MINUTE
  const MAX_REPRICE_ATTEMPTS := 2
  const REPRICE_INCREMENT := 0.05
  const MAX_TOTAL_CONCESSION := 0.10
  const URGENT_REPRICE_INCREMENT := 0.10
  const URGENT_MAX_REPRICE_ATTEMPTS := 2
  const URGENT_MAX_TOTAL_CONCESSION := 0.30
  const CREDIT_TAKE_PROFIT_FRACTION := 0.50
  const CREDIT_STOP_LOSS_MULTIPLE := 2.00
  const DEBIT_TAKE_PROFIT_MULTIPLE := 1.50
  const COMPETITION_DIRECTIONAL_DEBIT_TAKE_PROFIT_MULTIPLE := 1.35
  const MAVERICK_DIRECTIONAL_DEBIT_TAKE_PROFIT_MULTIPLE := 2.10
  const DEBIT_STOP_VALUE_FRACTION := 0.65

  const MINIMUM_ENTRY_WINDOW := 30 * MINUTE
  const FINAL_HOUR_MINIMUM_ENTRY_WINDOW := 5 * MINUTE

  type QuoteBook = map<Symbol, Quote>

  predicate Quoted(legs: seq<Leg>, quotes: QuoteBook) {
    forall i :: 0 <= i < |legs| ==> legs[i].symbol in quotes
  }

  // ------------------------------------------------------------- holding policy

  datatype HoldingPolicy = HoldingPolicy(accepted: bool, minutes: nat, deadline: int)

  function EntryHoldingPolicy(
    now: int, modelMinutes: nat, maximumMinutes: Option<nat>, hardDeadline: Option<int>): HoldingPolicy
  {
    var boundary := Min(SessionBoundary(now), hardDeadline.GetOr(SessionBoundary(now)));
    var available := Max(0, boundary - now);
    var requested := Min(modelMinutes, maximumMinutes.GetOr(modelMinutes));
    var effective := Min(requested * MINUTE, available);
    var minimumWindow := if FinalHourWindow(now) then FINAL_HOUR_MINIMUM_ENTRY_WINDOW else MINIMUM_ENTRY_WINDOW;
    HoldingPolicy(requested > 0 && effective >= minimumWindow, effective / MINUTE, now + effective)
  }

  // ------------------------------------------------------------ stale repricing

  datatype Repricing = Wait | Cancel | Replace(limit: real, side: Option<bool>)

  /** Fresh executable closing terms: the limit and whether it is a credit. */
  datatype Fresh = Fresh(limit: real, isCredit: bool)

  /** The price a fully repriced urgent close rests at. */
  function HardCap(isCredit: bool, debitCap: real): real { if isCredit then 0.01 else debitCap }

  function UrgentAction(
    attempt: nat, limit: real, isCredit: bool, latest: Option<Fresh>, debitCap: Option<real>): Repricing {
    if latest.None? then Wait
    else
      var f := latest.value;
      var next :=
        if attempt >= URGENT_MAX_REPRICE_ATTEMPTS && (f.isCredit || debitCap.Some?) then
          if f.isCredit then 0.01 else debitCap.value
        else
          var concession := MinReal(URGENT_REPRICE_INCREMENT * (attempt + 1) as real, URGENT_MAX_TOTAL_CONCESSION);
          if f.isCredit then MaxReal(0.01, f.limit - concession) else f.limit + concession;
      if attempt >= URGENT_MAX_REPRICE_ATTEMPTS && f.isCredit == isCredit && AbsReal(next - limit) < REPRICE_INCREMENT
      then Wait
      else Replace(next, Some(f.isCredit))
  }

  function BoundedAction(attempt: nat, limit: real, isCredit: bool, soft: bool): Repricing {
    if attempt >= MAX_REPRICE_ATTEMPTS then if soft then Wait else Cancel
    else
      var concession := MinReal(REPRICE_INCREMENT * (attempt + 1) as real, MAX_TOTAL_CONCESSION);
      var next := if isCredit then limit - concession else limit + concession;
      if next <= 0.0 then Cancel else Replace(next, None)
  }

  function StaleOrderAction(
    age: int, attempt: nat, limit: real, isCredit: bool, softClose: bool, quoteChanged: bool,
    urgentClose: bool, latest: Option<Fresh>, debitCap: Option<real>): Repricing
  {
    if age < (if softClose then SOFT_STALE_AFTER else STALE_AFTER) then Wait
    else if softClose && !quoteChanged then Wait
    else if urgentClose then UrgentAction(attempt, limit, isCredit, latest, debitCap)
    else BoundedAction(attempt, limit, isCredit, softClose)
  }

  // --------------------------------------------------------------- close pricing

  /** Cash paid per share to execute one closing leg at the touch; negative when received. */
  function LegCash(l: Leg, q: Quote): real {
    if l.side.Buy? then q.ask * l.ratio as real else -(q.bid * l.ratio as real)
  }

  /** Cash paid per share to execute closing legs at the touch: the one meaning shared by the four
      independent computations below. */
  function CloseCash(legs: seq<Leg>, quotes: QuoteBook): real
    requires Quoted(legs, quotes)
  {
    if legs == [] then 0.0
    else
      var n := |legs| - 1;
      CloseCash(legs[..n], quotes) + LegCash(legs[n], quotes[legs[n].symbol])
  }

  function CloseIntent(side: Side): Intent { if side.Buy? then BuyToClose else SellToClose }

  /** The leg that undoes an opening leg. */
  function MirrorLeg(l: Leg): Leg { l.(side := l.side.Opposite(), intent := CloseIntent(l.side.Opposite())) }

  function Mirror(legs: seq<Leg>): (r: seq<Leg>)
    ensures |r| == |legs|
  {
    seq(|legs|, i requires 0 <= i < |legs| => MirrorLeg(legs[i]))
  }

  function RequoteLeg(l: Leg, q: Quote): Leg {
    l.(bid := q.bid, ask := q.ask, volume := q.volume, openInterest := q.openInterest,
       bidSize := q.bidSize, askSize := q.askSize)
  }

  /** As RequoteLeg, but displayed sizes stay those of the opening quote. */
  function CloseLeg(l: Leg, q: Quote): Leg {
    MirrorLeg(l).(bid := q.bid, ask := q.ask, volume := q.volume, openInterest := q.openInterest)
  }

  function Requote(legs: seq<Leg>, quotes: QuoteBook): seq<Leg>
    requires Quoted(legs, quotes)
  {
    seq(|legs|, i requires 0 <= i < |legs| => RequoteLeg(legs[i], quotes[legs[i].symbol]))
  }

  function CloseLegs(legs: seq<Leg>, quotes: QuoteBook): seq<Leg>
    requires Quoted(legs, quotes)
  {
    seq(|legs|, i requires 0 <= i < |legs| => CloseLeg(legs[i], quotes[legs[i].symbol]))
  }

  datatype CloseTerms = CloseTerms(limit: real, isCredit: bool, legs: seq<Leg>)

  /** Fresh terms exist when every leg is quoted and the net is not zero. */
  function CloseTermsFor(legs: seq<Leg>, quotes: QuoteBook): Option<CloseTerms> {
    if !Quoted(legs, quotes) || CloseCash(legs, quotes) == 0.0 then None
    else Some(CloseTerms(AbsReal(CloseCash(legs, quotes)), CloseCash(legs, quotes) < 0.0, Requote(legs, quotes)))
  }

  method RefreshedCloseTerms(legs: seq<Leg>, quotes: QuoteBook) returns (r: Option<CloseTerms>)
    ensures r == CloseTermsFor(legs, quotes)
  {
    var cash := 0.0;
    var refreshed: seq<Leg> := [];
    for i := 0 to |legs|
      invariant Quoted(legs[..i], quotes)
      invariant cash == CloseCash(legs[..i], quotes)
      invariant refreshed == Requote(legs[..i], quotes)
    {
      var l := legs[i];
      if l.symbol !in quotes {
        return None;
      }
      var q := quotes[l.symbol];
      assert legs[..i + 1][..i] == legs[..i];
      cash := cash + if l.side.Buy? then q.ask * l.ratio as real else -(q.bid * l.ratio as real);
      refreshed := refreshed + [RequoteLeg(l, q)];
    }
    assert legs[..|legs|] == legs;
    if cash == 0.0 {
      return None;
    }
    return Some(CloseTerms(AbsReal(cash), cash < 0.0, refreshed));
  }

  /** Has the net close moved by at least one increment from the resting limit? */
  predicate MateriallyChanged(legs: seq<Leg>, limit: real, quotes: QuoteBook) {
    Quoted(legs, quotes) && AbsReal(AbsReal(CloseCash(legs, quotes)) - limit) >= REPRICE_INCREMENT
  }

  /** Accumulates the opposite sign: cash received. */
  method ClosingQuoteMateriallyChanged(legs: seq<Leg>, limit: real, quotes: QuoteBook) returns (changed: bool)
    ensures changed == MateriallyChanged(legs, limit, quotes)
  {
    var cash := 0.0;
    for i := 0 to |legs|
      invariant Quoted(legs[..i], quotes)
      invariant cash == -CloseCash(legs[..i], quotes)
    {
      var l := legs[i];
      if l.symbol !in quotes {
        return false;
      }
      var q := quotes[l.symbol];
      assert legs[..i + 1][..i] == legs[..i];
      cash := cash + if l.side.Sell? then q.bid * l.ratio as real else -(q.ask * l.ratio as real);
    }
    assert legs[..|legs|] == legs;
    return AbsReal(AbsReal(cash) - limit) >= REPRICE_INCREMENT;
  }

  lemma {:induction false} MirrorKeepsSymbols(legs: seq<Leg>, quotes: QuoteBook)
    ensures Quoted(Mirror(legs), quotes) <==> Quoted(legs, quotes)
  {
    if Quoted(Mirror(legs), quotes) {
      forall i | 0 <= i < |legs| ensures legs[i].symbol in quotes {
        assert Mirror(legs)[i].symbol in quotes;
      }
    }
  }

  /** The net cash to close a structure, from its opening legs. */
  function ClosingCash(openingLegs: seq<Leg>, quotes: QuoteBook): Option<real> {
    MirrorKeepsSymbols(openingLegs, quotes);
    if Quoted(openingLegs, quotes) then Some(CloseCash(Mirror(openingLegs), quotes)) else None
  }

  /** One more leg adds what closing it costs. */
  lemma MirrorCashStep(legs: seq<Leg>, n: nat, quotes: QuoteBook)
    requires n < |legs| && Quoted(legs[..n + 1], quotes)
    requires Quoted(Mirror(legs[..n]), quotes)
    ensures Quoted(legs[..n], quotes) && Quoted(Mirror(legs[..n + 1]), quotes)
    ensures var l := legs[n]; var q := quotes[l.symbol];
      CloseCash(Mirror(legs[..n + 1]), quotes) == CloseCash(Mirror(legs[..n]), quotes)
        + if l.side.Sell? then q.ask * l.ratio as real else -(q.bid * l.ratio as real)
  {
    hide LegCash;
    MirrorKeepsSymbols(legs[..n + 1], quotes);
    assert legs[..n + 1][n] == legs[n];
    assert Mirror(legs[..n + 1])[..n] == Mirror(legs[..n]);
    MirrorCash(legs[n], quotes[legs[n].symbol]);
  }

  lemma EmptyCash(quotes: QuoteBook)
    ensures Mirror([]) == [] && CloseCash([], quotes) == 0.0
  {
  }

  lemma MirrorCash(l: Leg, q: Quote)
    ensures LegCash(MirrorLeg(l), q) == if l.side.Sell? then q.ask * l.ratio as real else -(q.bid * l.ratio as real)
  {
  }

  /** Works on opening legs: buys back what was sold and sells what was bought. */
  method ClosingCashRequired(openingLegs: seq<Leg>, quotes: QuoteBook) returns (r: Option<real>)
    ensures r == ClosingCash(openingLegs, quotes)
  {
    hide CloseCash, LegCash;
    EmptyCash(quotes);
    var cash := 0.0;
    for i := 0 to |openingLegs|
      invariant Quoted(openingLegs[..i], quotes) && Quoted(Mirror(openingLegs[..i]), quotes)
      invariant cash == CloseCash(Mirror(openingLegs[..i]), quotes)
    {
      var l := openingLegs[i];
      if l.symbol !in quotes {
        return None;
      }
      var q := quotes[l.symbol];
      MirrorCashStep(openingLegs, i, quotes);
      if l.side.Sell? {
        cash := cash + q.ask * l.ratio as real;
      } else {
        cash := cash - q.bid * l.ratio as real;
      }
    }
    assert openingLegs[..|openingLegs|] == openingLegs;
    return Some(cash);
  }

  /** The best mark of a debit structure, as a multiple of what was paid for it. */
  function MarkMultiple(s: Structure, quotes: QuoteBook): Option<real> {
    if s.isCredit || s.netPrice <= 0.0 || ClosingCash(s.legs, quotes).None? then None
    else Some(MultipleOf(-ClosingCash(s.legs, quotes).value, s.netPrice))
  }

  function MultipleOf(credit: real, paid: real): real
    requires paid > 0.0
  {
    MaxReal(0.0, credit) / paid
  }

  /** Cash received for closing at the touch. */
  method ClosingCredit(openingLegs: seq<Leg>, quotes: QuoteBook) returns (credit: Option<real>)
    ensures credit.None? <==> ClosingCash(openingLegs, quotes).None?
    ensures credit.Some? ==> credit.value == -ClosingCash(openingLegs, quotes).value
  {
    hide CloseCash, LegCash;
    EmptyCash(quotes);
    var total := 0.0;
    for i := 0 to |openingLegs|
      invariant Quoted(openingLegs[..i], quotes) && Quoted(Mirror(openingLegs[..i]), quotes)
      invariant total == -CloseCash(Mirror(openingLegs[..i]), quotes)
    {
      var l := openingLegs[i];
      if l.symbol !in quotes {
        return None;
      }
      var q := quotes[l.symbol];
      MirrorCashStep(openingLegs, i, quotes);
      total := total + if l.side.Buy? then q.bid * l.ratio as real else -(q.ask * l.ratio as real);
    }
    assert openingLegs[..|openingLegs|] == openingLegs;
    return Some(total);
  }

  method DirectionalMarkMultiple(s: Structure, quotes: QuoteBook) returns (r: Option<real>)
    ensures r == MarkMultiple(s, quotes)
  {
    if s.isCredit || s.netPrice <= 0.0 {
      return None;
    }
    var credit := ClosingCredit(s.legs, quotes);
    if credit.None? {
      return None;
    }
    return Some(MultipleOf(credit.value, s.netPrice));
  }

  // ------------------------------------------------------------------ debit cap

  function MaxStrike(legs: seq<Leg>, right: Right): Option<real> {
    if legs == [] then None
    else
      var n := |legs| - 1;
      var rest := MaxStrike(legs[..n], right);
      if legs[n].right != right then rest
      else if rest.None? then Some(legs[n].strike)
      else Some(MaxReal(rest.value, legs[n].strike))
  }

  function MinStrike(legs: seq<Leg>, right: Right): Option<real> {
    if legs == [] then None
    else
      var n := |legs| - 1;
      var rest := MinStrike(legs[..n], right);
      if legs[n].right != right then rest
      else if rest.None? then Some(legs[n].strike)
      else Some(MinReal(rest.value, legs[n].strike))
  }

  /** Distance between the outer strikes of one right; zero when it has fewer than two strikes. */
  function Span(legs: seq<Leg>, right: Right): real {
    if MaxStrike(legs, right).Some? && MinStrike(legs, right).Some?
    then MaxStrike(legs, right).value - MinStrike(legs, right).value
    else 0.0
  }

  /** The widest strike span of one right: no close of the structure can cost more. */
  function UrgentDebitCap(legs: seq<Leg>): Option<real> {
    var width := MaxReal(Span(legs, Call), Span(legs, Put));
    if width > 0.0 then Some(width) else None
  }

  method UrgentCloseDebitCap(legs: seq<Leg>) returns (cap: Option<real>)
    ensures cap == UrgentDebitCap(legs)
  {
    var rights := [Call, Put];
    var width := 0.0;
    for r := 0 to 2
      invariant width == MaxReal(
        0.0, MaxReal(if r > 0 then Span(legs, Call) else 0.0, if r > 1 then Span(legs, Put) else 0.0))
    {
      var low: Option<real>, high: Option<real> := None, None;
      for i := 0 to |legs|
        invariant low == MinStrike(legs[..i], rights[r]) && high == MaxStrike(legs[..i], rights[r])
        invariant low.Some? == high.Some?
      {
        assert legs[..i + 1][..i] == legs[..i];
        if legs[i].right == rights[r] {
          low := Some(if low.None? then legs[i].strike else MinReal(low.value, legs[i].strike));
          high := Some(if high.None? then legs[i].strike else MaxReal(high.value, legs[i].strike));
        }
      }
      assert legs[..|legs|] == legs;
      if low.Some? {
        width := MaxReal(width, high.value - low.value);
      }
    }
    cap := if width > 0.0 then Some(width) else None;
  }

  // ----------------------------------------------------------------- close order

  function CloseRequest(
    m: Managed, quotes: QuoteBook, id: ClientId, quantity: nat, reason: string, urgency: Urgency): Result<Request>
  {
    match ClosingCash(m.structure.legs, quotes)
    case None => Failure("cannot close structure without a current quote for every leg")
    case Some(cash) =>
      if cash == 0.0 then Failure("close quote has no executable net price")
      else Success(Request(
        id, CandidateId.Closing(m.candidate), quantity, AbsReal(cash), cash < 0.0,
        CloseLegs(m.structure.legs, quotes), 0, true, Some(m.id), Some(reason), Some(urgency), None))
  }

  /** The replacement keeps the order's identity, remaining quantity and exit evidence. */
  function ReplacementRequest(
    o: Order, id: ClientId, limit: real, side: Option<bool>, legs: Option<seq<Leg>>, attempt: nat): Request
  {
    o.request.(id := id, quantity := o.remaining, limit := limit, isCredit := side.GetOr(o.request.isCredit),
               legs := legs.GetOr(o.request.legs), attempt := attempt, takeProfit := None)
  }

  // ------------------------------------------------------------------------ exits

  datatype ExitSignal = Hold | Exit(reason: string, urgency: Urgency)

  function StructureExitSignal(m: Managed, quotes: QuoteBook, now: int, force: Option<string>): ExitSignal {
    if force.Some? then Exit(force.value, Urgent)
    else if now >= SessionBoundary(now) then Exit("daily_hard_exit_boundary", Urgent)
    else if m.holdingMinutes > 0 && now >= m.openedAt + m.holdingMinutes * MINUTE then
      Exit("maximum_holding_time", Soft)
    else
      match ClosingCash(m.structure.legs, quotes)
      case None => Hold
      case Some(cash) =>
        var opening := m.structure.netPrice;
        if m.structure.isCredit then
          var debit := MaxReal(0.0, cash);
          if debit <= opening * CREDIT_TAKE_PROFIT_FRACTION then Exit("credit_take_profit", Soft)
          else if debit >= opening * CREDIT_STOP_LOSS_MULTIPLE then Exit("credit_stop_loss", Urgent)
          else Hold
        else
          var credit := MaxReal(0.0, -cash);
          var multiple := m.takeProfit.GetOr(
            if m.structure.strategy.Directional() then COMPETITION_DIRECTIONAL_DEBIT_TAKE_PROFIT_MULTIPLE
            else DEBIT_TAKE_PROFIT_MULTIPLE);
          if credit >= opening * multiple then Exit("debit_take_profit", Soft)
          else if credit <= opening * DEBIT_STOP_VALUE_FRACTION then Exit("debit_stop_loss", Urgent)
          else Hold
  }
}
