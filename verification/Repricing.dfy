/** What the repricing rules add up to over the life of an order. */
module RepricingLaws {
  import opened Common
  import opened Money
  import opened Schemas
  import opened Orders
  import opened Options
  import opened Execution

  // -------------------------------------------------------------- urgent closes

  /** What the ledger row of a resting close remembers. */
  datatype Resting = Resting(attempt: nat, limit: real, isCredit: bool)

  /** One lifecycle visit: the row's age and the fresh executable terms, if every leg is quoted. */
  datatype Visit = Visit(age: int, terms: Option<Fresh>)

  function UrgentVisit(o: Resting, v: Visit, debitCap: real): Repricing {
    StaleOrderAction(v.age, o.attempt, o.limit, o.isCredit, false, true, true, v.terms, Some(debitCap))
  }

  /** The row left behind: the replacement counts its attempts up to the urgent maximum. */
  function AfterVisit(o: Resting, v: Visit, debitCap: real): Resting {
    match UrgentVisit(o, v, debitCap)
    case Replace(limit, side) =>
      Resting(Min(o.attempt + 1, URGENT_MAX_REPRICE_ATTEMPTS), limit, side.GetOr(o.isCredit))
    case _ => o
  }

  function AfterVisits(o: Resting, visits: seq<Visit>, debitCap: real): Resting
    decreases visits
  {
    if visits == [] then o else AfterVisits(AfterVisit(o, visits[0], debitCap), visits[1..], debitCap)
  }

  function Replacements(o: Resting, visits: seq<Visit>, debitCap: real): nat
    decreases visits
  {
    if visits == [] then 0
    else
      var now := if UrgentVisit(o, visits[0], debitCap).Replace? then 1 else 0;
      now + Replacements(AfterVisit(o, visits[0], debitCap), visits[1..], debitCap)
  }

  /** How often the fresh close changes side, starting from `side`. */
  function Flips(side: bool, visits: seq<Visit>): nat
    decreases visits
  {
    if visits == [] then 0
    else
      var next := SideAfter(side, visits[0]);
      (if next != side then 1 else 0) + Flips(next, visits[1..])
  }

  function SideAfter(side: bool, v: Visit): bool {
    if v.terms.Some? then v.terms.value.isCredit else side
  }

  /** At its hard cap for `side`, with no attempt left. */
  predicate Settled(o: Resting, side: bool, debitCap: real) {
    && o.attempt >= URGENT_MAX_REPRICE_ATTEMPTS
    && o.isCredit == side
    && AbsReal(HardCap(side, debitCap) - o.limit) < REPRICE_INCREMENT
  }

  function Budget(o: Resting, side: bool, debitCap: real): nat {
    if o.attempt < URGENT_MAX_REPRICE_ATTEMPTS then 3 - o.attempt
    else if Settled(o, side, debitCap) then 0
    else 1
  }

  lemma OneVisitSpendsBudget(o: Resting, v: Visit, side: bool, debitCap: real)
    ensures Budget(AfterVisit(o, v, debitCap), SideAfter(side, v), debitCap)
          + (if UrgentVisit(o, v, debitCap).Replace? then 1 else 0)
         <= Budget(o, side, debitCap) + (if SideAfter(side, v) != side then 1 else 0)
  {
  }

  /** However long an urgent close rests and however its quotes move, it is replaced at most three
      times plus once for every change of side of the fresh close. */
  lemma {:induction false} UrgentCloseSettles(o: Resting, visits: seq<Visit>, side: bool, debitCap: real)
    ensures Replacements(o, visits, debitCap) <= Budget(o, side, debitCap) + Flips(side, visits)
    ensures Replacements(o, visits, debitCap) <= 3 + Flips(side, visits)
    decreases visits
  {
    if visits != [] {
      OneVisitSpendsBudget(o, visits[0], side, debitCap);
      UrgentCloseSettles(AfterVisit(o, visits[0], debitCap), visits[1..], SideAfter(side, visits[0]), debitCap);
    }
  }

  /** What an urgent close concedes from the fresh executable price: ten cents more with each attempt,
      never crossing one cent on a credit, and from the last attempt on everything the structure can cost. */
  lemma UrgentConcession(age: int, attempt: nat, limit: real, isCredit: bool, f: Fresh, debitCap: real)
    requires age >= STALE_AFTER && f.limit >= 0.01
    ensures match StaleOrderAction(age, attempt, limit, isCredit, false, true, true, Some(f), Some(debitCap))
            case Replace(next, side) =>
              && side == Some(f.isCredit)
              && (attempt >= 2 ==> next == HardCap(f.isCredit, debitCap))
              && (attempt < 2 && f.isCredit ==>
                    0.01 <= next <= f.limit && (next > 0.01 ==> f.limit - next == 0.10 * (attempt + 1) as real))
              && (attempt < 2 && !f.isCredit ==> next - f.limit == 0.10 * (attempt + 1) as real)
            case Wait =>
              && attempt >= 2 && f.isCredit == isCredit
              && AbsReal(HardCap(f.isCredit, debitCap) - limit) < REPRICE_INCREMENT
            case Cancel => false
  {
  }

  /** Once three replacements have happened on one side, the row is settled, and a settled row waits
      at every later visit on that side. */
  lemma SettledForGood(o: Resting, visits: seq<Visit>, later: seq<Visit>, side: bool, debitCap: real)
    requires Flips(side, visits + later) == 0
    requires Replacements(o, visits, debitCap) == 3
    ensures Settled(AfterVisits(o, visits, debitCap), side, debitCap)
    ensures Replacements(AfterVisits(o, visits, debitCap), later, debitCap) == 0
  {
    BudgetAfter(o, visits, later, side, debitCap);
    UrgentCloseSettles(AfterVisits(o, visits, debitCap), later, side, debitCap);
  }

  lemma {:induction false} BudgetAfter(o: Resting, visits: seq<Visit>, later: seq<Visit>, side: bool, debitCap: real)
    requires Flips(side, visits + later) == 0
    ensures Budget(AfterVisits(o, visits, debitCap), side, debitCap) + Replacements(o, visits, debitCap)
         <= Budget(o, side, debitCap)
    ensures Flips(side, later) == 0
    decreases visits
  {
    if visits == [] {
      assert visits + later == later;
    } else {
      assert (visits + later)[1..] == visits[1..] + later;
      OneVisitSpendsBudget(o, visits[0], side, debitCap);
      BudgetAfter(AfterVisit(o, visits[0], debitCap), visits[1..], later, side, debitCap);
    }
  }

  // --------------------------------------------------------------------- entries

  /** How far an entry's limit may stand from its first limit after `attempt` replacements. */
  function Drift(attempt: nat): real {
    if attempt == 0 then 0.0 else if attempt == 1 then 0.05 else 0.15
  }

  /** A stale entry is conceded exactly to the next step of the drift schedule, at most twice, and
      always to a positive limit. */
  lemma EntryConcession(age: int, attempt: nat, limit: real, isCredit: bool)
    requires limit > 0.0
    ensures match StaleOrderAction(age, attempt, limit, isCredit, false, true, false, None, None)
            case Replace(next, side) =>
              && attempt < 2 && next > 0.0 && side.None?
              && (if isCredit then limit - next else next - limit) == Drift(attempt + 1) - Drift(attempt)
            case Cancel =>
              && age >= STALE_AFTER
              && (attempt >= 2 || (isCredit && limit <= Drift(attempt + 1) - Drift(attempt)))
            case Wait => age < STALE_AFTER
  {
  }

  /** A row of the chain opened `attempt` replacements after the first limit. */
  predicate OnSchedule(first: real, isCredit: bool, attempt: nat, limit: real) {
    attempt <= 2 && limit == if isCredit then first - Drift(attempt) else first + Drift(attempt)
  }

  /** The worst expiry loss of a contract filled anywhere on the chain is at most the awarded maximum
      loss plus fifteen dollars (and a cent of rounding). */
  lemma ChainLossBounded(s: Structure, attempt: nat, limit: real, spot: real)
    requires ValidateDefinedRisk(s).Success? && WellOriented(s)
    requires OnSchedule(s.netPrice, s.isCredit, attempt, limit)
    ensures ExpiryLoss(s.legs, s.isCredit, limit, spot) <= s.maximumLoss + 15.0 + 0.01
  {
    LossAtPriceBounded(s, limit, spot);
  }

  // ------------------------------------------------------------- request validity

  /** A replacement built from a valid request and an action the rules allow is valid again, so its
      construction never fails. */
  lemma ReplacementIsValid(
    o: Order, id: ClientId, age: int, soft: bool, changed: bool, terms: Option<CloseTerms>, quotes: QuoteBook)
    requires o.request.Valid() && o.remaining >= 1
    requires soft ==> o.request.isClosing
    requires terms.Some? ==> o.request.isClosing && terms == CloseTermsFor(o.request.legs, quotes)
    ensures
      var urgent := o.request.isClosing && !soft;
      var latest := if urgent && terms.Some? then Some(Fresh(terms.value.limit, terms.value.isCredit)) else None;
      var action := StaleOrderAction(age, o.request.attempt, o.request.limit, o.request.isCredit, soft, changed, urgent,
                                     latest, if urgent then UrgentDebitCap(o.request.legs) else None);
      var attempt := if urgent then Min(o.request.attempt + 1, 2) else o.request.attempt + 1;
      var legs := if urgent && terms.Some? then Some(terms.value.legs) else None;
      action.Replace? ==>
        attempt >= 0 && ReplacementRequest(o, id, action.limit, action.side, legs, attempt).Valid()
  {
    if terms.Some? {
      assert forall l <- terms.value.legs :: l.intent.Closes() by {
        var r := terms.value.legs;
        forall i | 0 <= i < |r| ensures r[i].intent.Closes() {
          assert o.request.legs[i] in o.request.legs;
        }
      }
    }
  }

  /** A close built from open positions is always a valid request, for exactly its structure. */
  lemma CloseRequestIsValid(
    m: Managed, quotes: QuoteBook, id: ClientId, quantity: nat, reason: string, urgency: Urgency)
    requires quantity >= 1 && m.structure.legs != []
    requires CloseRequest(m, quotes, id, quantity, reason, urgency).Success?
    ensures var request := CloseRequest(m, quotes, id, quantity, reason, urgency).value;
      && request.Valid() && request.id == id && request.quantity == quantity && request.isClosing
      && request.parent == Some(m.id) && request.candidate == CandidateId.Closing(m.candidate)
  {
    var r := CloseRequest(m, quotes, id, quantity, reason, urgency).value.legs;
    MirrorKeepsSymbols(m.structure.legs, quotes);
    forall i | 0 <= i < |r| ensures r[i].intent.Closes() {
      assert r[i] == CloseLeg(m.structure.legs[i], quotes[m.structure.legs[i].symbol]);
    }
  }

  // --------------------------------------------------------- inventory and prices

  function NetContracts(legs: seq<Leg>, symbol: Symbol): int {
    if legs == [] then 0
    else
      var n := |legs| - 1;
      NetContracts(legs[..n], symbol) + if legs[n].symbol == symbol then legs[n].side.Sign() * legs[n].ratio else 0
  }

  /** Opening legs and the legs of their close cancel on every symbol. */
  lemma {:induction false} CloseCancelsOpening(legs: seq<Leg>, quotes: QuoteBook, symbol: Symbol)
    requires Quoted(legs, quotes)
    ensures NetContracts(legs, symbol) + NetContracts(CloseLegs(legs, quotes), symbol) == 0
  {
    if legs != [] {
      var n := |legs| - 1;
      assert CloseLegs(legs, quotes)[..n] == CloseLegs(legs[..n], quotes);
      CloseCancelsOpening(legs[..n], quotes, symbol);
    }
  }

  /** A close submitted at these quotes and refreshed at the same quotes keeps its price and side. */
  lemma {:induction false} CloseLegsPriceAsMirror(legs: seq<Leg>, quotes: QuoteBook)
    requires Quoted(legs, quotes)
    ensures Quoted(Mirror(legs), quotes) && Quoted(CloseLegs(legs, quotes), quotes)
    ensures CloseCash(CloseLegs(legs, quotes), quotes) == CloseCash(Mirror(legs), quotes)
  {
    hide LegCash;
    MirrorKeepsSymbols(legs, quotes);
    if legs != [] {
      var n := |legs| - 1;
      assert CloseLegs(legs, quotes)[..n] == CloseLegs(legs[..n], quotes);
      assert Mirror(legs)[..n] == Mirror(legs[..n]);
      CloseLegsPriceAsMirror(legs[..n], quotes);
      SameCash(legs[n], quotes[legs[n].symbol]);
    }
  }

  lemma SameCash(l: Leg, q: Quote)
    ensures LegCash(CloseLeg(l, q), q) == LegCash(MirrorLeg(l), q)
  {
  }

  /** The terms refreshed for a fresh close at unchanged quotes are the close's own terms, and its
      quote has not materially changed. */
  lemma FreshCloseAgreesWithRefresh(
    m: Managed, quotes: QuoteBook, id: ClientId, quantity: nat, reason: string, urgency: Urgency)
    requires CloseRequest(m, quotes, id, quantity, reason, urgency).Success?
    ensures var r := CloseRequest(m, quotes, id, quantity, reason, urgency).value;
      var terms := CloseTermsFor(r.legs, quotes);
      && terms.Some? && terms.value.limit == r.limit && terms.value.isCredit == r.isCredit
      && !MateriallyChanged(r.legs, r.limit, quotes)
  {
    MirrorKeepsSymbols(m.structure.legs, quotes);
    CloseLegsPriceAsMirror(m.structure.legs, quotes);
  }

  // ------------------------------------------------------------------ debit cap

  lemma {:induction false} StrikesOfRight(legs: seq<Leg>, right: Right)
    ensures Highest(OfRight(legs, right)) == MaxStrike(legs, right)
    ensures Lowest(OfRight(legs, right)) == MinStrike(legs, right)
  {
    if legs != [] {
      var n := |legs| - 1;
      StrikesOfRight(legs[..n], right);
      OfRightSplits(legs[..n], legs[n..], right);
      assert legs == legs[..n] + legs[n..];
      var prior := OfRight(legs[..n], right);
      if legs[n].right == right {
        assert OfRight(legs[n..], right) == [legs[n]];
        assert (prior + [legs[n]])[..|prior|] == prior;
      } else {
        assert OfRight(legs[n..], right) == [];
        assert prior + [] == prior;
      }
    }
  }

  lemma {:induction false} OfRightSplits(a: seq<Leg>, b: seq<Leg>, right: Right)
    ensures OfRight(a + b, right) == OfRight(a, right) + OfRight(b, right)
  {
    if a == [] {
      assert a + b == b;
    } else {
      assert (a + b)[1..] == a[1..] + b;
      OfRightSplits(a[1..], b, right);
    }
  }

  function Highest(legs: seq<Leg>): Option<real> {
    if legs == [] then None
    else
      var rest := Highest(legs[..|legs| - 1]);
      var k := legs[|legs| - 1].strike;
      Some(if rest.None? then k else MaxReal(rest.value, k))
  }

  function Lowest(legs: seq<Leg>): Option<real> {
    if legs == [] then None
    else
      var rest := Lowest(legs[..|legs| - 1]);
      var k := legs[|legs| - 1].strike;
      Some(if rest.None? then k else MinReal(rest.value, k))
  }

  lemma PairSpan(legs: seq<Leg>)
    requires |legs| == 2
    ensures Highest(legs) == Some(SortedPair(legs)[1].strike) && Lowest(legs) == Some(SortedPair(legs)[0].strike)
  {
    assert legs[..1][..0] == [];
    assert Highest(legs[..1]) == Some(legs[0].strike) && Lowest(legs[..1]) == Some(legs[0].strike);
  }

  lemma {:induction false} SpanIgnoresSides(a: seq<Leg>, b: seq<Leg>, right: Right)
    requires |a| == |b|
    requires forall i :: 0 <= i < |a| ==> a[i].right == b[i].right && a[i].strike == b[i].strike
    ensures MaxStrike(a, right) == MaxStrike(b, right) && MinStrike(a, right) == MinStrike(b, right)
  {
    if a != [] {
      SpanIgnoresSides(a[..|a| - 1], b[..|b| - 1], right);
    }
  }

  /** The width of a structure: of its wider wing, or between its two strikes. */
  function StructureWidth(s: Structure): real
    requires ValidateDefinedRisk(s).Success?
  {
    if |s.legs| == 4 then CondorWings(s.legs).Width() else PairWidth(s.legs)
  }

  lemma CondorSpan(legs: seq<Leg>, credit: real)
    requires CondorMaximumLoss(legs, credit).Success?
    ensures UrgentDebitCap(legs) == Some(CondorWings(legs).Width())
  {
    StrikesOfRight(legs, Put);
    StrikesOfRight(legs, Call);
    PairSpan(OfRight(legs, Put));
    PairSpan(OfRight(legs, Call));
  }

  lemma SpreadSpan(legs: seq<Leg>, debit: real)
    requires DebitSpreadMaximumLoss(legs, debit).Success?
    ensures UrgentDebitCap(legs) == Some(PairWidth(legs))
  {
    var right := legs[0].right;
    var other := if right.Call? then Put else Call;
    StrikesOfRight(legs, right);
    StrikesOfRight(legs, other);
    PairSpan(legs);
    OneRight(legs);
  }

  lemma OneRight(legs: seq<Leg>)
    requires |legs| == 2 && legs[0].right == legs[1].right
    ensures OfRight(legs, legs[0].right) == legs
    ensures OfRight(legs, if legs[0].right.Call? then Put else Call) == []
  {
    assert legs[1..] == [legs[1]] && legs[1..][1..] == [];
    assert OfRight(legs[1..], legs[0].right) == [legs[1]];
    assert OfRight(legs[1..], if legs[0].right.Call? then Put else Call) == [];
  }

  lemma DebitCapIsWidth(s: Structure)
    requires ValidateDefinedRisk(s).Success?
    ensures UrgentDebitCap(s.legs) == Some(StructureWidth(s))
  {
    ValidatedGeometry(s);
    if |s.legs| == 4 {
      CondorSpan(s.legs, s.netPrice);
    } else {
      SpreadSpan(s.legs, s.netPrice);
    }
  }

  /** The price at which an urgent close of a structure finally rests is its whole defined risk: the
      declared maximum loss plus the declared maximum profit, per share. */
  lemma DebitCapIsDefinedRisk(s: Structure, quotes: QuoteBook)
    requires ValidateDefinedRisk(s).Success? && Quoted(s.legs, quotes)
    requires WholeCents(s.maximumLoss) && WholeCents(WorstLoss(s))
    requires s.maximumProfit == (if |s.legs| == 4 then s.netPrice else StructureWidth(s) - s.netPrice) * MULTIPLIER
    ensures UrgentDebitCap(CloseLegs(s.legs, quotes)) == Some((s.maximumLoss + s.maximumProfit) / 100.0)
  {
    hide ValidateDefinedRisk, RoundCent;
    DebitCapIsWidth(s);
    ValidatedGeometry(s);
    RoundCentKeepsWholeCents(s.maximumLoss);
    RoundCentKeepsWholeCents(WorstLoss(s));
    SpanIgnoresSides(s.legs, CloseLegs(s.legs, quotes), Call);
    SpanIgnoresSides(s.legs, CloseLegs(s.legs, quotes), Put);
    assert s.maximumLoss == WorstLoss(s);
    assert s.maximumLoss + s.maximumProfit == StructureWidth(s) * MULTIPLIER;
  }
}
