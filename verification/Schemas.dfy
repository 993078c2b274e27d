/** The frozen records that cross module boundaries. */
module Schemas {
  import opened Common

  type Symbol = string

  /** How many contracts of a leg one structure holds. */
  type Ratio = n: nat | 1 <= n <= 4 witness 1

  datatype Right = Call | Put

  datatype Side = Buy | Sell {
    /** +1 for a long leg, -1 for a short leg. */
    function Sign(): int { if this == Buy then 1 else -1 }

    function Opposite(): Side { if this == Buy then Sell else Buy }
  }

  datatype Intent = BuyToOpen | SellToOpen | BuyToClose | SellToClose {
    predicate Opens() { BuyToOpen? || SellToOpen? }

    predicate Closes() { BuyToClose? || SellToClose? }
  }

  datatype Action = IndexCondor | CallDebitSpread | PutDebitSpread | EarningsCondor | Hedge | Abstain {
    predicate Directional() { CallDebitSpread? || PutDebitSpread? }

    predicate IndexAction() { IndexCondor? || Directional() }
  }

  datatype Quote = Quote(
    symbol: Symbol, underlying: Symbol, expiration: int, right: Right, strike: real,
    bid: real, ask: real, volume: Option<nat>, openInterest: Option<nat>,
    bidSize: Option<nat>, askSize: Option<nat>, observedAt: int)
  {
    predicate Valid() { 0.0 <= bid <= ask }

    function Midpoint(): real { (bid + ask) / 2.0 }
  }

  datatype Leg = Leg(
    symbol: Symbol, underlying: Symbol, expiration: int, right: Right, strike: real,
    side: Side, intent: Intent, ratio: Ratio, bid: real, ask: real,
    volume: Option<nat>, openInterest: Option<nat>, bidSize: Option<nat>, askSize: Option<nat>)
  {
    predicate Valid() { 0.0 <= bid && 0.0 <= ask }

    function Midpoint(): real { (bid + ask) / 2.0 }
  }

  datatype Structure = Structure(
    strategy: Action, underlying: Symbol, expiration: int, legs: seq<Leg>,
    netPrice: real, maximumLoss: real, maximumProfit: real, isCredit: bool)
  {
    predicate Valid() {
      netPrice > 0.0 && maximumLoss > 0.0 && maximumProfit > 0.0 && forall l <- legs :: l.Valid()
    }
  }

  datatype Snapshot = Snapshot(
    symbol: Symbol, spot: real, realizedMove: real, impliedMove: real, trend: real, eventRisk: bool)
  {
    predicate Valid() { spot > 0.0 && realizedMove > 0.0 && impliedMove > 0.0 }

    function Richness(): real
      requires Valid()
    {
      impliedMove / realizedMove
    }
  }

  /** The parts the source joins into a candidate id. */
  datatype CandidateName = CandidateName(underlying: Symbol, action: Action, expiration: int, strikes: seq<real>)

  datatype Candidate = Candidate(
    id: CandidateName, action: Action, structure: Structure, score: real, richness: real, dataAge: nat,
    eventRisk: bool, liquidityPassed: bool, trendStrength: Option<real>, directionAgrees: bool,
    minimumConfidence: real, payoffQuality: Option<real>,
    maximumHoldingMinutes: nat, holdingDeadline: Option<int>)
  {
    predicate Valid() { structure.Valid() && richness > 0.0 && maximumHoldingMinutes <= 60 }
  }

  datatype Decision = Decision(
    action: Action, candidateId: Option<CandidateName>, confidence: real, holdingMinutes: nat)
}
