/** Holding intervals and scheduled events, across events.py, risk.py and execution.py. */
module Holding {
  import opened Common
  import opened Clock
  import opened Events
  import opened Schemas
  import opened Orders
  import opened Execution

  /** The policy the risk engine applies to a directional candidate built at the same instant. */
  function DirectionalHold(events: seq<MacroEvent>, now: int, modelMinutes: nat): HoldingPolicy {
    var w := DirectionalWindow(events, now);
    EntryHoldingPolicy(now, modelMinutes,
                       if w.maximumHoldingMinutes == 0 then None else Some(w.maximumHoldingMinutes), Some(w.deadline))
  }

  /** An accepted directional entry's whole holding interval avoids every event of a time-sorted
      list, lies inside the session, and never exceeds the model's request. */
  lemma AcceptedHoldIsSafe(events: seq<MacroEvent>, now: int, modelMinutes: nat)
    requires SortedByRelease(events)
    requires DirectionalWindow(events, now).accepted && DirectionalHold(events, now, modelMinutes).accepted
    ensures var hold := DirectionalHold(events, now, modelMinutes);
      && (forall e <- events :: Clear(e, now, hold.deadline))
      && now < hold.deadline <= SessionBoundary(now)
      && 0 < hold.minutes <= modelMinutes
      && hold.minutes <= DIRECTIONAL_MAX_HOLDING_MINUTES
  {
    AcceptedWindowAvoidsEvents(events, now);
  }

  /** From an accepted hold's deadline on, every exit evaluation closes the structure, whatever its
      quotes; a fill recorded `delay` seconds after the decision moves this by no more than that. */
  lemma ExitByDeadline(
    events: seq<MacroEvent>, now: int, modelMinutes: nat, m: Managed, delay: nat, quotes: QuoteBook, at: int,
    force: Option<string>)
    requires DirectionalHold(events, now, modelMinutes).accepted
    requires m.holdingMinutes == DirectionalHold(events, now, modelMinutes).minutes && m.openedAt == now + delay
    requires at >= DirectionalHold(events, now, modelMinutes).deadline + delay
    ensures StructureExitSignal(m, quotes, at, force).Exit?
  {
    var hold := DirectionalHold(events, now, modelMinutes);
    assert hold.minutes * MINUTE <= hold.deadline - now;
  }

  /** What closing now would gain per share. */
  function Gain(s: Structure, cash: real): real {
    if s.isCredit then s.netPrice - MaxReal(0.0, cash) else MaxReal(0.0, -cash) - s.netPrice
  }

  /** The gain, as a fraction of the opening price, at which the profit target is met. */
  function TargetGain(m: Managed): real {
    if m.structure.isCredit then 0.50
    else m.takeProfit.GetOr(if m.structure.strategy.Directional() then 1.35 else 1.50) - 1.0
  }

  /** The loss, as a fraction of the opening price, at which the stop is hit. */
  function StopLoss(m: Managed): real { if m.structure.isCredit then 1.00 else 0.35 }

  /** Before its deadlines a fully quoted structure is closed exactly when closing now meets its profit
      target or its stop, softly in the first case and urgently otherwise. */
  lemma PriceExitIff(m: Managed, quotes: QuoteBook, now: int)
    requires now < SessionBoundary(now) && (m.holdingMinutes > 0 ==> now < m.openedAt + m.holdingMinutes * MINUTE)
    requires m.structure.netPrice > 0.0 && ClosingCash(m.structure.legs, quotes).Some?
    ensures var s := StructureExitSignal(m, quotes, now, None);
      var gain := Gain(m.structure, ClosingCash(m.structure.legs, quotes).value);
      var target, stop := TargetGain(m) * m.structure.netPrice, StopLoss(m) * m.structure.netPrice;
      && (s.Exit? <==> gain >= target || gain <= -stop)
      && (s.Exit? ==> (s.urgency.Soft? <==> gain >= target))
  {
    hide ClosingCash;
    var paid := m.structure.netPrice;
    var multiple := TargetGain(m) + 1.0;
    assert TargetGain(m) * paid == multiple * paid - paid;
  }
}
