/** Scheduled macro releases (domain/events.py). */
module Events {
  import opened Common
  import opened Clock

  datatype MacroEvent = MacroEvent(releasesAt: int, cooldownMinutes: nat) {
    function CooldownEnd(): int { releasesAt + cooldownMinutes * MINUTE }
  }

  const COMPETITION_MACRO_EVENTS: seq<MacroEvent> := [
    MacroEvent(1788271200, 30), // JOLTS
    MacroEvent(1788357600, 30), // Metropolitan employment
    MacroEvent(1788372000, 30), // Federal Reserve Beige Book
    MacroEvent(1788438600, 75), // Productivity and international trade
    MacroEvent(1788525000, 90)  // Employment Situation
  ]

  const DIRECTIONAL_MAX_HOLDING_MINUTES := 45
  const DIRECTIONAL_EVENT_BUFFER_MINUTES := 15
  const DIRECTIONAL_MINIMUM_ENTRY_MINUTES := 30

  /** Would a position opened at `now` and held `minutes` cross a release, or does `now` fall in a
      cooldown? */
  predicate ScheduledRisk(events: seq<MacroEvent>, now: int, minutes: nat) {
    exists e <- events ::
      || now <= e.releasesAt <= now + minutes * MINUTE
      || e.releasesAt < now < e.CooldownEnd()
  }

  datatype Window = Window(accepted: bool, maximumHoldingMinutes: nat, deadline: int)

  /** The first event in list order whose cooldown contains `now`. */
  function ActiveCooldown(events: seq<MacroEvent>, now: int): Option<MacroEvent> {
    if events == [] then None
    else if events[0].releasesAt <= now < events[0].CooldownEnd() then Some(events[0])
    else ActiveCooldown(events[1..], now)
  }

  /** The first event in list order that is still to come. */
  function NextEvent(events: seq<MacroEvent>, now: int): Option<MacroEvent> {
    if events == [] then None
    else if events[0].releasesAt > now then Some(events[0])
    else NextEvent(events[1..], now)
  }

  function DirectionalWindow(events: seq<MacroEvent>, now: int): Window {
    match ActiveCooldown(events, now)
    case Some(e) => Window(false, 0, e.CooldownEnd())
    case None =>
      var longest := now + DIRECTIONAL_MAX_HOLDING_MINUTES * MINUTE;
      var eventDeadline :=
        match NextEvent(events, now)
        case Some(e) => e.releasesAt - DIRECTIONAL_EVENT_BUFFER_MINUTES * MINUTE
        case None => longest;
      var deadline := Min(longest, eventDeadline);
      var minutes := Max(0, (deadline - now) / MINUTE);
      Window(minutes >= DIRECTIONAL_MINIMUM_ENTRY_MINUTES, minutes, deadline)
  }

  predicate SortedByRelease(events: seq<MacroEvent>) {
    forall i, j :: 0 <= i < j < |events| ==> events[i].releasesAt <= events[j].releasesAt
  }

  /** `e` cannot touch a position held from `now` until `until`. */
  predicate Clear(e: MacroEvent, now: int, until: int) {
    || e.CooldownEnd() <= now
    || until <= e.releasesAt - DIRECTIONAL_EVENT_BUFFER_MINUTES * MINUTE
  }

  lemma {:induction false} ScansFindEvents(events: seq<MacroEvent>, now: int)
    requires SortedByRelease(events)
    ensures ActiveCooldown(events, now).None? ==>
      forall e <- events :: e.releasesAt > now || e.CooldownEnd() <= now
    ensures NextEvent(events, now).None? ==> forall e <- events :: e.releasesAt <= now
    ensures NextEvent(events, now).Some? ==>
      forall e <- events :: e.releasesAt <= now || NextEvent(events, now).value.releasesAt <= e.releasesAt
  {
    if events != [] {
      ScansFindEvents(events[1..], now);
      assert forall e <- events :: e == events[0] || e in events[1..];
      assert forall e <- events :: events[0].releasesAt <= e.releasesAt;
    }
  }

  /** An accepted window keeps clear of every event of a time-sorted list. */
  lemma AcceptedWindowAvoidsEvents(events: seq<MacroEvent>, now: int)
    requires SortedByRelease(events) && DirectionalWindow(events, now).accepted
    ensures forall e <- events :: Clear(e, now, DirectionalWindow(events, now).deadline)
  {
    ScansFindEvents(events, now);
  }

  lemma CompetitionCalendarSorted()
    ensures SortedByRelease(COMPETITION_MACRO_EVENTS)
  {
  }
}
