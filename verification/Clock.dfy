/** The competition calendar (domain/clock.py). Times are seconds since the Unix epoch, UTC. */
module Clock {

  const SCORING_STARTS_AT := 1788183000          // 2026-08-31 13:30
  const FINAL_HOUR_RECOVERY_STARTS_AT := 1788462000 // 2026-09-03 19:00
  const NEW_ENTRY_CUTOFF := 1788464700           // 2026-09-03 19:45
  const FORCED_FLATTEN_STARTS_AT := 1788465000   // 2026-09-03 19:50
  const FLAT_TARGET_AT := 1788465420             // 2026-09-03 19:57
  const EOD_EQUITY_SNAPSHOT_AT := 1788465600     // 2026-09-03 20:00
  const ENDS_AT := 1788528600                    // 2026-09-04 13:30

  const MINUTE := 60
  const HOUR := 3600
  const DAY := 86400

  /** New York keeps daylight time, four hours behind UTC, on every date of the competition. */
  const NEW_YORK_OFFSET := -4 * HOUR

  function SessionDate(at: int): int { (at + NEW_YORK_OFFSET) / DAY }

  function WallTime(at: int): int { (at + NEW_YORK_OFFSET) % DAY }

  /** Monday is 0; day 0 of the epoch was a Thursday. */
  function Weekday(at: int): int { (SessionDate(at) + 3) % 7 }

  predicate FinalDay(at: int) { SessionDate(at) == SessionDate(EOD_EQUITY_SNAPSHOT_AT) }

  predicate FinalHourWindow(at: int) { FINAL_HOUR_RECOVERY_STARTS_AT <= at <= NEW_ENTRY_CUTOFF }

  predicate EntryWindowOpen(at: int) {
    && Weekday(at) < 5
    && WallTime(at) >= 9 * HOUR + 45 * MINUTE
    && if FinalDay(at) then WallTime(at) <= 15 * HOUR + 45 * MINUTE
       else WallTime(at) < 15 * HOUR + 20 * MINUTE
  }

  datatype ExecutionState = ObserveOnly | FullExecution | CloseOnly | CloseOnlyUntilFlat | Disabled

  function CompetitionState(at: int, hasExposure: bool): ExecutionState {
    if at < SCORING_STARTS_AT then ObserveOnly
    else if at <= NEW_ENTRY_CUTOFF then FullExecution
    else if at < ENDS_AT then CloseOnly
    else if hasExposure then CloseOnlyUntilFlat
    else Disabled
  }

  /** 15:50 New York time on the session of `at`. */
  function DailyHardExit(at: int): int {
    SessionDate(at) * DAY + 15 * HOUR + 50 * MINUTE - NEW_YORK_OFFSET
  }

  /** The last instant at which a position may stay open in the session of `at`. */
  function SessionBoundary(at: int): int {
    if DailyHardExit(at) <= FORCED_FLATTEN_STARTS_AT then DailyHardExit(at) else FORCED_FLATTEN_STARTS_AT
  }
}
