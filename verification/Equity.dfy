/** The stored equity history and the session figures read from it (persistence/repository.py,
    portfolio_risk_summary). */
module Equity {
  import opened Common
  import opened Clock

  const BASELINE_EQUITY := 100000.0

  /** An official snapshot of a completed cycle whose reconciliation was clean. */
  datatype EquityMark = EquityMark(at: int, equity: real)

  /** Marks outside regular hours set no baseline. */
  predicate RegularHours(at: int) {
    && SCORING_STARTS_AT <= at <= EOD_EQUITY_SNAPSHOT_AT && Weekday(at) < 5
    && 9 * HOUR + 30 * MINUTE <= WallTime(at) < 16 * HOUR
  }

  predicate Counts(m: EquityMark, date: int) { RegularHours(m.at) && SessionDate(m.at) == date }

  /** The earliest regular mark of a session; marks of one instant in the order they were stored. */
  function FirstOf(marks: seq<EquityMark>, date: int): Option<EquityMark> {
    if marks == [] then None
    else
      var n := |marks| - 1;
      var rest := FirstOf(marks[..n], date);
      if Counts(marks[n], date) && (rest.None? || marks[n].at < rest.value.at) then Some(marks[n]) else rest
  }

  /** The session's opening equity: its first mark, else the larger of the present equity and the
      competition's baseline. */
  function StartOfDay(marks: seq<EquityMark>, now: int, present: real): real {
    match FirstOf(marks, SessionDate(now))
    case Some(m) => m.equity
    case None => MaxReal(BASELINE_EQUITY, present)
  }

  function Peak(marks: seq<EquityMark>, present: real): real {
    if marks == [] then MaxReal(BASELINE_EQUITY, present)
    else
      var n := |marks| - 1;
      var rest := Peak(marks[..n], present);
      if RegularHours(marks[n].at) then MaxReal(rest, marks[n].equity) else rest
  }

  datatype Summary = Summary(startOfDay: real, peak: real)

  function Summarise(marks: seq<EquityMark>, now: int, present: real): Summary {
    Summary(StartOfDay(marks, now, present), Peak(marks, present))
  }

  /** The equity rows, appended to as cycles complete. */
  class EquityHistory {
    var marks: seq<EquityMark>

    method Record(m: EquityMark)
      modifies this
      ensures marks == old(marks) + [m]
    {
      marks := marks + [m];
    }

    method PortfolioEquity(now: int, present: real) returns (s: Summary)
      ensures s == Summarise(marks, now, present)
    {
      var first: Option<EquityMark>, peak := None, MaxReal(BASELINE_EQUITY, present);
      for i := 0 to |marks|
        invariant first == FirstOf(marks[..i], SessionDate(now)) && peak == Peak(marks[..i], present)
      {
        assert marks[..i + 1][..i] == marks[..i];
        var m := marks[i];
        if RegularHours(m.at) {
          peak := MaxReal(peak, m.equity);
          if SessionDate(m.at) == SessionDate(now) && (first.None? || m.at < first.value.at) {
            first := Some(m);
          }
        }
      }
      assert marks[..|marks|] == marks;
      return Summary(if first.Some? then first.value.equity else MaxReal(BASELINE_EQUITY, present), peak);
    }
  }

  // ------------------------------------------------------------------- the baseline

  /** The first mark is one of the session's and none of them is earlier. */
  lemma {:induction false} FirstIsEarliest(marks: seq<EquityMark>, date: int)
    ensures match FirstOf(marks, date)
            case None => forall m <- marks :: !Counts(m, date)
            case Some(first) => first in marks && Counts(first, date)
                                && forall m <- marks :: Counts(m, date) ==> first.at <= m.at
  {
    if marks != [] {
      var n := |marks| - 1;
      FirstIsEarliest(marks[..n], date);
      assert forall m <- marks :: m in marks[..n] || m == marks[n];
    }
  }

  /** Once a session has its first mark, marks no earlier than the present ones leave it where it is. */
  lemma {:induction false} FirstIsFixed(marks: seq<EquityMark>, later: seq<EquityMark>, date: int)
    requires FirstOf(marks, date).Some?
    requires forall m <- marks, x <- later :: m.at <= x.at
    ensures FirstOf(marks + later, date) == FirstOf(marks, date)
  {
    FirstIsEarliest(marks, date);
    if later == [] {
      assert marks + later == marks;
    } else {
      var n := |later| - 1;
      assert (marks + later)[..|marks| + n] == marks + later[..n];
      FirstIsFixed(marks, later[..n], date);
      assert later[n] in later;
    }
  }
}
