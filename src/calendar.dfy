/*
 * The monthly calendar tallies of the dashboard (src/app/dashboard/page.tsx):
 * the distinct gym days of the shown month and the number of days of the
 * month elapsed so far. Days are day numbers; `monthStart`, `monthEnd` and
 * `today` are supplied by the caller.
 */
module Calendar {
  import opened Workouts

  /** The days `lo..hi`, both included. */
  function DayRange(lo: int, hi: int): set<int>
    decreases hi - lo
  {
    if hi < lo then {} else DayRange(lo, hi - 1) + {hi}
  }

  lemma {:induction false} DayRangeFacts(lo: int, hi: int)
    ensures forall d :: d in DayRange(lo, hi) <==> lo <= d <= hi
    ensures |DayRange(lo, hi)| == if hi < lo then 0 else hi - lo + 1
    decreases hi - lo
  {
    if lo <= hi {
      DayRangeFacts(lo, hi - 1);
    }
  }

  /** `uniqueGymDays`: the distinct workout days that fall inside the month. */
  function GymDays(ws: seq<Workout>, monthStart: int, monthEnd: int): set<int>
  {
    set i | 0 <= i < |ws| && monthStart <= ws[i].date <= monthEnd :: ws[i].date
  }

  /**
   * A day is a gym day exactly when some workout is dated on it and it lies
   * in the month; so there are never more gym days than days in the month.
   */
  lemma GymDaysFacts(ws: seq<Workout>, monthStart: int, monthEnd: int)
    ensures forall d :: d in GymDays(ws, monthStart, monthEnd) <==>
              monthStart <= d <= monthEnd && exists i :: 0 <= i < |ws| && ws[i].date == d
    ensures |GymDays(ws, monthStart, monthEnd)| <= if monthEnd < monthStart then 0 else monthEnd - monthStart + 1
  {
    WithinRangeSize(GymDays(ws, monthStart, monthEnd), monthStart, monthEnd);
  }

  /** A set of days within `lo..hi` has no more elements than that range. */
  lemma {:induction false} WithinRangeSize(g: set<int>, lo: int, hi: int)
    requires forall d :: d in g ==> lo <= d <= hi
    ensures |g| <= if hi < lo then 0 else hi - lo + 1
    decreases hi - lo
  {
    if hi < lo {
      assert forall d :: d !in g;
      assert g == {};
    } else {
      var rest := g - {hi};
      WithinRangeSize(rest, lo, hi - 1);
      if hi in g {
        assert |g| == |rest| + 1;
      } else {
        assert g == rest;
      }
    }
  }

  /** `elapsedDays`: 0 before the month has begun, else the days from its start to the earlier of today and its end. */
  function ElapsedDays(monthStart: int, monthEnd: int, today: int): int
  {
    var effectiveEnd := if today < monthEnd then today else monthEnd;
    if effectiveEnd < monthStart then 0 else effectiveEnd - monthStart + 1
  }

  /**
   * The elapsed count is the number of days of the month up to and
   * including today: none when today is before the month, all of them when
   * the month is over.
   */
  lemma ElapsedDaysCounts(monthStart: int, monthEnd: int, today: int)
    ensures ElapsedDays(monthStart, monthEnd, today) == |set d | d in DayRange(monthStart, monthEnd) && d <= today|
    ensures today < monthStart ==> ElapsedDays(monthStart, monthEnd, today) == 0
    ensures monthStart <= monthEnd <= today ==> ElapsedDays(monthStart, monthEnd, today) == monthEnd - monthStart + 1
    ensures 0 <= ElapsedDays(monthStart, monthEnd, today)
  {
    var effectiveEnd := if today < monthEnd then today else monthEnd;
    DayRangeFacts(monthStart, monthEnd);
    DayRangeFacts(monthStart, effectiveEnd);
    assert (set d | d in DayRange(monthStart, monthEnd) && d <= today) == DayRange(monthStart, effectiveEnd);
  }
}
