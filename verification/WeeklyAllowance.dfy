/** The calendar gate on closing a month: has every labour week whose rest day falls in it fully elapsed? */
module WeeklyAllowance {
  import opened Calendar

  function LastDay(month: Date): int { Ordinal(FirstOf(month)) + DaysInMonth(month.year, month.month) - 1 }

  function SundayOf(day: int): int { day - Weekday(day) + 6 }

  /** The last day on or before `day` that falls on weekday `rest`. */
  function LastOn(day: int, rest: int): int { day - (Weekday(day) - rest) % 7 }

  /** Closed form: only the week of the month's last rest day matters. */
  predicate BoundaryWeekElapsed(month: Date, rest: int, asOf: int) {
    0 <= rest < 7 ==>
      var sunday := SundayOf(LastOn(LastDay(month), rest));
      sunday <= LastDay(month) || sunday <= asOf
  }

  /** The day-by-day loop. */
  method IsMonthBoundaryWeekComplete(month: Date, rest: int, asOf: int) returns (complete: bool)
    ensures complete == BoundaryWeekElapsed(month, rest, asOf)
  {
    var lastDay := LastDay(month);
    var first := Ordinal(FirstOf(month));
    var day := first;
    while day <= lastDay
      invariant first <= day <= lastDay + 1
      invariant forall d :: first <= d < day && Weekday(d) == rest ==> SundayOf(d) <= lastDay || SundayOf(d) <= asOf
    {
      if Weekday(day) == rest {
        var monday := day - Weekday(day);
        var sunday := monday + 6;
        if sunday > lastDay && sunday > asOf {
          BlockedBy(month, rest, asOf, day);
          return false;
        }
      }
      day := day + 1;
    }
    NoneBlocks(month, rest, asOf);
    complete := true;
  }

  /** No rest day up to `last` is later than `LastOn`, and later rest days have later Sundays. */
  lemma LastRestIsLatest(last: int, rest: int, day: int)
    requires day <= last && Weekday(day) == rest
    ensures 0 <= rest < 7 && Weekday(LastOn(last, rest)) == rest && last - 7 < LastOn(last, rest) <= last
    ensures SundayOf(day) <= SundayOf(LastOn(last, rest))
  {
    var k := (Weekday(last) - rest) % 7;
    assert 0 <= k < 7;
    assert (last - k + 6) % 7 == rest;
  }

  lemma LastOnIs(last: int, rest: int)
    requires 0 <= rest < 7
    ensures Weekday(LastOn(last, rest)) == rest && last - 7 < LastOn(last, rest) <= last
    ensures SundayOf(LastOn(last, rest)) == LastOn(last, rest) - rest + 6
  {
    var k := (Weekday(last) - rest) % 7;
    assert (last - k + 6) % 7 == rest;
  }

  lemma BlockedBy(month: Date, rest: int, asOf: int, day: int)
    requires day <= LastDay(month) && Weekday(day) == rest && LastDay(month) < SundayOf(day) && asOf < SundayOf(day)
    ensures !BoundaryWeekElapsed(month, rest, asOf)
  {
    LastRestIsLatest(LastDay(month), rest, day);
  }

  lemma NoneBlocks(month: Date, rest: int, asOf: int)
    requires forall d :: Ordinal(FirstOf(month)) <= d <= LastDay(month) && Weekday(d) == rest ==>
      SundayOf(d) <= LastDay(month) || SundayOf(d) <= asOf
    ensures BoundaryWeekElapsed(month, rest, asOf)
  {
    if 0 <= rest < 7 { LastOnIs(LastDay(month), rest); }
  }

  /** Waiting longer never makes a complete month incomplete. */
  lemma MonotoneInAsOf(month: Date, rest: int, asOf: int, later: int)
    requires asOf <= later && BoundaryWeekElapsed(month, rest, asOf)
    ensures BoundaryWeekElapsed(month, rest, later)
  {
  }

  /** A Sunday rest day never spills over; any rest day is settled six days after the month ends; and a
      rest-day week does spill over exactly when the month ends on or after it but before its Sunday. */
  lemma WhenItBlocks(month: Date, rest: int, asOf: int)
    ensures rest == 6 ==> BoundaryWeekElapsed(month, rest, asOf)
    ensures asOf >= LastDay(month) + 6 ==> BoundaryWeekElapsed(month, rest, asOf)
    ensures 0 <= rest < 7 ==>
      var weekday := Weekday(LastDay(month));
      BoundaryWeekElapsed(month, rest, LastDay(month)) <==> weekday < rest || weekday == 6
  {
    if 0 <= rest < 7 {
      LastOnIs(LastDay(month), rest);
      LastOnSpan(LastDay(month), rest);
    }
  }

  /** The last rest day is in the week of `last` unless that week has not reached it. */
  lemma LastOnSpan(last: int, rest: int)
    requires 0 <= rest < 7
    ensures LastOn(last, rest) == last - Weekday(last) + rest - (if Weekday(last) < rest then 7 else 0)
  {
  }

  /** In plain days: some rest day of the month has its Sunday in the next month, and that Sunday has not come. */
  ghost predicate WeekStillRuns(month: Date, rest: int, today: int) {
    exists d :: Ordinal(FirstOf(month)) <= d < Ordinal(NextMonth(month)) && Weekday(d) == rest
             && Ordinal(NextMonth(month)) <= d + 6 - rest && today < d + 6 - rest
  }

  lemma ElapsedIffNoneRuns(month: Date, rest: int, today: int)
    requires 1 <= month.month <= 12
    ensures BoundaryWeekElapsed(month, rest, today) <==> !WeekStillRuns(month, rest, today)
  {
    MonthsAdjoin(month);
    if WeekStillRuns(month, rest, today) {
      var d :| Ordinal(FirstOf(month)) <= d < Ordinal(NextMonth(month)) && Weekday(d) == rest
            && Ordinal(NextMonth(month)) <= d + 6 - rest && today < d + 6 - rest;
      BlockedBy(month, rest, today, d);
    } else {
      NoneBlocks(month, rest, today);
    }
  }
}
