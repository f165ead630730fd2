/** What a payroll line means: pay is the wage of the date, instant by instant, while the punches say "working". */
module PreviewMeaning {
  import opened TimeCalculation
  import opened Attribution
  import opened AttendanceDb
  import opened Calendar
  import opened Wages
  import opened BasePay
  import opened Preview

  // ---- The reference: no segments, only instants ----

  function WageOfDay(wages: seq<WageRow>, employee: nat, day: int): nat {
    var w := WageOn(wages, employee, day);
    if w.Some? then w.value else 0
  }

  /** Won-per-hour summed over the working microseconds of [lo, hi). */
  function Owed(w: seq<Event>, wages: seq<WageRow>, employee: nat, lo: int, hi: int): nat
    decreases hi - lo
  {
    if hi <= lo then 0
    else
      var last := if WorkingAt(w, hi - 1) then WageOfDay(wages, employee, LocalDate(hi - 1)) else 0;
      Owed(w, wages, employee, lo, hi - 1) + last
  }

  /** Shifts whose events are not accepted owe nothing yet: they block the line instead. */
  ghost function OwedByAll(db: Db, shifts: seq<nat>, wages: seq<WageRow>, employee: nat, lo: int, hi: int): nat {
    if shifts == [] then 0
    else
      var events := EffectiveEvents(db, shifts[|shifts| - 1]);
      var rest := OwedByAll(db, shifts[..|shifts| - 1], wages, employee, lo, hi);
      if Accepted(events) then rest + Owed(SortByTime(events), wages, employee, lo, hi) else rest
  }

  ghost function WorkedByAll(db: Db, shifts: seq<nat>, lo: int, hi: int): nat {
    if shifts == [] then 0
    else
      var events := EffectiveEvents(db, shifts[|shifts| - 1]);
      var rest := WorkedByAll(db, shifts[..|shifts| - 1], lo, hi);
      if Accepted(events) then rest + WorkedTime(SortByTime(events), lo, hi) else rest
  }

  // ---- What uncut midnights do to it ----

  /** How far the worked stretches of all shifts reach over `p` uncut. */
  ghost function ReachByAll(db: Db, shifts: seq<nat>, p: int): nat {
    if shifts == [] then 0
    else ReachByAll(db, shifts[..|shifts| - 1], p) + UncutReach(EffectiveEvents(db, shifts[|shifts| - 1]), p)
  }

  /** A day's wage for what reaches out of it uncut, less what reached into it and was counted the day before. */
  ghost function Moved(events: seq<Event>, wages: seq<WageRow>, employee: nat, day: int): int {
    WageOfDay(wages, employee, day)
    * (UncutReach(events, SeoulMidnight(day + 1)) - UncutReach(events, SeoulMidnight(day)))
  }

  /** The same over the days a, …, b - 1. */
  ghost function Drift(events: seq<Event>, wages: seq<WageRow>, employee: nat, a: int, b: int): int
    decreases b - a
  {
    if b <= a then 0 else Drift(events, wages, employee, a, b - 1) + Moved(events, wages, employee, b - 1)
  }

  ghost function DriftByAll(db: Db, shifts: seq<nat>, wages: seq<WageRow>, employee: nat, a: int, b: int): int {
    if shifts == [] then 0
    else
      var events := EffectiveEvents(db, shifts[|shifts| - 1]);
      DriftByAll(db, shifts[..|shifts| - 1], wages, employee, a, b) + Drift(events, wages, employee, a, b)
  }

  /** No shift is worked across a Seoul midnight of [a, b] in events of another offset. */
  ghost predicate AlignedDays(events: seq<Event>, a: int, b: int) {
    forall d :: a <= d <= b ==> Aligned(SortByTime(events), SeoulMidnight(d))
  }

  // ---- One shift ----

  /** The pay of the segments that start in [lo, hi). */
  function PayIn(segs: seq<Segment>, wages: seq<WageRow>, employee: nat, lo: int, hi: int): nat {
    if segs == [] then 0
    else
      var rest, s := PayIn(segs[..|segs| - 1], wages, employee, lo, hi), segs[|segs| - 1];
      if lo <= s.start < hi then rest + Micros(s) * WageOfDay(wages, employee, LocalDate(s.start)) else rest
  }

  lemma {:induction false} PayAdds(segs: seq<Segment>, wages: seq<WageRow>, employee: nat, lo: int, mid: int, hi: int)
    requires lo <= mid <= hi
    ensures PayIn(segs, wages, employee, lo, hi)
         == PayIn(segs, wages, employee, lo, mid) + PayIn(segs, wages, employee, mid, hi)
  {
    if segs != [] { PayAdds(segs[..|segs| - 1], wages, employee, lo, mid, hi); }
  }

  lemma {:induction false} OwedAdds(w: seq<Event>, wages: seq<WageRow>, employee: nat, lo: int, mid: int, hi: int)
    requires lo <= mid <= hi
    ensures Owed(w, wages, employee, lo, hi) == Owed(w, wages, employee, lo, mid) + Owed(w, wages, employee, mid, hi)
    decreases hi - mid
  {
    if mid < hi { OwedAdds(w, wages, employee, lo, mid, hi - 1); }
  }

  /** Within one Seoul date the wage is a constant factor. */
  lemma {:induction false} DayPay(segs: seq<Segment>, wages: seq<WageRow>, employee: nat, day: int)
    requires forall i :: 0 <= i < |segs| ==> segs[i].start < segs[i].end
    ensures PayIn(segs, wages, employee, SeoulMidnight(day), SeoulMidnight(day + 1))
         == WageOfDay(wages, employee, day) * PaidIn(segs, SeoulMidnight(day), SeoulMidnight(day + 1))
  {
    if segs != [] {
      var s := segs[|segs| - 1];
      DayPay(segs[..|segs| - 1], wages, employee, day);
      if SeoulMidnight(day) <= s.start < SeoulMidnight(day + 1) {
        LocalDateBounds(s.start, day, day + 1);
        var before := PaidIn(segs[..|segs| - 1], SeoulMidnight(day), SeoulMidnight(day + 1));
        Distribute(WageOfDay(wages, employee, day), before, s.end - s.start);
      }
    }
  }

  lemma Distribute(w: int, a: int, b: int)
    ensures w * (a + b) == w * a + b * w
  {
  }

  lemma {:induction false} DayOwed(w: seq<Event>, wages: seq<WageRow>, employee: nat, day: int, hi: int)
    requires SeoulMidnight(day) <= hi <= SeoulMidnight(day + 1)
    ensures Owed(w, wages, employee, SeoulMidnight(day), hi)
         == WageOfDay(wages, employee, day) * WorkedTime(w, SeoulMidnight(day), hi)
    decreases hi - SeoulMidnight(day)
  {
    if SeoulMidnight(day) < hi {
      DayOwed(w, wages, employee, day, hi - 1);
      LocalDateBounds(hi - 1, day, day + 1);
      Distribute(WageOfDay(wages, employee, day), WorkedTime(w, SeoulMidnight(day), hi - 1), 1);
    }
  }

  lemma DayAttribution(events: seq<Event>, lo: int, hi: int)
    requires Accepted(events) && lo <= hi
    ensures PaidIn(Segments(events), lo, hi)
         == WorkedTime(SortByTime(events), lo, hi) + (UncutReach(events, hi) - UncutReach(events, lo))
    ensures forall i :: 0 <= i < |Segments(events)| ==> Segments(events)[i].start < Segments(events)[i].end
  {
    AttributionLaw(events, lo, hi);
    SpillIsUncutReach(events, lo);
    SpillIsUncutReach(events, hi);
    AcceptedSegments(events);
  }

  lemma AtOneWage(wage: int, pay: int, owed: int, paid: int, worked: int, moved: int)
    requires pay == wage * paid && owed == wage * worked && paid == worked + moved
    ensures pay == owed + wage * moved
  {
  }

  lemma AtTheDaysWage(events: seq<Event>, segs: seq<Segment>, w: seq<Event>, wages: seq<WageRow>, employee: nat,
                      day: int)
    requires forall i :: 0 <= i < |segs| ==> segs[i].start < segs[i].end
    requires var lo, hi := SeoulMidnight(day), SeoulMidnight(day + 1);
      PaidIn(segs, lo, hi) == WorkedTime(w, lo, hi) + (UncutReach(events, hi) - UncutReach(events, lo))
    ensures DayLaw(events, segs, w, wages, employee, day)
  {
    var lo, hi := SeoulMidnight(day), SeoulMidnight(day + 1);
    MidnightsAscend(day, day + 1);
    DayPay(segs, wages, employee, day);
    DayOwed(w, wages, employee, day, hi);
    AtOneWage(WageOfDay(wages, employee, day), PayIn(segs, wages, employee, lo, hi), Owed(w, wages, employee, lo, hi),
              PaidIn(segs, lo, hi), WorkedTime(w, lo, hi), UncutReach(events, hi) - UncutReach(events, lo));
  }

  /** The law of one day for one shift: its events, what the engine makes of them, and their sorted word. */
  ghost predicate DayLaw(events: seq<Event>, segs: seq<Segment>, w: seq<Event>, wages: seq<WageRow>, employee: nat,
                         day: int) {
    var lo, hi := SeoulMidnight(day), SeoulMidnight(day + 1);
    PayIn(segs, wages, employee, lo, hi) == Owed(w, wages, employee, lo, hi) + Moved(events, wages, employee, day)
  }

  lemma OneDayLaw(events: seq<Event>, wages: seq<WageRow>, employee: nat, day: int)
    requires Accepted(events)
    ensures DayLaw(events, Segments(events), SortByTime(events), wages, employee, day)
  {
    MidnightsAscend(day, day + 1);
    DayAttribution(events, SeoulMidnight(day), SeoulMidnight(day + 1));
    AtTheDaysWage(events, Segments(events), SortByTime(events), wages, employee, day);
  }

  lemma MidnightsAscend(a: int, b: int)
    requires a <= b
    ensures SeoulMidnight(a) <= SeoulMidnight(b)
  {
  }

  lemma WindowsJoin(segs: seq<Segment>, w: seq<Event>, wages: seq<WageRow>, employee: nat, lo: int, mid: int, hi: int,
                    d1: int, d2: int)
    requires lo <= mid <= hi
    requires PayIn(segs, wages, employee, lo, mid) == Owed(w, wages, employee, lo, mid) + d1
    requires PayIn(segs, wages, employee, mid, hi) == Owed(w, wages, employee, mid, hi) + d2
    ensures PayIn(segs, wages, employee, lo, hi) == Owed(w, wages, employee, lo, hi) + d1 + d2
  {
    PayAdds(segs, wages, employee, lo, mid, hi);
    OwedAdds(w, wages, employee, lo, mid, hi);
  }

  /** The law of the days a, …, b - 1 for one shift. */
  ghost predicate LawHolds(events: seq<Event>, segs: seq<Segment>, w: seq<Event>, wages: seq<WageRow>, employee: nat,
                           a: int, b: int) {
    PayIn(segs, wages, employee, SeoulMidnight(a), SeoulMidnight(b))
      == Owed(w, wages, employee, SeoulMidnight(a), SeoulMidnight(b)) + Drift(events, wages, employee, a, b)
  }

  lemma OneMoreDay(events: seq<Event>, segs: seq<Segment>, w: seq<Event>, wages: seq<WageRow>, employee: nat,
                   a: int, c: int)
    requires a <= c && LawHolds(events, segs, w, wages, employee, a, c)
    requires DayLaw(events, segs, w, wages, employee, c)
    ensures LawHolds(events, segs, w, wages, employee, a, c + 1)
  {
    MidnightsAscend(a, c);
    MidnightsAscend(c, c + 1);
    WindowsJoin(segs, w, wages, employee, SeoulMidnight(a), SeoulMidnight(c), SeoulMidnight(c + 1),
                Drift(events, wages, employee, a, c), Moved(events, wages, employee, c));
  }

  lemma {:induction false} DaysLaw(events: seq<Event>, wages: seq<WageRow>, employee: nat, a: int, b: int)
    requires Accepted(events) && a <= b
    ensures LawHolds(events, Segments(events), SortByTime(events), wages, employee, a, b)
    decreases b - a
  {
    if a < b {
      DaysLaw(events, wages, employee, a, b - 1);
      OneDayLaw(events, wages, employee, b - 1);
      OneMoreDay(events, Segments(events), SortByTime(events), wages, employee, a, b - 1);
    } else {
      NothingIn(Segments(events), wages, employee, SeoulMidnight(a));
    }
  }

  lemma {:induction false} NothingIn(segs: seq<Segment>, wages: seq<WageRow>, employee: nat, p: int)
    ensures PayIn(segs, wages, employee, p, p) == 0
  {
    if segs != [] { NothingIn(segs[..|segs| - 1], wages, employee, p); }
  }

  // ---- From segments to the rated work of a line ----

  lemma {:induction false} WorkConcat(a: seq<Segment>, b: seq<Segment>, wages: seq<WageRow>, employee: nat)
    ensures WonMicros(WorkOf(a + b, wages, employee))
      == WonMicros(WorkOf(a, wages, employee)) + WonMicros(WorkOf(b, wages, employee))
    decreases |b|
  {
    if b == [] {
      assert a + b == a;
    } else {
      WorkConcatStep(a, b[..|b| - 1], b[|b| - 1], wages, employee);
      assert b == b[..|b| - 1] + [b[|b| - 1]];
    }
  }

  lemma WorkConcatStep(a: seq<Segment>, b: seq<Segment>, s: Segment, wages: seq<WageRow>, employee: nat)
    ensures WonMicros(WorkOf(a + (b + [s]), wages, employee))
         == WonMicros(WorkOf(a, wages, employee)) + WonMicros(WorkOf(b + [s], wages, employee))
    decreases |b| + 1, 0
  {
    WorkConcat(a, b, wages, employee);
    WonSnoc(a + b, s, wages, employee);
    WonSnoc(b, s, wages, employee);
    assert a + (b + [s]) == (a + b) + [s];
  }

  lemma WonSnoc(segs: seq<Segment>, s: Segment, wages: seq<WageRow>, employee: nat)
    ensures WonMicros(WorkOf(segs + [s], wages, employee))
         == WonMicros(WorkOf(segs, wages, employee)) + Micros(s) * WageOfDay(wages, employee, LocalDate(s.start))
  {
    assert (segs + [s])[..|segs|] == segs;
    var wage, work := WageOn(wages, employee, LocalDate(s.start)), WorkOf(segs, wages, employee);
    if wage.Some? { assert (work + [Work(Micros(s), wage.value)])[..|work|] == work; }
  }

  lemma {:induction false} StartingPays(segs: seq<Segment>, wages: seq<WageRow>, employee: nat, lo: int, hi: int)
    ensures WonMicros(WorkOf(StartingIn(segs, lo, hi), wages, employee)) == PayIn(segs, wages, employee, lo, hi)
  {
    if segs != [] {
      StartingPays(segs[..|segs| - 1], wages, employee, lo, hi);
      WonSnoc(StartingIn(segs[..|segs| - 1], lo, hi), segs[|segs| - 1], wages, employee);
    }
  }

  ghost predicate AlignedShifts(db: Db, shifts: seq<nat>, a: int, b: int) {
    forall i :: 0 <= i < |shifts| ==> AlignedDays(EffectiveEvents(db, shifts[i]), a, b)
  }

  lemma CountedSnoc(db: Db, shifts: seq<nat>, lo: int, hi: int)
    requires shifts != []
    ensures var front, events := shifts[..|shifts| - 1], EffectiveEvents(db, shifts[|shifts| - 1]);
      Counted(db, shifts, lo, hi) == Counted(db, front, lo, hi) + StartingIn(Segments(events), lo, hi)
  {
  }

  /** One shift's part of the law; a shift that is not accepted has no segments. */
  lemma ShiftLaw(events: seq<Event>, wages: seq<WageRow>, employee: nat, a: int, b: int)
    requires a <= b
    ensures var lo, hi := SeoulMidnight(a), SeoulMidnight(b);
      WonMicros(WorkOf(StartingIn(Segments(events), lo, hi), wages, employee)) == Drift(events, wages, employee, a, b)
        + (if Accepted(events) then Owed(SortByTime(events), wages, employee, lo, hi) else 0)
  {
    StartingPays(Segments(events), wages, employee, SeoulMidnight(a), SeoulMidnight(b));
    AcceptedIffLegal(events, NO_TERMS);
    if Accepted(events) { DaysLaw(events, wages, employee, a, b); }
    else { NoReachNoDrift(events, wages, employee, a, b); }
  }

  lemma {:induction false} NoReachNoDrift(events: seq<Event>, wages: seq<WageRow>, employee: nat, a: int, b: int)
    requires !Accepted(events)
    ensures Drift(events, wages, employee, a, b) == 0
    decreases b - a
  {
    if a < b { NoReachNoDrift(events, wages, employee, a, b - 1); }
  }

  lemma {:induction false} ShiftsLaw(db: Db, shifts: seq<nat>, wages: seq<WageRow>, employee: nat, a: int, b: int)
    requires a <= b
    ensures var lo, hi := SeoulMidnight(a), SeoulMidnight(b);
      WonMicros(WorkOf(Counted(db, shifts, lo, hi), wages, employee))
        == OwedByAll(db, shifts, wages, employee, lo, hi) + DriftByAll(db, shifts, wages, employee, a, b)
  {
    if shifts != [] {
      var front, events := shifts[..|shifts| - 1], EffectiveEvents(db, shifts[|shifts| - 1]);
      var lo, hi := SeoulMidnight(a), SeoulMidnight(b);
      ShiftsLaw(db, front, wages, employee, a, b);
      CountedSnoc(db, shifts, lo, hi);
      WorkConcat(Counted(db, front, lo, hi), StartingIn(Segments(events), lo, hi), wages, employee);
      ShiftLaw(events, wages, employee, a, b);
    }
  }

  function MicrosOf(segs: seq<Segment>): nat {
    if segs == [] then 0 else MicrosOf(segs[..|segs| - 1]) + Micros(segs[|segs| - 1])
  }

  lemma {:induction false} MicrosConcat(a: seq<Segment>, b: seq<Segment>)
    ensures MicrosOf(a + b) == MicrosOf(a) + MicrosOf(b)
  {
    if b == [] {
      assert a + b == a;
    } else {
      MicrosConcat(a, b[..|b| - 1]);
      assert (a + b)[..|a + b| - 1] == a + b[..|b| - 1];
    }
  }

  lemma {:induction false} StartingIsPaid(segs: seq<Segment>, lo: int, hi: int)
    requires forall i :: 0 <= i < |segs| ==> segs[i].start < segs[i].end
    ensures MicrosOf(StartingIn(segs, lo, hi)) == PaidIn(segs, lo, hi)
  {
    if segs != [] {
      var front, s := segs[..|segs| - 1], segs[|segs| - 1];
      StartingIsPaid(front, lo, hi);
      MicrosConcat(StartingIn(front, lo, hi), [s]);
      assert [s][..0] == [];
    }
  }

  lemma ShiftHoursLaw(events: seq<Event>, lo: int, hi: int)
    requires lo <= hi
    ensures MicrosOf(StartingIn(Segments(events), lo, hi)) == UncutReach(events, hi) - UncutReach(events, lo)
        + (if Accepted(events) then WorkedTime(SortByTime(events), lo, hi) else 0)
  {
    AcceptedIffLegal(events, NO_TERMS);
    if Accepted(events) {
      AcceptedSegments(events);
      StartingIsPaid(Segments(events), lo, hi);
      AttributionLaw(events, lo, hi);
      SpillIsUncutReach(events, lo);
      SpillIsUncutReach(events, hi);
    }
  }

  lemma {:induction false} ShiftsHoursLaw(db: Db, shifts: seq<nat>, lo: int, hi: int)
    requires lo <= hi
    ensures MicrosOf(Counted(db, shifts, lo, hi))
         == WorkedByAll(db, shifts, lo, hi) - ReachByAll(db, shifts, lo) + ReachByAll(db, shifts, hi)
  {
    if shifts != [] {
      var front, events := shifts[..|shifts| - 1], EffectiveEvents(db, shifts[|shifts| - 1]);
      ShiftsHoursLaw(db, front, lo, hi);
      CountedSnoc(db, shifts, lo, hi);
      MicrosConcat(Counted(db, front, lo, hi), StartingIn(Segments(events), lo, hi));
      ShiftHoursLaw(events, lo, hi);
    }
  }

  lemma {:induction false} ExactHours(segs: seq<Segment>, id: real -> real)
    requires forall x :: id(x) == x
    ensures HoursTotal(segs, id) == PerHour(MicrosOf(segs) as real)
  {
    if segs != [] { ExactHours(segs[..|segs| - 1], id); }
  }

  lemma {:induction false} HoursNear(segs: seq<Segment>, rnd: real -> real)
    requires HalfUlp(rnd) && |segs| <= 1_000_000 && PerHour(MicrosOf(segs) as real) <= 100_000_000_000.0
    ensures Near(PerHour(MicrosOf(segs) as real), HoursTotal(segs, rnd), |segs| as real * 0.000_000_000_000_000_25)
    ensures HoursTotal(segs, rnd) >= 0.0
  {
    if segs != [] {
      var n := |segs| - 1;
      var front, x := segs[..n], PerHour(Micros(segs[n]) as real);
      HoursNear(front, rnd);
      var t, s := HoursTotal(front, rnd), rnd(x);
      assert Near(x, s, HalfUnit(x)) && Near(t + s, rnd(t + s), HalfUnit(t + s));
      SumNear(PerHour(MicrosOf(front) as real), t, n, x, s, rnd(t + s));
    }
  }

  lemma MonthNotEmpty(date: Date)
    requires 1 <= date.month <= 12
    ensures Ordinal(FirstOf(date)) < Ordinal(NextMonth(date))
  {
    MonthsAdjoin(date);
  }

  lemma NoReachWhenAligned(events: seq<Event>, p: int)
    requires Accepted(events) && Aligned(SortByTime(events), p)
    ensures UncutReach(events, p) == 0
  {
    SpillIffMisaligned(events, p);
    SpillIsUncutReach(events, p);
  }

  lemma {:induction false} NoDriftOfOne(events: seq<Event>, wages: seq<WageRow>, employee: nat, a: int, b: int)
    requires Accepted(events) && AlignedDays(events, a, b)
    ensures Drift(events, wages, employee, a, b) == 0
    decreases b - a
  {
    if a < b {
      NoDriftOfOne(events, wages, employee, a, b - 1);
      NoReachWhenAligned(events, SeoulMidnight(b));
      NoReachWhenAligned(events, SeoulMidnight(b - 1));
    }
  }

  // ---- Main results ----

  /** The days of a month, and its employee's shifts. */
  function FirstDay(date: Date): int { Ordinal(FirstOf(date)) }
  function EndDay(date: Date): int { Ordinal(NextMonth(date)) }
  function ShiftsFor(books: Books, employee: nat): seq<nat> { ShiftsOf(books.db.shifts, employee) }

  /** What the month's working instants are worth, each at the wage of its Seoul date, plus the drift of stretches that
      reach over a Seoul midnight uncut, both read off the punches: in won-microseconds per hour. */
  ghost function OwedPlusDrift(books: Books, employee: nat, date: Date): int {
    OwedByAll(books.db, ShiftsFor(books, employee), books.wages, employee, MonthStart(date), MonthEnd(date))
    + DriftByAll(books.db, ShiftsFor(books, employee), books.wages, employee, FirstDay(date), EndDay(date))
  }

  /** Every line rates exactly that — over every shift of the employee, corrected or not, whatever offsets its events
      carry, with wages changing anywhere inside it. */
  lemma LineRatesOwedPlusDrift(books: Books, employee: nat, date: Date)
    requires 1 <= date.month <= 12
    ensures WonMicros(WorkOf(CountedFor(books, employee, date), books.wages, employee))
         == OwedPlusDrift(books, employee, date)
  {
    MonthNotEmpty(date);
    ShiftsLaw(books.db, ShiftsFor(books, employee), books.wages, employee, FirstDay(date), EndDay(date));
  }

  /** So its gross pay is that amount, rounded up to whole won once (or, when that is whole already, at most one won
      more). */
  lemma LinePaysOwedPlusDrift(books: Books, employee: nat, date: Date, rnd: real -> real)
    requires 1 <= date.month <= 12 && HalfUlp(rnd) && |CountedFor(books, employee, date)| <= 1_000_000
    requires PerHour(OwedPlusDrift(books, employee, date) as real) <= 100_000_000_000.0
    ensures PaysRounded(LineFor(books, employee, date, rnd).gross, OwedPlusDrift(books, employee, date))
  {
    LineRatesOwedPlusDrift(books, employee, date);
    var segs := CountedFor(books, employee, date);
    WorkNoLonger(segs, books.wages, employee);
    var work := WorkOf(segs, books.wages, employee);
    if work == [] { CeilIs(0.0, 0); }
    GrossIsCeilingOrOneMore(work, rnd);
  }

  predicate PaysRounded(gross: int, amount: int) {
    var pay := PerHour(amount as real);
    gross == CeilWon(pay) || (gross == CeilWon(pay) + 1 && pay == CeilWon(pay) as real)
  }

  lemma {:induction false} WorkNoLonger(segs: seq<Segment>, wages: seq<WageRow>, employee: nat)
    ensures |WorkOf(segs, wages, employee)| <= |segs|
  {
    if segs != [] { WorkNoLonger(segs[..|segs| - 1], wages, employee); }
  }

  /** The microseconds worked in the month, less what the month before has already counted, plus what is counted
      beyond the month's end. */
  ghost function WorkFor(books: Books, employee: nat, date: Date): int {
    var shifts, lo, hi := ShiftsFor(books, employee), MonthStart(date), MonthEnd(date);
    WorkedByAll(books.db, shifts, lo, hi) - ReachByAll(books.db, shifts, lo) + ReachByAll(books.db, shifts, hi)
  }

  lemma LineCountsWork(books: Books, employee: nat, date: Date)
    requires 1 <= date.month <= 12
    ensures MicrosOf(CountedFor(books, employee, date)) == WorkFor(books, employee, date)
  {
    MonthNotEmpty(date);
    MidnightsAscend(FirstDay(date), EndDay(date));
    ShiftsHoursLaw(books.db, ShiftsFor(books, employee), MonthStart(date), MonthEnd(date));
  }

  /** With exact arithmetic these are the line's hours. */
  lemma LineHoursLaw(books: Books, employee: nat, date: Date, id: real -> real)
    requires 1 <= date.month <= 12 && forall x :: id(x) == x
    ensures LineFor(books, employee, date, id).totalHours == PerHour(WorkFor(books, employee, date) as real)
  {
    LineCountsWork(books, employee, date);
    ExactHours(CountedFor(books, employee, date), id);
  }

  /** In the decimal context the hours differ from that by at most 2.5e-16 for each counted segment. */
  lemma LineHoursNear(books: Books, employee: nat, date: Date, rnd: real -> real)
    requires 1 <= date.month <= 12 && HalfUlp(rnd) && |CountedFor(books, employee, date)| <= 1_000_000
    requires PerHour(WorkFor(books, employee, date) as real) <= 100_000_000_000.0
    ensures Near(PerHour(WorkFor(books, employee, date) as real), LineFor(books, employee, date, rnd).totalHours,
                 |CountedFor(books, employee, date)| as real * 0.000_000_000_000_000_25)
  {
    LineCountsWork(books, employee, date);
    HoursNear(CountedFor(books, employee, date), rnd);
  }

  /** Without shifts worked across a Seoul midnight in events of another offset there is no drift: the amount is the
      wage of each working instant, and nothing else. */
  lemma AlignedShiftsOweTheirInstants(books: Books, employee: nat, date: Date)
    requires AlignedShifts(books.db, ShiftsFor(books, employee), FirstDay(date), EndDay(date))
    ensures OwedPlusDrift(books, employee, date)
         == OwedByAll(books.db, ShiftsFor(books, employee), books.wages, employee, MonthStart(date), MonthEnd(date))
  {
    NoDrift(books.db, ShiftsFor(books, employee), books.wages, employee, FirstDay(date), EndDay(date));
  }

  lemma {:induction false} NoDrift(db: Db, shifts: seq<nat>, wages: seq<WageRow>, employee: nat, a: int, b: int)
    requires AlignedShifts(db, shifts, a, b)
    ensures DriftByAll(db, shifts, wages, employee, a, b) == 0
  {
    if shifts != [] {
      var front, events := shifts[..|shifts| - 1], EffectiveEvents(db, shifts[|shifts| - 1]);
      assert forall i :: 0 <= i < |front| ==> front[i] == shifts[i];
      NoDrift(db, front, wages, employee, a, b);
      AcceptedIffLegal(events, NO_TERMS);
      if Accepted(events) { NoDriftOfOne(events, wages, employee, a, b); }
      else { NoReachNoDrift(events, wages, employee, a, b); }
    }
  }

  // ---- Wage changes do not reach back ----

  lemma {:induction false} FlatAt<T>(ids: seq<nat>, f: nat -> seq<T>, k: nat) returns (i: nat, j: nat)
    requires k < |Flat(ids, f)|
    ensures i < |ids| && j < |f(ids[i])| && Flat(ids, f)[k] == f(ids[i])[j]
  {
    var n := |ids| - 1;
    var front := Flat(ids[..n], f);
    if k < |front| { i, j := FlatAt(ids[..n], f, k); } else { i, j := n, k - |front|; }
  }

  lemma CountedStart(db: Db, shifts: seq<nat>, lo: int, hi: int, k: nat)
    requires k < |Counted(db, shifts, lo, hi)|
    ensures lo <= Counted(db, shifts, lo, hi)[k].start < hi
  {
    var i, j := FlatAt(shifts, StartsOf(db, lo, hi), k);
    StartsIn(Segments(EffectiveEvents(db, shifts[i])), lo, hi, j);
  }

  lemma {:induction false} StartsIn(segs: seq<Segment>, lo: int, hi: int, k: nat)
    requires k < |StartingIn(segs, lo, hi)|
    ensures lo <= StartingIn(segs, lo, hi)[k].start < hi
  {
    if k < |StartingIn(segs[..|segs| - 1], lo, hi)| { StartsIn(segs[..|segs| - 1], lo, hi, k); }
  }

  lemma {:induction false} SameWagesSameWork(segs: seq<Segment>, a: seq<WageRow>, b: seq<WageRow>, employee: nat)
    requires forall i :: 0 <= i < |segs| ==>
      WageOn(a, employee, LocalDate(segs[i].start)) == WageOn(b, employee, LocalDate(segs[i].start))
    ensures WorkOf(segs, a, employee) == WorkOf(segs, b, employee)
  {
    if segs != [] {
      assert forall i :: 0 <= i < |segs[..|segs| - 1]| ==> segs[..|segs| - 1][i] == segs[i];
      SameWagesSameWork(segs[..|segs| - 1], a, b, employee);
    }
  }

  lemma WageAtStart(wages: seq<WageRow>, employee: nat, day: int)
    requires Apart(wages)
    ensures var i := LastInForce(wages, employee, day);
      WageOn(wages, employee, day) == if i.Some? then Some(wages[i.value].amount) else None
  {
    OrdersAgree(wages, employee, day);
  }

  /** Every counted segment starts on a date of the month. */
  lemma CountedDate(books: Books, employee: nat, date: Date, k: nat)
    requires k < |CountedFor(books, employee, date)|
    ensures Ordinal(FirstOf(date)) <= LocalDate(CountedFor(books, employee, date)[k].start) < Ordinal(NextMonth(date))
  {
    CountedStart(books.db, ShiftsOf(books.db.shifts, employee), MonthStart(date), MonthEnd(date), k);
    LocalDateBounds(CountedFor(books, employee, date)[k].start, Ordinal(FirstOf(date)), Ordinal(NextMonth(date)));
  }

  /** A line reads wages only on dates of its month. */
  lemma LineReadsItsMonth(books: Books, rows: seq<WageRow>, employee: nat, date: Date, rnd: real -> real)
    requires 1 <= date.month <= 12 && Apart(books.wages) && Apart(rows)
    requires forall day :: Ordinal(FirstOf(date)) <= day < Ordinal(NextMonth(date)) ==>
      WageOn(rows, employee, day) == WageOn(books.wages, employee, day)
    ensures LineFor(books.(wages := rows), employee, date, rnd) == LineFor(books, employee, date, rnd)
  {
    MonthNotEmpty(date);
    WageAtStart(books.wages, employee, Ordinal(FirstOf(date)));
    WageAtStart(rows, employee, Ordinal(FirstOf(date)));
    var segs := CountedFor(books, employee, date);
    forall i | 0 <= i < |segs|
      ensures WageOn(books.wages, employee, LocalDate(segs[i].start))
        == WageOn(rows, employee, LocalDate(segs[i].start)) {
      CountedDate(books, employee, date, i);
    }
    SameWagesSameWork(segs, books.wages, rows, employee);
  }

  /** Setting a wage from a month on leaves every earlier month's lines exactly as they were, for everyone. */
  lemma EarlierLinesUnchanged(books: Books, changed: nat, from: Date, amount: nat, employee: nat, date: Date,
                              rnd: real -> real)
    requires 1 <= date.month <= 12 && Ordinal(NextMonth(date)) <= Ordinal(FirstOf(from)) && Apart(books.wages)
    requires SetWage(books.wages, changed, Ordinal(FirstOf(from)), amount).Saved?
    ensures var after := books.(wages := SetWage(books.wages, changed, Ordinal(FirstOf(from)), amount).rows);
      LineFor(after, employee, date, rnd) == LineFor(books, employee, date, rnd)
  {
    var m := Ordinal(FirstOf(from));
    var rows := SetWage(books.wages, changed, m, amount).rows;
    SetKeepsApart(books.wages, changed, m, amount);
    forall day | Ordinal(FirstOf(date)) <= day < Ordinal(NextMonth(date))
      ensures WageOn(rows, employee, day) == WageOn(books.wages, employee, day) {
      SetOverwrites(books.wages, changed, m, amount, employee, day);
    }
    LineReadsItsMonth(books, rows, employee, date, rnd);
  }
}
