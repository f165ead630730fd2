/** The monthly payroll lines: every employee's hours, gross pay and blockers, computed live from the effective
    events and the wage rows. */
module Preview {
  import opened Sorting
  import opened TimeCalculation
  import opened Attribution
  import opened MonthScope
  import opened AttendanceDb
  import opened Calendar
  import opened Wages
  import opened BasePay

  /** `code` stands for the place of the employee code in the database's ordering. */
  datatype Employee = Employee(code: int, hired: int, left: Option<int>)
  datatype Books = Books(staff: seq<Employee>, wages: seq<WageRow>, db: Db)

  datatype LineBlocker = FromTime(blocker: Blocker) | MissingHourlyWage
  datatype PayrollLine = PayrollLine(employee: nat, totalHours: real, hourlyWage: Option<nat>, gross: int,
                                     blockers: set<LineBlocker>)

  // ---- Queries ----

  predicate EmployedIn(e: Employee, date: Date) {
    e.hired < Ordinal(NextMonth(date)) && (e.left.Some? ==> Ordinal(FirstOf(date)) <= e.left.value)
  }

  function EmployeeIds(staff: seq<Employee>, date: Date): (r: seq<nat>)
    ensures forall i :: 0 <= i < |r| ==> r[i] < |staff| && EmployedIn(staff[r[i]], date)
  {
    if staff == [] then []
    else
      var n := |staff| - 1;
      if EmployedIn(staff[n], date) then EmployeeIds(staff[..n], date) + [n] else EmployeeIds(staff[..n], date)
  }

  function EmployeesOf(staff: seq<Employee>, date: Date): seq<nat> {
    SortBy(EmployeeIds(staff, date), (i: nat) => if i < |staff| then staff[i].code else 0)
  }

  function ShiftIds(rows: seq<ShiftRow>, employee: nat): (r: seq<nat>)
    ensures forall i :: 0 <= i < |r| ==> r[i] < |rows| && rows[r[i]].employee == employee
  {
    if rows == [] then []
    else
      var n := |rows| - 1;
      if rows[n].employee == employee then ShiftIds(rows[..n], employee) + [n] else ShiftIds(rows[..n], employee)
  }

  /** ORDER BY opened_at, id. */
  function ShiftsOf(rows: seq<ShiftRow>, employee: nat): seq<nat> {
    SortBy(ShiftIds(rows, employee), (i: nat) => if i < |rows| then rows[i].openedAt else 0)
  }

  // ---- What a line is made of ----

  function Micros(s: Segment): nat { if s.start < s.end then s.end - s.start else 0 }

  function StartingIn(segs: seq<Segment>, lo: int, hi: int): seq<Segment> {
    if segs == [] then []
    else
      var rest, s := StartingIn(segs[..|segs| - 1], lo, hi), segs[|segs| - 1];
      if lo <= s.start < hi then rest + [s] else rest
  }

  function Flat<T>(ids: seq<nat>, f: nat -> seq<T>): seq<T> {
    if ids == [] then [] else Flat(ids[..|ids| - 1], f) + f(ids[|ids| - 1])
  }

  function Union<T>(ids: seq<nat>, f: nat -> set<T>): set<T> {
    if ids == [] then {} else Union(ids[..|ids| - 1], f) + f(ids[|ids| - 1])
  }

  function StartsOf(db: Db, lo: int, hi: int): nat -> seq<Segment> {
    (shift: nat) => StartingIn(Segments(EffectiveEvents(db, shift)), lo, hi)
  }

  /** The segments a month pays for: those of any of the shifts that start in it. */
  function Counted(db: Db, shifts: seq<nat>, lo: int, hi: int): seq<Segment> { Flat(shifts, StartsOf(db, lo, hi)) }

  /** Each counted segment at the wage of the Seoul date it starts on; without a wage it is not rated. */
  function WorkOf(segs: seq<Segment>, wages: seq<WageRow>, employee: nat): seq<Work> {
    if segs == [] then []
    else
      var rest, s := WorkOf(segs[..|segs| - 1], wages, employee), segs[|segs| - 1];
      var wage := WageOn(wages, employee, LocalDate(s.start));
      if wage.Some? then rest + [Work(Micros(s), wage.value)] else rest
  }

  function HoursTotal(segs: seq<Segment>, rnd: real -> real): real {
    if segs == [] then 0.0
    else rnd(HoursTotal(segs[..|segs| - 1], rnd) + HoursOf(Micros(segs[|segs| - 1]), rnd))
  }

  predicate AnyUnpaid(segs: seq<Segment>, wages: seq<WageRow>, employee: nat) {
    exists i :: 0 <= i < |segs| && WageOn(wages, employee, LocalDate(segs[i].start)).None?
  }

  function FromTimeAll(blockers: seq<Blocker>): set<LineBlocker> { set b | b in blockers :: FromTime(b) }

  function ShiftBlockers(events: seq<Event>, lo: int, hi: int): set<LineBlocker> {
    var window := EffectiveShiftWindow(events, lo, hi);
    if window.touches then FromTimeAll(window.timeResult.blockers) else {}
  }

  function BlockersOf(db: Db, lo: int, hi: int): nat -> set<LineBlocker> {
    (shift: nat) => ShiftBlockers(EffectiveEvents(db, shift), lo, hi)
  }

  function TimeBlockers(db: Db, shifts: seq<nat>, lo: int, hi: int): set<LineBlocker> {
    Union(shifts, BlockersOf(db, lo, hi))
  }

  function CountedFor(books: Books, employee: nat, date: Date): seq<Segment> {
    Counted(books.db, ShiftsOf(books.db.shifts, employee), MonthStart(date), MonthEnd(date))
  }

  /** The running totals of one employee's loop. */
  datatype Tally = Tally(hours: real, rated: seq<RatedSegment>, missing: bool)

  function TallyOf(segs: seq<Segment>, wages: seq<WageRow>, employee: nat, rnd: real -> real): Tally {
    Tally(HoursTotal(segs, rnd), Rated(WorkOf(segs, wages, employee), rnd), AnyUnpaid(segs, wages, employee))
  }

  function GrossOf(work: seq<Work>, rnd: real -> real): int {
    if work == [] then 0 else CeilWon(GrossTotal(Rated(work, rnd), rnd))
  }

  function LineFor(books: Books, employee: nat, date: Date, rnd: real -> real): PayrollLine {
    var segs := CountedFor(books, employee, date);
    var atStart := LastInForce(books.wages, employee, Ordinal(FirstOf(date)));
    PayrollLine(employee, HoursTotal(segs, rnd),
                if atStart.Some? then Some(books.wages[atStart.value].amount) else None,
                GrossOf(WorkOf(segs, books.wages, employee), rnd),
                TimeBlockers(books.db, ShiftsOf(books.db.shifts, employee), MonthStart(date), MonthEnd(date))
                + (if AnyUnpaid(segs, books.wages, employee) || atStart.None? then {MissingHourlyWage} else {}))
  }

  // ---- The loops ----

  lemma StartingSnoc(segs: seq<Segment>, s: Segment, lo: int, hi: int)
    ensures StartingIn(segs + [s], lo, hi) == if lo <= s.start < hi then StartingIn(segs, lo, hi) + [s]
      else StartingIn(segs, lo, hi)
  {
    assert (segs + [s])[..|segs|] == segs;
  }

  lemma RatedSnoc(work: seq<Work>, w: Work, rnd: real -> real)
    ensures Rated(work + [w], rnd) == Rated(work, rnd) + [RatedSegment(HoursOf(w.micros, rnd), w.hourlyWage)]
  {
  }

  function Tallied(t: Tally, s: Segment, wages: seq<WageRow>, employee: nat, rnd: real -> real): Tally {
    var h, wage := HoursOf(Micros(s), rnd), WageOn(wages, employee, LocalDate(s.start));
    if wage.None? then Tally(rnd(t.hours + h), t.rated, true)
    else Tally(rnd(t.hours + h), t.rated + [RatedSegment(h, wage.value)], t.missing)
  }

  lemma TallySnoc(segs: seq<Segment>, s: Segment, wages: seq<WageRow>, employee: nat, rnd: real -> real)
    ensures TallyOf(segs + [s], wages, employee, rnd)
      == Tallied(TallyOf(segs, wages, employee, rnd), s, wages, employee, rnd)
  {
    var all := segs + [s];
    assert all[..|segs|] == segs && all[|segs|] == s;
    var wage := WageOn(wages, employee, LocalDate(s.start));
    if wage.Some? { RatedSnoc(WorkOf(segs, wages, employee), Work(Micros(s), wage.value), rnd); }
    if i: nat :| i < |segs| && WageOn(wages, employee, LocalDate(segs[i].start)).None? { assert all[i] == segs[i]; }
  }

  method RateSegment(start: Tally, s: Segment, wages: seq<WageRow>, employee: nat, rnd: real -> real) returns (t: Tally)
    ensures t == Tallied(start, s, wages, employee, rnd)
  {
    var hours := HoursOf(Micros(s), rnd);
    t := start.(hours := rnd(start.hours + hours));
    var wage := WageOn(wages, employee, LocalDate(s.start));
    if wage.None? {
      return t.(missing := true);
    }
    t := t.(rated := t.rated + [RatedSegment(hours, wage.value)]);
  }

  /** The innermost loop: one shift's segments are added to the running totals. */
  method RateSegments(segs: seq<Segment>, lo: int, hi: int, wages: seq<WageRow>, employee: nat, rnd: real -> real,
                      ghost before: seq<Segment>, start: Tally) returns (t: Tally)
    requires start == TallyOf(before, wages, employee, rnd)
    ensures t == TallyOf(before + StartingIn(segs, lo, hi), wages, employee, rnd)
  {
    t := start;
    ghost var all := before;
    assert before + [] == before;
    for k := 0 to |segs|
      invariant all == before + StartingIn(segs[..k], lo, hi)
      invariant t == TallyOf(all, wages, employee, rnd)
    {
      assert segs[..k + 1] == segs[..k] + [segs[k]];
      StartingSnoc(segs[..k], segs[k], lo, hi);
      if lo <= segs[k].start < hi {
        TallySnoc(all, segs[k], wages, employee, rnd);
        t := RateSegment(t, segs[k], wages, employee, rnd);
        all := all + [segs[k]];
      }
    }
    assert segs[..|segs|] == segs;
  }

  /** A shift that does not touch the month has nothing to count in it. */
  lemma OutOfScopeCountsNothing(events: seq<Event>, lo: int, hi: int)
    requires !Touches(events, lo, hi)
    ensures StartingIn(Segments(events), lo, hi) == []
  {
    NoneStart(Segments(events), lo, hi);
  }

  lemma {:induction false} NoneStart(segs: seq<Segment>, lo: int, hi: int)
    requires !SegmentStartsIn(segs, lo, hi)
    ensures StartingIn(segs, lo, hi) == []
  {
    if segs != [] {
      assert forall i :: 0 <= i < |segs[..|segs| - 1]| ==> segs[..|segs| - 1][i] == segs[i];
      NoneStart(segs[..|segs| - 1], lo, hi);
    }
  }

  lemma RatedHoursNonNegative(work: seq<Work>, rnd: real -> real)
    requires HalfUlp(rnd)
    ensures forall i :: 0 <= i < |work| ==> Rated(work, rnd)[i].hours >= 0.0
  {
    forall i | 0 <= i < |work| ensures Rated(work, rnd)[i].hours >= 0.0 {
      var x := PerHour(work[i].micros as real);
      assert Near(x, rnd(x), HalfUnit(x));
    }
  }

  method RateShift(events: seq<Event>, lo: int, hi: int, wages: seq<WageRow>, employee: nat, rnd: real -> real,
                   ghost before: seq<Segment>, start: Tally, blockers0: set<LineBlocker>)
      returns (t: Tally, blockers: set<LineBlocker>)
    requires start == TallyOf(before, wages, employee, rnd)
    ensures t == TallyOf(before + StartingIn(Segments(events), lo, hi), wages, employee, rnd)
    ensures blockers == blockers0 + ShiftBlockers(events, lo, hi)
  {
    var scoped := EffectiveShiftWindow(events, lo, hi);
    if !scoped.touches {
      OutOfScopeCountsNothing(events, lo, hi);
      assert before + [] == before;
      return start, blockers0;
    }
    blockers := blockers0 + FromTimeAll(scoped.timeResult.blockers);
    t := RateSegments(scoped.timeResult.segments, lo, hi, wages, employee, rnd, before, start);
  }

  method RateShifts(db: Db, shifts: seq<nat>, lo: int, hi: int, wages: seq<WageRow>, employee: nat, rnd: real -> real)
      returns (t: Tally, blockers: set<LineBlocker>)
    ensures t == TallyOf(Counted(db, shifts, lo, hi), wages, employee, rnd)
    ensures blockers == TimeBlockers(db, shifts, lo, hi)
  {
    t, blockers := Tally(0.0, [], false), {};
    for i := 0 to |shifts|
      invariant t == TallyOf(Counted(db, shifts[..i], lo, hi), wages, employee, rnd)
      invariant blockers == TimeBlockers(db, shifts[..i], lo, hi)
    {
      assert shifts[..i + 1][..i] == shifts[..i];
      t, blockers := RateShift(EffectiveEvents(db, shifts[i]), lo, hi, wages, employee, rnd,
                               Counted(db, shifts[..i], lo, hi), t, blockers);
    }
    assert shifts[..|shifts|] == shifts;
  }

  /** Hours computed from segments are never negative, so the base pay never raises here. */
  method Gross(rated: seq<RatedSegment>, rnd: real -> real, ghost work: seq<Work>) returns (gross: int)
    requires HalfUlp(rnd) && rated == Rated(work, rnd)
    ensures gross == GrossOf(work, rnd)
  {
    gross := 0;
    if rated != [] {
      RatedHoursNonNegative(work, rnd);
      var pay := CalculateBasePay(rated, rnd);
      gross := pay.amountKrw;
    }
  }

  method LineOf(books: Books, employee: nat, date: Date, rnd: real -> real) returns (line: PayrollLine)
    requires HalfUlp(rnd)
    ensures line == LineFor(books, employee, date, rnd)
  {
    var atStart := LastInForce(books.wages, employee, Ordinal(FirstOf(date)));
    var t, blockers := RateShifts(books.db, ShiftsOf(books.db.shifts, employee), MonthStart(date), MonthEnd(date),
                                  books.wages, employee, rnd);
    if t.missing || atStart.None? {
      blockers := blockers + {MissingHourlyWage};
    }
    var gross := Gross(t.rated, rnd, WorkOf(CountedFor(books, employee, date), books.wages, employee));
    line := PayrollLine(employee, t.hours, if atStart.Some? then Some(books.wages[atStart.value].amount) else None,
                        gross, blockers);
  }

  function Each<T>(ids: seq<nat>, f: nat -> T): seq<T> {
    if ids == [] then [] else Each(ids[..|ids| - 1], f) + [f(ids[|ids| - 1])]
  }

  function Liner(books: Books, date: Date, rnd: real -> real): nat -> PayrollLine {
    (employee: nat) => LineFor(books, employee, date, rnd)
  }

  function LinesFor(books: Books, date: Date, rnd: real -> real): seq<PayrollLine> {
    Each(EmployeesOf(books.staff, date), Liner(books, date, rnd))
  }

  lemma {:induction false} EachAt<T>(ids: seq<nat>, f: nat -> T, i: nat)
    requires i < |ids|
    ensures |Each(ids, f)| == |ids| && Each(ids, f)[i] == f(ids[i])
  {
    var n := |ids| - 1;
    if n > 0 { EachAt(ids[..n], f, if i < n then i else 0); }
  }

  /** One line for each employee of the month, in the order of their codes. */
  method MonthlyPayrollLines(books: Books, date: Date, rnd: real -> real) returns (lines: seq<PayrollLine>)
    requires HalfUlp(rnd)
    ensures lines == LinesFor(books, date, rnd)
  {
    var employees := EmployeesOf(books.staff, date);
    lines := [];
    for i := 0 to |employees|
      invariant lines == Each(employees[..i], Liner(books, date, rnd))
    {
      var line := LineOf(books, employees[i], date, rnd);
      assert employees[..i + 1][..i] == employees[..i];
      lines := lines + [line];
    }
    assert employees[..|employees|] == employees;
  }

  /** Line by line. */
  lemma LinesForAt(books: Books, date: Date, rnd: real -> real, i: nat)
    requires i < |EmployeesOf(books.staff, date)|
    ensures |LinesFor(books, date, rnd)| == |EmployeesOf(books.staff, date)|
    ensures LinesFor(books, date, rnd)[i] == LineFor(books, EmployeesOf(books.staff, date)[i], date, rnd)
  {
    EachAt(EmployeesOf(books.staff, date), Liner(books, date, rnd), i);
  }
}
