/** The payload a month is closed with, built from its payroll lines when none of them is blocked. */
module MonthPayload {
  import opened TimeCalculation
  import opened AttendanceRun
  import opened AttendanceWords
  import opened Calendar
  import opened Wages
  import opened BasePay
  import opened Preview
  import opened PreviewRuns
  import opened CloseGate

  datatype BuildBlocker = FromLine(b: LineBlocker) | NoPayrollLines
  datatype Build = BuildBlocked(blockers: set<BuildBlocker>) | Built(lines: seq<PayloadLine>)

  function CodeOf(staff: seq<Employee>, employee: nat): int { if employee < |staff| then staff[employee].code else 0 }

  function PayloadOf(line: PayrollLine, staff: seq<Employee>): PayloadLine {
    PayloadLine(Some(CodeOf(staff, line.employee)), [Item("기본급", line.gross)], [], line.gross,
                true, true, line.blockers, None, true, false)
  }

  ghost predicate SomeBlocked(lines: seq<PayrollLine>, b: LineBlocker) {
    exists i :: 0 <= i < |lines| && b in lines[i].blockers
  }

  method BuildFrom(lines: seq<PayrollLine>, staff: seq<Employee>) returns (r: Build)
    ensures r.Built? <==> lines != [] && forall i :: 0 <= i < |lines| ==> lines[i].blockers == {}
    ensures r.Built? ==> |r.lines| == |lines| && forall i :: 0 <= i < |lines| ==>
      r.lines[i] == PayloadOf(lines[i], staff)
    ensures r.BuildBlocked? ==> (NoPayrollLines in r.blockers <==> lines == [])
    ensures r.BuildBlocked? ==> forall b :: FromLine(b) in r.blockers <==> SomeBlocked(lines, b)
  {
    var blockers: set<BuildBlocker> := {};
    for i := 0 to |lines|
      invariant NoPayrollLines !in blockers
      invariant forall b :: FromLine(b) in blockers <==> exists k :: 0 <= k < i && b in lines[k].blockers
      invariant blockers == {} <==> forall k :: 0 <= k < i ==> lines[k].blockers == {}
    {
      var raised := set b | b in lines[i].blockers :: FromLine(b);
      if lines[i].blockers != {} {
        var b :| b in lines[i].blockers;
        assert FromLine(b) in raised;
      }
      blockers := blockers + raised;
    }
    if lines == [] {
      blockers := blockers + {NoPayrollLines};
    }
    if blockers != {} {
      return BuildBlocked(blockers);
    }
    r := Built(seq(|lines|, i requires 0 <= i < |lines| => PayloadOf(lines[i], staff)));
  }

  ghost predicate Buildable(books: Books, date: Date, rnd: real -> real) {
    var lines := LinesFor(books, date, rnd);
    lines != [] && forall i :: 0 <= i < |lines| ==> lines[i].blockers == {}
  }

  ghost predicate BuiltFrom(payload: seq<PayloadLine>, books: Books, date: Date, rnd: real -> real) {
    var lines := LinesFor(books, date, rnd);
    && |payload| == |lines|
    && forall i :: 0 <= i < |lines| ==> lines[i].blockers == {} && payload[i] == PayloadOf(lines[i], books.staff)
  }

  /** The payload made of these lines, if there are any and none is blocked. */
  function PayloadFrom(lines: seq<PayrollLine>, staff: seq<Employee>): Option<seq<PayloadLine>> {
    if lines == [] || exists i :: 0 <= i < |lines| && lines[i].blockers != {} then None
    else Some(seq(|lines|, i requires 0 <= i < |lines| => PayloadOf(lines[i], staff)))
  }

  /** The payload of a month, if it has one. */
  function PayloadFor(books: Books, date: Date, rnd: real -> real): (r: Option<seq<PayloadLine>>)
    ensures r.Some? <==> Buildable(books, date, rnd)
    ensures r.Some? ==> BuiltFrom(r.value, books, date, rnd)
  {
    PayloadFrom(LinesFor(books, date, rnd), books.staff)
  }

  method BuildMonthPayload(books: Books, date: Date, rnd: real -> real) returns (r: Build)
    requires HalfUlp(rnd)
    ensures r.Built? <==> Buildable(books, date, rnd)
    ensures r.Built? ==> BuiltFrom(r.lines, books, date, rnd)
    ensures r.BuildBlocked? ==> (NoPayrollLines in r.blockers <==> LinesFor(books, date, rnd) == [])
    ensures r.BuildBlocked? ==> forall b :: FromLine(b) in r.blockers <==> SomeBlocked(LinesFor(books, date, rnd), b)
    ensures PayloadFor(books, date, rnd) == if r.Built? then Some(r.lines) else None
  {
    var lines := MonthlyPayrollLines(books, date, rnd);
    r := BuildFrom(lines, books.staff);
    if r.Built? { assert r.lines == PayloadFor(books, date, rnd).value; }
  }

  // ---- What such a payload can be refused for ----

  lemma {:induction false} GrossNonNegative(work: seq<Work>, rnd: real -> real)
    requires HalfUlp(rnd)
    ensures GrossTotal(Rated(work, rnd), rnd) >= 0.0
  {
    if work != [] {
      var front, last := work[..|work| - 1], work[|work| - 1];
      GrossNonNegative(front, rnd);
      GrossSplits(work, rnd);
      SubtotalNonNegative(last, rnd);
      NonNegative(rnd, GrossTotal(Rated(front, rnd), rnd) + rnd(Times(HoursOf(last.micros, rnd), last.hourlyWage)));
    }
  }

  lemma SubtotalNonNegative(w: Work, rnd: real -> real)
    requires HalfUlp(rnd)
    ensures rnd(Times(HoursOf(w.micros, rnd), w.hourlyWage)) >= 0.0
  {
    NonNegative(rnd, PerHour(w.micros as real));
    MulKeeps(0.0, HoursOf(w.micros, rnd), w.hourlyWage as real);
    NonNegative(rnd, Times(HoursOf(w.micros, rnd), w.hourlyWage));
  }

  lemma NonNegative(rnd: real -> real, x: real)
    requires HalfUlp(rnd) && x >= 0.0
    ensures rnd(x) >= 0.0
  {
    assert Near(x, rnd(x), HalfUnit(x));
  }

  /** The only thing that can still hold back a line of a built payload is the labour week across the month's end,
      by the employee's terms. */
  lemma BuiltLineReadyIff(line: PayrollLine, staff: seq<Employee>, terms: seq<TermRow>, month: Date, today: int)
    requires line.blockers == {} && line.gross >= 0
    ensures LineReady(PayloadOf(line, staff), terms, month, today)
       <==> !WeekBlocks(PayloadOf(line, staff), terms, month, today)
  {
  }

  /** Six days after the month has ended nothing in a built payload can block its closing. */
  lemma BuiltPayloadIsReady(payload: seq<PayloadLine>, books: Books, date: Date, rnd: real -> real,
                            terms: seq<TermRow>, today: int)
    requires 1 <= date.month <= 12 && HalfUlp(rnd) && BuiltFrom(payload, books, date, rnd)
    requires Ordinal(NextMonth(date)) + 5 <= today
    ensures forall i :: 0 <= i < |payload| ==> LineReady(payload[i], terms, date, today)
  {
    var employees := EmployeesOf(books.staff, date);
    MonthsAdjoin(date);
    forall i | 0 <= i < |payload| ensures LineReady(payload[i], terms, date, today) {
      if employees != [] { LinesForAt(books, date, rnd, if i < |employees| then i else 0); }
      var line := LineFor(books, employees[i], date, rnd);
      GrossNonNegative(WorkOf(CountedFor(books, employees[i], date), books.wages, employees[i]), rnd);
      var rest := RestWeekday(payload[i], terms, today);
      if rest.Some? { WeeklyAllowance.WhenItBlocks(date, rest.value, today); }
      BuiltLineReadyIff(line, books.staff, terms, date, today);
    }
  }

  /** From the sixth of a month on, a payload built for the previous month closes it unless a shift of that month is
      still open or not approved in its current state. */
  lemma FromTheSixthOnlyShiftsBlock(w: World, books: Books, d: Date, payload: seq<PayloadLine>, rnd: real -> real)
    requires 1 <= d.month <= 12 && 6 <= d.day && w.today == Ordinal(d) && HalfUlp(rnd)
    requires BuiltFrom(payload, books, PreviousMonth(d), rnd)
    ensures var month := PreviousMonth(d);
      MayClose(w, w, w, month, payload) <==> !SomeOpenShift(w.books.db, month) && !SomeUnapproved(w.books.db, month)
  {
    assert NextMonth(PreviousMonth(d)) == FirstOf(d);
    BuiltPayloadIsReady(payload, books, PreviousMonth(d), rnd, w.terms, w.today);
  }

  // ---- Consequences over histories ----

  /** A month in which anyone is hired after its first day can never be built, whatever wages are set. */
  lemma MidMonthHireBlocksTheMonth(acts: seq<Act>, books: Books, employee: nat, date: Date, rnd: real -> real)
    requires books.wages == History(acts).rows && employee < |books.staff| == |History(acts).hires|
    requires books.staff[employee].hired == History(acts).hires[employee] && 1 <= date.month <= 12
    requires EmployedIn(books.staff[employee], date) && Ordinal(FirstOf(date)) < books.staff[employee].hired
    ensures !Buildable(books, date, rnd)
  {
    MidMonthHireCannotBePaid(acts, books, employee, date, 0, rnd);
    var employees := EmployeesOf(books.staff, date);
    var i :| 0 <= i < |employees| && employees[i] == employee;
    LinesForAt(books, date, rnd, i);
  }

  predicate StillIn(books: Books, employee: nat, date: Date) {
    exists sh :: 0 <= sh < |books.db.shifts| && books.db.shifts[sh].employee == employee
              && StillOpenBefore(books.db, sh, MonthEnd(date))
  }

  /** Hired by the first of the month, and not still clocked in from before its end. */
  predicate ReadyToPay(books: Books, hires: seq<int>, employee: nat, date: Date) {
    employee < |hires| && hires[employee] <= Ordinal(FirstOf(date)) && !StillIn(books, employee, date)
  }

  ghost predicate SomeoneEmployed(staff: seq<Employee>, date: Date) {
    exists e :: 0 <= e < |staff| && EmployedIn(staff[e], date)
  }

  ghost predicate EveryoneReadyToPay(books: Books, hires: seq<int>, date: Date) {
    forall e :: 0 <= e < |books.staff| && EmployedIn(books.staff[e], date) ==> ReadyToPay(books, hires, e, date)
  }

  /** After any timely history of punches, entries, approvals, corrections, hirings and wage changes, a month's
      payload can be built exactly when it has an employee, each of them was hired by its first day, and none has
      a shift, clocked in before its end, that is still open. */
  lemma BuildableIff(schedule: seq<Choice>, acts: seq<Act>, books: Books, date: Date, rnd: real -> real)
    requires AllTimely(schedule) && books.db == Run(EMPTY, schedule).db && 1 <= date.month <= 12
    requires books.wages == History(acts).rows && |books.staff| == |History(acts).hires|
    ensures Buildable(books, date, rnd) <==>
      SomeoneEmployed(books.staff, date) && EveryoneReadyToPay(books, History(acts).hires, date)
  {
    var employees := EmployeesOf(books.staff, date);
    BuildableLineByLine(books, date, rnd);
    MonthList(books, History(acts).hires, date);
    forall i | 0 <= i < |employees|
      ensures LineFor(books, employees[i], date, rnd).blockers == {}
        <==> ReadyToPay(books, History(acts).hires, employees[i], date) {
      assert employees[i] in employees;
      EveryEmployeeHasALine(books.staff, date, employees[i]);
      LineFreeIff(schedule, acts, books, employees[i], date, rnd);
    }
  }

  lemma MonthList(books: Books, hires: seq<int>, date: Date)
    ensures var employees := EmployeesOf(books.staff, date);
      && (employees != [] <==> SomeoneEmployed(books.staff, date))
      && (EveryoneReadyToPay(books, hires, date) <==> forall i :: 0 <= i < |employees| ==>
         ReadyToPay(books, hires, employees[i], date))
  {
    var employees := EmployeesOf(books.staff, date);
    forall e: nat ensures e in employees <==> e < |books.staff| && EmployedIn(books.staff[e], date) {
      EveryEmployeeHasALine(books.staff, date, e);
    }
    assert employees != [] ==> employees[0] in employees;
    assert forall i :: 0 <= i < |employees| ==> employees[i] in employees;
  }

  lemma BuildableLineByLine(books: Books, date: Date, rnd: real -> real)
    ensures var employees := EmployeesOf(books.staff, date);
      Buildable(books, date, rnd) <==>
        employees != [] && forall i :: 0 <= i < |employees| ==> LineFor(books, employees[i], date, rnd).blockers == {}
  {
    var employees, lines := EmployeesOf(books.staff, date), LinesFor(books, date, rnd);
    if employees != [] { LinesForAt(books, date, rnd, 0); }
    forall i | 0 <= i < |employees| ensures lines[i] == LineFor(books, employees[i], date, rnd) {
      LinesForAt(books, date, rnd, i);
    }
  }

  lemma LineFreeIff(schedule: seq<Choice>, acts: seq<Act>, books: Books, employee: nat, date: Date, rnd: real -> real)
    requires AllTimely(schedule) && books.db == Run(EMPTY, schedule).db && 1 <= date.month <= 12
    requires books.wages == History(acts).rows && employee < |History(acts).hires|
    ensures LineFor(books, employee, date, rnd).blockers == {}
      <==> ReadyToPay(books, History(acts).hires, employee, date)
  {
    LineBlockersAre(schedule, acts, books, employee, date, rnd);
    WageMissingIff(acts, books, employee, date, rnd);
    OnlyOpenShiftsBlockLines(schedule, employee, MonthStart(date), MonthEnd(date));
    LineBlockerSources(books, employee, date, rnd);
    var blockers := LineFor(books, employee, date, rnd).blockers;
    assert blockers == {} <==> FromTime(OpenShift) !in blockers && MissingHourlyWage !in blockers;
  }

  lemma LineBlockerSources(books: Books, employee: nat, date: Date, rnd: real -> real)
    ensures FromTime(OpenShift) in LineFor(books, employee, date, rnd).blockers <==>
      FromTime(OpenShift) in TimeBlockers(books.db, ShiftsOf(books.db.shifts, employee), MonthStart(date),
        MonthEnd(date))
  {
  }
}
