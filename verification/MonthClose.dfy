/** The pipeline from end to end: every stored snapshot carries a payload built from the books of an earlier moment of
    the run, and each of its lines pays what the punches and wages in those books come to. */
module MonthClose {
  import opened TimeCalculation
  import opened AttendanceRun
  import opened Calendar
  import opened Wages
  import opened BasePay
  import opened Preview
  import opened PreviewMeaning
  import opened AttendanceWords
  import opened CloseGate
  import opened MonthPayload
  import opened MonthUntouched
  import opened Statements
  import C = Close
  import CloseSafety

  // ---- The gate of a month ----

  predicate LinesFail(lines: seq<PayloadLine>, w: World, month: Date, today: int) {
    exists i :: 0 <= i < |lines| && !LineReady(lines[i], w.terms, month, today)
  }

  function GateOf(month: Date, rnd: real -> real): C.Gate {
    C.Gate((w: World) => PayloadFor(w.books, month, rnd),
           (w: World) => w.today < Ordinal(NextMonth(month)) || SomeOpenShift(w.books.db, month),
           (w: World) => SomeUnapproved(w.books.db, month),
           (lines: seq<PayloadLine>, w: World, today: int) => LinesFail(lines, w, month, today))
  }

  lemma GateOfMonth(month: Date, rnd: real -> real, first: World, second: World, third: World, lines: seq<PayloadLine>)
    ensures var g := GateOf(month, rnd);
      MayClose(first, second, third, month, lines) <==>
        !g.first(first) && !g.second(second) && !g.lines(lines, third, first.today)
  {
  }

  // ---- Main results ----

  /** Where the k-th stored payload comes from: books it was built from, then each check of the gate, in that order. */
  ghost predicate Certified(s: C.System, month: Date, rnd: real -> real, k: nat) {
    && k < |s.trails| == |s.period.snapshots|
    && var t, lines := s.trails[k].1, s.period.snapshots[k].lines;
    && t.built <= t.first <= t.second <= t.third < |s.worlds|
    && PayloadFor(s.worlds[t.built].books, month, rnd) == Some(lines)
    && MayClose(s.worlds[t.first], s.worlds[t.second], s.worlds[t.third], month, lines)
  }

  /** Each stored payload was built from the month's books, and then passed every check of the gate, one after another,
      at earlier moments of the run; so the month was over when it was closed and still is. */
  lemma StoredPayloadsWereReady(start: World, schedule: seq<C.Choice>, month: Date, rnd: real -> real, k: nat)
    requires k < |C.Run(start, schedule, GateOf(month, rnd)).period.snapshots|
    ensures var s := C.Run(start, schedule, GateOf(month, rnd));
      Certified(s, month, rnd, k) && Ordinal(NextMonth(month)) <= s.worlds[|s.worlds| - 1].today
  {
    var g := GateOf(month, rnd);
    var s := C.Run(start, schedule, g);
    CloseSafety.RunKeeps(start, schedule, g);
    var t, lines := s.trails[k].1, s.period.snapshots[k].lines;
    assert C.Passed(s.worlds, t, lines, g);
    GateOfMonth(month, rnd, s.worlds[t.first], s.worlds[t.second], s.worlds[t.third], lines);
  }

  /** The books the k-th snapshot was built from. */
  ghost function BooksOf(s: C.System, k: nat): Books
    requires k < |s.trails| && s.trails[k].1.built < |s.worlds|
  {
    s.worlds[s.trails[k].1.built].books
  }

  /** A line that pays one employee the month's owed wages and drift by the books, and fits its statement. */
  ghost predicate PaysEmployee(line: PayloadLine, books: Books, employee: nat, month: Date, rnd: real -> real) {
    && line.employee == Some(CodeOf(books.staff, employee)) && line.timeBlockers == {}
    && line.net == LineFor(books, employee, month, rnd).gross
    && Balanced(line) && Printable(line)
    && (WithinBounds(books, employee, month) ==> PaysRounded(line.net, OwedPlusDrift(books, employee, month)))
  }

  /** Up to a million segments and 10^11 won, within which rounding never adds up to a second won. */
  ghost predicate WithinBounds(books: Books, employee: nat, month: Date) {
    && |CountedFor(books, employee, month)| <= 1_000_000
    && PerHour(OwedPlusDrift(books, employee, month) as real) <= 100_000_000_000.0
  }

  /** In every run of closes, reopens and automatic closes, over any changes of attendance, wages and staff, the i-th
      line of every stored snapshot pays the i-th employee of the month what the books it was built from owe, plus the
      drift of stretches worked over a Seoul midnight uncut. */
  lemma StoredSnapshotsPayOwedPlusDrift(start: World, schedule: seq<C.Choice>, month: Date, rnd: real -> real, k: nat,
                                        i: nat)
    requires 1 <= month.month <= 12 && HalfUlp(rnd)
    requires var p := C.Run(start, schedule, GateOf(month, rnd)).period;
      k < |p.snapshots| && i < |p.snapshots[k].lines|
    ensures var s := C.Run(start, schedule, GateOf(month, rnd));
      && Certified(s, month, rnd, k)
      && var books, lines := BooksOf(s, k), s.period.snapshots[k].lines;
      && |lines| == |EmployeesOf(books.staff, month)|
      && PaysEmployee(lines[i], books, EmployeesOf(books.staff, month)[i], month, rnd)
  {
    StoredPayloadsWereReady(start, schedule, month, rnd, k);
    var s := C.Run(start, schedule, GateOf(month, rnd));
    BuiltLinePays(s.period.snapshots[k].lines, BooksOf(s, k), month, rnd, i);
  }

  lemma BuiltLinePays(lines: seq<PayloadLine>, books: Books, month: Date, rnd: real -> real, i: nat)
    requires 1 <= month.month <= 12 && HalfUlp(rnd)
    requires PayloadFor(books, month, rnd) == Some(lines) && i < |lines|
    ensures |lines| == |EmployeesOf(books.staff, month)|
    ensures PaysEmployee(lines[i], books, EmployeesOf(books.staff, month)[i], month, rnd)
  {
    var employees := EmployeesOf(books.staff, month);
    BuiltPayloadsFit(lines, books, month, rnd, i);
    LinesForAt(books, month, rnd, i);
    if WithinBounds(books, employees[i], month) { LinePaysOwedPlusDrift(books, employees[i], month, rnd); }
  }

  /** Whatever export is made of a stored snapshot, it is made in full, and the net printed for each employee, on the
      statement, in the summary and in the manifest, is what the books the snapshot was built from owe, plus drift. */
  lemma ExportsPrintOwedPlusDrift(start: World, schedule: seq<C.Choice>, month: Date, rnd: real -> real, k: nat,
                                  texts: Texts, e: Export)
    requires 1 <= month.month <= 12 && HalfUlp(rnd)
    requires var p := C.Run(start, schedule, GateOf(month, rnd)).period;
      k < |p.snapshots| && (AllPrintable(p.snapshots[k].lines) ==> ExportOf(e, p.snapshots[k].lines, texts))
    ensures var s := C.Run(start, schedule, GateOf(month, rnd));
      && Certified(s, month, rnd, k) && PrintsOwedPlusDrift(e, BooksOf(s, k), month, rnd)
      && Lookup(e.summary, Cell('D', SUMMARY_FIRST + |e.statements|))
         == Some(Money(NetOfLines(s.period.snapshots[k].lines)))
  {
    StoredPayloadsWereReady(start, schedule, month, rnd, k);
    var s := C.Run(start, schedule, GateOf(month, rnd));
    BuiltPayloadIsPrinted(s.period.snapshots[k].lines, BooksOf(s, k), month, rnd, texts, e);
  }

  ghost predicate PrintsOwedPlusDrift(e: Export, books: Books, month: Date, rnd: real -> real) {
    var employees := EmployeesOf(books.staff, month);
    && e.Export? && |e.statements| == |employees|
    && forall i :: 0 <= i < |employees| ==>
         && NetPrinted(e, i, LineFor(books, employees[i], month, rnd).gross)
         && (WithinBounds(books, employees[i], month) ==>
               PaysRounded(LineFor(books, employees[i], month, rnd).gross, OwedPlusDrift(books, employees[i], month)))
  }

  lemma BuiltPayloadIsPrinted(lines: seq<PayloadLine>, books: Books, month: Date, rnd: real -> real, texts: Texts,
                              e: Export)
    requires 1 <= month.month <= 12 && HalfUlp(rnd) && PayloadFor(books, month, rnd) == Some(lines)
    requires AllPrintable(lines) ==> ExportOf(e, lines, texts)
    ensures PrintsOwedPlusDrift(e, books, month, rnd) && |e.statements| == |lines|
    ensures Lookup(e.summary, Cell('D', SUMMARY_FIRST + |lines|)) == Some(Money(NetOfLines(lines)))
  {
    var employees := EmployeesOf(books.staff, month);
    forall i | 0 <= i < |lines|
      ensures |lines| == |employees| && PaysEmployee(lines[i], books, employees[i], month, rnd) {
      BuiltLinePays(lines, books, month, rnd, i);
    }
    assert lines != [];
    assert AllPrintable(lines);
    ExportPrintsPayloadNets(lines, texts, e);
    forall i | 0 <= i < |employees|
      ensures NetPrinted(e, i, LineFor(books, employees[i], month, rnd).gross)
      ensures WithinBounds(books, employees[i], month) ==>
        PaysRounded(LineFor(books, employees[i], month, rnd).gross, OwedPlusDrift(books, employees[i], month)) {
      assert PaysEmployee(lines[i], books, employees[i], month, rnd);
      assert NetPrinted(e, i, lines[i].net);
    }
  }

  /** A snapshot is still what a payload built at any other moment of the run would be, if between the two nothing that
      concerns the month has changed, whatever else has. */
  lemma UntouchedMonthIsCurrent(start: World, schedule: seq<C.Choice>, month: Date, rnd: real -> real, k: nat, n: nat)
    requires 1 <= month.month <= 12
    requires var s := C.Run(start, schedule, GateOf(month, rnd));
      && n < |s.worlds| && Certified(s, month, rnd, k) && BooksUntouched(BooksOf(s, k), s.worlds[n].books, month)
      && Apart(BooksOf(s, k).wages) && Apart(s.worlds[n].books.wages)
    ensures var s := C.Run(start, schedule, GateOf(month, rnd));
      PayloadFor(s.worlds[n].books, month, rnd) == Some(s.period.snapshots[k].lines)
  {
    var s := C.Run(start, schedule, GateOf(month, rnd));
    UntouchedMonthSamePayload(BooksOf(s, k), s.worlds[n].books, month, rnd);
  }

  /** After any timely history, from the sixth of the next month on, the previous month can be closed exactly when it
      has an employee, each of them was hired by its first day and has clocked out of every shift begun before its end,
      and each of its shifts is closed and approved in its current state. */
  lemma ClosesFromTheSixthIff(schedule: seq<Choice>, acts: seq<Act>, w: World, d: Date, rnd: real -> real)
    requires 1 <= d.month <= 12 && 6 <= d.day && w.today == Ordinal(d) && HalfUlp(rnd)
    requires AllTimely(schedule) && w.books.db == Run(EMPTY, schedule).db
    requires w.books.wages == History(acts).rows && |w.books.staff| == |History(acts).hires|
    ensures var month := PreviousMonth(d); var payload := PayloadFor(w.books, month, rnd);
      payload.Some? && MayClose(w, w, w, month, payload.value) <==>
        && SomeoneEmployed(w.books.staff, month) && EveryoneReadyToPay(w.books, History(acts).hires, month)
        && !SomeOpenShift(w.books.db, month) && !SomeUnapproved(w.books.db, month)
  {
    var month := PreviousMonth(d);
    var payload := PayloadFor(w.books, month, rnd);
    BuildableIff(schedule, acts, w.books, month, rnd);
    if payload.Some? { FromTheSixthOnlyShiftsBlock(w, w.books, d, payload.value, rnd); }
  }
}
