/** The payload of a month and every reason why the month may not be closed with it. */
module CloseGate {
  import opened TimeCalculation
  import opened MonthScope
  import opened AttendanceDb
  import opened Calendar
  import opened WeeklyAllowance
  import opened Preview

  datatype Item = Item(name: string, amount: int)

  /** A line of the payload; a key the caller leaves out takes the value that does not block. */
  datatype PayloadLine = PayloadLine(
    employee: Option<int>, earnings: seq<Item>, deductions: seq<Item>, net: int,
    weeklyAllowanceResolved: bool, insuranceFinal: bool, timeBlockers: set<LineBlocker>,
    restWeekday: Option<int>, boundaryWeekComplete: bool, missingContractFacts: bool)

  /** Employment terms that fix a weekly rest day over a half-open range of dates. */
  datatype TermRow = TermRow(employee: int, restWeekday: int, lower: int, upper: Option<int>)

  /** Everything the payload and the gate read at one moment. */
  datatype World = World(today: int, books: Books, terms: seq<TermRow>)

  datatype CloseBlocker =
    | PeriodNotEnded | OpenShiftInMonth | UnapprovedCorrection | NegativeNet | AllowanceUnresolved
    | InsuranceNotFinal | TimeBlocker | BoundaryWeekIncomplete | ContractFactsMissing

  // ---- What each blocker means ----

  predicate InMonth(db: Db, shift: nat, month: Date) {
    Touches(EffectiveEvents(db, shift), MonthStart(month), MonthEnd(month))
  }

  predicate OpenIn(db: Db, shift: nat, month: Date) {
    shift < |db.shifts| && db.shifts[shift].closedAt.None? && InMonth(db, shift, month)
  }

  predicate UnapprovedIn(db: Db, shift: nat, month: Date) {
    IsClosed(db, shift) && InMonth(db, shift, month) && StatusOf(db, shift) != Approved
  }

  predicate Any(n: nat, p: nat -> bool) { exists k :: 0 <= k < n && p(k) }

  function Opens(db: Db, month: Date): nat -> bool { (sh: nat) => OpenIn(db, sh, month) }

  function Unapproveds(db: Db, month: Date): nat -> bool { (sh: nat) => UnapprovedIn(db, sh, month) }

  predicate SomeOpenShift(db: Db, month: Date) { Any(|db.shifts|, Opens(db, month)) }

  predicate SomeUnapproved(db: Db, month: Date) { Any(|db.shifts|, Unapproveds(db, month)) }

  /** The latest terms in force on the date. */
  function TermWeekday(terms: seq<TermRow>, employee: int, day: int): Option<int> {
    if terms == [] then None
    else
      var t := terms[|terms| - 1];
      if t.employee == employee && t.lower <= day && (t.upper.Some? ==> day < t.upper.value) then Some(t.restWeekday)
      else TermWeekday(terms[..|terms| - 1], employee, day)
  }

  function RestWeekday(line: PayloadLine, terms: seq<TermRow>, today: int): Option<int> {
    var t := if line.employee.Some? then TermWeekday(terms, line.employee.value, today) else None;
    if t.None? then line.restWeekday else t
  }

  predicate WeekBlocks(line: PayloadLine, terms: seq<TermRow>, month: Date, today: int) {
    var rest := RestWeekday(line, terms, today);
    if rest.Some? then !BoundaryWeekElapsed(month, rest.value, today) else !line.boundaryWeekComplete
  }

  predicate LineRaises(line: PayloadLine, terms: seq<TermRow>, month: Date, today: int, b: CloseBlocker) {
    match b
    case NegativeNet => line.net < 0
    case AllowanceUnresolved => !line.weeklyAllowanceResolved
    case InsuranceNotFinal => !line.insuranceFinal
    case TimeBlocker => line.timeBlockers != {}
    case BoundaryWeekIncomplete => WeekBlocks(line, terms, month, today)
    case ContractFactsMissing => line.missingContractFacts
    case _ => false
  }

  predicate SomeLineRaises(lines: seq<PayloadLine>, terms: seq<TermRow>, month: Date, today: int, b: CloseBlocker) {
    exists i :: 0 <= i < |lines| && LineRaises(lines[i], terms, month, today, b)
  }

  // ---- collect_blockers, one database read after another ----

  predicate FirstCheckRaises(w: World, month: Date, b: CloseBlocker) {
    (b == PeriodNotEnded && w.today < Ordinal(NextMonth(month)))
      || (b == OpenShiftInMonth && SomeOpenShift(w.books.db, month))
  }

  /** any(...), stopping at the first hit. */
  method AnyBelow(n: nat, p: nat -> bool) returns (found: bool)
    ensures found == Any(n, p)
  {
    for k := 0 to n
      invariant forall i :: 0 <= i < k ==> !p(i)
    {
      if p(k) {
        return true;
      }
    }
    found := false;
  }

  method CheckOpenShifts(w: World, month: Date) returns (blockers: set<CloseBlocker>)
    ensures forall b :: b in blockers <==> FirstCheckRaises(w, month, b)
  {
    blockers := {};
    if w.today < Ordinal(NextMonth(month)) {
      blockers := blockers + {PeriodNotEnded};
    }
    var open := AnyBelow(|w.books.db.shifts|, Opens(w.books.db, month));
    if open {
      blockers := blockers + {OpenShiftInMonth};
    }
  }

  method CheckApprovals(w: World, month: Date) returns (blockers: set<CloseBlocker>)
    ensures blockers == if SomeUnapproved(w.books.db, month) then {UnapprovedCorrection} else {}
  {
    var found := AnyBelow(|w.books.db.shifts|, Unapproveds(w.books.db, month));
    blockers := if found then {UnapprovedCorrection} else {};
  }

  method CheckLine(line: PayloadLine, terms: seq<TermRow>, month: Date, today: int)
    returns (blockers: set<CloseBlocker>)
    ensures forall b :: b in blockers <==> LineRaises(line, terms, month, today, b)
  {
    blockers := {};
    if line.net < 0 { blockers := blockers + {NegativeNet}; }
    if !line.weeklyAllowanceResolved { blockers := blockers + {AllowanceUnresolved}; }
    if !line.insuranceFinal { blockers := blockers + {InsuranceNotFinal}; }
    if line.timeBlockers != {} { blockers := blockers + {TimeBlocker}; }
    var rest := RestWeekday(line, terms, today);
    if rest.Some? {
      var complete := IsMonthBoundaryWeekComplete(month, rest.value, today);
      if !complete { blockers := blockers + {BoundaryWeekIncomplete}; }
    } else if !line.boundaryWeekComplete {
      blockers := blockers + {BoundaryWeekIncomplete};
    }
    if line.missingContractFacts { blockers := blockers + {ContractFactsMissing}; }
  }

  method CheckLines(lines: seq<PayloadLine>, terms: seq<TermRow>, month: Date, today: int)
    returns (blockers: set<CloseBlocker>)
    ensures forall b :: b in blockers <==> SomeLineRaises(lines, terms, month, today, b)
  {
    blockers := {};
    for i := 0 to |lines|
      invariant forall b :: b in blockers <==> SomeLineRaises(lines[..i], terms, month, today, b)
    {
      var raised := CheckLine(lines[i], terms, month, today);
      forall b { RaisesSnoc(lines[..i], lines[i], terms, month, today, b); }
      assert lines[..i + 1] == lines[..i] + [lines[i]];
      blockers := blockers + raised;
    }
    assert lines[..|lines|] == lines;
  }

  lemma RaisesSnoc(lines: seq<PayloadLine>, line: PayloadLine, terms: seq<TermRow>, month: Date, today: int,
                   b: CloseBlocker)
    ensures SomeLineRaises(lines + [line], terms, month, today, b) <==>
      SomeLineRaises(lines, terms, month, today, b) || LineRaises(line, terms, month, today, b)
  {
    var all := lines + [line];
    assert all[|lines|] == line;
    if i: nat :| i < |lines| && LineRaises(lines[i], terms, month, today, b) { assert all[i] == lines[i]; }
  }

  /** The condition behind each blocker, at one moment. */
  predicate Raises(w: World, month: Date, lines: seq<PayloadLine>, b: CloseBlocker) {
    FirstCheckRaises(w, month, b) || (b == UnapprovedCorrection && SomeUnapproved(w.books.db, month))
    || SomeLineRaises(lines, w.terms, month, w.today, b)
  }

  /** All checks at one moment. */
  method CollectBlockers(w: World, month: Date, lines: seq<PayloadLine>) returns (blockers: set<CloseBlocker>)
    ensures blockers == {} <==> MayClose(w, w, w, month, lines)
    ensures forall b :: b in blockers <==> Raises(w, month, lines, b)
  {
    var first := CheckOpenShifts(w, month);
    var second := CheckApprovals(w, month);
    var third := CheckLines(lines, w.terms, month, w.today);
    blockers := first + second + third;
    NothingRaised(w, w, w, month, lines);
  }

  /** What an empty list of blockers certifies, read at three successive moments. */
  ghost predicate MayClose(first: World, second: World, third: World, month: Date, lines: seq<PayloadLine>) {
    && Ordinal(NextMonth(month)) <= first.today
    && !SomeOpenShift(first.books.db, month) && !SomeUnapproved(second.books.db, month)
    && forall i :: 0 <= i < |lines| ==> LineReady(lines[i], third.terms, month, first.today)
  }

  predicate LineReady(line: PayloadLine, terms: seq<TermRow>, month: Date, today: int) {
    && line.net >= 0 && line.weeklyAllowanceResolved && line.insuranceFinal && line.timeBlockers == {}
    && !WeekBlocks(line, terms, month, today) && !line.missingContractFacts
  }

  lemma LineReadyIff(line: PayloadLine, terms: seq<TermRow>, month: Date, today: int)
    ensures LineReady(line, terms, month, today) <==> forall b :: !LineRaises(line, terms, month, today, b)
  {
    var raises := (b: CloseBlocker) => LineRaises(line, terms, month, today, b);
    assert LineReady(line, terms, month, today) <==>
      !raises(NegativeNet) && !raises(AllowanceUnresolved) && !raises(InsuranceNotFinal) && !raises(TimeBlocker)
      && !raises(BoundaryWeekIncomplete) && !raises(ContractFactsMissing);
    assert forall b :: raises(b) == LineRaises(line, terms, month, today, b);
  }

  lemma LinesReadyIff(lines: seq<PayloadLine>, terms: seq<TermRow>, month: Date, today: int)
    ensures (forall i :: 0 <= i < |lines| ==> LineReady(lines[i], terms, month, today)) <==>
      forall b :: !SomeLineRaises(lines, terms, month, today, b)
  {
    if forall b :: !SomeLineRaises(lines, terms, month, today, b) {
      forall i | 0 <= i < |lines| ensures LineReady(lines[i], terms, month, today) {
        forall b ensures !LineRaises(lines[i], terms, month, today, b) {
          assert !SomeLineRaises(lines, terms, month, today, b);
        }
        LineReadyIff(lines[i], terms, month, today);
      }
    }
    if forall i :: 0 <= i < |lines| ==> LineReady(lines[i], terms, month, today) {
      forall b ensures !SomeLineRaises(lines, terms, month, today, b) {
        forall i | 0 <= i < |lines| ensures !LineRaises(lines[i], terms, month, today, b) {
          LineReadyIff(lines[i], terms, month, today);
        }
      }
    }
  }

  lemma NothingRaised(first: World, second: World, third: World, month: Date, lines: seq<PayloadLine>)
    ensures MayClose(first, second, third, month, lines) <==>
      && (forall b :: !FirstCheckRaises(first, month, b)) && !SomeUnapproved(second.books.db, month)
      && (forall b :: !SomeLineRaises(lines, third.terms, month, first.today, b))
  {
    LinesReadyIff(lines, third.terms, month, first.today);
    assert (forall b :: !FirstCheckRaises(first, month, b)) <==>
      !FirstCheckRaises(first, month, PeriodNotEnded) && !FirstCheckRaises(first, month, OpenShiftInMonth);
  }
}
