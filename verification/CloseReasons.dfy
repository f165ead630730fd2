/** The reasons why a month may not be closed, one by one and in terms of rows and days. */
module CloseReasons {
  import opened Sorting
  import opened TimeCalculation
  import opened MonthScope
  import opened AttendanceDb
  import opened Calendar
  import opened WeeklyAllowance
  import opened CloseGate

  // ---- The rest day of a line ----

  /** Terms of the employee that are in force on the day. */
  predicate OwnTerms(t: TermRow, employee: int, day: int) {
    t.employee == employee && t.lower <= day && (t.upper == None || day < t.upper.value)
  }

  /** The last of them gives the rest day. */
  ghost predicate TermsGive(terms: seq<TermRow>, employee: int, day: int, rest: int) {
    exists i :: 0 <= i < |terms| && OwnTerms(terms[i], employee, day) && terms[i].restWeekday == rest
             && forall j :: i < j < |terms| ==> !OwnTerms(terms[j], employee, day)
  }

  ghost predicate NoTerms(terms: seq<TermRow>, employee: int, day: int) {
    forall i :: 0 <= i < |terms| ==> !OwnTerms(terms[i], employee, day)
  }

  lemma {:induction false} TermWeekdayIs(terms: seq<TermRow>, employee: int, day: int)
    ensures TermWeekday(terms, employee, day) == None <==> NoTerms(terms, employee, day)
    ensures forall rest :: TermWeekday(terms, employee, day) == Some(rest) <==> TermsGive(terms, employee, day, rest)
  {
    if terms != [] {
      var n := |terms| - 1;
      var front := terms[..n];
      assert forall i :: 0 <= i < n ==> front[i] == terms[i];
      TermWeekdayIs(front, employee, day);
      if OwnTerms(terms[n], employee, day) {
        assert TermWeekday(terms, employee, day) == Some(terms[n].restWeekday);
      } else {
        forall rest ensures TermsGive(terms, employee, day, rest) <==> TermsGive(front, employee, day, rest) {
          TermsGiveSame(front, terms[n], employee, day, rest);
          assert terms == front + [terms[n]];
        }
      }
    }
  }

  lemma TermsGiveSame(front: seq<TermRow>, last: TermRow, employee: int, day: int, rest: int)
    requires !OwnTerms(last, employee, day)
    ensures TermsGive(front + [last], employee, day, rest) <==> TermsGive(front, employee, day, rest)
  {
    var all := front + [last];
    assert forall i :: 0 <= i < |front| ==> all[i] == front[i];
    if TermsGive(all, employee, day, rest) {
      var i :| 0 <= i < |all| && OwnTerms(all[i], employee, day) && all[i].restWeekday == rest
            && forall j :: i < j < |all| ==> !OwnTerms(all[j], employee, day);
      assert i < |front|;
    }
  }

  /** Whatever terms other employees have, or get, they change nothing. */
  lemma {:induction false} OthersTermsDoNotMatter(terms: seq<TermRow>, employee: int, day: int)
    ensures TermWeekday(Keep(terms, (t: TermRow) => t.employee == employee), employee, day)
         == TermWeekday(terms, employee, day)
  {
    if terms != [] {
      var n := |terms| - 1;
      var own := (t: TermRow) => t.employee == employee;
      OthersTermsDoNotMatter(terms[..n], employee, day);
      assert terms == terms[..n] + [terms[n]];
      KeepSnoc(terms[..n], terms[n], own);
      assert Keep(terms, own)[..|Keep(terms[..n], own)|] == Keep(terms[..n], own);
    }
  }

  /** The rest day used for a line: by its own employee's terms, or the caller's when there are none. */
  ghost predicate RestDayIs(line: PayloadLine, terms: seq<TermRow>, today: int, rest: int) {
    || (line.employee.Some? && TermsGive(terms, line.employee.value, today, rest))
    || (line.restWeekday == Some(rest) && (line.employee == None || NoTerms(terms, line.employee.value, today)))
  }

  lemma RestWeekdayIs(line: PayloadLine, terms: seq<TermRow>, today: int, rest: int)
    ensures RestWeekday(line, terms, today) == Some(rest) <==> RestDayIs(line, terms, today, rest)
  {
    if line.employee.Some? { TermWeekdayIs(terms, line.employee.value, today); }
  }

  /** Its labour week still runs, or it has no rest day and the caller has not vouched for the week. */
  ghost predicate WeekIncomplete(line: PayloadLine, terms: seq<TermRow>, month: Date, today: int) {
    || (exists rest :: RestDayIs(line, terms, today, rest) && WeekStillRuns(month, rest, today))
    || ((forall rest :: !RestDayIs(line, terms, today, rest)) && !line.boundaryWeekComplete)
  }

  lemma WeekBlocksIff(line: PayloadLine, terms: seq<TermRow>, month: Date, today: int)
    requires 1 <= month.month <= 12
    ensures WeekBlocks(line, terms, month, today) <==> WeekIncomplete(line, terms, month, today)
  {
    var r := RestWeekday(line, terms, today);
    forall rest ensures r == Some(rest) <==> RestDayIs(line, terms, today, rest) {
      RestWeekdayIs(line, terms, today, rest);
    }
    if r.Some? {
      assert RestDayIs(line, terms, today, r.value);
      ElapsedIffNoneRuns(month, r.value, today);
    }
  }

  // ---- The blockers one by one ----

  ghost predicate SomeLine(lines: seq<PayloadLine>, p: PayloadLine -> bool) {
    exists i :: 0 <= i < |lines| && p(lines[i])
  }

  ghost predicate TouchesIt(db: Db, shift: nat, month: Date) {
    Touches(EffectiveEvents(db, shift), MonthStart(month), MonthEnd(month))
  }

  /** What the whole database and the payload must look like for each blocker of the gate. */
  lemma BlockersAre(w: World, month: Date, lines: seq<PayloadLine>)
    requires 1 <= month.month <= 12
    ensures Raises(w, month, lines, PeriodNotEnded) <==> w.today < Ordinal(NextMonth(month))
    ensures Raises(w, month, lines, OpenShiftInMonth) <==>
      exists sh: nat :: OpenShiftIn(w.books.db, sh, month)
    ensures Raises(w, month, lines, UnapprovedCorrection) <==>
      exists sh: nat :: UnapprovedShiftIn(w.books.db, sh, month)
    ensures Raises(w, month, lines, NegativeNet) <==> SomeLine(lines, (l: PayloadLine) => l.net < 0)
    ensures Raises(w, month, lines, AllowanceUnresolved) <==>
      SomeLine(lines, (l: PayloadLine) => !l.weeklyAllowanceResolved)
    ensures Raises(w, month, lines, InsuranceNotFinal) <==> SomeLine(lines, (l: PayloadLine) => !l.insuranceFinal)
    ensures Raises(w, month, lines, TimeBlocker) <==> SomeLine(lines, (l: PayloadLine) => l.timeBlockers != {})
    ensures Raises(w, month, lines, ContractFactsMissing) <==>
      SomeLine(lines, (l: PayloadLine) => l.missingContractFacts)
    ensures Raises(w, month, lines, BoundaryWeekIncomplete) <==>
      exists i :: 0 <= i < |lines| && WeekIncomplete(lines[i], w.terms, month, w.today)
  {
    BooksRaise(w, month, lines);
    LinesRaise(w, month, lines);
    WeeksRaise(w, month, lines);
  }

  lemma BooksRaise(w: World, month: Date, lines: seq<PayloadLine>)
    ensures Raises(w, month, lines, PeriodNotEnded) <==> w.today < Ordinal(NextMonth(month))
    ensures Raises(w, month, lines, OpenShiftInMonth) <==> exists sh: nat :: OpenShiftIn(w.books.db, sh, month)
    ensures Raises(w, month, lines, UnapprovedCorrection) <==>
      exists sh: nat :: UnapprovedShiftIn(w.books.db, sh, month)
  {
    ShiftBlockersAre(w.books.db, month);
    LineBlockersAre(lines, w.terms, month, w.today);
  }

  lemma LinesRaise(w: World, month: Date, lines: seq<PayloadLine>)
    ensures Raises(w, month, lines, NegativeNet) <==> SomeLine(lines, (l: PayloadLine) => l.net < 0)
    ensures Raises(w, month, lines, AllowanceUnresolved) <==>
      SomeLine(lines, (l: PayloadLine) => !l.weeklyAllowanceResolved)
    ensures Raises(w, month, lines, InsuranceNotFinal) <==> SomeLine(lines, (l: PayloadLine) => !l.insuranceFinal)
    ensures Raises(w, month, lines, TimeBlocker) <==> SomeLine(lines, (l: PayloadLine) => l.timeBlockers != {})
    ensures Raises(w, month, lines, ContractFactsMissing) <==>
      SomeLine(lines, (l: PayloadLine) => l.missingContractFacts)
  {
    LineBlockersAre(lines, w.terms, month, w.today);
  }

  lemma WeeksRaise(w: World, month: Date, lines: seq<PayloadLine>)
    requires 1 <= month.month <= 12
    ensures Raises(w, month, lines, BoundaryWeekIncomplete) <==>
      exists i :: 0 <= i < |lines| && WeekIncomplete(lines[i], w.terms, month, w.today)
  {
    forall i | 0 <= i < |lines|
      ensures WeekBlocks(lines[i], w.terms, month, w.today) <==> WeekIncomplete(lines[i], w.terms, month, w.today) {
      WeekBlocksIff(lines[i], w.terms, month, w.today);
    }
    LineBlockersAre(lines, w.terms, month, w.today);
  }

  ghost predicate OpenShiftIn(db: Db, shift: nat, month: Date) {
    shift < |db.shifts| && db.shifts[shift].closedAt == None && TouchesIt(db, shift, month)
  }

  ghost predicate UnapprovedShiftIn(db: Db, shift: nat, month: Date) {
    && shift < |db.shifts| && db.shifts[shift].closedAt != None && TouchesIt(db, shift, month)
    && StatusOf(db, shift) != Approved
  }

  lemma ShiftBlockersAre(db: Db, month: Date)
    ensures SomeOpenShift(db, month) <==> exists sh: nat :: OpenShiftIn(db, sh, month)
    ensures SomeUnapproved(db, month) <==> exists sh: nat :: UnapprovedShiftIn(db, sh, month)
  {
    forall sh: nat ensures OpenShiftIn(db, sh, month) <==> sh < |db.shifts| && Opens(db, month)(sh) {}
    forall sh: nat ensures UnapprovedShiftIn(db, sh, month) <==> sh < |db.shifts| && Unapproveds(db, month)(sh) {}
    AnyIs(|db.shifts|, Opens(db, month));
    AnyIs(|db.shifts|, Unapproveds(db, month));
  }

  lemma AnyIs(n: nat, p: nat -> bool)
    ensures Any(n, p) <==> exists k: nat :: k < n && p(k)
  {
  }

  lemma LineBlockersAre(lines: seq<PayloadLine>, terms: seq<TermRow>, month: Date, today: int)
    ensures SomeLineRaises(lines, terms, month, today, NegativeNet) <==> SomeLine(lines, (l: PayloadLine) => l.net < 0)
    ensures SomeLineRaises(lines, terms, month, today, AllowanceUnresolved) <==>
      SomeLine(lines, (l: PayloadLine) => !l.weeklyAllowanceResolved)
    ensures SomeLineRaises(lines, terms, month, today, InsuranceNotFinal) <==>
      SomeLine(lines, (l: PayloadLine) => !l.insuranceFinal)
    ensures SomeLineRaises(lines, terms, month, today, TimeBlocker) <==>
      SomeLine(lines, (l: PayloadLine) => l.timeBlockers != {})
    ensures SomeLineRaises(lines, terms, month, today, ContractFactsMissing) <==>
      SomeLine(lines, (l: PayloadLine) => l.missingContractFacts)
    ensures SomeLineRaises(lines, terms, month, today, BoundaryWeekIncomplete) <==>
      exists i :: 0 <= i < |lines| && WeekBlocks(lines[i], terms, month, today)
    ensures !SomeLineRaises(lines, terms, month, today, PeriodNotEnded)
    ensures !SomeLineRaises(lines, terms, month, today, OpenShiftInMonth)
    ensures !SomeLineRaises(lines, terms, month, today, UnapprovedCorrection)
  {
  }
}
