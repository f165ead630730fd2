/** The punches of every shift, in time order, against the legal word. */
module AttendanceWords {
  import opened Sorting
  import opened TimeCalculation
  import opened Attribution
  import opened AttendanceDb
  import opened AttendanceRun
  import opened AttendanceSafety

  /** A shift's punches are a non-empty legal prefix, complete exactly when the shift is closed, and then
      the last one is its closing time. */
  ghost predicate WordOk(db: Db, shift: nat)
    requires shift < |db.shifts|
  {
    var w := RawEvents(db, shift);
    LegalPrefix(w) && w != [] && (IsClosed(db, shift) <==> w[|w| - 1].kind == ClockOut)
    && (IsClosed(db, shift) ==> db.shifts[shift].closedAt == Some(w[|w| - 1].at))
  }

  ghost predicate Words(db: Db) { forall sh: nat :: sh < |db.shifts| ==> WordOk(db, sh) }

  /** A committing punch is timely when its clock reading is not earlier than the shift's last punch. The
      reading is taken before the row lock, so nothing in the code itself ensures this. */
  predicate Timely(s: System, choice: Choice) {
    choice.Go? && choice.i < |s.jobs| && s.jobs[choice.i].Punching? && s.jobs[choice.i].pc.Written? ==>
      var w := RawEvents(s.db, s.jobs[choice.i].pc.shift);
      w != [] ==> w[|w| - 1].at <= s.jobs[choice.i].p.now
  }

  /** Adding a punch that its state allows keeps the time-ordered word legal exactly when it is not earlier
      than the last one. */
  lemma InsertedLegalIffTimely(w: seq<Event>, e: Event)
    requires w != [] && LegalPrefix(w) && TimeSorted(w)
    requires e.kind in Allowed(StateAfter(w[|w| - 1].kind)) - {ClockIn}
    ensures LegalPrefix(InsertBy(w, e, (x: Event) => x.at)) <==> w[|w| - 1].at <= e.at
    ensures w[|w| - 1].at <= e.at ==> InsertBy(w, e, (x: Event) => x.at) == w + [e]
  {
    var n := |w|;
    var u := InsertBy(w, e, (x: Event) => x.at);
    var i := InsertByPosition(w, e, (x: Event) => x.at);
    if w[n - 1].at <= e.at {
      assert (w + [e])[..n] == w && (w + [e])[..n + 1] == w + [e];
      LegalStep(w + [e], n);
    } else {
      assert LegalAt(w[n - 1].kind, n - 1, true);
      assert u[n] == w[n - 1] && |u| == n + 1;
      assert !LegalAt(u[n].kind, n, true);
    }
  }

  lemma RawSorted(db: Db, shift: nat)
    ensures TimeSorted(RawEvents(db, shift))
  {
    SortBySorts(EventsOf(db.events, shift), (e: Event) => e.at);
  }

  lemma PunchWord(s: System, i: nat, p: Punch, shift: nat)
    requires Inv(s) && Words(s.db) && i < |s.jobs| && s.jobs[i] == Punching(p, Written(shift))
    ensures Words(Advance(s, i).db) <==> Timely(s, Go(i))
  {
    assert JobOk(s.db, s.jobs[i]) && WordOk(s.db, shift);
    var db, w := Advance(s, i).db, RawEvents(s.db, shift);
    RawSorted(s.db, shift);
    InsertedLegalIffTimely(w, Event(p.kind, p.now, UTC));
    AddPunchRaw(s.db, shift, p.kind, p.now, p.key, shift);
    assert Timely(s, Go(i)) <==> w[|w| - 1].at <= p.now;
    if Timely(s, Go(i)) {
      forall sh: nat | sh < |db.shifts| ensures WordOk(db, sh) {
        AddPunchRaw(s.db, shift, p.kind, p.now, p.key, sh);
        assert WordOk(s.db, sh);
      }
    } else {
      assert !WordOk(db, shift);
    }
  }

  lemma {:induction false} DraftWords(s: System, employee: nat, drafts: seq<Draft>)
    requires Words(s.db) && Consistent(s.db) && ManualRowsClosed(s.db) && DraftsApart(drafts)
    requires forall k :: 0 <= k < |drafts| ==> DraftOk(s.db, employee, drafts[k])
    ensures Words(CommitDrafts(s, employee, drafts).db)
  {
    if drafts != [] {
      var front, d := drafts[..|drafts| - 1], drafts[|drafts| - 1];
      DraftWords(s, employee, front);
      DraftsCommit(s, employee, front);
      var u := CommitDrafts(s, employee, front);
      var db := CommitDraft(u, employee, d).db;
      assert DraftOk(s.db, employee, d);
      forall sh: nat | sh < |db.shifts| ensures WordOk(db, sh) {
        AddManualRaw(u.db, employee, d.entry.start, d.entry.end, d.entry.id, sh);
        if sh < |u.db.shifts| { assert WordOk(u.db, sh); } else { ManualWord(d.entry); }
      }
    }
  }

  lemma ManualWord(e: Entry)
    requires e.start < e.end
    ensures Complete([Event(ClockIn, e.start, UTC), Event(ClockOut, e.end, UTC)])
  {
  }

  lemma SameRowsSameWords(a: Db, b: Db)
    requires a.shifts == b.shifts && a.events == b.events
    ensures Words(a) <==> Words(b)
  {
    assert forall sh: nat :: sh < |a.shifts| ==> (WordOk(a, sh) <==> WordOk(b, sh));
  }

  lemma ManualWords(s: System, i: nat, job: Job)
    requires Inv(s) && Words(s.db) && i < |s.jobs| && s.jobs[i] == job && job.Manual?
    ensures Words(Advance(s, i).db)
  {
    assert JobOk(s.db, job);
    if job.next >= |job.b.entries| {
      var u := Become(s, i, Done(Committed));
      DraftWords(u, job.b.employee, job.drafts);
      DraftsCommit(u, job.b.employee, job.drafts);
      var v := CommitDrafts(u, job.b.employee, job.drafts);
      ApprovalsKeepRows(v, job.marks + NewMarks(s, job.drafts));
      SameRowsSameWords(v.db, Advance(s, i).db);
    }
  }

  /** One step keeps all words legal exactly when it is timely. */
  lemma StepKeepsWordsIffTimely(s: System, choice: Choice)
    requires Inv(s) && Words(s.db)
    ensures Words(Step(s, choice).db) <==> Timely(s, choice)
  {
    if choice.Go? && choice.i < |s.jobs| {
      var i := choice.i;
      match s.jobs[i]
      case Punching(p, pc) =>
        if pc.Written? {
          PunchWord(s, i, p, pc.shift);
        } else if pc.ClockingIn? && Advance(s, i).db != s.db {
          ClockInWord(s, i, p);
        }
      case Manual(_, _, _, _, _, _) => ManualWords(s, i, s.jobs[i]);
      case Approving(_, _) => SameRowsSameWords(s.db, Advance(s, i).db);
      case Correcting(_, _) => SameRowsSameWords(s.db, Advance(s, i).db);
      case Done(_) =>
    }
  }

  lemma ClockInWord(s: System, i: nat, p: Punch)
    requires Inv(s) && Words(s.db) && i < |s.jobs| && s.jobs[i] == Punching(p, ClockingIn)
    ensures Words(Advance(s, i).db)
  {
    if Advance(s, i).db != s.db {
      OpenNewShiftWords(s.db, p.employee, p.insertedAt, p.now, p.key);
    }
  }

  lemma OpenNewShiftWords(db: Db, employee: nat, openedAt: int, at: int, key: Key)
    requires Consistent(db) && Words(db)
    ensures Words(OpenNewShift(db, employee, openedAt, at, key))
  {
    var b := OpenNewShift(db, employee, openedAt, at, key);
    forall sh: nat | sh < |b.shifts| ensures WordOk(b, sh) {
      OpenNewShiftRaw(db, employee, openedAt, at, key, sh);
      if sh < |db.shifts| { assert WordOk(db, sh); }
    }
  }

  /** The system after the first `n` choices. */
  function At(schedule: seq<Choice>, n: nat): System
    requires n <= |schedule|
  {
    Run(EMPTY, schedule[..n])
  }

  ghost predicate AllTimely(schedule: seq<Choice>) {
    forall n :: 0 <= n < |schedule| ==> Timely(At(schedule, n), schedule[n])
  }

  ghost predicate WordsThroughout(schedule: seq<Choice>) {
    forall n :: 0 <= n <= |schedule| ==> Words(At(schedule, n).db)
  }

  lemma AtFront(schedule: seq<Choice>, n: nat)
    requires n < |schedule|
    ensures At(schedule[..|schedule| - 1], n) == At(schedule, n)
    ensures At(schedule, |schedule|) == Run(EMPTY, schedule)
  {
    assert schedule[..|schedule| - 1][..n] == schedule[..n];
    assert schedule[..|schedule|] == schedule;
  }

  lemma TimelySnoc(schedule: seq<Choice>)
    requires schedule != []
    ensures var m := |schedule| - 1;
      AllTimely(schedule) <==> AllTimely(schedule[..m]) && Timely(At(schedule, m), schedule[m])
  {
    var m := |schedule| - 1;
    var front := schedule[..m];
    if AllTimely(schedule) {
      forall n | 0 <= n < m ensures Timely(At(front, n), front[n]) { AtFront(schedule, n); }
    }
    if AllTimely(front) && Timely(At(schedule, m), schedule[m]) {
      forall n | 0 <= n < |schedule| ensures Timely(At(schedule, n), schedule[n]) {
        if n < m { AtFront(schedule, n); assert Timely(At(front, n), front[n]); }
      }
    }
  }

  lemma WordsSnoc(schedule: seq<Choice>)
    requires schedule != []
    ensures WordsThroughout(schedule) <==>
      WordsThroughout(schedule[..|schedule| - 1]) && Words(At(schedule, |schedule|).db)
  {
    var front := schedule[..|schedule| - 1];
    if WordsThroughout(schedule) {
      forall n | 0 <= n <= |front| ensures Words(At(front, n).db) { AtFront(schedule, n); }
    }
    if WordsThroughout(front) && Words(At(schedule, |schedule|).db) {
      forall n | 0 <= n <= |schedule| ensures Words(At(schedule, n).db) {
        if n < |schedule| { AtFront(schedule, n); assert Words(At(front, n).db); }
      }
    }
  }

  /** Along any schedule every shift's punches stay a prefix of CLOCK_IN (BREAK_START BREAK_END)* CLOCK_OUT,
      complete exactly when the shift is closed, if and only if every committed punch was timely. */
  lemma {:induction false} WordsIffTimely(schedule: seq<Choice>)
    ensures WordsThroughout(schedule) <==> AllTimely(schedule)
  {
    if schedule == [] {
      assert At(schedule, 0) == EMPTY;
    } else {
      var m := |schedule| - 1;
      WordsIffTimely(schedule[..m]);
      TimelySnoc(schedule);
      WordsSnoc(schedule);
      AtFront(schedule, m);
      if WordsThroughout(schedule[..m]) { LastStepWords(schedule); }
    }
  }

  lemma LastStepWords(schedule: seq<Choice>)
    requires schedule != [] && WordsThroughout(schedule[..|schedule| - 1])
    ensures var m := |schedule| - 1; Words(Run(EMPTY, schedule).db) <==> Timely(At(schedule, m), schedule[m])
  {
    var m := |schedule| - 1;
    EmptyIsFine();
    RunKeeps(EMPTY, schedule[..m]);
    assert Words(At(schedule[..m], m).db);
    AtFront(schedule, m);
    StepKeepsWordsIffTimely(Run(EMPTY, schedule[..m]), schedule[m]);
  }

  lemma WordsAtEnd(schedule: seq<Choice>)
    requires AllTimely(schedule)
    ensures Words(Run(EMPTY, schedule).db)
  {
    WordsIffTimely(schedule);
    assert schedule[..|schedule|] == schedule && Words(At(schedule, |schedule|).db);
  }

  lemma ClosedWord(schedule: seq<Choice>, shift: nat)
    requires AllTimely(schedule) && IsClosed(Run(EMPTY, schedule).db, shift)
    ensures var db := Run(EMPTY, schedule).db; var raw := RawEvents(db, shift);
      SortByTime(raw) == raw && Complete(raw) && db.shifts[shift].closedAt == Some(raw[|raw| - 1].at)
  {
    WordsAtEnd(schedule);
    var db := Run(EMPTY, schedule).db;
    assert WordOk(db, shift);
    RawSorted(db, shift);
    SortedIsFixed(RawEvents(db, shift), (e: Event) => e.at);
  }

  /** End to end: a shift closed by a timely run is accepted by `calculate`, and is paid closing time minus
      clock-in minus the recorded breaks. */
  lemma ClosedShiftIsPayable(schedule: seq<Choice>, shift: nat)
    requires AllTimely(schedule) && IsClosed(Run(EMPTY, schedule).db, shift)
    ensures var db := Run(EMPTY, schedule).db; var raw := RawEvents(db, shift);
      && Calculation(raw, NO_TERMS).blockers == [] && raw != []
      && Total(Segments(raw)) == db.shifts[shift].closedAt.value - raw[0].at - BreakTime(raw)
  {
    ClosedWord(schedule, shift);
    var raw := RawEvents(Run(EMPTY, schedule).db, shift);
    AcceptedIffLegal(raw, NO_TERMS);
    TotalIsSpanMinusBreaks(raw);
  }
}
