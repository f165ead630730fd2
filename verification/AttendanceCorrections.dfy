/** Effective events: corrections supersede, raw punches stay, and payroll can always read a closed shift. */
module AttendanceCorrections {
  import opened Sorting
  import opened TimeCalculation
  import opened Attribution
  import opened AttendanceDb
  import opened AttendanceRun
  import opened AttendanceSafety
  import opened AttendanceWords

  /** Every stored correction belongs to a closed shift and is a sequence `calculate` accepts. */
  ghost predicate CorrectionsOk(db: Db) {
    forall k :: 0 <= k < |db.corrections| ==>
      IsClosed(db, db.corrections[k].shift) && Accepted(db.corrections[k].events)
  }

  lemma CorrectionsStay(a: Db, b: Db)
    requires CorrectionsOk(a) && Grows(a, b) && b.corrections == a.corrections
    ensures CorrectionsOk(b)
  {
    forall k | 0 <= k < |b.corrections| ensures IsClosed(b, b.corrections[k].shift) {
      assert IsClosed(a, a.corrections[k].shift);
    }
  }

  lemma {:induction false} DraftsKeepCorrections(s: System, employee: nat, drafts: seq<Draft>)
    ensures CommitDrafts(s, employee, drafts).db.corrections == s.db.corrections
  {
    if drafts != [] { DraftsKeepCorrections(s, employee, drafts[..|drafts| - 1]); }
  }

  lemma PunchesDoNotCorrect(s: System, i: nat, p: Punch, pc: PunchPc)
    requires i < |s.jobs|
    ensures AdvancePunch(s, i, p, pc).db.corrections == s.db.corrections
  {
  }

  lemma ManualEntriesDoNotCorrect(s: System, i: nat, job: Job)
    requires i < |s.jobs| && job.Manual?
    ensures AdvanceManual(s, i, job).db.corrections == s.db.corrections
  {
    if job.next >= |job.b.entries| {
      var u := Become(s, i, Done(Committed));
      DraftsKeepCorrections(u, job.b.employee, job.drafts);
      ApprovalsKeepRows(CommitDrafts(u, job.b.employee, job.drafts), job.marks + NewMarks(s, job.drafts));
    }
  }

  lemma SavesKeepCorrections(s: System, i: nat, c: Correction, pc: CorrectPc)
    requires Inv(s) && CorrectionsOk(s.db) && i < |s.jobs| && s.jobs[i] == Correcting(c, pc)
    ensures CorrectionsOk(Advance(s, i).db)
  {
    StepKeeps(s, Go(i));
    if pc.Stored? { StoredIsFine(s, i, c, pc); } else { CorrectionsStay(s.db, Advance(s, i).db); }
  }

  lemma StoredIsFine(s: System, i: nat, c: Correction, pc: CorrectPc)
    requires CorrectionsOk(s.db) && i < |s.jobs| && s.jobs[i] == Correcting(c, pc) && pc.Stored?
    requires JobOk(s.db, s.jobs[i])
    ensures CorrectionsOk(Advance(s, i).db)
  {
  }

  lemma StepKeepsCorrections(s: System, choice: Choice)
    requires Inv(s) && CorrectionsOk(s.db)
    ensures CorrectionsOk(Step(s, choice).db)
  {
    StepKeeps(s, choice);
    if choice.Go? && choice.i < |s.jobs| {
      var i := choice.i;
      match s.jobs[i]
      case Punching(p, pc) =>
        PunchesDoNotCorrect(s, i, p, pc);
        CorrectionsStay(s.db, Step(s, choice).db);
      case Manual(_, _, _, _, _, _) =>
        ManualEntriesDoNotCorrect(s, i, s.jobs[i]);
        CorrectionsStay(s.db, Step(s, choice).db);
      case Approving(_, _) => CorrectionsStay(s.db, Step(s, choice).db);
      case Correcting(c, pc) => SavesKeepCorrections(s, i, c, pc);
      case Done(_) =>
    }
  }

  lemma {:induction false} RunKeepsCorrections(schedule: seq<Choice>)
    ensures CorrectionsOk(Run(EMPTY, schedule).db)
  {
    if schedule != [] {
      var front := schedule[..|schedule| - 1];
      RunKeepsCorrections(front);
      EmptyIsFine();
      RunKeeps(EMPTY, front);
      StepKeepsCorrections(Run(EMPTY, front), schedule[|schedule| - 1]);
    }
  }

  /** In any timely run of all the services together, the only blocker a shift's effective events can raise
      is OPEN_SHIFT, and they raise it exactly while the shift is open. */
  lemma OnlyOpenShiftsBlock(schedule: seq<Choice>, shift: nat)
    requires AllTimely(schedule) && shift < |Run(EMPTY, schedule).db.shifts|
    ensures var db := Run(EMPTY, schedule).db;
      Calculation(EffectiveEvents(db, shift), NO_TERMS).blockers == if IsClosed(db, shift) then [] else [OpenShift]
  {
    RunKeepsCorrections(schedule);
    WordsAtEnd(schedule);
    OpenShiftsBlock(Run(EMPTY, schedule).db, shift);
  }

  lemma OpenShiftsBlock(db: Db, shift: nat)
    requires Words(db) && CorrectionsOk(db) && shift < |db.shifts|
    ensures Calculation(EffectiveEvents(db, shift), NO_TERMS).blockers
         == if IsClosed(db, shift) then [] else [OpenShift]
  {
    var events := EffectiveEvents(db, shift);
    AcceptedIffLegal(events, NO_TERMS);
    if CurrentIndex(db.corrections, shift).None? {
      assert WordOk(db, shift);
      RawSorted(db, shift);
      SortedIsFixed(events, (e: Event) => e.at);
      assert LegalAt(events[0].kind, 0, |events| == 1);
    }
  }

  // ---- What a time correction does ----

  function Count(events: seq<Event>, kind: Kind): nat {
    if events == [] then 0
    else Count(events[..|events| - 1], kind) + (if events[|events| - 1].kind == kind then 1 else 0)
  }

  /** The recorded breaks, whatever the order of the list. */
  function RestTime(events: seq<Event>): int {
    if events == [] then 0
    else
      var e := events[|events| - 1];
      RestTime(events[..|events| - 1])
        + (if e.kind == BreakEnd then e.at else if e.kind == BreakStart then -e.at else 0)
  }

  lemma {:induction false} CountSorted(events: seq<Event>, kind: Kind)
    ensures Count(SortByTime(events), kind) == Count(events, kind)
  {
    if events != [] {
      CountSorted(events[..|events| - 1], kind);
      CountInsert(SortByTime(events[..|events| - 1]), events[|events| - 1], kind);
    }
  }

  lemma {:induction false} CountInsert(w: seq<Event>, e: Event, kind: Kind)
    ensures Count(InsertBy(w, e, (x: Event) => x.at), kind) == Count(w, kind) + (if e.kind == kind then 1 else 0)
  {
    if !(w == [] || w[|w| - 1].at <= e.at) {
      var r := InsertBy(w[..|w| - 1], e, (x: Event) => x.at);
      CountInsert(w[..|w| - 1], e, kind);
      assert (r + [w[|w| - 1]])[..|r|] == r;
    }
  }

  lemma {:induction false} PrefixCounts(w: seq<Event>, n: nat)
    requires n <= |w| && LegalPrefix(w) && w != []
    ensures Count(w[..n], ClockIn) == (if n == 0 then 0 else 1)
    ensures Count(w[..n], ClockOut) == (if n == |w| && w[n - 1].kind == ClockOut then 1 else 0)
  {
    if n > 0 {
      PrefixCounts(w, n - 1);
      assert w[..n][..n - 1] == w[..n - 1];
      assert LegalAt(w[n - 1].kind, n - 1, n == |w|);
      assert LegalAt(w[|w| - 1].kind, |w| - 1, true);
    }
  }

  lemma AcceptedCounts(events: seq<Event>)
    requires Accepted(events)
    ensures Count(events, ClockIn) == 1 && Count(events, ClockOut) == 1
  {
    var w := SortByTime(events);
    PrefixCounts(w, |w|);
    assert w[..|w|] == w;
    CountSorted(events, ClockIn);
    CountSorted(events, ClockOut);
  }

  lemma {:induction false} NoneCounted(events: seq<Event>, kind: Kind)
    ensures Count(events, kind) == 0 <==> !Has(events, kind)
  {
    if events != [] {
      var front := events[..|events| - 1];
      NoneCounted(front, kind);
      assert forall i :: 0 <= i < |front| ==> front[i] == events[i];
      if Has(front, kind) {
        var i :| 0 <= i < |front| && front[i].kind == kind;
        assert events[i].kind == kind;
      }
    }
  }

  lemma {:induction false} RewrittenSum(events: seq<Event>, startedAt: int, endedAt: int)
    requires Count(events, ClockIn) <= 1 && Count(events, ClockOut) <= 1
    ensures var r := Rewritten(events, startedAt, endedAt);
      && SignedSum(r) == (if Count(events, ClockOut) == 1 then endedAt else 0)
                       - (if Count(events, ClockIn) == 1 then startedAt else 0) - RestTime(events)
  {
    if events != [] {
      var n := |events| - 1;
      var front := events[..n];
      RewrittenSum(front, startedAt, endedAt);
      RewrittenFront(events, startedAt, endedAt);
      NoneCounted(front, ClockIn);
      if events[n].kind == ClockIn {
        assert FirstClockIn(events, n) by {
          assert forall j :: 0 <= j < n ==> events[j] == front[j];
        }
      }
    }
  }

  lemma RewrittenFront(events: seq<Event>, startedAt: int, endedAt: int)
    requires events != []
    ensures var r := Rewritten(events, startedAt, endedAt);
      r[..|r| - 1] == Rewritten(events[..|events| - 1], startedAt, endedAt)
  {
    var front := events[..|events| - 1];
    assert forall i :: 0 <= i < |front| ==> front[i] == events[i];
    assert forall i :: 0 <= i < |front| ==> FirstClockIn(front, i) == FirstClockIn(events, i);
  }

  lemma {:induction false} RewrittenCounts(events: seq<Event>, startedAt: int, endedAt: int, kind: Kind)
    ensures Count(Rewritten(events, startedAt, endedAt), kind) == Count(events, kind)
  {
    if events != [] {
      RewrittenCounts(events[..|events| - 1], startedAt, endedAt, kind);
      RewrittenFront(events, startedAt, endedAt);
    }
  }

  /** Whenever the rewritten events are accepted, they are paid ended − started − the unchanged breaks. */
  lemma CorrectedTotal(events: seq<Event>, startedAt: int, endedAt: int)
    requires Accepted(Rewritten(events, startedAt, endedAt))
    ensures Total(Segments(Rewritten(events, startedAt, endedAt))) == endedAt - startedAt - RestTime(events)
  {
    var r := Rewritten(events, startedAt, endedAt);
    AcceptedCounts(r);
    RewrittenCounts(events, startedAt, endedAt, ClockIn);
    RewrittenCounts(events, startedAt, endedAt, ClockOut);
    RewrittenSum(events, startedAt, endedAt);
    TotalIsSignedSum(r);
  }

  // ---- Where the corrected time is paid ----

  /** The first clock-in and every clock-out are written with Seoul's offset of nine hours; nothing else changes. */
  lemma RewrittenIs(events: seq<Event>, startedAt: int, endedAt: int)
    ensures var r := Rewritten(events, startedAt, endedAt);
      && |r| == |events|
      && (forall i :: 0 <= i < |r| && events[i].kind == ClockOut ==> r[i] == Event(ClockOut, endedAt, 9 * HOUR))
      && (forall i :: 0 <= i < |r| && events[i].kind == ClockIn && !Has(events[..i], ClockIn) ==>
            r[i] == Event(ClockIn, startedAt, 9 * HOUR))
      && (forall i :: 0 <= i < |r| && events[i].kind == ClockIn && Has(events[..i], ClockIn) ==> r[i] == events[i])
      && (forall i :: 0 <= i < |r| && events[i].kind !in {ClockIn, ClockOut} ==> r[i] == events[i])
  {
    forall i | 0 <= i < |events| && events[i].kind == ClockIn
      ensures FirstClockIn(events, i) <==> !Has(events[..i], ClockIn) {
      assert forall j :: 0 <= j < i ==> events[..i][j] == events[j];
      if !FirstClockIn(events, i) {
        var j :| 0 <= j < i && events[j].kind == ClockIn;
        assert events[..i][j].kind == ClockIn;
      }
    }
  }

  lemma {:induction false} CountedTwice(events: seq<Event>, kind: Kind, i: nat, j: nat)
    requires i < j < |events| && events[i].kind == events[j].kind == kind
    ensures Count(events, kind) >= 2
  {
    var n := |events| - 1;
    if j < n {
      CountedTwice(events[..n], kind, i, j);
    } else {
      assert events[..n][i].kind == kind;
      NoneCounted(events[..n], kind);
    }
  }

  /** Accepted rewritten events begin with the moved clock-in. */
  lemma BeginsWithTheMovedClockIn(events: seq<Event>, startedAt: int, endedAt: int)
    requires Accepted(Rewritten(events, startedAt, endedAt))
    ensures SortByTime(Rewritten(events, startedAt, endedAt))[0] == Event(ClockIn, startedAt, 9 * HOUR)
  {
    var r := Rewritten(events, startedAt, endedAt);
    var w := SortByTime(r);
    AcceptedWord(r);
    AcceptedCounts(r);
    RewrittenCounts(events, startedAt, endedAt, ClockIn);
    SortBySorts(r, (e: Event) => e.at);
    assert LegalAt(w[0].kind, 0, |w| == 1) && w[0] in multiset(r);
    var i :| 0 <= i < |r| && r[i] == w[0];
    if !FirstClockIn(events, i) {
      var j :| 0 <= j < i && events[j].kind == ClockIn;
      CountedTwice(events, ClockIn, j, i);
    }
  }

  /** No stretch that begins with the end of a break strictly contains the instant. */
  predicate OutsideLaterStretches(w: seq<Event>, p: int) {
    forall j :: 1 <= j < |w| / 2 ==> !(w[2 * j].at < p < w[2 * j + 1].at)
  }

  /** The corrected clock-in carries Seoul's offset, so at a Seoul midnight outside the stretches after a break (whose
      recorded starts keep their own offset) the time paid on each side is the time worked on that side. */
  lemma CorrectedMidnightIsExact(events: seq<Event>, startedAt: int, endedAt: int, from: int, p: int, end: int,
                                 day: int)
    requires var r := Rewritten(events, startedAt, endedAt);
      Accepted(r) && OutsideLaterStretches(SortByTime(r), p) && p + 9 * HOUR == day * (24 * HOUR)
    requires from <= startedAt && from <= p <= end && endedAt <= end
    ensures var r := Rewritten(events, startedAt, endedAt);
      && PaidIn(Segments(r), from, p) == WorkedTime(SortByTime(r), from, p)
      && PaidIn(Segments(r), p, end) == WorkedTime(SortByTime(r), p, end)
  {
    var r := Rewritten(events, startedAt, endedAt);
    var w := SortByTime(r);
    BeginsWithTheMovedClockIn(events, startedAt, endedAt);
    EndsWithTheMovedClockOut(events, startedAt, endedAt);
    AcceptedWord(r);
    assert (day * DAY) % DAY == 0;
    assert Aligned(w, p) && Aligned(w, from) && Aligned(w, end);
    AlignedWindowIsExact(r, from, p);
    AlignedWindowIsExact(r, p, end);
  }

  lemma EndsWithTheMovedClockOut(events: seq<Event>, startedAt: int, endedAt: int)
    requires Accepted(Rewritten(events, startedAt, endedAt))
    ensures var w := SortByTime(Rewritten(events, startedAt, endedAt));
      w[|w| - 1] == Event(ClockOut, endedAt, 9 * HOUR)
  {
    var r := Rewritten(events, startedAt, endedAt);
    var w := SortByTime(r);
    SortBySorts(r, (e: Event) => e.at);
    assert w[|w| - 1] in multiset(r);
    var i :| 0 <= i < |r| && r[i] == w[|w| - 1];
    RewrittenIs(events, startedAt, endedAt);
  }

  /** Without breaks that is every Seoul midnight. */
  lemma CorrectedWithoutBreaksIsExact(events: seq<Event>, startedAt: int, endedAt: int, from: int, p: int, end: int,
                                      day: int)
    requires Accepted(Rewritten(events, startedAt, endedAt)) && !Has(events, BreakStart)
    requires from <= startedAt && from <= p <= end && endedAt <= end && p + 9 * HOUR == day * (24 * HOUR)
    ensures var r := Rewritten(events, startedAt, endedAt);
      && PaidIn(Segments(r), from, p) == WorkedTime(SortByTime(r), from, p)
      && PaidIn(Segments(r), p, end) == WorkedTime(SortByTime(r), p, end)
  {
    LongWordHasBreak(events, startedAt, endedAt);
    CorrectedMidnightIsExact(events, startedAt, endedAt, from, p, end, day);
  }

  lemma LongWordHasBreak(events: seq<Event>, startedAt: int, endedAt: int)
    requires Accepted(Rewritten(events, startedAt, endedAt))
    ensures |SortByTime(Rewritten(events, startedAt, endedAt))| > 2 ==> Has(events, BreakStart)
  {
    var r := Rewritten(events, startedAt, endedAt);
    var w := SortByTime(r);
    AcceptedWord(r);
    RewrittenIs(events, startedAt, endedAt);
    SortBySorts(r, (e: Event) => e.at);
    if |w| > 2 {
      assert LegalAt(w[1].kind, 1, false) && w[1] in multiset(r);
      var i :| 0 <= i < |r| && r[i] == w[1];
      assert events[i].kind == BreakStart;
    }
  }
}
