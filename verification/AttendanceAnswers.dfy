/** What the attendance services answer and write when nobody interferes, in terms of rows and instants alone. */
module AttendanceAnswers {
  import opened TimeCalculation
  import opened Attribution
  import opened AttendanceDb
  import opened AttendanceRun
  import opened AttendanceStore
  import opened Text

  predicate KeyUsed(db: Db, key: Key) { exists k :: 0 <= k < |db.events| && db.events[k].key == key }

  // ---- Manual entries ----

  /** The instant lies in the shift; a shift that has not been closed lasts for ever. */
  predicate InShift(row: ShiftRow, t: int) {
    row.openedAt <= t && match row.closedAt { case Some(closed) => t < closed case None => true }
  }

  /** The shift and the entry have an instant in common. */
  ghost predicate ShareInstant(row: ShiftRow, e: Entry) { exists t :: e.start <= t < e.end && InShift(row, t) }

  /** A shift without instants, closed no later than it was opened: it still counts when that lies inside the entry. */
  predicate EmptyShiftIn(row: ShiftRow, e: Entry) {
    row.closedAt.Some? && row.closedAt.value <= row.openedAt < e.end && e.start < row.closedAt.value
  }

  lemma OverlapIsInstant(row: ShiftRow, e: Entry)
    requires e.start < e.end
    ensures OverlapsRow(row, e) <==> ShareInstant(row, e) || EmptyShiftIn(row, e)
  {
    var t := if row.openedAt < e.start then e.start else row.openedAt;
    if OverlapsRow(row, e) && !EmptyShiftIn(row, e) { assert e.start <= t < e.end && InShift(row, t); }
  }

  /** Some shift of the employee collides with the entry. */
  ghost predicate Collides(db: Db, employee: nat, e: Entry) {
    exists k :: 0 <= k < |db.shifts| && db.shifts[k].employee == employee
             && (ShareInstant(db.shifts[k], e) || EmptyShiftIn(db.shifts[k], e))
  }

  lemma OverlapsIsCollision(db: Db, employee: nat, e: Entry)
    requires e.start < e.end
    ensures Overlaps(db.shifts, employee, e) <==> Collides(db, employee, e)
  {
    forall k | 0 <= k < |db.shifts|
      ensures OverlapsRow(db.shifts[k], e) <==> ShareInstant(db.shifts[k], e) || EmptyShiftIn(db.shifts[k], e) {
      OverlapIsInstant(db.shifts[k], e);
    }
    if Overlaps(db.shifts, employee, e) {
      var k :| 0 <= k < |db.shifts| && db.shifts[k].employee == employee && OverlapsRow(db.shifts[k], e);
      assert ShareInstant(db.shifts[k], e) || EmptyShiftIn(db.shifts[k], e);
    }
  }

  /** One more closed shift of the employee, with its two punches. */
  predicate EntryWritten(a: Db, b: Db, employee: nat, e: Entry) {
    && b.shifts == a.shifts + [ShiftRow(employee, e.start, Some(e.end))]
    && b.events == a.events + [EventRow(|a.shifts|, ClockIn, e.start, ManualIn(e.id))]
                            + [EventRow(|a.shifts|, ClockOut, e.end, ManualOut(e.id))]
    && b.corrections == a.corrections && b.approvals == a.approvals
  }

  /** An entry whose keys are new is refused exactly when it collides with a shift of that same employee, whatever the
      others have; otherwise it is written. */
  lemma UndisturbedEntry(db: Db, employee: nat, e: Entry)
    requires e.start < e.end && !KeyUsed(db, ManualIn(e.id)) && !KeyUsed(db, ManualOut(e.id))
    ensures var t := Solo(Alone(db, Manual(Batch(employee, [e], false), 0, [], [], false, KeyCheck)), 6);
      && t.jobs == [Done(if Collides(db, employee, e) then Conflict else Committed)]
      && (if Collides(db, employee, e) then t.db == db else EntryWritten(db, t.db, employee, e))
  {
    OverlapsIsCollision(db, employee, e);
    ManualAlone(db, employee, e);
  }

  /** In any state of the system, a batch's check refuses the next entry exactly when it collides with a shift of its
      employee or has an instant in common with an entry of the batch itself. */
  lemma BatchCheckRefusesIff(s: System, i: nat, job: Job)
    requires i < |s.jobs| && s.jobs[i] == job && job.Manual? && job.stage.OverlapCheck? && job.next < |job.b.entries|
    requires job.b.entries[job.next].start < job.b.entries[job.next].end
    requires forall k :: 0 <= k < |job.drafts| ==> job.drafts[k].entry.start < job.drafts[k].entry.end
    ensures var e := job.b.entries[job.next];
      Advance(s, i).jobs[i] == Done(Conflict) <==>
        Collides(s.db, job.b.employee, e) || exists k :: 0 <= k < |job.drafts| && InCommon(job.drafts[k].entry, e)
  {
    var e := job.b.entries[job.next];
    OverlapsIsCollision(s.db, job.b.employee, e);
    forall k | 0 <= k < |job.drafts|
      ensures InCommon(job.drafts[k].entry, e) <==>
        job.drafts[k].entry.start < e.end && job.drafts[k].entry.end > e.start {
      EntriesInCommon(job.drafts[k].entry, e);
    }
    DraftCollides(job.drafts, e);
  }

  lemma DraftCollides(drafts: seq<Draft>, e: Entry)
    requires forall k :: 0 <= k < |drafts| ==>
      (InCommon(drafts[k].entry, e) <==> drafts[k].entry.start < e.end && drafts[k].entry.end > e.start)
    ensures OverlapsDraft(drafts, e) <==> exists k :: 0 <= k < |drafts| && InCommon(drafts[k].entry, e)
  {
    if OverlapsDraft(drafts, e) {
      var k :| 0 <= k < |drafts| && drafts[k].entry.start < e.end && drafts[k].entry.end > e.start;
      assert InCommon(drafts[k].entry, e);
    }
  }

  predicate InEntry(e: Entry, t: int) { e.start <= t < e.end }

  ghost predicate InCommon(a: Entry, b: Entry) { exists t :: InEntry(a, t) && InEntry(b, t) }

  lemma EntriesInCommon(a: Entry, b: Entry)
    requires a.start < a.end && b.start < b.end
    ensures InCommon(a, b) <==> a.start < b.end && a.end > b.start
  {
    var t := if a.start < b.start then b.start else a.start;
    if a.start < b.end && a.end > b.start { assert InEntry(a, t) && InEntry(b, t); }
  }

  // ---- The weekly form ----

  /** A filled day of the form is the shift from its start on that day to its end on that day, or on the next day when
      the end is the earlier time. */
  lemma DayOfTheForm(d: DayForm, midnight: int, id: nat)
    requires d.start.Some? && d.end.Some? && d.start.value < 24 * HOUR && d.end.value < 24 * HOUR
    requires d.start.value != d.end.value
    ensures Readable(d) && !Blank(d)
    ensures DayEntry(d, midnight, id).id == id && DayEntry(d, midnight, id).start == midnight + d.start.value
    ensures d.start.value < d.end.value ==> DayEntry(d, midnight, id).end == midnight + d.end.value
    ensures d.end.value < d.start.value ==> DayEntry(d, midnight, id).end == midnight + 24 * HOUR + d.end.value
  {
  }

  /** Each filled day gives an entry under its own key, counted from the first midnight of the week. */
  lemma {:induction false} WeekOfTheForm(days: seq<DayForm>, monday: int, key: int -> nat, i: nat) returns (k: nat)
    requires (forall j :: 0 <= j < |days| ==> Readable(days[j])) && i < |days| && !Blank(days[i])
    ensures k < |WeekEntries(days, monday, key)|
    ensures WeekEntries(days, monday, key)[k] == DayEntry(days[i], monday + i * (24 * HOUR), key(i))
  {
    var n := |days| - 1;
    if i < n { k := WeekOfTheForm(days[..n], monday, key, i); } else { k := |WeekEntries(days[..n], monday, key)|; }
  }

  // ---- Punches ----

  ghost predicate HasOpenShift(db: Db, employee: nat) {
    exists k :: 0 <= k < |db.shifts| && db.shifts[k].employee == employee && db.shifts[k].closedAt == None
  }

  ghost predicate PunchEnds(db: Db, p: Punch, after: Db, o: Outcome) { EndsAs(db, Punching(p, Arrived), 6, after, o) }

  /** A new clock-in is refused exactly while the employee has an open shift; otherwise it opens one. */
  lemma UndisturbedClockIn(db: Db, p: Punch)
    requires p.kind == ClockIn && !KeyUsed(db, p.key)
    ensures HasOpenShift(db, p.employee) ==> PunchEnds(db, p, db, Rejected(ShiftAlreadyOpen))
    ensures !HasOpenShift(db, p.employee) ==>
      PunchEnds(db, p, db.(shifts := db.shifts + [ShiftRow(p.employee, p.insertedAt, None)],
                           events := db.events + [EventRow(|db.shifts|, ClockIn, p.now, p.key)]),
                Recorded(p.key, |db.events|))
  {
    ClockInAlone(db, p);
  }

  lemma PunchWithoutShift(db: Db, p: Punch)
    requires p.kind != ClockIn && !KeyUsed(db, p.key) && !HasOpenShift(db, p.employee)
    ensures PunchEnds(db, p, db, Rejected(NoOpenShift))
  {
    PunchAlone(db, p);
  }

  /** The shift is the only open one of its employee. */
  ghost predicate OnlyOpen(db: Db, employee: nat, shift: nat) {
    && shift < |db.shifts| && db.shifts[shift].employee == employee && db.shifts[shift].closedAt == None
    && forall k :: 0 <= k < |db.shifts| && db.shifts[k].employee == employee && k != shift ==>
         db.shifts[k].closedAt != None
  }

  /** The punch of the shift with the latest time, among equals the latest id. */
  ghost predicate IsLast(db: Db, shift: nat, k: nat) {
    && k < |db.events| && db.events[k].shift == shift
    && (forall j :: 0 <= j < |db.events| && db.events[j].shift == shift ==> db.events[j].at <= db.events[k].at)
    && forall j :: k < j < |db.events| && db.events[j].shift == shift ==> db.events[j].at < db.events[k].at
  }

  predicate MayFollow(last: Kind, next: Kind) {
    || (last in {ClockIn, BreakEnd} && next in {BreakStart, ClockOut})
    || (last == BreakStart && next == BreakEnd)
  }

  /** The tables with one more punch, which closes its shift if it is a clock-out. */
  predicate PunchWritten(a: Db, b: Db, shift: nat, p: Punch)
    requires shift < |a.shifts|
  {
    && b.events == a.events + [EventRow(shift, p.kind, p.now, p.key)]
    && b.shifts == (if p.kind == ClockOut then a.shifts[shift := a.shifts[shift].(closedAt := Some(p.now))]
                    else a.shifts)
    && b.corrections == a.corrections && b.approvals == a.approvals
  }

  /** A new punch on the open shift is recorded exactly when it may follow that shift's last punch. */
  lemma UndisturbedPunch(db: Db, p: Punch, shift: nat, k: nat)
    requires p.kind != ClockIn && !KeyUsed(db, p.key)
    requires OnlyOpen(db, p.employee, shift) && IsLast(db, shift, k)
    ensures var t := Solo(Alone(db, Punching(p, Arrived)), 6);
      if MayFollow(db.events[k].kind, p.kind)
      then t.jobs == [Done(Recorded(p.key, |db.events|))] && PunchWritten(db, t.db, shift, p)
      else t.jobs == [Done(Rejected(IllegalTransition))] && t.db == db
  {
    PunchAlone(db, p);
    AllowedAfter(db, shift, k, p.kind);
  }

  lemma AllowedAfter(db: Db, shift: nat, k: nat, next: Kind)
    requires IsLast(db, shift, k) && next != ClockIn
    ensures next in Allowed(StateOf(db, shift)) <==> MayFollow(db.events[k].kind, next)
  {
    LastOfRaw(db.events, shift, k);
  }

  /** An open shift without punches counts as clocked in. */
  lemma UndisturbedFirstPunch(db: Db, p: Punch, shift: nat)
    requires p.kind != ClockIn && !KeyUsed(db, p.key) && OnlyOpen(db, p.employee, shift)
    requires forall j :: 0 <= j < |db.events| ==> db.events[j].shift != shift
    ensures var t := Solo(Alone(db, Punching(p, Arrived)), 6);
      if p.kind in {BreakStart, ClockOut}
      then t.jobs == [Done(Recorded(p.key, |db.events|))] && PunchWritten(db, t.db, shift, p)
      else t.jobs == [Done(Rejected(IllegalTransition))] && t.db == db
  {
    PunchAlone(db, p);
    NothingRaw(db.events, shift);
  }

  lemma {:induction false} NothingRaw(rows: seq<EventRow>, shift: nat)
    requires forall j :: 0 <= j < |rows| ==> rows[j].shift != shift
    ensures SortByTime(EventsOf(rows, shift)) == []
  {
    if rows != [] { NothingRaw(rows[..|rows| - 1], shift); }
  }

  lemma {:induction false} LastOfRaw(rows: seq<EventRow>, shift: nat, k: nat)
    requires k < |rows| && rows[k].shift == shift
    requires forall j :: 0 <= j < |rows| && rows[j].shift == shift ==> rows[j].at <= rows[k].at
    requires forall j :: k < j < |rows| && rows[j].shift == shift ==> rows[j].at < rows[k].at
    ensures var w := SortByTime(EventsOf(rows, shift));
      w != [] && w[|w| - 1] == Event(rows[k].kind, rows[k].at, UTC)
  {
    var n := |rows| - 1;
    var front := EventsOf(rows[..n], shift);
    if k < n {
      LastOfRaw(rows[..n], shift, k);
      if rows[n].shift == shift { SortSnoc(front, Event(rows[n].kind, rows[n].at, UTC)); }
    } else {
      SortSnoc(front, Event(rows[n].kind, rows[n].at, UTC));
      NoLater(rows[..n], shift, rows[n].at);
    }
  }

  lemma {:induction false} NoLater(rows: seq<EventRow>, shift: nat, at: int)
    requires forall j :: 0 <= j < |rows| && rows[j].shift == shift ==> rows[j].at <= at
    ensures var w := SortByTime(EventsOf(rows, shift)); w != [] ==> w[|w| - 1].at <= at
  {
    if rows != [] {
      var n := |rows| - 1;
      NoLater(rows[..n], shift, at);
      if rows[n].shift == shift { SortSnoc(EventsOf(rows[..n], shift), Event(rows[n].kind, rows[n].at, UTC)); }
    }
  }

  // ---- Approvals and corrections ----

  /** An approval is given exactly to a closed shift whose effective events raise nothing, and points to the correction
      that is current. */
  lemma UndisturbedApproval(db: Db, shift: nat)
    ensures var t := Solo(Alone(db, Approving(shift, Look)), 3);
      if shift < |db.shifts| && db.shifts[shift].closedAt != None
         && Calculation(EffectiveEvents(db, shift), NO_TERMS).blockers == []
      then t.jobs == [Done(Committed)]
           && t.db == db.(approvals := db.approvals[shift := CurrentCorrection(db.corrections, shift)])
      else t.jobs == [Done(GuardFailed)] && t.db == db
  {
    ApproveAlone(db, shift);
  }

  ghost predicate SaysSomething(reason: string) { exists i :: 0 <= i < |reason| && !IsSpace(reason[i]) }

  /** What a time correction asks for. */
  ghost predicate MayCorrect(db: Db, c: Correction) {
    var before := EffectiveEvents(db, c.shift);
    && c.shift < |db.shifts| && db.shifts[c.shift].closedAt != None && SaysSomething(c.reason)
    && c.startedAt < c.endedAt
    && (exists i :: 0 <= i < |before| && before[i].kind == ClockIn)
    && (exists i :: 0 <= i < |before| && before[i].kind == ClockOut)
    && Calculation(Rewritten(before, c.startedAt, c.endedAt), NO_TERMS).blockers == []
  }

  /** One more correction, linked to the one that was current, and the shift's approval pointing to the one that is
      current now. */
  ghost predicate CorrectionWritten(a: Db, b: Db, c: Correction, events: seq<Event>) {
    var row := CorrectionRow(a.sequence, c.shift, IdOf(CurrentCorrection(a.corrections, c.shift)), events, c.createdAt);
    && b.corrections == a.corrections + [row] && b.shifts == a.shifts && b.events == a.events
    && b.approvals == a.approvals[c.shift := CurrentCorrection(b.corrections, c.shift)]
  }

  lemma MayCorrectIs(db: Db, c: Correction)
    ensures MayCorrect(db, c) <==> Correctable(db, c)
  {
  }

  lemma UndisturbedCorrection(db: Db, c: Correction)
    ensures var t := Solo(Alone(db, Correcting(c, Examine)), 6);
      if MayCorrect(db, c)
      then t.jobs == [Done(Committed)]
           && CorrectionWritten(db, t.db, c, Rewritten(EffectiveEvents(db, c.shift), c.startedAt, c.endedAt))
      else t.jobs == [Done(GuardFailed)] && t.db == db
  {
    MayCorrectIs(db, c);
    CorrectAlone(db, c);
  }
}
