/** The services as the application calls them: methods that update the attendance tables in place. Each is
    proved to do exactly what its job of the concurrent model does when no other job interferes. */
module AttendanceStore {
  import opened Sorting
  import opened TimeCalculation
  import opened Attribution
  import opened AttendanceDb
  import opened AttendanceRun
  import opened Text

  // ---- One job running alone ----

  function Alone(db: Db, job: Job): System { System(db, [job], map[], map[]) }

  function Solo(s: System, steps: nat): System
    requires |s.jobs| == 1
    decreases steps
  {
    if steps == 0 || |Advance(s, 0).jobs| != 1 then s else Solo(Advance(s, 0), steps - 1)
  }

  /** Left alone for `steps` steps, `job` turns `before` into `after` and ends with `outcome`. */
  predicate EndsAs(before: Db, job: Job, steps: nat, after: Db, outcome: Outcome) {
    var t := Solo(Alone(before, job), steps);
    t.db == after && t.jobs == [Done(outcome)]
  }

  lemma SoloOne(s: System, steps: nat, t: System)
    requires |s.jobs| == 1 && steps > 0 && Advance(s, 0) == t && |t.jobs| == 1
    ensures Solo(s, steps) == Solo(t, steps - 1)
  {
  }

  lemma {:induction false} SoloDone(s: System, steps: nat)
    requires |s.jobs| == 1 && s.jobs[0].Done?
    ensures Solo(s, steps) == s
  {
    if steps > 0 { SoloDone(s, steps - 1); }
  }

  /** The event-rewriting loop of correct_shift_times. */
  method RewriteEvents(current: seq<Event>, startedAt: int, endedAt: int)
      returns (corrected: seq<Event>, sawIn: bool, sawOut: bool)
    ensures corrected == Rewritten(current, startedAt, endedAt)
    ensures sawIn == Has(current, ClockIn) && sawOut == Has(current, ClockOut)
  {
    corrected, sawIn, sawOut := [], false, false;
    for i := 0 to |current|
      invariant corrected == Rewritten(current, startedAt, endedAt)[..i]
      invariant sawIn <==> exists k :: 0 <= k < i && current[k].kind == ClockIn
      invariant sawOut <==> exists k :: 0 <= k < i && current[k].kind == ClockOut
    {
      var item := current[i];
      if item.kind == ClockIn && !sawIn {
        item := Event(ClockIn, startedAt, SEOUL);
        sawIn := true;
      }
      if item.kind == ClockOut {
        item := Event(ClockOut, endedAt, SEOUL);
        sawOut := true;
      }
      corrected := corrected + [item];
    }
  }

  class Store {
    var shifts: seq<ShiftRow>
    var events: seq<EventRow>
    var corrections: seq<CorrectionRow>
    var approvals: map<nat, Option<CorrectionRow>>
    var sequence: nat

    constructor ()
      ensures Value() == EMPTY.db
    {
      shifts, events, corrections, approvals, sequence := [], [], [], map[], 0;
    }

    function Value(): Db
      reads this
    {
      Db(shifts, events, corrections, approvals, sequence)
    }

    /** Answers with the event carrying the key, if any row has it, whatever went wrong otherwise. */
    method ExistingOr(key: Key, why: Refusal) returns (o: Outcome)
      ensures o.Recorded? <==> exists k :: 0 <= k < |events| && events[k].key == key
      ensures o.Recorded? ==> o.key == key && o.event < |events| && events[o.event].key == key
      ensures o.Recorded? ==> forall k :: 0 <= k < o.event ==> events[k].key != key
      ensures !o.Recorded? ==> o == Rejected(why)
    {
      var existing := FindKey(events, key);
      FindKeyIsFirst(events, key);
      o := if existing.Some? then Recorded(key, existing.value) else Rejected(why);
    }

    method ClockInNow(p: Punch) returns (o: Outcome)
      requires p.kind == ClockIn && FindKey(events, p.key).None?
      modifies this
      ensures EndsAs(old(Value()), Punching(p, Arrived), 6, Value(), o)
    {
      ghost var before := Value();
      if OpenShiftOf(shifts, p.employee).Some? {
        o := ExistingOr(p.key, ShiftAlreadyOpen);
      } else {
        shifts := shifts + [ShiftRow(p.employee, p.insertedAt, None)];
        events := events + [EventRow(|shifts| - 1, ClockIn, p.now, p.key)];
        o := Recorded(p.key, |events| - 1);
      }
      ClockInAlone(before, p);
    }

    /** record_punch: idempotent on the key; the clock of the caller is never consulted. */
    method RecordPunch(p: Punch) returns (o: Outcome)
      modifies this
      ensures EndsAs(old(Value()), Punching(p, Arrived), 6, Value(), o)
    {
      ghost var before := Value();
      var existing := FindKey(events, p.key);
      if existing.Some? {
        RepeatAlone(before, p);
        return Recorded(p.key, existing.value);
      }
      if p.kind == ClockIn {
        o := ClockInNow(p);
        return;
      }
      PunchAlone(before, p);
      var open := OpenShiftOf(shifts, p.employee);
      if open.None? {
        o := ExistingOr(p.key, NoOpenShift);
        return;
      }
      var state := StateOf(Value(), open.value);
      if p.kind !in Allowed(state) {
        o := ExistingOr(p.key, IllegalTransition);
        return;
      }
      events := events + [EventRow(open.value, p.kind, p.now, p.key)];
      o := Recorded(p.key, |events| - 1);
      if p.kind == ClockOut {
        shifts := shifts[open.value := shifts[open.value].(closedAt := Some(p.now))];
      }
    }

    /** record_manual_shift: appends a closed interval, or returns the shift its key already made. */
    method RecordManualShift(employee: nat, e: Entry) returns (o: Outcome, shift: nat)
      modifies this
      ensures EndsAs(old(Value()), Manual(Batch(employee, [e], false), 0, [], [], false, KeyCheck), 6, Value(), o)
      ensures o == Committed ==> ShiftOfKey(Value(), ManualIn(e.id)) == Some(shift)
      ensures o != Committed ==> Value() == old(Value())
    {
      ghost var before := Value();
      ManualAlone(before, employee, e);
      shift := 0;
      var existing := FindKey(events, ManualIn(e.id));
      if existing.Some? {
        return Committed, events[existing.value].shift;
      }
      if Overlaps(shifts, employee, e) {
        return Conflict, 0;
      }
      if FindKey(events, ManualOut(e.id)).Some? {
        return Aborted, 0;
      }
      shift := |shifts|;
      shifts := shifts + [ShiftRow(employee, e.start, Some(e.end))];
      events := events
        + [EventRow(shift, ClockIn, e.start, ManualIn(e.id)), EventRow(shift, ClockOut, e.end, ManualOut(e.id))];
      assert events
        == before.events + [EventRow(shift, ClockIn, e.start, ManualIn(e.id))]
          + [EventRow(shift, ClockOut, e.end, ManualOut(e.id))];
      FindKeySnoc(before.events, EventRow(shift, ClockIn, e.start, ManualIn(e.id)), ManualIn(e.id));
      FindKeySnoc(before.events + [EventRow(shift, ClockIn, e.start, ManualIn(e.id))],
                  EventRow(shift, ClockOut, e.end, ManualOut(e.id)), ManualIn(e.id));
      o := Committed;
    }

    /** approve_shift (service): pins the current correction. */
    method Approve(shift: nat)
      modifies `approvals
      ensures Value() == SetApproval(old(Value()), shift, CurrentCorrection(corrections, shift))
      ensures StatusOf(Value(), shift) == Approved
    {
      approvals := approvals[shift := CurrentCorrection(corrections, shift)];
    }

    /** approve_shift (view): only a closed shift whose effective events calculate accepts. */
    method ApproveShift(shift: nat) returns (o: Outcome)
      modifies `approvals
      ensures EndsAs(old(Value()), Approving(shift, Look), 3, Value(), o)
    {
      ghost var before := Value();
      o := GuardFailed;
      if shift < |shifts| && shifts[shift].closedAt.Some? {
        var result := Calculate(EffectiveEvents(Value(), shift), NO_TERMS);
        if result.blockers == [] {
          Approve(shift);
          o := Committed;
        }
      }
      ApproveAlone(before, shift);
    }

    /** correct_shift_times: moves the first clock-in and every clock-out, re-checks, saves and approves. */
    method CorrectShiftTimes(c: Correction) returns (o: Outcome)
      modifies `corrections, `approvals, `sequence
      ensures EndsAs(old(Value()), Correcting(c, Examine), 6, Value(), o)
    {
      ghost var before := Value();
      CorrectAlone(before, c);
      if c.shift >= |shifts| || shifts[c.shift].closedAt.None? || BlankText(c.reason) || c.endedAt <= c.startedAt {
        return GuardFailed;
      }
      var current := EffectiveEvents(Value(), c.shift);
      var corrected, sawIn, sawOut := RewriteEvents(current, c.startedAt, c.endedAt);
      if !sawIn || !sawOut {
        return GuardFailed;
      }
      var result := Calculate(corrected, NO_TERMS);
      if result.blockers != [] {
        return GuardFailed;
      }
      SaveAndApprove(c, corrected);
      o := Committed;
    }

    /** The transaction: create_correction links the current correction, and approve_shift pins the new one. */
    method SaveAndApprove(c: Correction, corrected: seq<Event>)
      modifies `corrections, `approvals, `sequence
      ensures Value() == Corrected(old(Value()), c, corrected)
    {
      var previous := IdOf(CurrentCorrection(corrections, c.shift));
      var row := CorrectionRow(sequence, c.shift, previous, corrected, c.createdAt);
      ghost var next := Value().(sequence := sequence + 1);
      sequence := sequence + 1;
      corrections := corrections + [row];
      assert Value() == AddCorrection(next, row);
      Approve(c.shift);
    }
  }

  // ---- The weekly form ----

  /** Times of day in microseconds; a blank field is None. */
  datatype DayForm = DayForm(start: Option<nat>, end: Option<nat>)
  datatype WeekForm = BadRequest | Filled(entries: seq<Entry>)

  predicate Blank(d: DayForm) { d.start.None? && d.end.None? }

  predicate Readable(d: DayForm) {
    Blank(d) || (d.start.Some? && d.end.Some? && d.start.value < DAY && d.end.value < DAY
      && d.start.value != d.end.value)
  }

  /** An end before the start belongs to the next morning. */
  function DayEntry(d: DayForm, midnight: int, id: nat): Entry
    requires !Blank(d) && Readable(d)
  {
    Entry(id, midnight + d.start.value, midnight + d.end.value + (if d.end.value < d.start.value then DAY else 0))
  }

  function WeekEntries(days: seq<DayForm>, monday: int, key: int -> nat): seq<Entry>
    requires forall i :: 0 <= i < |days| ==> Readable(days[i])
  {
    if days == [] then []
    else
      var n := |days| - 1;
      var rest := WeekEntries(days[..n], monday, key);
      if Blank(days[n]) then rest else rest + [DayEntry(days[n], monday + n * DAY, key(n))]
  }

  /** create_manual_week's reading of its form: refused if any day is malformed or all are blank; otherwise the
      batch may be recorded, every shift being positive, shorter than a day and starting on its own day. */
  method ReadWeek(employee: nat, days: seq<DayForm>, monday: int, key: int -> nat) returns (r: WeekForm)
    ensures r.BadRequest?
      <==> (exists i :: 0 <= i < |days| && !Readable(days[i])) || (forall i :: 0 <= i < |days| ==> Blank(days[i]))
    ensures r.Filled? ==>
      (forall i :: 0 <= i < |days| ==> Readable(days[i])) && r.entries == WeekEntries(days, monday, key)
    ensures r.Filled? ==> MayArrive(Manual(Batch(employee, r.entries, true), 0, [], [], false, KeyCheck))
    ensures r.Filled? ==> forall k :: 0 <= k < |r.entries| ==>
      r.entries[k].end - r.entries[k].start < DAY && monday <= r.entries[k].start < monday + |days| * DAY
  {
    var entries: seq<Entry> := [];
    for index := 0 to |days|
      invariant forall i :: 0 <= i < index ==> Readable(days[i])
      invariant entries == WeekEntries(days[..index], monday, key)
      invariant entries == [] <==> forall i :: 0 <= i < index ==> Blank(days[i])
      invariant forall k :: 0 <= k < |entries| ==>
        0 < entries[k].end - entries[k].start < DAY && monday <= entries[k].start < monday + index * DAY
    {
      assert days[..index + 1][..index] == days[..index];
      var d := days[index];
      if !Readable(d) {
        return BadRequest;
      }
      if !Blank(d) {
        entries := entries + [DayEntry(d, monday + index * DAY, key(index))];
      }
    }
    assert days[..|days|] == days;
    r := if entries == [] then BadRequest else Filled(entries);
  }

  function ShiftOfKey(db: Db, key: Key): Option<nat> {
    var f := FindKey(db.events, key);
    if f.Some? then Some(db.events[f.value].shift) else None
  }

  // ---- What the jobs do when alone ----

  lemma {:induction false} FindKeyIsFirst(rows: seq<EventRow>, key: Key)
    ensures FindKey(rows, key).Some? ==> forall k :: 0 <= k < FindKey(rows, key).value ==> rows[k].key != key
  {
    if rows != [] { FindKeyIsFirst(rows[..|rows| - 1], key); }
  }

  lemma RepeatAlone(db: Db, p: Punch)
    requires FindKey(db.events, p.key).Some?
    ensures EndsAs(db, Punching(p, Arrived), 6, db, Recorded(p.key, FindKey(db.events, p.key).value))
  {
    var t := Alone(db, Done(Recorded(p.key, FindKey(db.events, p.key).value)));
    SoloOne(Alone(db, Punching(p, Arrived)), 6, t);
    SoloDone(t, 5);
  }

  lemma ClockInAlone(db: Db, p: Punch)
    requires p.kind == ClockIn && FindKey(db.events, p.key).None?
    ensures if OpenShiftOf(db.shifts, p.employee).Some?
      then EndsAs(db, Punching(p, Arrived), 6, db, Rejected(ShiftAlreadyOpen))
            else EndsAs(db, Punching(p, Arrived), 6, OpenNewShift(db, p.employee, p.insertedAt, p.now, p.key),
                        Recorded(p.key, |db.events|))
  {
    SoloOne(Alone(db, Punching(p, Arrived)), 6, Alone(db, Punching(p, ClockingIn)));
    if OpenShiftOf(db.shifts, p.employee).Some? {
      SoloOne(Alone(db, Punching(p, ClockingIn)), 5, Alone(db, Punching(p, Refused(ShiftAlreadyOpen))));
      SoloOne(Alone(db, Punching(p, Refused(ShiftAlreadyOpen))), 4, Alone(db, Done(Rejected(ShiftAlreadyOpen))));
      SoloDone(Alone(db, Done(Rejected(ShiftAlreadyOpen))), 3);
    } else {
      var t := Alone(OpenNewShift(db, p.employee, p.insertedAt, p.now, p.key), Done(Recorded(p.key, |db.events|)));
      SoloOne(Alone(db, Punching(p, ClockingIn)), 5, t);
      SoloDone(t, 4);
    }
  }

  lemma RefusedAlone(db: Db, p: Punch, why: Refusal, steps: nat)
    requires FindKey(db.events, p.key).None? && steps > 0
    ensures Solo(Alone(db, Punching(p, Refused(why))), steps) == Alone(db, Done(Rejected(why)))
  {
    SoloOne(Alone(db, Punching(p, Refused(why))), steps, Alone(db, Done(Rejected(why))));
    SoloDone(Alone(db, Done(Rejected(why))), steps - 1);
  }

  lemma PunchAlone(db: Db, p: Punch)
    requires p.kind != ClockIn && FindKey(db.events, p.key).None?
    ensures var open := OpenShiftOf(db.shifts, p.employee);
      if open.None? then EndsAs(db, Punching(p, Arrived), 6, db, Rejected(NoOpenShift))
      else if p.kind !in Allowed(StateOf(db, open.value))
        then EndsAs(db, Punching(p, Arrived), 6, db, Rejected(IllegalTransition))
      else EndsAs(db, Punching(p, Arrived), 6, AddPunch(db, open.value, p.kind, p.now, p.key),
        Recorded(p.key, |db.events|))
  {
    var open := OpenShiftOf(db.shifts, p.employee);
    SoloOne(Alone(db, Punching(p, Arrived)), 6, Alone(db, Punching(p, Selecting)));
    SoloOne(Alone(db, Punching(p, Selecting)), 5, Alone(db, Punching(p, Waiting(open))));
    if open.None? {
      SoloOne(Alone(db, Punching(p, Waiting(open))), 4, Alone(db, Punching(p, Refused(NoOpenShift))));
      RefusedAlone(db, p, NoOpenShift, 3);
    } else {
      HoldingAlone(db, p, open.value);
    }
  }

  /** A database with one open shift, clocked in at `at`. */
  function ClockedIn(at: int): Db { OpenNewShift(EMPTY_DB, 0, at, at, KioskKey(0)) }

  lemma ClockedInIs(at: int)
    ensures var db := ClockedIn(at);
      && FindKey(db.events, KioskKey(1)).None? && OpenShiftOf(db.shifts, 0) == Some(0)
         && |db.shifts| == |db.events| == 1
      && RawEvents(db, 0) == [Event(ClockIn, at, UTC)] && StateOf(db, 0) == Working
  {
    OpenNewShiftRaw(EMPTY_DB, 0, at, at, KioskKey(0), 0);
    var db := ClockedIn(at);
    assert db.events[..0] == [] && db.shifts[..0] == [];
  }

  lemma EarlyPunchIsIllegal(db: Db, at: int, now: int)
    requires now < at && |db.shifts| == 1 && RawEvents(db, 0) == [Event(ClockIn, at, UTC)]
    ensures Calculation(RawEvents(AddPunch(db, 0, BreakStart, now, KioskKey(1)), 0), NO_TERMS).blockers
      == [IllegalSequence]
  {
    AddPunchRaw(db, 0, BreakStart, now, KioskKey(1), 0);
    InsertedFirst(Event(ClockIn, at, UTC), Event(BreakStart, now, UTC));
    SortedIsFixed([Event(BreakStart, now, UTC), Event(ClockIn, at, UTC)], (e: Event) => e.at);
  }

  lemma InsertedFirst(first: Event, e: Event)
    requires e.at < first.at
    ensures InsertBy([first], e, (x: Event) => x.at) == [e, first]
  {
    assert [first][..0] == [];
  }

  /** The clock is read before the lock. A break that starts with an earlier reading than its clock-in is recorded all
      the same, and from then on payroll rejects the shift's punches. */
  lemma EarlyReadingBreaksTheWord(at: int, now: int)
    requires now < at
    ensures var db := ClockedIn(at);
      |db.shifts| == 1 && var after := AddPunch(db, 0, BreakStart, now, KioskKey(1));
      && EndsAs(db, Punching(Punch(0, BreakStart, KioskKey(1), now, now), Arrived), 6, after, Recorded(KioskKey(1), 1))
      && Calculation(RawEvents(after, 0), NO_TERMS).blockers == [IllegalSequence]
  {
    ClockedInIs(at);
    PunchAlone(ClockedIn(at), Punch(0, BreakStart, KioskKey(1), now, now));
    EarlyPunchIsIllegal(ClockedIn(at), at, now);
  }

  lemma HoldingAlone(db: Db, p: Punch, shift: nat)
    requires FindKey(db.events, p.key).None? && shift < |db.shifts| && db.shifts[shift].closedAt.None?
    ensures Solo(Alone(db, Punching(p, Waiting(Some(shift)))), 4)
      == if p.kind !in Allowed(StateOf(db, shift)) then Alone(db, Done(Rejected(IllegalTransition)))
         else Alone(AddPunch(db, shift, p.kind, p.now, p.key), Done(Recorded(p.key, |db.events|)))
  {
    SoloOne(Alone(db, Punching(p, Waiting(Some(shift)))), 4, Alone(db, Punching(p, Holding(shift))));
    if p.kind !in Allowed(StateOf(db, shift)) {
      SoloOne(Alone(db, Punching(p, Holding(shift))), 3, Alone(db, Punching(p, Refused(IllegalTransition))));
      RefusedAlone(db, p, IllegalTransition, 2);
    } else {
      SoloOne(Alone(db, Punching(p, Holding(shift))), 3, Alone(db, Punching(p, Checked(shift))));
      SoloOne(Alone(db, Punching(p, Checked(shift))), 2, Alone(db, Punching(p, Written(shift))));
      SoloOne(Alone(db, Punching(p, Written(shift))), 1,
              Alone(AddPunch(db, shift, p.kind, p.now, p.key), Done(Recorded(p.key, |db.events|))));
    }
  }

  lemma ManualAlone(db: Db, employee: nat, e: Entry)
    ensures var job := Manual(Batch(employee, [e], false), 0, [], [], false, KeyCheck);
      if FindKey(db.events, ManualIn(e.id)).Some? then EndsAs(db, job, 6, db, Committed)
      else if Overlaps(db.shifts, employee, e) then EndsAs(db, job, 6, db, Conflict)
      else if FindKey(db.events, ManualOut(e.id)).Some? then EndsAs(db, job, 6, db, Aborted)
      else EndsAs(db, job, 6, AddManualShift(db, employee, e.start, e.end, e.id), Committed)
  {
    var b, f := Batch(employee, [e], false), FindKey(db.events, ManualIn(e.id));
    var start := Alone(db, Manual(b, 0, [], [], false, KeyCheck));
    if f.Some? {
      var t := Alone(db, Manual(b, 1, [], [], false, KeyCheck));
      SoloOne(start, 6, t);
      SoloOne(t, 5, Alone(db, Done(Committed)));
      SoloDone(Alone(db, Done(Committed)), 4);
    } else {
      SoloOne(start, 6, Alone(db, Manual(b, 0, [], [], false, Locking)));
      SoloOne(Alone(db, Manual(b, 0, [], [], false, Locking)), 5, Alone(db, Manual(b, 0, [], [], true, OverlapCheck)));
      if Overlaps(db.shifts, employee, e) {
        SoloOne(Alone(db, Manual(b, 0, [], [], true, OverlapCheck)), 4, Alone(db, Done(Conflict)));
        SoloDone(Alone(db, Done(Conflict)), 3);
      } else {
        InsertAlone(db, b, e);
      }
    }
  }

  lemma InsertAlone(db: Db, b: Batch, e: Entry)
    requires b.entries == [e] && !b.approves && !Overlaps(db.shifts, b.employee, e)
    requires FindKey(db.events, ManualIn(e.id)).None?
    ensures var t := Solo(Alone(db, Manual(b, 0, [], [], true, OverlapCheck)), 4);
      if FindKey(db.events, ManualOut(e.id)).Some? then t.db == db && t.jobs == [Done(Aborted)]
      else t.db == AddManualShift(db, b.employee, e.start, e.end, e.id) && t.jobs == [Done(Committed)]
  {
    var n := |db.shifts|;
    var inserting := Alone(db, Manual(b, 0, [], [], true, Inserting(n)));
    SoloOne(Alone(db, Manual(b, 0, [], [], true, OverlapCheck)), 4, inserting);
    if FindKey(db.events, ManualOut(e.id)).Some? {
      SoloOne(inserting, 3, Alone(db, Done(Aborted)));
      SoloDone(Alone(db, Done(Aborted)), 2);
    } else {
      var drafts := [Draft(e, n)];
      assert [] + [Draft(e, n)] == drafts;
      var t := Alone(db, Manual(b, 1, drafts, [], true, KeyCheck));
      SoloOne(inserting, 3, t);
      assert drafts[..0] == [];
      var v := Alone(db, Done(Committed));
      var u := CommitDraft(v, b.employee, Draft(e, n));
      assert Become(t, 0, Done(Committed)) == v && CommitDrafts(v, b.employee, drafts) == u;
      SoloOne(t, 2, u);
      SoloDone(u, 1);
    }
  }

  /** From the pin on, with what the guard read in hand. */
  lemma PinAlone(db: Db, shift: nat, read: Option<CorrectionRow>, events: seq<Event>)
    ensures var pin := Pin(read, events, |db.corrections|);
      EndsAs(db, Approving(shift, pin), 2, SetApproval(db, shift, CurrentCorrection(db.corrections, shift)), Committed)
  {
    var n, now := |db.corrections|, CurrentCorrection(db.corrections, shift);
    var pinning := Alone(db, Approving(shift, Pin(read, events, n)));
    var storing := Advance(pinning, 0);
    SoloOne(pinning, 2, storing);
    SoloOne(storing, 1, Advance(storing, 0));
  }

  predicate Approvable(db: Db, shift: nat) {
    IsClosed(db, shift) && Calculation(EffectiveEvents(db, shift), NO_TERMS).blockers == []
  }

  lemma LookAlone(db: Db, shift: nat)
    ensures var pin := Pin(CurrentCorrection(db.corrections, shift), EffectiveEvents(db, shift), |db.corrections|);
      Advance(Alone(db, Approving(shift, Look)), 0)
        == Alone(db, if Approvable(db, shift) then Approving(shift, pin) else Done(GuardFailed))
  {
  }

  lemma ApproveAlone(db: Db, shift: nat)
    ensures if Approvable(db, shift)
            then EndsAs(db, Approving(shift, Look), 3,
                        SetApproval(db, shift, CurrentCorrection(db.corrections, shift)), Committed)
            else EndsAs(db, Approving(shift, Look), 3, db, GuardFailed)
  {
    LookAlone(db, shift);
    LookedAlone(db, shift, Approvable(db, shift));
  }

  lemma LookedAlone(db: Db, shift: nat, passed: bool)
    requires var pin := Pin(CurrentCorrection(db.corrections, shift), EffectiveEvents(db, shift), |db.corrections|);
      Advance(Alone(db, Approving(shift, Look)), 0)
        == Alone(db, if passed then Approving(shift, pin) else Done(GuardFailed))
    ensures passed ==> EndsAs(db, Approving(shift, Look), 3,
                              SetApproval(db, shift, CurrentCorrection(db.corrections, shift)), Committed)
    ensures !passed ==> EndsAs(db, Approving(shift, Look), 3, db, GuardFailed)
  {
    var read, events := CurrentCorrection(db.corrections, shift), EffectiveEvents(db, shift);
    if passed {
      SoloOne(Alone(db, Approving(shift, Look)), 3, Alone(db, Approving(shift, Pin(read, events, |db.corrections|))));
      PinAlone(db, shift, read, events);
    } else {
      SoloOne(Alone(db, Approving(shift, Look)), 3, Alone(db, Done(GuardFailed)));
      SoloDone(Alone(db, Done(GuardFailed)), 2);
    }
  }

  /** The tables after an undisturbed correction. */
  function Corrected(db: Db, c: Correction, events: seq<Event>): Db {
    var row := CorrectionRow(db.sequence, c.shift, IdOf(CurrentCorrection(db.corrections, c.shift)), events,
      c.createdAt);
    var after := AddCorrection(db.(sequence := db.sequence + 1), row);
    SetApproval(after, c.shift, CurrentCorrection(after.corrections, c.shift))
  }

  lemma CorrectAlone(db: Db, c: Correction)
    ensures if Correctable(db, c) then
              var events := Rewritten(EffectiveEvents(db, c.shift), c.startedAt, c.endedAt);
              EndsAs(db, Correcting(c, Examine), 6, Corrected(db, c, events), Committed)
            else EndsAs(db, Correcting(c, Examine), 6, db, GuardFailed)
  {
    if Correctable(db, c) {
      var events := Rewritten(EffectiveEvents(db, c.shift), c.startedAt, c.endedAt);
      SoloOne(Alone(db, Correcting(c, Examine)), 6, Alone(db, Correcting(c, Linking(events))));
      SaveAlone(db, c, events);
    } else {
      SoloOne(Alone(db, Correcting(c, Examine)), 6, Alone(db, Done(GuardFailed)));
      SoloDone(Alone(db, Done(GuardFailed)), 5);
    }
  }

  lemma SaveAlone(db: Db, c: Correction, events: seq<Event>)
    ensures EndsAs(db, Correcting(c, Linking(events)), 5, Corrected(db, c, events), Committed)
  {
    var rows, n := db.corrections, |db.corrections|;
    var previous := IdOf(CurrentCorrection(rows, c.shift));
    var row := CorrectionRow(db.sequence, c.shift, previous, events, c.createdAt);
    var pinned := CurrentCorrection(rows + [row], c.shift);
    var next := db.(sequence := db.sequence + 1);
    SoloOne(Alone(db, Correcting(c, Linking(events))), 5, Alone(db, Correcting(c, Adding(events, previous, n))));
    SoloOne(Alone(db, Correcting(c, Adding(events, previous, n))), 4, Alone(next, Correcting(c, Reading(row, n))));
    SoloOne(Alone(next, Correcting(c, Reading(row, n))), 3, Alone(next, Correcting(c, Storing(row, n, pinned, n))));
    SoloOne(Alone(next, Correcting(c, Storing(row, n, pinned, n))), 2,
      Alone(next, Correcting(c, Stored(row, n, pinned, n))));
    SoloOne(Alone(next, Correcting(c, Stored(row, n, pinned, n))), 1,
            Advance(Alone(next, Correcting(c, Stored(row, n, pinned, n))), 0));
  }
}
