/** The attendance tables as values: rows in id order (a row's id is its index), the queries the
    services run on them, and the writes they commit. */
module AttendanceDb {
  import opened Sorting
  import opened TimeCalculation
  import opened Attribution

  /** Idempotency keys. The manual keys `manual:<uuid>:in` / `:out` are injective in the uuid. */
  datatype Key = KioskKey(text: nat) | ManualIn(id: nat) | ManualOut(id: nat)

  datatype ShiftRow = ShiftRow(employee: nat, openedAt: int, closedAt: Option<int>)
  datatype EventRow = EventRow(shift: nat, kind: Kind, at: int, key: Key)
  datatype CorrectionRow =
    CorrectionRow(id: nat, shift: nat, supersedes: Option<nat>, events: seq<Event>, createdAt: int)

  /** Corrections are listed in the order in which they were committed; their ids come from `sequence` when they are
      inserted. `approvals` maps a shift to the correction its approval points to (None: the raw punches). */
  datatype Db = Db(shifts: seq<ShiftRow>, events: seq<EventRow>, corrections: seq<CorrectionRow>,
                   approvals: map<nat, Option<CorrectionRow>>, sequence: nat)

  // ---- Queries ----

  function FindKey(rows: seq<EventRow>, key: Key): (r: Option<nat>)
    ensures r.Some? ==> r.value < |rows| && rows[r.value].key == key
    ensures r.None? ==> forall i :: 0 <= i < |rows| ==> rows[i].key != key
  {
    if rows == [] then None
    else
      var r := FindKey(rows[..|rows| - 1], key);
      if r.Some? then r else if rows[|rows| - 1].key == key then Some(|rows| - 1) else None
  }

  function OpenShiftOf(rows: seq<ShiftRow>, employee: nat): (r: Option<nat>)
    ensures r.Some? ==> r.value < |rows| && rows[r.value].employee == employee && rows[r.value].closedAt.None?
    ensures r.None? ==> forall i :: 0 <= i < |rows| ==> rows[i].employee == employee ==> rows[i].closedAt.Some?
  {
    if rows == [] then None
    else
      var r, last := OpenShiftOf(rows[..|rows| - 1], employee), rows[|rows| - 1];
      if r.Some? then r else if last.employee == employee && last.closedAt.None? then Some(|rows| - 1) else None
  }

  /** A shift's punches in insertion order, with the offset the database driver returns. */
  function EventsOf(rows: seq<EventRow>, shift: nat): seq<Event> {
    if rows == [] then []
    else
      var rest, e := EventsOf(rows[..|rows| - 1], shift), rows[|rows| - 1];
      if e.shift == shift then rest + [Event(e.kind, e.at, UTC)] else rest
  }

  /** ORDER BY occurred_at, id. */
  function RawEvents(db: Db, shift: nat): seq<Event> { SortByTime(EventsOf(db.events, shift)) }

  /** The state its last punch (by time, then id) leaves an open shift in. */
  function StateOf(db: Db, shift: nat): State {
    var w := RawEvents(db, shift);
    if w == [] then Working else StateAfter(w[|w| - 1].kind)
  }

  /** ORDER BY created_at DESC, id DESC: `a` comes before `b`. */
  predicate After(a: CorrectionRow, b: CorrectionRow) {
    b.createdAt < a.createdAt || (a.createdAt == b.createdAt && b.id < a.id)
  }

  function CurrentIndex(rows: seq<CorrectionRow>, shift: nat): (r: Option<nat>)
    ensures r.Some? ==> r.value < |rows| && rows[r.value].shift == shift
    ensures r.None? ==> forall i :: 0 <= i < |rows| ==> rows[i].shift != shift
    ensures r.Some? ==> forall i :: 0 <= i < |rows| && rows[i].shift == shift ==> !After(rows[i], rows[r.value])
  {
    if rows == [] then None
    else
      var r, last := CurrentIndex(rows[..|rows| - 1], shift), rows[|rows| - 1];
      if last.shift == shift && (r.None? || After(last, rows[r.value])) then Some(|rows| - 1) else r
  }

  function CurrentCorrection(rows: seq<CorrectionRow>, shift: nat): Option<CorrectionRow> {
    var i := CurrentIndex(rows, shift);
    if i.Some? then Some(rows[i.value]) else None
  }

  function IdOf(c: Option<CorrectionRow>): Option<nat> { if c.Some? then Some(c.value.id) else None }

  /** The events of a correction, or the raw punches when there is none. */
  function EventsAt(db: Db, shift: nat, c: Option<CorrectionRow>): seq<Event> {
    if c.Some? then c.value.events else RawEvents(db, shift)
  }

  function EffectiveEvents(db: Db, shift: nat): seq<Event> {
    EventsAt(db, shift, CurrentCorrection(db.corrections, shift))
  }

  datatype ApprovalStatus = Pending | Approved | Stale

  function StatusOf(db: Db, shift: nat): ApprovalStatus {
    if shift !in db.approvals then Pending
    else if db.approvals[shift] == CurrentCorrection(db.corrections, shift) then Approved
    else Stale
  }

  predicate IsClosed(db: Db, shift: nat) { shift < |db.shifts| && db.shifts[shift].closedAt.Some? }

  // ---- Committed writes ----

  function OpenNewShift(db: Db, employee: nat, openedAt: int, at: int, key: Key): Db {
    db.(shifts := db.shifts + [ShiftRow(employee, openedAt, None)],
        events := db.events + [EventRow(|db.shifts|, ClockIn, at, key)])
  }

  function AddPunch(db: Db, shift: nat, kind: Kind, at: int, key: Key): Db
    requires shift < |db.shifts|
  {
    var shifts := if kind == ClockOut then db.shifts[shift := db.shifts[shift].(closedAt := Some(at))] else db.shifts;
    db.(shifts := shifts, events := db.events + [EventRow(shift, kind, at, key)])
  }

  function AddManualShift(db: Db, employee: nat, start: int, end: int, id: nat): Db {
    db.(shifts := db.shifts + [ShiftRow(employee, start, Some(end))],
        events := db.events + [EventRow(|db.shifts|, ClockIn, start, ManualIn(id)),
                               EventRow(|db.shifts|, ClockOut, end, ManualOut(id))])
  }

  function AddCorrection(db: Db, row: CorrectionRow): Db { db.(corrections := db.corrections + [row]) }

  function SetApproval(db: Db, shift: nat, pinned: Option<CorrectionRow>): Db {
    db.(approvals := db.approvals[shift := pinned])
  }

  // ---- What the database itself guarantees ----

  ghost predicate UniqueKeys(rows: seq<EventRow>) {
    forall i, j :: 0 <= i < j < |rows| ==> rows[i].key != rows[j].key
  }

  ghost predicate OneOpenShift(rows: seq<ShiftRow>) {
    forall i, j :: 0 <= i < j < |rows| && rows[i].closedAt.None? && rows[j].closedAt.None?
      ==> rows[i].employee != rows[j].employee
  }

  ghost predicate References(db: Db) {
    && (forall i :: 0 <= i < |db.events| ==> db.events[i].shift < |db.shifts|)
    && (forall i :: 0 <= i < |db.corrections| ==> db.corrections[i].shift < |db.shifts|)
    && (forall sh :: sh in db.approvals ==> sh < |db.shifts|)
  }

  ghost predicate DistinctIds(db: Db) {
    && (forall i :: 0 <= i < |db.corrections| ==> db.corrections[i].id < db.sequence)
    && (forall i, j :: 0 <= i < j < |db.corrections| ==> db.corrections[i].id != db.corrections[j].id)
  }

  ghost predicate Consistent(db: Db) {
    UniqueKeys(db.events) && OneOpenShift(db.shifts) && References(db) && DistinctIds(db)
  }

  predicate FreshKey(rows: seq<EventRow>, key: Key) { FindKey(rows, key).None? }

  // ---- How the writes change the queries ----

  lemma {:induction false} NoEventsBeyond(rows: seq<EventRow>, shift: nat)
    requires forall i :: 0 <= i < |rows| ==> rows[i].shift < shift
    ensures EventsOf(rows, shift) == []
  {
    if rows != [] { NoEventsBeyond(rows[..|rows| - 1], shift); }
  }

  lemma EventsOfSnoc(rows: seq<EventRow>, e: EventRow, shift: nat)
    ensures EventsOf(rows + [e], shift)
         == if e.shift == shift then EventsOf(rows, shift) + [Event(e.kind, e.at, UTC)] else EventsOf(rows, shift)
  {
    assert (rows + [e])[..|rows|] == rows;
  }

  lemma FindKeySnoc(rows: seq<EventRow>, e: EventRow, key: Key)
    ensures FindKey(rows + [e], key)
         == if FindKey(rows, key).Some? then FindKey(rows, key) else if e.key == key then Some(|rows|) else None
  {
    assert (rows + [e])[..|rows|] == rows;
  }

  // ---- The current correction of a shift ----

  /** `row` would come before the correction a reader found (or it found none). */
  predicate Beats(row: CorrectionRow, read: Option<CorrectionRow>) { read.None? || After(row, read.value) }

  /** None of the corrections number from, …, upto - 1 of the shift comes before `read`. */
  ghost predicate NoneBeats(rows: seq<CorrectionRow>, shift: nat, read: Option<CorrectionRow>, from: nat, upto: nat)
    requires upto <= |rows|
  {
    forall k :: from <= k < upto && rows[k].shift == shift ==> !Beats(rows[k], read)
  }

  lemma CurrentSnoc(rows: seq<CorrectionRow>, c: CorrectionRow, shift: nat)
    ensures CurrentCorrection(rows + [c], shift)
         == var r := CurrentCorrection(rows, shift); if c.shift == shift && Beats(c, r) then Some(c) else r
  {
    assert (rows + [c])[..|rows|] == rows;
  }

  /** What a reader found is still current exactly when nothing committed since comes before it. */
  lemma {:induction false} StillCurrentIff(rows: seq<CorrectionRow>, shift: nat, from: nat)
    requires from <= |rows|
    ensures var read := CurrentCorrection(rows[..from], shift);
      && (CurrentCorrection(rows, shift) == read <==> NoneBeats(rows, shift, read, from, |rows|))
      && (CurrentCorrection(rows, shift) != read ==>
            CurrentCorrection(rows, shift).Some? && Beats(CurrentCorrection(rows, shift).value, read))
    decreases |rows|
  {
    if from < |rows| {
      var n := |rows| - 1;
      var front, last := rows[..n], rows[n];
      StillCurrentIff(front, shift, from);
      assert front[..from] == rows[..from] && rows == front + [last];
      CurrentSnoc(front, last, shift);
    } else {
      assert rows[..from] == rows;
    }
  }

  ghost predicate NewId(rows: seq<CorrectionRow>, id: nat) { forall k :: 0 <= k < |rows| ==> rows[k].id != id }

  /** A new row is current exactly when none of the shift's rows comes before it. */
  lemma NewRowIsCurrentIff(rows: seq<CorrectionRow>, row: CorrectionRow)
    requires NewId(rows, row.id)
    ensures CurrentCorrection(rows + [row], row.shift) == Some(row)
      <==> NoneBeats(rows, row.shift, Some(row), 0, |rows|)
  {
    CurrentSnoc(rows, row, row.shift);
    var i := CurrentIndex(rows, row.shift);
    if i.Some? { assert rows[i.value].id != row.id; }
  }

  /** The order of the last two rows does not matter. */
  lemma CurrentCommutes(rows: seq<CorrectionRow>, a: CorrectionRow, b: CorrectionRow, shift: nat)
    requires a.id != b.id
    ensures CurrentCorrection(rows + [a] + [b], shift) == CurrentCorrection(rows + [b] + [a], shift)
  {
    CurrentSnoc(rows + [a], b, shift);
    CurrentSnoc(rows, a, shift);
    CurrentSnoc(rows + [b], a, shift);
    CurrentSnoc(rows, b, shift);
  }

  /** What one more committed row means for a reader who sees his own uncommitted `row` as well. */
  lemma OwnViewSnoc(front: seq<CorrectionRow>, last: CorrectionRow, row: CorrectionRow)
    requires last.id != row.id
    ensures CurrentCorrection(front + [row], row.shift).Some?
    ensures var now := CurrentCorrection(front + [row], row.shift);
      CurrentCorrection(front + [last] + [row], row.shift)
        == if last.shift == row.shift && After(last, now.value) then Some(last) else now
  {
    CurrentCommutes(front, last, row, row.shift);
    CurrentSnoc(front + [row], last, row.shift);
    CurrentSnoc(front, row, row.shift);
  }

  lemma NoneBeatsSnoc(front: seq<CorrectionRow>, last: CorrectionRow, shift: nat, read: Option<CorrectionRow>,
                      from: nat)
    requires from <= |front|
    ensures NoneBeats(front + [last], shift, read, from, |front| + 1)
       <==> NoneBeats(front, shift, read, from, |front|) && (last.shift == shift ==> !Beats(last, read))
  {
    var rows := front + [last];
    assert rows[|front|] == last && forall k :: 0 <= k < |front| ==> rows[k] == front[k];
  }

  /** The same for a reader whose own uncommitted row is the last to be committed. */
  lemma {:induction false} OwnViewStillCurrentIff(rows: seq<CorrectionRow>, row: CorrectionRow, from: nat)
    requires from <= |rows| && NewId(rows, row.id)
    ensures var read, now := CurrentCorrection(rows[..from] + [row], row.shift),
      CurrentCorrection(rows + [row], row.shift);
      && (now == read <==> NoneBeats(rows, row.shift, read, from, |rows|))
      && read.Some? && now.Some? && (now != read ==> After(now.value, read.value))
    decreases |rows|
  {
    if from < |rows| {
      var n := |rows| - 1;
      OwnViewStep(rows[..n], rows[n], row, from);
      assert rows == rows[..n] + [rows[n]];
    } else {
      assert rows[..from] == rows;
      CurrentSnoc(rows, row, row.shift);
    }
  }

  lemma OwnViewStep(front: seq<CorrectionRow>, last: CorrectionRow, row: CorrectionRow, from: nat)
    requires from <= |front| && NewId(front + [last], row.id)
    ensures var rows := front + [last];
      var read, now := CurrentCorrection(rows[..from] + [row], row.shift), CurrentCorrection(rows + [row], row.shift);
      && (now == read <==> NoneBeats(rows, row.shift, read, from, |rows|))
      && read.Some? && now.Some? && (now != read ==> After(now.value, read.value))
    decreases |front| + 1, 0
  {
    var rows := front + [last];
    assert rows[|front|] == last && forall k :: 0 <= k < |front| ==> rows[k] == front[k];
    OwnViewStillCurrentIff(front, row, from);
    assert rows[..from] == front[..from];
    OwnViewSnoc(front, last, row);
    NoneBeatsSnoc(front, last, row.shift, CurrentCorrection(front[..from] + [row], row.shift), from);
  }

  /** The correction of the shift that was committed last. */
  function LastCommitted(rows: seq<CorrectionRow>, shift: nat): (r: Option<CorrectionRow>)
    ensures r.Some? ==> exists k :: 0 <= k < |rows| && rows[k] == r.value && rows[k].shift == shift
    ensures r.None? ==> forall k :: 0 <= k < |rows| ==> rows[k].shift != shift
  {
    if rows == [] then None
    else if rows[|rows| - 1].shift == shift then Some(rows[|rows| - 1])
    else LastCommitted(rows[..|rows| - 1], shift)
  }

  lemma AddPunchRaw(db: Db, shift: nat, kind: Kind, at: int, key: Key, other: nat)
    requires shift < |db.shifts|
    ensures var db2 := AddPunch(db, shift, kind, at, key);
      && (other != shift ==> RawEvents(db2, other) == RawEvents(db, other))
      && (other == shift ==>
           RawEvents(db2, other) == InsertBy(RawEvents(db, other), Event(kind, at, UTC), (e: Event) => e.at))
  {
    EventsOfSnoc(db.events, EventRow(shift, kind, at, key), other);
    if other == shift {
      SortSnoc(EventsOf(db.events, other), Event(kind, at, UTC));
    }
  }

  lemma SortSnoc(xs: seq<Event>, e: Event)
    ensures SortByTime(xs + [e]) == InsertBy(SortByTime(xs), e, (x: Event) => x.at)
  {
    assert (xs + [e])[..|xs|] == xs;
  }

  lemma OpenNewShiftRaw(db: Db, employee: nat, openedAt: int, at: int, key: Key, other: nat)
    requires References(db)
    ensures RawEvents(OpenNewShift(db, employee, openedAt, at, key), other)
         == if other == |db.shifts| then [Event(ClockIn, at, UTC)] else RawEvents(db, other)
  {
    EventsOfSnoc(db.events, EventRow(|db.shifts|, ClockIn, at, key), other);
    if other == |db.shifts| {
      NoEventsBeyond(db.events, other);
      SortedIsFixed([Event(ClockIn, at, UTC)], (x: Event) => x.at);
    }
  }

  lemma AddManualRaw(db: Db, employee: nat, start: int, end: int, id: nat, other: nat)
    requires References(db) && start < end
    ensures RawEvents(AddManualShift(db, employee, start, end, id), other)
         == if other == |db.shifts| then [Event(ClockIn, start, UTC), Event(ClockOut, end, UTC)]
           else RawEvents(db, other)
  {
    var r1 := EventRow(|db.shifts|, ClockIn, start, ManualIn(id));
    var r2 := EventRow(|db.shifts|, ClockOut, end, ManualOut(id));
    EventsOfSnoc(db.events, r1, other);
    EventsOfSnoc(db.events + [r1], r2, other);
    assert AddManualShift(db, employee, start, end, id).events == db.events + [r1] + [r2];
    if other == |db.shifts| {
      NoEventsBeyond(db.events, other);
      SortedIsFixed([Event(ClockIn, start, UTC), Event(ClockOut, end, UTC)], (x: Event) => x.at);
    }
  }
}
