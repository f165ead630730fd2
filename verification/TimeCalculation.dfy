/** Payable time of one shift: sort the punches, run the automaton, drop breaks, clip to
    employment, cut at midnights and rate changes. Instants are integer microseconds; an
    event also carries the UTC offset of the datetime it was parsed from, because midnights
    are taken in that offset. */
module TimeCalculation {
  import opened Sorting

  datatype Option<+T> = None | Some(value: T)

  const DAY := 86_400_000_000
  const HOUR := 3_600_000_000

  datatype Kind = ClockIn | BreakStart | BreakEnd | ClockOut | Unrecognised
  datatype Event = Event(kind: Kind, at: int, offset: int)
  datatype Interval = Interval(start: int, offset: int, end: int)
  datatype Segment = Segment(start: int, end: int)
  datatype Blocker = OpenShift | UnpairedBreak | IllegalSequence | UnrecordedScheduledBreak
  datatype TimeResult = TimeResult(segments: seq<Segment>, blockers: seq<Blocker>)
  datatype Moment = Moment(at: int, offset: int)

  /** The keyword arguments of `calculate`. */
  datatype Terms = Terms(ratePoints: seq<int>, scheduledBreakMinutes: nat,
                         employmentStart: Option<Moment>, employmentEnd: Option<Moment>)
  const NO_TERMS := Terms([], 0, None, None)

  function SortByTime(events: seq<Event>): seq<Event> { SortBy(events, (e: Event) => e.at) }

  // ---- The state a punch leaves the worker in, and what may follow it ----

  datatype State = Idle | Working | OnBreak

  function StateAfter(kind: Kind): State {
    match kind
    case ClockIn | BreakEnd => Working
    case BreakStart => OnBreak
    case ClockOut | Unrecognised => Idle
  }

  function Allowed(state: State): set<Kind> {
    match state
    case Idle => {ClockIn}
    case Working => {BreakStart, ClockOut}
    case OnBreak => {BreakEnd}
  }

  // ---- The legal punch word: CLOCK_IN (BREAK_START BREAK_END)* CLOCK_OUT ----

  predicate LegalAt(kind: Kind, i: nat, last: bool) {
    if i == 0 then kind == ClockIn
    else if i % 2 == 1 then kind == BreakStart || (last && kind == ClockOut)
    else kind == BreakEnd
  }

  predicate LegalPrefix(w: seq<Event>) {
    forall i :: 0 <= i < |w| ==> LegalAt(w[i].kind, i, i == |w| - 1)
  }

  predicate Complete(w: seq<Event>) {
    LegalPrefix(w) && w != [] && w[|w| - 1].kind == ClockOut
  }

  function Kinds(w: seq<Event>): seq<Kind> { seq(|w|, i requires 0 <= i < |w| => w[i].kind) }

  function Breaks(n: nat): seq<Kind> { if n == 0 then [] else Breaks(n - 1) + [BreakStart, BreakEnd] }

  lemma {:induction false} BreaksAt(n: nat)
    ensures |Breaks(n)| == 2 * n
    ensures forall i :: 0 <= i < 2 * n ==> Breaks(n)[i] == if i % 2 == 0 then BreakStart else BreakEnd
  {
    if n > 0 { BreaksAt(n - 1); }
  }

  /** `Complete` is exactly the regular expression the module promises. */
  lemma CompleteIsRegular(w: seq<Event>)
    ensures Complete(w) <==> exists n: nat :: Kinds(w) == [ClockIn] + Breaks(n) + [ClockOut]
  {
    if Complete(w) {
      var n := |w| / 2 - 1;
      BreaksAt(n);
      assert Kinds(w) == [ClockIn] + Breaks(n) + [ClockOut];
    }
    if n: nat :| Kinds(w) == [ClockIn] + Breaks(n) + [ClockOut] {
      BreaksAt(n);
      assert |w| == |Kinds(w)| == 2 * n + 2;
      forall i | 0 <= i < |w| ensures LegalAt(w[i].kind, i, i == |w| - 1) {
        assert w[i].kind == Kinds(w)[i];
      }
      assert w[|w| - 1].kind == Kinds(w)[|w| - 1];
    }
  }

  /** Length of the longest legal prefix. */
  function LegalLength(w: seq<Event>): (n: nat)
    ensures n <= |w| && LegalPrefix(w[..n])
    ensures n < |w| ==> !LegalPrefix(w[..n + 1])
  {
    if LegalPrefix(w) then (assert w[..|w|] == w; |w|)
    else
      var front := w[..|w| - 1];
      var n := LegalLength(front);
      assert w[..n] == front[..n];
      assert n < |front| ==> w[..n + 1] == front[..n + 1];
      assert w[..|w|] == w;
      n
  }

  lemma LegalPrefixShortens(w: seq<Event>, m: nat, n: nat)
    requires m <= n <= |w|
    ensures LegalPrefix(w[..n]) ==> LegalPrefix(w[..m])
  {
    if LegalPrefix(w[..n]) {
      forall i | 0 <= i < m ensures LegalAt(w[..m][i].kind, i, i == m - 1) {
        assert LegalAt(w[..n][i].kind, i, i == n - 1);
      }
    }
  }

  /** Every blocker the event sequence itself can raise, for a time-sorted sequence. */
  function Diagnose(w: seq<Event>): seq<Blocker> {
    if w == [] || w[0].kind != ClockIn then [IllegalSequence]
    else if w[|w| - 1].kind != ClockOut then [OpenShift]
    else if Complete(w) then []
    else
      var n := LegalLength(w);
      if n > 0 && w[n - 1].kind == BreakStart then [IllegalSequence, UnpairedBreak] else [IllegalSequence]
  }

  /** The worked stretches of a legal word: its consecutive pairs of punches. */
  function Pairs(w: seq<Event>): (r: seq<Interval>)
    ensures |r| == |w| / 2
  {
    seq(|w| / 2, j requires 0 <= j < |w| / 2 => Interval(w[2 * j].at, w[2 * j].offset, w[2 * j + 1].at))
  }

  function Positive(xs: seq<Interval>): seq<Interval> {
    if xs == [] then []
    else
      var last := xs[|xs| - 1];
      if last.end > last.start then Positive(xs[..|xs| - 1]) + [last] else Positive(xs[..|xs| - 1])
  }

  function WorkedIntervals(w: seq<Event>): seq<Interval> { Positive(Pairs(w)) }

  method WorkIntervals(events: seq<Event>) returns (intervals: seq<Interval>, blockers: seq<Blocker>)
    ensures blockers == Diagnose(SortByTime(events))
    ensures intervals == if blockers == [] then WorkedIntervals(SortByTime(events)) else []
  {
    var parsed := SortByTime(events);
    blockers := [];
    if parsed == [] || parsed[0].kind != ClockIn {
      return [], [IllegalSequence];
    }
    if parsed[|parsed| - 1].kind != ClockOut {
      return [], [OpenShift];
    }
    intervals := [];
    var workStart, workOffset := parsed[0].at, parsed[0].offset;
    var state := Working;
    var i := 1;
    while i < |parsed| && blockers == []
      invariant 1 <= i <= |parsed|
      invariant LegalPrefix(parsed[..i]) && state == StateAfter(parsed[i - 1].kind)
      invariant state == Working ==> workStart == parsed[i - 1].at && workOffset == parsed[i - 1].offset
      invariant blockers == [] ==> intervals == Pairs(parsed[..i])
      invariant blockers != [] ==> blockers == [IllegalSequence] && i < |parsed| && !LegalPrefix(parsed[..i + 1])
      decreases |parsed| - i, |blockers| == 0
    {
      var ev := parsed[i];
      LegalStep(parsed, i);
      if state == Working && ev.kind == BreakStart {
        intervals := intervals + [Interval(workStart, workOffset, ev.at)];
        state, i := OnBreak, i + 1;
      } else if state == OnBreak && ev.kind == BreakEnd {
        state, workStart, workOffset, i := Working, ev.at, ev.offset, i + 1;
      } else if state == Working && ev.kind == ClockOut {
        intervals := intervals + [Interval(workStart, workOffset, ev.at)];
        state, i := Idle, i + 1;
      } else {
        blockers := [IllegalSequence];
      }
    }
    DiagnoseAt(parsed, i);
    if state == OnBreak {
      blockers := blockers + [UnpairedBreak];
    }
    if blockers != [] {
      return [], blockers;
    }
    intervals := Positive(intervals);
  }

  /** One more event keeps a prefix legal exactly when the automaton accepts it. */
  lemma LegalStep(w: seq<Event>, i: nat)
    requires 1 <= i < |w| && LegalPrefix(w[..i])
    ensures LegalPrefix(w[..i + 1]) <==> w[i].kind in Allowed(StateAfter(w[i - 1].kind)) - {ClockIn}
    ensures LegalPrefix(w[..i + 1]) ==>
      Pairs(w[..i + 1]) == Pairs(w[..i]) +
        (if StateAfter(w[i - 1].kind) == Working then [Interval(w[i - 1].at, w[i - 1].offset, w[i].at)] else [])
  {
    var u, v := w[..i], w[..i + 1];
    assert LegalAt(u[i - 1].kind, i - 1, true);
    assert forall k :: 0 <= k < i ==> v[k] == u[k] == w[k];
    if w[i].kind in Allowed(StateAfter(w[i - 1].kind)) - {ClockIn} {
      forall k | 0 <= k <= i ensures LegalAt(v[k].kind, k, k == |v| - 1) {
        if k < i { assert LegalAt(u[k].kind, k, k == |u| - 1); }
      }
    }
    if LegalPrefix(v) {
      assert LegalAt(v[i].kind, i, true) && LegalAt(v[i - 1].kind, i - 1, false);
    }
  }

  /** What the automaton has learned when it stops at `i`. */
  lemma DiagnoseAt(w: seq<Event>, i: nat)
    requires 1 <= i <= |w| && w[0].kind == ClockIn && w[|w| - 1].kind == ClockOut
    requires LegalPrefix(w[..i]) && (i < |w| ==> !LegalPrefix(w[..i + 1]))
    ensures w[..|w|] == w
    ensures Diagnose(w) == if i == |w| then []
                           else if w[i - 1].kind == BreakStart then [IllegalSequence, UnpairedBreak]
                           else [IllegalSequence]
  {
    assert w[..|w|] == w;
    if i < |w| {
      LegalPrefixShortens(w, i + 1, |w|);
      var n := LegalLength(w);
      LegalPrefixShortens(w, if n > i then i + 1 else i, if n > i then n else i);
      LegalPrefixShortens(w, if n < i then n + 1 else i, i);
    }
  }

  // ---- Cutting at midnights and rate changes ----

  predicate Ascending(xs: seq<int>) { forall i, j :: 0 <= i < j < |xs| ==> xs[i] < xs[j] }

  predicate IsMidnight(p: int, offset: int) { (p + offset) % DAY == 0 }

  predicate IsCut(p: int, offset: int, extra: seq<int>) { IsMidnight(p, offset) || p in extra }

  /** Reference meaning of the cut points: try every instant strictly inside (lo, hi). */
  function CutsIn(lo: int, hi: int, offset: int, extra: seq<int>): seq<int>
    decreases hi - lo
  {
    if hi - lo <= 1 then []
    else (if IsCut(lo + 1, offset, extra) then [lo + 1] else []) + CutsIn(lo + 1, hi, offset, extra)
  }

  lemma {:induction false} CutsInAre(lo: int, hi: int, offset: int, extra: seq<int>)
    ensures Ascending(CutsIn(lo, hi, offset, extra))
    ensures forall p :: p in CutsIn(lo, hi, offset, extra) <==> lo < p < hi && IsCut(p, offset, extra)
    decreases hi - lo
  {
    if hi - lo > 1 {
      CutsInAre(lo + 1, hi, offset, extra);
      var rest := CutsIn(lo + 1, hi, offset, extra);
      assert forall i :: 0 <= i < |rest| ==> rest[i] in rest;
    }
  }

  /** The stretches between consecutive cuts. */
  function Pieces(start: int, cuts: seq<int>, end: int): seq<Segment> {
    seq(|cuts| + 1, k requires 0 <= k <= |cuts| =>
      Segment(if k == 0 then start else cuts[k - 1], if k == |cuts| then end else cuts[k]))
  }

  function SplitAt(x: Interval, extra: seq<int>): seq<Segment> {
    Pieces(x.start, CutsIn(x.start, x.end, x.offset, extra), x.end)
  }

  /** Local midnights strictly inside (start, end), found by walking day by day. */
  method MidnightsBetween(start: int, offset: int, end: int) returns (points: seq<int>)
    ensures Ascending(points)
    ensures forall p :: p in points <==> start < p < end && IsMidnight(p, offset)
  {
    points := [];
    var day := start - (start + offset) % DAY;
    while day <= end
      invariant IsMidnight(day, offset) && start - DAY < day
      invariant Ascending(points)
      invariant forall p :: p in points <==> start < p < end && p < day && IsMidnight(p, offset)
      decreases end - day
    {
      forall p | day < p < day + DAY ensures !IsMidnight(p, offset) { NoMidnightBetween(day, p, offset); }
      assert forall i :: 0 <= i < |points| ==> points[i] in points;
      if start < day < end {
        points := points + [day];
      }
      day := day + DAY;
      assert IsMidnight(day, offset);
    }
  }

  lemma NoMidnightBetween(day: int, p: int, offset: int)
    requires IsMidnight(day, offset) && day < p < day + DAY
    ensures !IsMidnight(p, offset)
  {
  }

  function AscendingSet(xs: seq<int>): (r: seq<int>)
    ensures Ascending(r)
    ensures forall p :: p in r <==> p in xs
  {
    if xs == [] then []
    else
      assert forall p :: p in xs <==> p in xs[..|xs| - 1] || p == xs[|xs| - 1];
      InsertNew(AscendingSet(xs[..|xs| - 1]), xs[|xs| - 1])
  }

  function InsertNew(xs: seq<int>, x: int): (r: seq<int>)
    requires Ascending(xs)
    ensures Ascending(r)
    ensures forall p :: p in r <==> p in xs || p == x
  {
    if xs == [] || xs[|xs| - 1] < x then xs + [x]
    else if xs[|xs| - 1] == x then xs
    else
      assert forall p :: p in xs <==> p in xs[..|xs| - 1] || p == xs[|xs| - 1];
      var r := InsertNew(xs[..|xs| - 1], x);
      assert forall i :: 0 <= i < |r| ==> r[i] in r;
      r + [xs[|xs| - 1]]
  }

  function Inside(xs: seq<int>, start: int, end: int): (r: seq<int>)
    ensures forall p :: p in r <==> p in xs && start < p < end
  {
    if xs == [] then []
    else
      assert forall p :: p in xs <==> p in xs[..|xs| - 1] || p == xs[|xs| - 1];
      Inside(xs[..|xs| - 1], start, end) + (if start < xs[|xs| - 1] < end then [xs[|xs| - 1]] else [])
  }

  /** Two ascending sequences with the same elements are the same sequence. */
  lemma {:induction false} AscendingUnique(a: seq<int>, b: seq<int>)
    requires Ascending(a) && Ascending(b) && forall p :: p in a <==> p in b
    ensures a == b
  {
    assert b != [] ==> b[0] in b;
    if a != [] {
      assert a[0] in a && b[0] in b;
      forall p ensures p in a[1..] <==> p in b[1..] {
        assert p in a <==> p == a[0] || p in a[1..];
        assert p in b <==> p == b[0] || p in b[1..];
      }
      AscendingUnique(a[1..], b[1..]);
      assert a == [a[0]] + a[1..] && b == [b[0]] + b[1..];
    }
  }

  method OrderedCuts(x: Interval, extra: seq<int>) returns (ordered: seq<int>)
    ensures ordered == CutsIn(x.start, x.end, x.offset, extra)
  {
    var midnights := MidnightsBetween(x.start, x.offset, x.end);
    ordered := AscendingSet(midnights + Inside(extra, x.start, x.end));
    CutsInAre(x.start, x.end, x.offset, extra);
    AscendingUnique(ordered, CutsIn(x.start, x.end, x.offset, extra));
  }

  method Split(x: Interval, extra: seq<int>) returns (segments: seq<Segment>)
    ensures segments == SplitAt(x, extra)
  {
    var ordered := OrderedCuts(x, extra);
    segments := [];
    var cursor := x.start;
    for i := 0 to |ordered|
      invariant segments == Pieces(x.start, ordered, x.end)[..i]
      invariant cursor == if i == 0 then x.start else ordered[i - 1]
    {
      segments := segments + [Segment(cursor, ordered[i])];
      cursor := ordered[i];
    }
    segments := segments + [Segment(cursor, x.end)];
  }

  // ---- calculate ----

  /** Time outside employment is not payable; a clipped start takes over the clip's offset. */
  function Clip(x: Interval, t: Terms): Interval {
    var y := if t.employmentStart.Some? && x.start < t.employmentStart.value.at
             then x.(start := t.employmentStart.value.at, offset := t.employmentStart.value.offset) else x;
    if t.employmentEnd.Some? && t.employmentEnd.value.at < y.end then y.(end := t.employmentEnd.value.at) else y
  }

  function PayableOf(x: Interval, t: Terms): seq<Segment> {
    var y := Clip(x, t);
    if y.end <= y.start then [] else SplitAt(y, t.ratePoints)
  }

  function Payable(xs: seq<Interval>, t: Terms): seq<Segment> {
    if xs == [] then [] else Payable(xs[..|xs| - 1], t) + PayableOf(xs[|xs| - 1], t)
  }

  predicate HadBreak(events: seq<Event>) { exists e :: e in events && e.kind == BreakStart }

  function Calculation(events: seq<Event>, t: Terms): TimeResult {
    var w := SortByTime(events);
    if Diagnose(w) != [] then TimeResult([], Diagnose(w))
    else if t.scheduledBreakMinutes > 0 && !HadBreak(events)
    then TimeResult([], [UnrecordedScheduledBreak])
    else TimeResult(Payable(WorkedIntervals(w), t), [])
  }

  method ClipAndSplit(x: Interval, t: Terms) returns (pieces: seq<Segment>)
    ensures pieces == PayableOf(x, t)
  {
    var y := x;
    if t.employmentStart.Some? && y.start < t.employmentStart.value.at {
      y := y.(start := t.employmentStart.value.at, offset := t.employmentStart.value.offset);
    }
    if t.employmentEnd.Some? && y.end > t.employmentEnd.value.at {
      y := y.(end := t.employmentEnd.value.at);
    }
    if y.end <= y.start {
      return [];
    }
    pieces := Split(y, t.ratePoints);
  }

  method CutAll(intervals: seq<Interval>, t: Terms) returns (segments: seq<Segment>)
    requires Ordered(intervals)
    ensures segments == Payable(intervals, t)
  {
    segments := [];
    for i := 0 to |intervals|
      invariant segments == Payable(intervals[..i], t)
    {
      assert intervals[..i + 1][..i] == intervals[..i];
      var pieces := ClipAndSplit(intervals[i], t);
      segments := segments + pieces;
    }
    assert intervals[..|intervals|] == intervals;
    PayableShape(intervals, t);
    SortedIsFixed(segments, (s: Segment) => s.start);
    segments := SortByStart(segments);
  }

  method Calculate(events: seq<Event>, t: Terms) returns (r: TimeResult)
    ensures r == Calculation(events, t)
  {
    var intervals, blockers := WorkIntervals(events);
    if blockers != [] {
      return TimeResult([], blockers);
    }
    if t.scheduledBreakMinutes > 0 && !HadBreak(events) {
      return TimeResult([], [UnrecordedScheduledBreak]);
    }
    SortedPairsOrdered(events);
    var segments := CutAll(intervals, t);
    r := TimeResult(segments, []);
  }

  function SortByStart(segments: seq<Segment>): seq<Segment> { SortBy(segments, (s: Segment) => s.start) }

  // ---- Shape of the result ----

  ghost predicate Ordered(xs: seq<Interval>) {
    && (forall i :: 0 <= i < |xs| ==> xs[i].start < xs[i].end)
    && forall i, j :: 0 <= i < j < |xs| ==> xs[i].end <= xs[j].start
  }

  /** Sorted, pairwise disjoint and non-empty. */
  ghost predicate Disjoint(segs: seq<Segment>) {
    && (forall i :: 0 <= i < |segs| ==> segs[i].start < segs[i].end)
    && forall i, j :: 0 <= i < j < |segs| ==> segs[i].end <= segs[j].start
  }

  function Total(segs: seq<Segment>): int {
    if segs == [] then 0 else Total(segs[..|segs| - 1]) + segs[|segs| - 1].end - segs[|segs| - 1].start
  }

  function Length(x: Interval): int { if x.end <= x.start then 0 else x.end - x.start }

  function ClippedTotal(xs: seq<Interval>, t: Terms): int {
    if xs == [] then 0 else ClippedTotal(xs[..|xs| - 1], t) + Length(Clip(xs[|xs| - 1], t))
  }

  lemma {:induction false} TotalConcat(a: seq<Segment>, b: seq<Segment>)
    ensures Total(a + b) == Total(a) + Total(b)
  {
    if b == [] {
      assert a + b == a;
    } else {
      TotalConcat(a, b[..|b| - 1]);
      assert (a + b)[..|a + b| - 1] == a + b[..|b| - 1];
    }
  }

  lemma {:induction false} PiecesTotal(start: int, cuts: seq<int>, end: int)
    ensures Total(Pieces(start, cuts, end)) == end - start
  {
    var r := Pieces(start, cuts, end);
    if cuts == [] {
      assert r == [Segment(start, end)];
    } else {
      var c := cuts[|cuts| - 1];
      PiecesTotal(start, cuts[..|cuts| - 1], c);
      assert r[..|r| - 1] == Pieces(start, cuts[..|cuts| - 1], c);
    }
  }

  /** A segment respects the clipped interval `y`: inside it, and cut wherever it had to be. */
  ghost predicate Within(s: Segment, y: Interval, extra: seq<int>) {
    && y.start <= s.start < s.end <= y.end
    && forall p :: s.start < p < s.end ==> !IsCut(p, y.offset, extra)
  }

  lemma SplitShape(y: Interval, extra: seq<int>)
    requires y.start < y.end
    ensures Disjoint(SplitAt(y, extra)) && Total(SplitAt(y, extra)) == y.end - y.start
    ensures forall k :: 0 <= k < |SplitAt(y, extra)| ==> Within(SplitAt(y, extra)[k], y, extra)
  {
    var cuts := CutsIn(y.start, y.end, y.offset, extra);
    CutsInAre(y.start, y.end, y.offset, extra);
    PiecesTotal(y.start, cuts, y.end);
    assert forall i :: 0 <= i < |cuts| ==> cuts[i] in cuts;
    forall k | 0 <= k < |SplitAt(y, extra)| ensures Within(SplitAt(y, extra)[k], y, extra) {
      PieceWithin(y, extra, cuts, k);
    }
  }

  lemma PieceWithin(y: Interval, extra: seq<int>, cuts: seq<int>, k: nat)
    requires y.start < y.end && k <= |cuts| && Ascending(cuts)
    requires forall p :: p in cuts <==> y.start < p < y.end && IsCut(p, y.offset, extra)
    ensures Within(Pieces(y.start, cuts, y.end)[k], y, extra)
  {
    var s := Pieces(y.start, cuts, y.end)[k];
    assert k > 0 ==> cuts[k - 1] in cuts;
    assert k < |cuts| ==> cuts[k] in cuts;
    forall p | s.start < p < s.end ensures !IsCut(p, y.offset, extra) {
      assert p !in cuts;
    }
  }

  lemma PayableOfShape(x: Interval, t: Terms)
    ensures var r := PayableOf(x, t);
      && Disjoint(r) && Total(r) == Length(Clip(x, t))
      && forall k :: 0 <= k < |r| ==> x.start <= r[k].start && r[k].end <= x.end
  {
    var y := Clip(x, t);
    if y.start < y.end {
      SplitShape(y, t.ratePoints);
      assert forall k :: 0 <= k < |SplitAt(y, t.ratePoints)| ==> Within(SplitAt(y, t.ratePoints)[k], y, t.ratePoints);
    }
  }

  lemma DisjointConcat(a: seq<Segment>, b: seq<Segment>, lo: int, hi: int)
    requires Disjoint(a) && Disjoint(b) && lo <= hi
    requires forall k :: 0 <= k < |a| ==> a[k].end <= lo
    requires forall k :: 0 <= k < |b| ==> lo <= b[k].start && b[k].end <= hi
    ensures Disjoint(a + b) && forall k :: 0 <= k < |a + b| ==> (a + b)[k].end <= hi
  {
  }

  lemma {:induction false} PayableShape(xs: seq<Interval>, t: Terms)
    requires Ordered(xs)
    ensures Disjoint(Payable(xs, t)) && Total(Payable(xs, t)) == ClippedTotal(xs, t)
    ensures forall k :: 0 <= k < |Payable(xs, t)| ==> xs != [] && Payable(xs, t)[k].end <= xs[|xs| - 1].end
  {
    if xs != [] {
      var front, last := xs[..|xs| - 1], xs[|xs| - 1];
      PayableShape(front, t);
      PayableOfShape(last, t);
      TotalConcat(Payable(front, t), PayableOf(last, t));
      assert front != [] ==> front[|front| - 1].end <= last.start;
      DisjointConcat(Payable(front, t), PayableOf(last, t), last.start, last.end);
    }
  }

  /** Each payable segment comes from one worked interval. */
  lemma {:induction false} PayableOrigin(xs: seq<Interval>, t: Terms, k: nat) returns (j: nat)
    requires Ordered(xs) && k < |Payable(xs, t)|
    ensures j < |xs| && Within(Payable(xs, t)[k], Clip(xs[j], t), t.ratePoints)
  {
    var front := xs[..|xs| - 1];
    if k < |Payable(front, t)| {
      j := PayableOrigin(front, t, k);
    } else {
      j := |xs| - 1;
      SplitShape(Clip(xs[j], t), t.ratePoints);
    }
  }

  lemma {:induction false} PositiveOrdered(xs: seq<Interval>)
    requires forall i :: 0 <= i < |xs| ==> xs[i].start <= xs[i].end
    requires forall i, j :: 0 <= i < j < |xs| ==> xs[i].end <= xs[j].start
    ensures Ordered(Positive(xs))
    ensures forall k :: 0 <= k < |Positive(xs)| ==> xs != [] && Positive(xs)[k].end <= xs[|xs| - 1].end
  {
    if xs != [] {
      PositiveOrdered(xs[..|xs| - 1]);
    }
  }

  lemma SortedPairsOrdered(events: seq<Event>)
    ensures Ordered(WorkedIntervals(SortByTime(events)))
  {
    SortBySorts(events, (e: Event) => e.at);
    var w := SortByTime(events);
    assert forall i, j :: 0 <= i <= j < |w| ==> w[i].at <= w[j].at;
    PositiveOrdered(Pairs(w));
  }

  // ---- Main results about calculate ----

  /** Segments are sorted, pairwise disjoint and non-empty, and nothing is lost in the cutting. */
  lemma SegmentsDisjointAndExhaustive(events: seq<Event>, t: Terms)
    requires Calculation(events, t).blockers == []
    ensures Disjoint(Calculation(events, t).segments)
    ensures Total(Calculation(events, t).segments) == ClippedTotal(WorkedIntervals(SortByTime(events)), t)
  {
    SortedPairsOrdered(events);
    PayableShape(WorkedIntervals(SortByTime(events)), t);
  }

  /** Each segment lies in one worked interval clipped to employment, and strictly contains no midnight
      of that interval's offset and no rate change. */
  lemma SegmentsRespectBoundaries(events: seq<Event>, t: Terms, k: nat) returns (j: nat)
    requires k < |Calculation(events, t).segments|
    ensures var xs := WorkedIntervals(SortByTime(events));
      j < |xs| && Within(Calculation(events, t).segments[k], Clip(xs[j], t), t.ratePoints)
  {
    SortedPairsOrdered(events);
    j := PayableOrigin(WorkedIntervals(SortByTime(events)), t, k);
  }

  /** No segment leaves the employment window. */
  lemma SegmentsWithinEmployment(events: seq<Event>, t: Terms, k: nat)
    requires k < |Calculation(events, t).segments|
    ensures var s := Calculation(events, t).segments[k];
      && (t.employmentStart.Some? ==> t.employmentStart.value.at <= s.start)
      && (t.employmentEnd.Some? ==> s.end <= t.employmentEnd.value.at)
  {
    var j := SegmentsRespectBoundaries(events, t, k);
  }

  /** No blocker exactly when the time-sorted kinds form the legal word (and a scheduled break was taken). */
  lemma AcceptedIffLegal(events: seq<Event>, t: Terms)
    ensures Calculation(events, t).blockers == [] <==>
      && Complete(SortByTime(events))
      && (t.scheduledBreakMinutes > 0 ==> HadBreak(events))
    ensures Calculation(events, t).blockers != [] ==> Calculation(events, t).segments == []
    ensures UnpairedBreak in Calculation(events, t).blockers ==> IllegalSequence in Calculation(events, t).blockers
  {
    var w := SortByTime(events);
    if Complete(w) { assert LegalAt(w[0].kind, 0, |w| == 1); }
  }

  /** The result does not depend on the order of the input when events at the same time are equal events. */
  lemma OrderIndependent(a: seq<Event>, b: seq<Event>, t: Terms)
    requires multiset(a) == multiset(b)
    requires forall i, j :: 0 <= i < j < |a| && a[i].at == a[j].at ==> a[i] == a[j]
    ensures Calculation(a, t) == Calculation(b, t)
  {
    PermutationsSortAlike(a, b, (e: Event) => e.at);
    forall e: Event ensures e in a <==> e in b {
      assert e in a <==> e in multiset(a);
    }
  }

  /** When different events share a timestamp it does: the sort is by time only. */
  lemma OrderMattersOnTies(u: seq<Event>, v: seq<Event>)
    requires |u| == 4 && v == [u[0], u[2], u[1], u[3]]
    requires u[0].kind == ClockIn && u[1].kind == BreakStart && u[2].kind == BreakEnd && u[3].kind == ClockOut
    requires u[0].at <= u[1].at == u[2].at <= u[3].at
    ensures Calculation(u, NO_TERMS).blockers == []
    ensures Calculation(v, NO_TERMS).blockers == [IllegalSequence]
  {
    SortedBlockers(u);
    SortedBlockers(v);
    GoesThrough(u);
    StopsAtSecond(v);
  }

  lemma SortedBlockers(w: seq<Event>)
    requires forall i, j :: 0 <= i < j < |w| ==> w[i].at <= w[j].at
    ensures SortByTime(w) == w && Calculation(w, NO_TERMS).blockers == Diagnose(w)
  {
    SortedIsFixed(w, (e: Event) => e.at);
  }

  lemma GoesThrough(w: seq<Event>)
    requires |w| == 4 && w[0].kind == ClockIn && w[1].kind == BreakStart && w[2].kind == BreakEnd
      && w[3].kind == ClockOut
    ensures Diagnose(w) == []
  {
  }

  lemma StopsAtSecond(w: seq<Event>)
    requires |w| == 4 && w[0].kind == ClockIn && w[1].kind == BreakEnd && w[3].kind == ClockOut
    ensures Diagnose(w) == [IllegalSequence]
  {
    assert w[..1] == [w[0]] && !LegalAt(w[..2][1].kind, 1, true);
    DiagnoseAt(w, 1);
  }
}
