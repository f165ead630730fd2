/** What payable time means: the instants at which replaying the punches leaves the worker WORKING.
    The segments of `calculate` are compared with that pointwise meaning, window by window. */
module Attribution {
  import opened Sorting
  import opened TimeCalculation

  ghost predicate TimeSorted(w: seq<Event>) { forall i, j :: 0 <= i < j < |w| ==> w[i].at <= w[j].at }

  /** The latest punch not later than `t` decides, among equals the last one. */
  predicate WorkingAt(w: seq<Event>, t: int) {
    w != [] &&
    if w[|w| - 1].at <= t then StateAfter(w[|w| - 1].kind) == Working else WorkingAt(w[..|w| - 1], t)
  }

  /** The number of working instants in [lo, hi). */
  function WorkedTime(w: seq<Event>, lo: int, hi: int): nat
    decreases hi - lo
  {
    if hi <= lo then 0 else WorkedTime(w, lo, hi - 1) + (if WorkingAt(w, hi - 1) then 1 else 0)
  }

  /** Paid time the payroll counts for a window: the lengths of the segments that start in it. */
  function PaidIn(segs: seq<Segment>, lo: int, hi: int): int {
    if segs == [] then 0
    else
      var s := segs[|segs| - 1];
      PaidIn(segs[..|segs| - 1], lo, hi) + (if lo <= s.start < hi then s.end - s.start else 0)
  }

  /** How far segments that began before `p` reach beyond it. */
  function Spill(segs: seq<Segment>, p: int): int {
    if segs == [] then 0
    else
      var s := segs[|segs| - 1];
      Spill(segs[..|segs| - 1], p) + (if s.start < p < s.end then s.end - p else 0)
  }

  function Overlap(start: int, end: int, lo: int, hi: int): nat {
    var a, b := if lo < start then start else lo, if hi < end then hi else end;
    if a < b then b - a else 0
  }

  function SharedBySegments(segs: seq<Segment>, lo: int, hi: int): nat {
    if segs == [] then 0
    else SharedBySegments(segs[..|segs| - 1], lo, hi) + Overlap(segs[|segs| - 1].start, segs[|segs| - 1].end, lo, hi)
  }

  function SharedByIntervals(xs: seq<Interval>, lo: int, hi: int): nat {
    if xs == [] then 0
    else SharedByIntervals(xs[..|xs| - 1], lo, hi) + Overlap(xs[|xs| - 1].start, xs[|xs| - 1].end, lo, hi)
  }

  predicate Covered(xs: seq<Interval>, t: int) {
    xs != [] && (xs[|xs| - 1].start <= t < xs[|xs| - 1].end || Covered(xs[..|xs| - 1], t))
  }

  // ---- Replay versus the worked intervals ----

  /** A legal word of even length is a shorter one followed by a working punch and a resting punch. */
  lemma LastPair(w: seq<Event>)
    requires LegalPrefix(w) && TimeSorted(w) && |w| % 2 == 0 && w != []
    ensures var v, x, y := w[..|w| - 2], w[|w| - 2], w[|w| - 1];
      && LegalPrefix(v) && TimeSorted(v) && w[..|w| - 1] == v + [x] && (v + [x])[..|v|] == v
      && x.kind in {ClockIn, BreakEnd} && y.kind in {BreakStart, ClockOut}
      && Pairs(w) == Pairs(v) + [Interval(x.at, x.offset, y.at)]
      && forall j :: 0 <= j < |Pairs(v)| ==> Pairs(v)[j].end <= x.at
  {
    var n := |w|;
    assert LegalAt(w[n - 1].kind, n - 1, true) && LegalAt(w[n - 2].kind, n - 2, false);
    assert w[..n] == w;
    LegalPrefixShortens(w, n - 2, n);
  }

  lemma PositiveSnoc(xs: seq<Interval>, x: Interval)
    ensures Positive(xs + [x]) == if x.start < x.end then Positive(xs) + [x] else Positive(xs)
  {
    assert (xs + [x])[..|xs|] == xs;
  }

  lemma WorkingPair(v: seq<Event>, x: Event, y: Event, t: int)
    requires x.kind in {ClockIn, BreakEnd} && y.kind in {BreakStart, ClockOut}
    ensures WorkingAt(v + [x] + [y], t) <==> t < y.at && (x.at <= t || WorkingAt(v, t))
  {
    assert (v + [x] + [y])[..|v| + 1] == v + [x];
    assert (v + [x])[..|v|] == v;
  }

  lemma CoveredSnoc(xs: seq<Interval>, x: Interval, t: int)
    ensures Covered(xs + [x], t) <==> x.start <= t < x.end || Covered(xs, t)
  {
    assert (xs + [x])[..|xs|] == xs;
  }

  lemma {:induction false} WorkingIsCovered(w: seq<Event>, t: int)
    requires LegalPrefix(w) && TimeSorted(w) && |w| % 2 == 0
    ensures WorkingAt(w, t) <==> Covered(Pairs(w), t)
  {
    if w != [] {
      LastPair(w);
      var v, x, y := w[..|w| - 2], w[|w| - 2], w[|w| - 1];
      WorkingIsCovered(v, t);
      assert w == v + [x] + [y];
      WorkingPair(v, x, y, t);
      CoveredSnoc(Pairs(v), Interval(x.at, x.offset, y.at), t);
      if Covered(Pairs(v), t) { CoveredBefore(Pairs(v), t, x.at); }
    }
  }

  lemma {:induction false} CoveredPositive(xs: seq<Interval>, t: int)
    ensures Covered(Positive(xs), t) <==> Covered(xs, t)
  {
    if xs != [] {
      var front, x := xs[..|xs| - 1], xs[|xs| - 1];
      CoveredPositive(front, t);
      CoveredSnoc(Positive(front), x, t);
    }
  }

  lemma {:induction false} OverlapStep(xs: seq<Interval>, lo: int, hi: int)
    requires Ordered(xs) && lo < hi
    ensures SharedByIntervals(xs, lo, hi) == SharedByIntervals(xs, lo, hi - 1) + (if Covered(xs, hi - 1) then 1 else 0)
  {
    if xs != [] {
      var front := xs[..|xs| - 1];
      OverlapStep(front, lo, hi);
      if Covered(front, hi - 1) { CoveredBefore(front, hi - 1, xs[|xs| - 1].start); }
    }
  }

  lemma {:induction false} CoveredBefore(xs: seq<Interval>, t: int, bound: int)
    requires Covered(xs, t) && forall i :: 0 <= i < |xs| ==> xs[i].end <= bound
    ensures t < bound
  {
    if !(xs[|xs| - 1].start <= t < xs[|xs| - 1].end) { CoveredBefore(xs[..|xs| - 1], t, bound); }
  }

  lemma {:induction false} WorkedTimeIsShared(w: seq<Event>, lo: int, hi: int)
    requires LegalPrefix(w) && TimeSorted(w) && |w| % 2 == 0
    ensures WorkedTime(w, lo, hi) == SharedByIntervals(WorkedIntervals(w), lo, hi)
    decreases hi - lo
  {
    PositiveOrdered(Pairs(w));
    if lo < hi {
      WorkedTimeIsShared(w, lo, hi - 1);
      WorkingIsCovered(w, hi - 1);
      CoveredPositive(Pairs(w), hi - 1);
      OverlapStep(WorkedIntervals(w), lo, hi);
    } else {
      NothingShared(WorkedIntervals(w), lo, hi);
    }
  }

  lemma {:induction false} NothingShared(xs: seq<Interval>, lo: int, hi: int)
    requires hi <= lo
    ensures SharedByIntervals(xs, lo, hi) == 0
  {
    if xs != [] { NothingShared(xs[..|xs| - 1], lo, hi); }
  }

  // ---- Segments versus the worked intervals ----

  lemma {:induction false} SharedConcat(a: seq<Segment>, b: seq<Segment>, lo: int, hi: int)
    ensures SharedBySegments(a + b, lo, hi) == SharedBySegments(a, lo, hi) + SharedBySegments(b, lo, hi)
    ensures PaidIn(a + b, lo, hi) == PaidIn(a, lo, hi) + PaidIn(b, lo, hi)
    ensures Spill(a + b, lo) == Spill(a, lo) + Spill(b, lo)
  {
    if b == [] {
      assert a + b == a;
    } else {
      SharedConcat(a, b[..|b| - 1], lo, hi);
      assert (a + b)[..|a + b| - 1] == a + b[..|b| - 1];
    }
  }

  lemma {:induction false} PiecesShare(start: int, cuts: seq<int>, end: int, lo: int, hi: int)
    requires start < end && Ascending(cuts) && forall i :: 0 <= i < |cuts| ==> start < cuts[i] < end
    ensures SharedBySegments(Pieces(start, cuts, end), lo, hi) == Overlap(start, end, lo, hi)
    decreases |cuts|
  {
    var r := Pieces(start, cuts, end);
    if cuts == [] {
      assert r == [Segment(start, end)];
    } else {
      var c := cuts[|cuts| - 1];
      PiecesShare(start, cuts[..|cuts| - 1], c, lo, hi);
      assert r[..|r| - 1] == Pieces(start, cuts[..|cuts| - 1], c);
    }
  }

  /** Cutting covers the same instants: only the calls without terms matter for attribution. */
  lemma {:induction false} PayableShares(xs: seq<Interval>, lo: int, hi: int)
    requires Ordered(xs)
    ensures SharedBySegments(Payable(xs, NO_TERMS), lo, hi) == SharedByIntervals(xs, lo, hi)
  {
    if xs != [] {
      var front, x := xs[..|xs| - 1], xs[|xs| - 1];
      PayableShares(front, lo, hi);
      SharedConcat(Payable(front, NO_TERMS), PayableOf(x, NO_TERMS), lo, hi);
      var cuts := CutsIn(x.start, x.end, x.offset, []);
      CutsInAre(x.start, x.end, x.offset, []);
      assert forall i :: 0 <= i < |cuts| ==> cuts[i] in cuts;
      PiecesShare(x.start, cuts, x.end, lo, hi);
    }
  }

  lemma {:induction false} PaidIsSharedPlusSpill(segs: seq<Segment>, lo: int, hi: int)
    requires Disjoint(segs) && lo <= hi
    ensures PaidIn(segs, lo, hi) == SharedBySegments(segs, lo, hi) - Spill(segs, lo) + Spill(segs, hi)
  {
    if segs != [] { PaidIsSharedPlusSpill(segs[..|segs| - 1], lo, hi); }
  }

  // ---- When nothing spills over an instant ----

  /** No worked interval strictly contains `p`, unless `p` is a midnight of that interval's own offset. */
  predicate Aligned(w: seq<Event>, p: int) {
    forall j :: 0 <= j < |w| / 2 ==> w[2 * j].at < p < w[2 * j + 1].at ==> IsMidnight(p, w[2 * j].offset)
  }

  predicate AlignedIntervals(xs: seq<Interval>, p: int) {
    xs != [] ==>
      var x := xs[|xs| - 1];
      (x.start < p < x.end ==> IsMidnight(p, x.offset)) && AlignedIntervals(xs[..|xs| - 1], p)
  }

  lemma AlignedSnoc(xs: seq<Interval>, x: Interval, p: int)
    ensures AlignedIntervals(xs + [x], p) <==>
      (x.start < p < x.end ==> IsMidnight(p, x.offset)) && AlignedIntervals(xs, p)
  {
    assert (xs + [x])[..|xs|] == xs;
  }

  lemma {:induction false} AlignedPositive(xs: seq<Interval>, p: int)
    ensures AlignedIntervals(Positive(xs), p) <==> AlignedIntervals(xs, p)
  {
    if xs != [] {
      var front, x := xs[..|xs| - 1], xs[|xs| - 1];
      AlignedPositive(front, p);
      AlignedSnoc(Positive(front), x, p);
    }
  }

  lemma {:induction false} AlignedPairs(w: seq<Event>, p: int)
    ensures AlignedIntervals(Pairs(w), p) <==> Aligned(w, p)
  {
    if |w| >= 2 {
      var m := |w| / 2;
      var v := w[..2 * m - 2];
      AlignedPairs(v, p);
      assert Pairs(w)[..m - 1] == Pairs(v);
      assert forall j :: 0 <= j < 2 * m - 2 ==> v[j] == w[j];
    }
  }

  lemma {:induction false} PiecesSpill(start: int, cuts: seq<int>, end: int, p: int)
    requires start < end && Ascending(cuts) && forall i :: 0 <= i < |cuts| ==> start < cuts[i] < end
    ensures Spill(Pieces(start, cuts, end), p) >= 0
    ensures Spill(Pieces(start, cuts, end), p) == 0 <==> !(start < p < end) || p in cuts
    decreases |cuts|
  {
    var r := Pieces(start, cuts, end);
    if cuts == [] {
      assert r == [Segment(start, end)];
    } else {
      var c := cuts[|cuts| - 1];
      PiecesSpill(start, cuts[..|cuts| - 1], c, p);
      assert r[..|r| - 1] == Pieces(start, cuts[..|cuts| - 1], c);
      assert p in cuts <==> p in cuts[..|cuts| - 1] || p == c;
    }
  }

  lemma {:induction false} NoSpillIffAligned(xs: seq<Interval>, p: int)
    requires Ordered(xs)
    ensures Spill(Payable(xs, NO_TERMS), p) >= 0
    ensures Spill(Payable(xs, NO_TERMS), p) == 0 <==> AlignedIntervals(xs, p)
  {
    if xs != [] {
      var front, x := xs[..|xs| - 1], xs[|xs| - 1];
      NoSpillIffAligned(front, p);
      SharedConcat(Payable(front, NO_TERMS), PayableOf(x, NO_TERMS), p, p);
      var cuts := CutsIn(x.start, x.end, x.offset, []);
      CutsInAre(x.start, x.end, x.offset, []);
      assert forall i :: 0 <= i < |cuts| ==> cuts[i] in cuts;
      PiecesSpill(x.start, cuts, x.end, p);
    }
  }

  // ---- How far a stretch reaches over an instant at which nothing cuts it ----

  /** The first midnight of an offset after `p`. */
  function NextMidnight(p: int, offset: int): (m: int)
    ensures p < m && IsMidnight(m, offset) && forall q :: p < q < m ==> !IsMidnight(q, offset)
  {
    NextMultiple(p + offset);
    p + DAY - (p + offset) % DAY
  }

  lemma NextMultiple(x: int)
    ensures (x + DAY - x % DAY) % DAY == 0
    ensures forall y :: x < y < x + DAY - x % DAY ==> y % DAY != 0
  {
    forall y | x < y < x + DAY - x % DAY ensures y % DAY != 0 {
      assert y / DAY == x / DAY;
    }
  }

  /** A worked stretch that strictly contains `p`, which is no midnight of its offset, is counted before `p` up to its
      end or to the next midnight of its offset. */
  function Reach(x: Interval, p: int): nat {
    if x.start < p < x.end && !IsMidnight(p, x.offset) then
      var m := NextMidnight(p, x.offset);
      (if m < x.end then m else x.end) - p
    else 0
  }

  function ReachOf(xs: seq<Interval>, p: int): nat {
    if xs == [] then 0 else ReachOf(xs[..|xs| - 1], p) + Reach(xs[|xs| - 1], p)
  }

  /** The first of the cuts after `p`, or the end. */
  function NextCut(cuts: seq<int>, end: int, p: int): int {
    if cuts == [] || cuts[|cuts| - 1] <= p then end else NextCut(cuts[..|cuts| - 1], cuts[|cuts| - 1], p)
  }

  lemma {:induction false} NextCutIs(cuts: seq<int>, end: int, p: int)
    requires Ascending(cuts) && p < end && forall i :: 0 <= i < |cuts| ==> cuts[i] < end
    ensures var c := NextCut(cuts, end, p);
      && p < c && (c == end || c in cuts) && c <= end
      && forall i :: 0 <= i < |cuts| && p < cuts[i] ==> c <= cuts[i]
  {
    if cuts != [] && p < cuts[|cuts| - 1] { NextCutIs(cuts[..|cuts| - 1], cuts[|cuts| - 1], p); }
  }

  lemma {:induction false} PiecesReach(start: int, cuts: seq<int>, end: int, p: int)
    requires start < end && Ascending(cuts) && forall i :: 0 <= i < |cuts| ==> start < cuts[i] < end
    ensures Spill(Pieces(start, cuts, end), p)
         == if start < p < end && p !in cuts then NextCut(cuts, end, p) - p else 0
    decreases |cuts|
  {
    if cuts == [] {
      assert Pieces(start, cuts, end) == [Segment(start, end)];
    } else {
      var front, c := cuts[..|cuts| - 1], cuts[|cuts| - 1];
      assert start < c < end && forall i :: 0 <= i < |front| ==> front[i] == cuts[i] < c;
      PiecesReach(start, front, c, p);
      LastPiece(start, cuts, end);
      SpillSnoc(Pieces(start, front, c), Segment(c, end), p);
      InLast(cuts, p);
      if c < p { assert p !in front; }
    }
  }

  lemma LastPiece(start: int, cuts: seq<int>, end: int)
    requires cuts != []
    ensures var c := cuts[|cuts| - 1];
      Pieces(start, cuts, end) == Pieces(start, cuts[..|cuts| - 1], c) + [Segment(c, end)]
  {
  }

  lemma SpillSnoc(segs: seq<Segment>, s: Segment, p: int)
    ensures Spill(segs + [s], p) == Spill(segs, p) + (if s.start < p < s.end then s.end - p else 0)
  {
    assert (segs + [s])[..|segs|] == segs;
  }

  lemma InLast(cuts: seq<int>, p: int)
    requires cuts != []
    ensures p in cuts <==> p in cuts[..|cuts| - 1] || p == cuts[|cuts| - 1]
  {
    assert cuts == cuts[..|cuts| - 1] + [cuts[|cuts| - 1]];
  }

  lemma OneStretchReaches(x: Interval, p: int)
    requires x.start < x.end
    ensures Spill(PayableOf(x, NO_TERMS), p) == Reach(x, p)
  {
    var cuts := CutsIn(x.start, x.end, x.offset, []);
    CutsInAre(x.start, x.end, x.offset, []);
    assert forall i :: 0 <= i < |cuts| ==> cuts[i] in cuts;
    PiecesReach(x.start, cuts, x.end, p);
    if x.start < p < x.end && !IsMidnight(p, x.offset) { NextCutIsMidnight(x, cuts, p); }
  }

  lemma NextCutIsMidnight(x: Interval, cuts: seq<int>, p: int)
    requires Ascending(cuts) && forall q :: q in cuts <==> x.start < q < x.end && IsMidnight(q, x.offset)
    requires x.start < p < x.end && !IsMidnight(p, x.offset)
    ensures var m := NextMidnight(p, x.offset); NextCut(cuts, x.end, p) == if m < x.end then m else x.end
  {
    assert forall i :: 0 <= i < |cuts| ==> cuts[i] in cuts;
    NextCutIs(cuts, x.end, p);
    var m := NextMidnight(p, x.offset);
    if m < x.end { assert m in cuts; }
  }

  lemma {:induction false} PayableReaches(xs: seq<Interval>, p: int)
    requires Ordered(xs)
    ensures Spill(Payable(xs, NO_TERMS), p) == ReachOf(xs, p)
  {
    if xs != [] {
      var front, x := xs[..|xs| - 1], xs[|xs| - 1];
      PayableReaches(front, p);
      SharedConcat(Payable(front, NO_TERMS), PayableOf(x, NO_TERMS), p, p);
      OneStretchReaches(x, p);
    }
  }

  lemma {:induction false} ReachPositive(xs: seq<Interval>, p: int)
    ensures ReachOf(Positive(xs), p) == ReachOf(xs, p)
  {
    if xs != [] {
      var front, x := xs[..|xs| - 1], xs[|xs| - 1];
      ReachPositive(front, p);
      if x.start < x.end { assert (Positive(front) + [x])[..|Positive(front)|] == Positive(front); }
    }
  }

  // ---- Main results ----

  ghost predicate Accepted(events: seq<Event>) { Complete(SortByTime(events)) }

  function Segments(events: seq<Event>): seq<Segment> { Calculation(events, NO_TERMS).segments }

  lemma AcceptedWord(events: seq<Event>)
    requires Accepted(events)
    ensures var w := SortByTime(events); TimeSorted(w) && LegalPrefix(w) && |w| % 2 == 0 && w != []
  {
    var w := SortByTime(events);
    SortBySorts(events, (e: Event) => e.at);
    assert LegalAt(w[|w| - 1].kind, |w| - 1, true);
  }

  lemma AcceptedSegments(events: seq<Event>)
    requires Accepted(events)
    ensures var xs := WorkedIntervals(SortByTime(events));
      Ordered(xs) && Segments(events) == Payable(xs, NO_TERMS) && Disjoint(Segments(events))
  {
    SortedPairsOrdered(events);
    AcceptedIffLegal(events, NO_TERMS);
    SegmentsDisjointAndExhaustive(events, NO_TERMS);
  }

  /** The exact law of month attribution: what a window is paid for is the time worked in it, minus what
      was already counted before it began, plus what reaches beyond its end. */
  lemma AttributionLaw(events: seq<Event>, lo: int, hi: int)
    requires Accepted(events) && lo <= hi
    ensures PaidIn(Segments(events), lo, hi)
         == WorkedTime(SortByTime(events), lo, hi) - Spill(Segments(events), lo) + Spill(Segments(events), hi)
  {
    AcceptedSegments(events);
    var xs := WorkedIntervals(SortByTime(events));
    PayableShares(xs, lo, hi);
    AcceptedWord(events);
    WorkedTimeIsShared(SortByTime(events), lo, hi);
    PaidIsSharedPlusSpill(Segments(events), lo, hi);
  }

  /** What has been counted before `p` although it is worked after it, read off the punches alone. */
  ghost function UncutReach(events: seq<Event>, p: int): nat {
    if Accepted(events) then ReachOf(Pairs(SortByTime(events)), p) else 0
  }

  /** The closed form of a spill. */
  lemma SpillIsUncutReach(events: seq<Event>, p: int)
    ensures Spill(Segments(events), p) == UncutReach(events, p)
  {
    AcceptedIffLegal(events, NO_TERMS);
    if Accepted(events) {
      AcceptedSegments(events);
      PayableReaches(WorkedIntervals(SortByTime(events)), p);
      ReachPositive(Pairs(SortByTime(events)), p);
    }
  }

  /** The j-th worked stretch of a word. */
  function StretchAt(w: seq<Event>, j: nat): Interval
    requires 2 * j + 1 < |w|
  {
    Interval(w[2 * j].at, w[2 * j].offset, w[2 * j + 1].at)
  }

  /** At most one worked stretch, the one that strictly contains `p`, contributes to it. */
  lemma UncutReachIs(events: seq<Event>, p: int, j: nat)
    requires Accepted(events) && 2 * j + 1 < |SortByTime(events)|
    requires StretchAt(SortByTime(events), j).start < p < StretchAt(SortByTime(events), j).end
    ensures UncutReach(events, p) == Reach(StretchAt(SortByTime(events), j), p)
  {
    AcceptedWord(events);
    var w := SortByTime(events);
    PairsSucceed(w);
    assert Pairs(w)[j] == StretchAt(w, j);
    OnlyOneReaches(Pairs(w), p, j);
  }

  /** Each stretch ends before the next one begins. */
  ghost predicate Succeeding(xs: seq<Interval>) {
    forall i, k :: 0 <= i < k < |xs| ==> xs[i].end <= xs[k].start
  }

  lemma PairsSucceed(w: seq<Event>)
    requires TimeSorted(w)
    ensures Succeeding(Pairs(w))
  {
  }

  lemma {:induction false} OnlyOneReaches(xs: seq<Interval>, p: int, j: nat)
    requires Succeeding(xs) && j < |xs| && xs[j].start < p < xs[j].end
    ensures ReachOf(xs, p) == Reach(xs[j], p)
  {
    var n := |xs| - 1;
    if j < n {
      OnlyOneReaches(xs[..n], p, j);
      ReachesNothing(xs[n], p);
    } else {
      NoneReachesBack(xs[..n], p, xs[n].start);
    }
  }

  lemma ReachesNothing(x: Interval, p: int)
    requires p <= x.start || x.end <= p
    ensures Reach(x, p) == 0
  {
  }

  lemma {:induction false} NoneReachesBack(xs: seq<Interval>, p: int, bound: int)
    requires bound < p && forall i :: 0 <= i < |xs| ==> xs[i].end <= bound
    ensures ReachOf(xs, p) == 0
  {
    if xs != [] {
      NoneReachesBack(xs[..|xs| - 1], p, bound);
      ReachesNothing(xs[|xs| - 1], p);
    }
  }

  lemma SpillIffMisaligned(events: seq<Event>, p: int)
    requires Accepted(events)
    ensures Spill(Segments(events), p) >= 0
    ensures Spill(Segments(events), p) == 0 <==> Aligned(SortByTime(events), p)
  {
    AcceptedSegments(events);
    var w := SortByTime(events);
    NoSpillIffAligned(WorkedIntervals(w), p);
    AlignedPositive(Pairs(w), p);
    AlignedPairs(w, p);
  }

  /** Everything paid before `p` was worked before `p`, and conversely, exactly when `p` is aligned. */
  lemma AttributionExactIffAligned(events: seq<Event>, from: int, p: int)
    requires Accepted(events) && from <= SortByTime(events)[0].at && from <= p
    ensures PaidIn(Segments(events), from, p) == WorkedTime(SortByTime(events), from, p)
       <==> Aligned(SortByTime(events), p)
  {
    AttributionLaw(events, from, p);
    SpillIffMisaligned(events, from);
    SpillIffMisaligned(events, p);
    AcceptedWord(events);
    assert Aligned(SortByTime(events), from);
  }

  /** A window between two aligned instants is paid exactly for the time worked in it. */
  lemma AlignedWindowIsExact(events: seq<Event>, lo: int, hi: int)
    requires Accepted(events) && lo <= hi && Aligned(SortByTime(events), lo) && Aligned(SortByTime(events), hi)
    ensures PaidIn(Segments(events), lo, hi) == WorkedTime(SortByTime(events), lo, hi)
  {
    AttributionLaw(events, lo, hi);
    SpillIffMisaligned(events, lo);
    SpillIffMisaligned(events, hi);
  }

  /** Punches carrying the store's own offset are attributed exactly by windows between store midnights. */
  lemma StoreOffsetIsExact(events: seq<Event>, lo: int, hi: int, offset: int)
    requires Accepted(events) && lo <= hi && IsMidnight(lo, offset) && IsMidnight(hi, offset)
    requires forall i :: 0 <= i < |events| ==> events[i].offset == offset
    ensures PaidIn(Segments(events), lo, hi) == WorkedTime(SortByTime(events), lo, hi)
  {
    SortBySorts(events, (e: Event) => e.at);
    var w := SortByTime(events);
    forall i | 0 <= i < |w| ensures w[i].offset == offset {
      assert w[i] in multiset(events);
    }
    AlignedWindowIsExact(events, lo, hi);
  }

  /** A segment is counted by its start alone, so consecutive windows partition the time of any list of segments,
      whatever the offsets: nothing is lost or paid twice. */
  lemma {:induction false} WindowsPartition(segs: seq<Segment>, lo: int, mid: int, hi: int)
    requires lo <= mid <= hi
    ensures PaidIn(segs, lo, hi) == PaidIn(segs, lo, mid) + PaidIn(segs, mid, hi)
    ensures (forall k :: 0 <= k < |segs| ==> lo <= segs[k].start < hi) ==> PaidIn(segs, lo, hi) == Total(segs)
  {
    if segs != [] { WindowsPartition(segs[..|segs| - 1], lo, mid, hi); }
  }

  const SEOUL := 9 * HOUR
  const UTC := 0

  /** A shift worked through an instant `p` at which nothing cuts it is wholly counted before `p`. */
  lemma UncutShiftCountsEarly(w: seq<Event>, from: int, p: int)
    requires |w| == 2 && TimeSorted(w) && Complete(w) && from <= w[0].at < p < w[1].at
    requires forall q :: w[0].at < q < w[1].at ==> !IsMidnight(q, w[0].offset)
    ensures SortByTime(w) == w && Segments(w) == [Segment(w[0].at, w[1].at)]
    ensures PaidIn(Segments(w), from, p) == WorkedTime(w, from, p) + (w[1].at - p)
  {
    SortedBlockers(w);
    OneStretch(w);
    AttributionLaw(w, from, p);
  }

  /** Between 22:00 and 02:00 Seoul time there is no UTC midnight. */
  lemma NoUtcMidnightNear(p: int, q: int)
    requires IsMidnight(p, SEOUL) && p - 2 * HOUR < q < p + 2 * HOUR
    ensures !IsMidnight(q, UTC)
  {
    assert IsMidnight(p - 15 * HOUR, UTC);
    NoMidnightBetween(p - 15 * HOUR, q, UTC);
  }

  lemma NightShiftCountsEarly(night: seq<Event>, p: int)
    requires night == [Event(ClockIn, p - 2 * HOUR, UTC), Event(ClockOut, p + 2 * HOUR, UTC)] && IsMidnight(p, SEOUL)
    ensures PaidIn(Segments(night), p - DAY, p) == WorkedTime(SortByTime(night), p - DAY, p) + 2 * HOUR
  {
    forall q | night[0].at < q < night[1].at ensures !IsMidnight(q, UTC) { NoUtcMidnightNear(p, q); }
    UncutShiftCountsEarly(night, p - DAY, p);
  }

  /** Raw punches come back from the database in UTC. A night shift of 22:00 to 02:00 Seoul time across a
      Seoul midnight `p` then has no cut at `p`: all four hours are counted before it, two of them worked after. */
  lemma UtcPunchesMisattributed(p: int)
    requires IsMidnight(p, SEOUL)
    ensures var night := [Event(ClockIn, p - 2 * HOUR, UTC), Event(ClockOut, p + 2 * HOUR, UTC)];
      PaidIn(Segments(night), p - DAY, p) == WorkedTime(SortByTime(night), p - DAY, p) + 2 * HOUR
  {
    NightShiftCountsEarly([Event(ClockIn, p - 2 * HOUR, UTC), Event(ClockOut, p + 2 * HOUR, UTC)], p);
  }

  lemma OneStretch(w: seq<Event>)
    requires |w| == 2 && TimeSorted(w) && w[0].at < w[1].at && Complete(w)
    requires forall q :: w[0].at < q < w[1].at ==> !IsMidnight(q, w[0].offset)
    ensures Segments(w) == [Segment(w[0].at, w[1].at)]
  {
    OnePair(w);
    UncutInterval(Interval(w[0].at, w[0].offset, w[1].at));
  }

  lemma OnePair(w: seq<Event>)
    requires |w| == 2 && TimeSorted(w) && w[0].at < w[1].at && Complete(w)
    ensures Segments(w) == PayableOf(Interval(w[0].at, w[0].offset, w[1].at), NO_TERMS)
  {
    var x := Interval(w[0].at, w[0].offset, w[1].at);
    SortedBlockers(w);
    AcceptedSegments(w);
    OneInterval(w);
    OnePayable(x);
  }

  lemma OneInterval(w: seq<Event>)
    requires |w| == 2 && w[0].at < w[1].at
    ensures WorkedIntervals(w) == [] + [Interval(w[0].at, w[0].offset, w[1].at)]
  {
    var x := Interval(w[0].at, w[0].offset, w[1].at);
    assert Pairs(w) == [] + [x];
    PositiveSnoc([], x);
  }

  lemma OnePayable(x: Interval)
    ensures Payable([] + [x], NO_TERMS) == PayableOf(x, NO_TERMS)
  {
    assert ([] + [x])[..0] == [];
    assert [] + PayableOf(x, NO_TERMS) == PayableOf(x, NO_TERMS);
  }

  lemma UncutInterval(x: Interval)
    requires x.start < x.end && forall q :: x.start < q < x.end ==> !IsMidnight(q, x.offset)
    ensures PayableOf(x, NO_TERMS) == [Segment(x.start, x.end)]
  {
    NoCuts(x.start, x.end, x.offset);
    assert Pieces(x.start, [], x.end) == [Segment(x.start, x.end)];
  }

  lemma {:induction false} NoCuts(lo: int, hi: int, offset: int)
    requires forall q :: lo < q < hi ==> !IsMidnight(q, offset)
    ensures CutsIn(lo, hi, offset, []) == []
    decreases hi - lo
  {
    if hi - lo > 1 { NoCuts(lo + 1, hi, offset); }
  }

  // ---- Conservation: the paid total is a signed sum of the punch instants ----

  function Sign(kind: Kind): int {
    match kind
    case ClockOut | BreakStart => 1
    case ClockIn | BreakEnd => -1
    case Unrecognised => 0
  }

  function SignedSum(events: seq<Event>): int {
    if events == [] then 0
    else SignedSum(events[..|events| - 1]) + Sign(events[|events| - 1].kind) * events[|events| - 1].at
  }

  lemma {:induction false} SignedSumSorted(events: seq<Event>)
    ensures SignedSum(SortByTime(events)) == SignedSum(events)
  {
    if events != [] {
      SignedSumSorted(events[..|events| - 1]);
      SignedSumInsert(SortByTime(events[..|events| - 1]), events[|events| - 1]);
    }
  }

  lemma {:induction false} SignedSumInsert(w: seq<Event>, e: Event)
    ensures SignedSum(InsertBy(w, e, (x: Event) => x.at)) == SignedSum(w) + Sign(e.kind) * e.at
  {
    if !(w == [] || w[|w| - 1].at <= e.at) {
      var r := InsertBy(w[..|w| - 1], e, (x: Event) => x.at);
      SignedSumInsert(w[..|w| - 1], e);
      assert (r + [w[|w| - 1]])[..|r|] == r;
    }
  }

  lemma {:induction false} PairsTotal(w: seq<Event>)
    requires LegalPrefix(w) && TimeSorted(w) && |w| % 2 == 0
    ensures ClippedTotal(WorkedIntervals(w), NO_TERMS) == SignedSum(w)
  {
    if w != [] {
      LastPair(w);
      var v, x, y := w[..|w| - 2], w[|w| - 2], w[|w| - 1];
      PairsTotal(v);
      assert w == v + [x] + [y];
      PairsTotalStep(v, x, y, Pairs(v));
    }
  }

  lemma SignedPair(v: seq<Event>, x: Event, y: Event)
    ensures SignedSum(v + [x] + [y]) == SignedSum(v) + Sign(x.kind) * x.at + Sign(y.kind) * y.at
  {
    assert (v + [x] + [y])[..|v| + 1] == v + [x];
    assert (v + [x])[..|v|] == v;
  }

  lemma PairsTotalStep(v: seq<Event>, x: Event, y: Event, xs: seq<Interval>)
    requires x.kind in {ClockIn, BreakEnd} && y.kind in {BreakStart, ClockOut} && x.at <= y.at
    requires ClippedTotal(Positive(xs), NO_TERMS) == SignedSum(v)
    ensures ClippedTotal(Positive(xs + [Interval(x.at, x.offset, y.at)]), NO_TERMS) == SignedSum(v + [x] + [y])
  {
    SignedPair(v, x, y);
    PositiveTotalSnoc(xs, Interval(x.at, x.offset, y.at));
  }

  lemma PositiveTotalSnoc(xs: seq<Interval>, x: Interval)
    ensures ClippedTotal(Positive(xs + [x]), NO_TERMS) == ClippedTotal(Positive(xs), NO_TERMS) + Length(x)
  {
    PositiveSnoc(xs, x);
    assert (Positive(xs) + [x])[..|Positive(xs)|] == Positive(xs);
  }

  /** For every accepted shift: total paid time = clock-out − clock-in − Σ (break end − break start). */
  lemma TotalIsSignedSum(events: seq<Event>)
    requires Accepted(events)
    ensures Total(Segments(events)) == SignedSum(events)
  {
    AcceptedWord(events);
    AcceptedIffLegal(events, NO_TERMS);
    SegmentsDisjointAndExhaustive(events, NO_TERMS);
    PairsTotal(SortByTime(events));
    SignedSumSorted(events);
  }

  /** The breaks of a legal word: each BREAK_START to the BREAK_END that follows it. */
  function BreakTime(w: seq<Event>): int {
    if |w| < 4 then 0 else BreakTime(w[..|w| - 2]) + w[|w| - 2].at - w[|w| - 3].at
  }

  lemma {:induction false} SignedSumIsSpanMinusBreaks(w: seq<Event>)
    requires LegalPrefix(w) && TimeSorted(w) && |w| % 2 == 0 && w != []
    ensures SignedSum(w) == w[|w| - 1].at - w[0].at - BreakTime(w)
  {
    LastPair(w);
    var v, x, y := w[..|w| - 2], w[|w| - 2], w[|w| - 1];
    assert w == v + [x] + [y];
    SignedPair(v, x, y);
    if |w| > 2 { SignedSumIsSpanMinusBreaks(v); }
  }

  lemma TotalIsSpanMinusBreaks(events: seq<Event>)
    requires Accepted(events)
    ensures var w := SortByTime(events);
      w != [] && Total(Segments(events)) == w[|w| - 1].at - w[0].at - BreakTime(w)
  {
    AcceptedWord(events);
    TotalIsSignedSum(events);
    SignedSumSorted(events);
    SignedSumIsSpanMinusBreaks(SortByTime(events));
  }
}
