/** Which windows (months) a shift belongs to, decided from its effective events. */
module MonthScope {
  import opened Sorting
  import opened TimeCalculation
  import opened Attribution

  datatype ShiftWindow = ShiftWindow(timeResult: TimeResult, touches: bool)

  function EarliestClockIn(events: seq<Event>): Option<int> {
    if events == [] then None
    else
      var e, rest := events[|events| - 1], EarliestClockIn(events[..|events| - 1]);
      if e.kind == ClockIn && (rest.None? || e.at < rest.value) then Some(e.at) else rest
  }

  predicate SegmentStartsIn(segs: seq<Segment>, start: int, end: int) {
    exists i :: 0 <= i < |segs| && start <= segs[i].start < end
  }

  predicate EventIn(events: seq<Event>, start: int, end: int) {
    exists i :: 0 <= i < |events| && start <= events[i].at < end
  }

  function EffectiveShiftWindow(events: seq<Event>, start: int, end: int): ShiftWindow {
    var result := Calculation(events, NO_TERMS);
    var clockIn := EarliestClockIn(events);
    var touches :=
      || SegmentStartsIn(result.segments, start, end)
      || EventIn(events, start, end)
      || (OpenShift in result.blockers && clockIn.Some? && clockIn.value < end);
    ShiftWindow(result, touches)
  }

  predicate Touches(events: seq<Event>, start: int, end: int) { EffectiveShiftWindow(events, start, end).touches }

  /** A shift touches a window when one of its segments starts in it, one of its events is in it, or it has not been
      closed and has a clock-in before the window's end. */
  lemma TouchesIff(events: seq<Event>, start: int, end: int)
    ensures var result := Calculation(events, NO_TERMS);
      Touches(events, start, end) <==>
        || (exists i :: 0 <= i < |result.segments| && start <= result.segments[i].start < end)
        || (exists i :: 0 <= i < |events| && start <= events[i].at < end)
        || (OpenShift in result.blockers
            && exists i :: 0 <= i < |events| && events[i].kind == ClockIn && events[i].at < end)
  {
    EarliestIsLeast(events);
  }

  /** A shift with any paid time in the window touches it. */
  lemma {:induction false} PaidTimeTouches(events: seq<Event>, start: int, end: int)
    requires PaidIn(Segments(events), start, end) != 0
    ensures Touches(events, start, end)
  {
    PaidNeedsAStart(Segments(events), start, end);
  }

  lemma {:induction false} PaidNeedsAStart(segs: seq<Segment>, start: int, end: int)
    requires PaidIn(segs, start, end) != 0
    ensures SegmentStartsIn(segs, start, end)
  {
    var s := segs[|segs| - 1];
    if start <= s.start < end {
      assert segs[|segs| - 1] == s;
    } else {
      PaidNeedsAStart(segs[..|segs| - 1], start, end);
      var i :| 0 <= i < |segs[..|segs| - 1]| && start <= segs[..|segs| - 1][i].start < end;
      assert segs[i] == segs[..|segs| - 1][i];
    }
  }

  /** Work done in an aligned window is never overlooked. */
  lemma WorkTouches(events: seq<Event>, start: int, end: int)
    requires Accepted(events) && start <= end
    requires Aligned(SortByTime(events), start) && Aligned(SortByTime(events), end)
    requires WorkedTime(SortByTime(events), start, end) > 0
    ensures Touches(events, start, end)
  {
    AlignedWindowIsExact(events, start, end);
    PaidTimeTouches(events, start, end);
  }

  lemma {:induction false} EarliestIsLeast(events: seq<Event>)
    ensures EarliestClockIn(events).None? ==> forall i :: 0 <= i < |events| ==> events[i].kind != ClockIn
    ensures EarliestClockIn(events).Some? ==>
      && (exists i :: 0 <= i < |events| && events[i].kind == ClockIn && events[i].at == EarliestClockIn(events).value)
      && forall i :: 0 <= i < |events| && events[i].kind == ClockIn ==> EarliestClockIn(events).value <= events[i].at
  {
    if events != [] {
      var front := events[..|events| - 1];
      EarliestIsLeast(front);
      assert forall i :: 0 <= i < |front| ==> front[i] == events[i];
    }
  }

  /** For an unclosed shift membership is decided by its earliest clock-in alone. */
  lemma OpenShiftTouchesIff(events: seq<Event>, start: int, end: int)
    requires OpenShift in Calculation(events, NO_TERMS).blockers
    ensures EarliestClockIn(events).Some?
    ensures Touches(events, start, end) <==> EarliestClockIn(events).value < end
  {
    var w := SortByTime(events);
    SortBySorts(events, (e: Event) => e.at);
    EarliestIsLeast(events);
    assert w[0] in multiset(events);
    forall i | 0 <= i < |events| ensures w[0].at <= events[i].at {
      assert events[i] in multiset(w);
    }
  }

  /** Once an unclosed shift touches a window it touches every window that ends no earlier: left unclosed
      and uncorrected it keeps blocking every later month. */
  lemma OpenShiftBlocksEveryLaterMonth(events: seq<Event>, start: int, end: int, laterStart: int, laterEnd: int)
    requires OpenShift in Calculation(events, NO_TERMS).blockers
    requires Touches(events, start, end) && end <= laterEnd
    ensures Touches(events, laterStart, laterEnd)
    ensures OpenShift in EffectiveShiftWindow(events, laterStart, laterEnd).timeResult.blockers
  {
    OpenShiftTouchesIff(events, start, end);
    OpenShiftTouchesIff(events, laterStart, laterEnd);
  }

  lemma LaterSegments(events: seq<Event>, p: int, k: nat)
    requires k < |Segments(events)| && forall i :: 0 <= i < |events| ==> p <= events[i].at
    ensures p <= Segments(events)[k].start
  {
    var j := SegmentsRespectBoundaries(events, NO_TERMS, k);
    var w := SortByTime(events);
    SortBySorts(events, (e: Event) => e.at);
    forall i | 0 <= i < |w| ensures p <= w[i].at { assert w[i] in multiset(events); }
    LaterPairs(Pairs(w), p);
  }

  lemma LaterStarts(events: seq<Event>, start: int, end: int)
    requires forall i :: 0 <= i < |events| ==> end <= events[i].at
    ensures !SegmentStartsIn(Segments(events), start, end)
  {
    if k: nat :| k < |Segments(events)| && start <= Segments(events)[k].start < end { LaterSegments(events, end, k); }
  }

  lemma LaterClockIn(events: seq<Event>, end: int)
    requires forall i :: 0 <= i < |events| ==> end <= events[i].at
    ensures EarliestClockIn(events).Some? ==> end <= EarliestClockIn(events).value
  {
    EarliestIsLeast(events);
  }

  /** Events that all come after a window do not touch it. */
  lemma LaterEventsAreOutside(events: seq<Event>, start: int, end: int)
    requires forall i :: 0 <= i < |events| ==> end <= events[i].at
    ensures !Touches(events, start, end)
  {
    LaterStarts(events, start, end);
    LaterClockIn(events, end);
  }

  lemma {:induction false} LaterPairs(xs: seq<Interval>, p: int)
    requires forall i :: 0 <= i < |xs| ==> p <= xs[i].start
    ensures forall i :: 0 <= i < |Positive(xs)| ==> p <= Positive(xs)[i].start
  {
    if xs != [] { LaterPairs(xs[..|xs| - 1], p); }
  }

  /** An unclosed shift that does not touch a window comes after it. */
  lemma OpenOutsideComesLater(events: seq<Event>, start: int, end: int)
    requires OpenShift in Calculation(events, NO_TERMS).blockers && !Touches(events, start, end)
    ensures forall i :: 0 <= i < |events| ==> end <= events[i].at
  {
    OpenShiftTouchesIff(events, start, end);
    var w := SortByTime(events);
    SortBySorts(events, (e: Event) => e.at);
    EarliestIsLeast(events);
    assert w[0] in multiset(events);
    forall i | 0 <= i < |events| ensures w[0].at <= events[i].at { assert events[i] in multiset(w); }
  }
}
