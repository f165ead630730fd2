/** What `calculate` pays for under any terms, instant by instant, and where it cuts. */
module PaidTime {
  import opened TimeCalculation
  import opened Attribution

  predicate InSegments(segs: seq<Segment>, t: int) {
    exists k :: 0 <= k < |segs| && segs[k].start <= t < segs[k].end
  }

  /** The instant is within employment. */
  predicate Employed(terms: Terms, t: int) {
    && (match terms.employmentStart { case Some(start) => start.at <= t case None => true })
    && (match terms.employmentEnd { case Some(end) => t < end.at case None => true })
  }

  lemma InConcat(a: seq<Segment>, b: seq<Segment>, t: int)
    ensures InSegments(a + b, t) <==> InSegments(a, t) || InSegments(b, t)
  {
    var all := a + b;
    if InSegments(a, t) {
      var k :| 0 <= k < |a| && a[k].start <= t < a[k].end;
      assert all[k] == a[k];
    }
    if InSegments(b, t) {
      var k :| 0 <= k < |b| && b[k].start <= t < b[k].end;
      assert all[|a| + k] == b[k];
    }
  }

  lemma {:induction false} InPieces(start: int, cuts: seq<int>, end: int, t: int)
    requires start < end && Ascending(cuts) && forall i :: 0 <= i < |cuts| ==> start < cuts[i] < end
    ensures InSegments(Pieces(start, cuts, end), t) <==> start <= t < end
    decreases |cuts|
  {
    if cuts == [] {
      assert Pieces(start, cuts, end)[0] == Segment(start, end);
    } else {
      var front, c := cuts[..|cuts| - 1], cuts[|cuts| - 1];
      assert forall i :: 0 <= i < |front| ==> front[i] == cuts[i] < c;
      InPieces(start, front, c, t);
      LastPiece(start, cuts, end);
      InConcat(Pieces(start, front, c), [Segment(c, end)], t);
      assert InSegments([Segment(c, end)], t) <==> c <= t < end by { assert [Segment(c, end)][0] == Segment(c, end); }
    }
  }

  lemma OneStretchPaid(x: Interval, terms: Terms, t: int)
    ensures InSegments(PayableOf(x, terms), t) <==> x.start <= t < x.end && Employed(terms, t)
  {
    var y := Clip(x, terms);
    assert y.start <= t < y.end <==> x.start <= t < x.end && Employed(terms, t);
    if y.start < y.end {
      var cuts := CutsIn(y.start, y.end, y.offset, terms.ratePoints);
      CutsInAre(y.start, y.end, y.offset, terms.ratePoints);
      assert forall i :: 0 <= i < |cuts| ==> cuts[i] in cuts;
      InPieces(y.start, cuts, y.end, t);
    }
  }

  lemma {:induction false} StretchesPaid(xs: seq<Interval>, terms: Terms, t: int)
    ensures InSegments(Payable(xs, terms), t) <==> Covered(xs, t) && Employed(terms, t)
  {
    if xs != [] {
      var front, x := xs[..|xs| - 1], xs[|xs| - 1];
      StretchesPaid(front, terms, t);
      InConcat(Payable(front, terms), PayableOf(x, terms), t);
      OneStretchPaid(x, terms, t);
    }
  }

  ghost predicate TookBreak(events: seq<Event>) { exists i :: 0 <= i < |events| && events[i].kind == BreakStart }

  /** Exactly the instants are paid at which the punches leave the worker working, within employment — once the word is
      complete and, where one is scheduled, a break was taken. */
  lemma EmployedWorkIsPaid(events: seq<Event>, terms: Terms, t: int)
    ensures InSegments(Calculation(events, terms).segments, t) <==>
      && Complete(SortByTime(events)) && (terms.scheduledBreakMinutes > 0 ==> TookBreak(events))
      && WorkingAt(SortByTime(events), t) && Employed(terms, t)
  {
    AcceptedIffLegal(events, terms);
    HadBreakIs(events);
    if Calculation(events, terms).blockers == [] {
      var w := SortByTime(events);
      AcceptedWord(events);
      WorkingIsCovered(w, t);
      CoveredPositive(Pairs(w), t);
      StretchesPaid(WorkedIntervals(w), terms, t);
    }
  }

  lemma HadBreakIs(events: seq<Event>)
    ensures HadBreak(events) <==> TookBreak(events)
  {
    if HadBreak(events) {
      var e :| e in events && e.kind == BreakStart;
      var i :| 0 <= i < |events| && events[i] == e;
    }
  }

  // ---- The edges ----

  /** A midnight by the offset, or a rate point. */
  predicate CutHere(p: int, offset: int, points: seq<int>) { (p + offset) % (24 * HOUR) == 0 || p in points }

  /** The part of a stretch within employment; a stretch begun before it takes over the offset of its first moment. */
  predicate ClippedTo(y: Interval, x: Interval, terms: Terms) {
    && (match terms.employmentStart
        case Some(m) => if x.start < m.at then y.start == m.at && y.offset == m.offset
                        else y.start == x.start && y.offset == x.offset
        case None => y.start == x.start && y.offset == x.offset)
    && (match terms.employmentEnd
        case Some(m) => y.end == (if m.at < x.end then m.at else x.end)
        case None => y.end == x.end)
  }

  /** A segment of a clipped stretch: cut at its edges, unless they are the stretch's, and nowhere between. */
  ghost predicate CutExactly(s: Segment, y: Interval, points: seq<int>) {
    && y.start <= s.start < s.end <= y.end
    && (s.start == y.start || CutHere(s.start, y.offset, points))
    && (s.end == y.end || CutHere(s.end, y.offset, points))
    && forall p :: s.start < p < s.end ==> !CutHere(p, y.offset, points)
  }

  lemma PieceCut(y: Interval, points: seq<int>, k: nat)
    requires y.start < y.end && k < |SplitAt(y, points)|
    ensures CutExactly(SplitAt(y, points)[k], y, points)
  {
    var cuts := CutsIn(y.start, y.end, y.offset, points);
    CutsInAre(y.start, y.end, y.offset, points);
    PieceWithin(y, points, cuts, k);
    var s := SplitAt(y, points)[k];
    assert k > 0 ==> cuts[k - 1] in cuts;
    assert k < |cuts| ==> cuts[k] in cuts;
    forall p | s.start < p < s.end ensures !CutHere(p, y.offset, points) {
      assert !IsCut(p, y.offset, points);
    }
  }

  lemma {:induction false} PayableCut(xs: seq<Interval>, terms: Terms, k: nat) returns (j: nat, y: Interval)
    requires k < |Payable(xs, terms)|
    ensures j < |xs| && ClippedTo(y, xs[j], terms) && CutExactly(Payable(xs, terms)[k], y, terms.ratePoints)
  {
    var front, n := xs[..|xs| - 1], |xs| - 1;
    if k < |Payable(front, terms)| {
      j, y := PayableCut(front, terms, k);
    } else {
      j, y := n, Clip(xs[n], terms);
      PieceCut(y, terms.ratePoints, k - |Payable(front, terms)|);
    }
  }

  /** Every segment lies in one clipped worked stretch and is cut there exactly at midnights of the stretch's offset and
      at rate points. */
  lemma SegmentsCutExactly(events: seq<Event>, terms: Terms, k: nat) returns (j: nat, y: Interval)
    requires k < |Calculation(events, terms).segments|
    ensures var xs := WorkedIntervals(SortByTime(events));
      && j < |xs| && ClippedTo(y, xs[j], terms)
      && CutExactly(Calculation(events, terms).segments[k], y, terms.ratePoints)
  {
    j, y := PayableCut(WorkedIntervals(SortByTime(events)), terms, k);
  }
}
