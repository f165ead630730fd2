/** The stable sort that both Python's `sorted` and SQL's `ORDER BY key, id` perform
    when rows are listed in id order: equal keys keep their input order. */
module Sorting {

  /** Puts `x` after every element whose key is not larger. */
  function InsertBy<T>(xs: seq<T>, x: T, key: T -> int): seq<T> {
    if xs == [] || key(xs[|xs| - 1]) <= key(x) then xs + [x]
    else InsertBy(xs[..|xs| - 1], x, key) + [xs[|xs| - 1]]
  }

  function SortBy<T>(xs: seq<T>, key: T -> int): seq<T> {
    if xs == [] then [] else InsertBy(SortBy(xs[..|xs| - 1], key), xs[|xs| - 1], key)
  }

  ghost predicate SortedBy<T>(xs: seq<T>, key: T -> int) {
    forall i, j :: 0 <= i < j < |xs| ==> key(xs[i]) <= key(xs[j])
  }

  /** Elements with equal keys are equal elements. */
  ghost predicate TiesAreEqual<T>(xs: seq<T>, key: T -> int) {
    forall i, j :: 0 <= i < j < |xs| && key(xs[i]) == key(xs[j]) ==> xs[i] == xs[j]
  }

  /** The subsequence of elements whose key is `k`. */
  function WithKey<T>(xs: seq<T>, key: T -> int, k: int): seq<T> {
    if xs == [] then []
    else WithKey(xs[..|xs| - 1], key, k) + (if key(xs[|xs| - 1]) == k then [xs[|xs| - 1]] else [])
  }

  /** The position at which `InsertBy` puts its element. */
  lemma {:induction false} InsertByPosition<T>(xs: seq<T>, x: T, key: T -> int) returns (i: nat)
    requires SortedBy(xs, key)
    ensures i <= |xs| && InsertBy(xs, x, key) == xs[..i] + [x] + xs[i..]
    ensures forall k :: 0 <= k < i ==> key(xs[k]) <= key(x)
    ensures forall k :: i <= k < |xs| ==> key(x) < key(xs[k])
  {
    if xs == [] || key(xs[|xs| - 1]) <= key(x) {
      i := |xs|;
    } else {
      var front := xs[..|xs| - 1];
      i := InsertByPosition(front, x, key);
      assert xs[..i] == front[..i] && xs[i..] == front[i..] + [xs[|xs| - 1]];
    }
  }

  lemma InsertByKeeps<T>(xs: seq<T>, x: T, key: T -> int)
    requires SortedBy(xs, key)
    ensures SortedBy(InsertBy(xs, x, key), key)
    ensures multiset(InsertBy(xs, x, key)) == multiset(xs) + multiset{x}
  {
    var i := InsertByPosition(xs, x, key);
    var a, b := xs[..i], xs[i..];
    assert xs == a + b;
    InsertedSorted(a, x, b, key);
    InsertedOnce(a, x, b);
  }

  lemma InsertedOnce<T>(a: seq<T>, x: T, b: seq<T>)
    ensures multiset(a + [x] + b) == multiset(a + b) + multiset{x}
  {
  }

  lemma InsertedSorted<T>(a: seq<T>, x: T, b: seq<T>, key: T -> int)
    requires SortedBy(a + b, key)
    requires forall k :: 0 <= k < |a| ==> key(a[k]) <= key(x)
    requires forall k :: 0 <= k < |b| ==> key(x) < key(b[k])
    ensures SortedBy(a + [x] + b, key)
  {
    var r := a + [x] + b;
    forall i, j | 0 <= i < j < |r| ensures key(r[i]) <= key(r[j]) {
      assert i != |a| && j != |a| ==>
        r[i] == (a + b)[if i < |a| then i else i - 1] && r[j] == (a + b)[if j < |a| then j else j - 1];
    }
  }

  lemma {:induction false} SortBySorts<T>(xs: seq<T>, key: T -> int)
    ensures SortedBy(SortBy(xs, key), key)
    ensures multiset(SortBy(xs, key)) == multiset(xs)
    ensures |SortBy(xs, key)| == |xs|
  {
    if xs != [] {
      var front := xs[..|xs| - 1];
      SortBySorts(front, key);
      InsertByKeeps(SortBy(front, key), xs[|xs| - 1], key);
      assert xs == front + [xs[|xs| - 1]];
      assert |multiset(SortBy(xs, key))| == |multiset(xs)|;
    }
  }

  lemma {:induction false} SortedIsFixed<T>(xs: seq<T>, key: T -> int)
    requires SortedBy(xs, key)
    ensures SortBy(xs, key) == xs
  {
    if xs != [] {
      SortedIsFixed(xs[..|xs| - 1], key);
    }
  }

  /** Stability: for every key the elements carrying it come out in input order. */
  lemma {:induction false} SortIsStable<T>(xs: seq<T>, key: T -> int, k: int)
    ensures WithKey(SortBy(xs, key), key, k) == WithKey(xs, key, k)
  {
    if xs != [] {
      var front := xs[..|xs| - 1];
      SortIsStable(front, key, k);
      SortBySorts(front, key);
      InsertIsStable(SortBy(front, key), xs[|xs| - 1], key, k);
    }
  }

  lemma {:induction false} InsertIsStable<T>(xs: seq<T>, x: T, key: T -> int, k: int)
    requires SortedBy(xs, key)
    ensures WithKey(InsertBy(xs, x, key), key, k) == WithKey(xs, key, k) + (if key(x) == k then [x] else [])
  {
    if xs == [] || key(xs[|xs| - 1]) <= key(x) {
      assert (xs + [x])[..|xs|] == xs;
    } else {
      var front, last := xs[..|xs| - 1], xs[|xs| - 1];
      InsertIsStable(front, x, key, k);
      var r := InsertBy(front, x, key);
      assert (r + [last])[..|r|] == r;
      if key(x) == k {
        NoneWithKey(xs, key, k, x);
      }
    }
  }

  /** Nothing beyond `x`'s place carries `x`'s key. */
  lemma NoneWithKey<T>(xs: seq<T>, key: T -> int, k: int, x: T)
    requires xs != [] && key(x) == k < key(xs[|xs| - 1])
    ensures WithKey(xs, key, k) == WithKey(xs[..|xs| - 1], key, k)
  {
  }

  /** When only equal elements share a key the input order is irrelevant. */
  lemma PermutationsSortAlike<T>(xs: seq<T>, ys: seq<T>, key: T -> int)
    requires multiset(xs) == multiset(ys) && TiesAreEqual(xs, key)
    ensures SortBy(xs, key) == SortBy(ys, key)
  {
    SortBySorts(xs, key);
    SortBySorts(ys, key);
    TiesStayEqual(xs, SortBy(xs, key), key);
    SortedUnique(SortBy(xs, key), SortBy(ys, key), key);
  }

  lemma TiesStayEqual<T>(xs: seq<T>, ys: seq<T>, key: T -> int)
    requires multiset(xs) == multiset(ys) && TiesAreEqual(xs, key)
    ensures TiesAreEqual(ys, key)
  {
    forall i, j | 0 <= i < j < |ys| && key(ys[i]) == key(ys[j]) ensures ys[i] == ys[j] {
      assert ys[i] in multiset(xs) && ys[j] in multiset(xs);
      var k :| 0 <= k < |xs| && xs[k] == ys[i];
      var l :| 0 <= l < |xs| && xs[l] == ys[j];
    }
  }

  lemma DropLast<T>(xs: seq<T>)
    requires xs != []
    ensures multiset(xs[..|xs| - 1]) == multiset(xs) - multiset{xs[|xs| - 1]}
  {
    assert xs == xs[..|xs| - 1] + [xs[|xs| - 1]];
  }

  lemma {:induction false} SortedUnique<T>(xs: seq<T>, ys: seq<T>, key: T -> int)
    requires multiset(xs) == multiset(ys) && SortedBy(xs, key) && SortedBy(ys, key) && TiesAreEqual(xs, key)
    ensures xs == ys
  {
    assert |multiset(xs)| == |multiset(ys)|;
    if xs != [] {
      SameLast(xs, ys, key);
      DropLast(xs);
      DropLast(ys);
      SortedUnique(xs[..|xs| - 1], ys[..|ys| - 1], key);
    }
  }

  lemma SameLast<T>(xs: seq<T>, ys: seq<T>, key: T -> int)
    requires multiset(xs) == multiset(ys) && SortedBy(xs, key) && SortedBy(ys, key) && TiesAreEqual(xs, key)
    requires |xs| == |ys| > 0
    ensures xs[|xs| - 1] == ys[|ys| - 1]
  {
    var x, y := xs[|xs| - 1], ys[|ys| - 1];
    assert x in multiset(ys) && y in multiset(xs);
    var k :| 0 <= k < |xs| && xs[k] == y;
  }

  // ---- Sorting and filtering ----

  function Keep<T>(xs: seq<T>, p: T -> bool): seq<T> {
    if xs == [] then []
    else
      var rest, x := Keep(xs[..|xs| - 1], p), xs[|xs| - 1];
      if p(x) then rest + [x] else rest
  }

  lemma KeepSnoc<T>(xs: seq<T>, x: T, p: T -> bool)
    ensures Keep(xs + [x], p) == if p(x) then Keep(xs, p) + [x] else Keep(xs, p)
  {
    assert (xs + [x])[..|xs|] == xs;
  }

  lemma {:induction false} KeptBelow<T>(xs: seq<T>, p: T -> bool, key: T -> int, bound: int)
    requires forall i :: 0 <= i < |xs| ==> key(xs[i]) <= bound
    ensures forall i :: 0 <= i < |Keep(xs, p)| ==> key(Keep(xs, p)[i]) <= bound
  {
    if xs != [] {
      assert forall i :: 0 <= i < |xs[..|xs| - 1]| ==> xs[..|xs| - 1][i] == xs[i];
      KeptBelow(xs[..|xs| - 1], p, key, bound);
    }
  }

  lemma {:induction false} KeepInsert<T>(xs: seq<T>, x: T, key: T -> int, p: T -> bool)
    requires SortedBy(xs, key)
    ensures Keep(InsertBy(xs, x, key), p) == if p(x) then InsertBy(Keep(xs, p), x, key) else Keep(xs, p)
  {
    if xs == [] || key(xs[|xs| - 1]) <= key(x) {
      KeepSnoc(xs, x, p);
      KeptBelow(xs, p, key, key(x));
    } else {
      var front, last := xs[..|xs| - 1], xs[|xs| - 1];
      KeepInsert(front, x, key, p);
      KeepSnoc(InsertBy(front, x, key), last, p);
      if p(last) { assert (Keep(front, p) + [last])[..|Keep(front, p)|] == Keep(front, p); }
    }
  }

  /** What a filter keeps of a sorted list is the sorted list of what it keeps. */
  lemma {:induction false} KeepSort<T>(xs: seq<T>, key: T -> int, p: T -> bool)
    ensures Keep(SortBy(xs, key), p) == SortBy(Keep(xs, p), key)
  {
    if xs != [] {
      var front, last := xs[..|xs| - 1], xs[|xs| - 1];
      KeepSort(front, key, p);
      SortBySorts(front, key);
      KeepInsert(SortBy(front, key), last, key, p);
      if p(last) { assert (Keep(front, p) + [last])[..|Keep(front, p)|] == Keep(front, p); }
    }
  }

  lemma {:induction false} InsertCongruent<T>(xs: seq<T>, x: T, key: T -> int, other: T -> int)
    requires key(x) == other(x) && forall i :: 0 <= i < |xs| ==> key(xs[i]) == other(xs[i])
    ensures InsertBy(xs, x, key) == InsertBy(xs, x, other)
  {
    if xs != [] {
      assert forall i :: 0 <= i < |xs[..|xs| - 1]| ==> xs[..|xs| - 1][i] == xs[i];
      InsertCongruent(xs[..|xs| - 1], x, key, other);
    }
  }

  /** Only the keys of the elements matter. */
  lemma {:induction false} SortCongruent<T>(xs: seq<T>, key: T -> int, other: T -> int)
    requires forall i :: 0 <= i < |xs| ==> key(xs[i]) == other(xs[i])
    ensures SortBy(xs, key) == SortBy(xs, other)
  {
    if xs != [] {
      var front := xs[..|xs| - 1];
      assert forall i :: 0 <= i < |front| ==> front[i] == xs[i];
      SortCongruent(front, key, other);
      SortBySorts(front, key);
      var sorted := SortBy(front, key);
      forall i | 0 <= i < |sorted| ensures key(sorted[i]) == other(sorted[i]) {
        assert sorted[i] in multiset(front);
      }
      InsertCongruent(sorted, xs[|xs| - 1], key, other);
    }
  }
}
