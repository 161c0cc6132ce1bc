/** The in-place `Array.prototype.sort` the highlight route applies with a
    "descending by key" comparator (`(a, b) => key(b) - key(a)`). The sort the
    language runtime performs is stable, so its result is fully determined:
    the elements in descending key order, ties in their original order. That
    result is specified here by stable insertion (`SortDesc`), and the array
    method is proved to produce it. */
module HighlightSort {
  import opened Common

  /** Every element's key is at least the key of each element after it. */
  ghost predicate SortedDesc<T>(s: seq<T>, key: T -> int) {
    forall i, j :: 0 <= i < j < |s| ==> key(s[i]) >= key(s[j])
  }

  /** x inserted into s after the last element whose key is at least key(x). */
  function InsertDesc<T>(s: seq<T>, x: T, key: T -> int): (r: seq<T>)
    ensures |r| == |s| + 1
    decreases |s|
  {
    if s == [] || key(s[|s| - 1]) >= key(x) then s + [x]
    else
      InsertDesc(s[..|s| - 1], x, key) + [s[|s| - 1]]
  }

  /** The stable descending sort of s. */
  function SortDesc<T>(s: seq<T>, key: T -> int): (r: seq<T>)
    ensures |r| == |s|
    decreases |s|
  {
    if s == [] then []
    else
      InsertDesc(SortDesc(s[..|s| - 1], key), s[|s| - 1], key)
  }

  /** Insertion adds exactly x. */
  lemma {:induction false} InsertDescPermutes<T>(s: seq<T>, x: T, key: T -> int)
    ensures multiset(InsertDesc(s, x, key)) == multiset(s) + multiset{x}
    decreases |s|
  {
    if s != [] && key(s[|s| - 1]) < key(x) {
      InsertDescPermutes(s[..|s| - 1], x, key);
      assert s == s[..|s| - 1] + [s[|s| - 1]];
    }
  }

  /** Sorting is a permutation: the same elements, each as often. */
  lemma {:induction false} SortDescPermutes<T>(s: seq<T>, key: T -> int)
    ensures multiset(SortDesc(s, key)) == multiset(s)
    decreases |s|
  {
    if s != [] {
      SortDescPermutes(s[..|s| - 1], key);
      InsertDescPermutes(SortDesc(s[..|s| - 1], key), s[|s| - 1], key);
      assert s == s[..|s| - 1] + [s[|s| - 1]];
    }
  }

  /** Inserting into a sorted sequence keeps it sorted. */
  lemma {:induction false} InsertDescSorted<T>(s: seq<T>, x: T, key: T -> int)
    requires SortedDesc(s, key)
    ensures SortedDesc(InsertDesc(s, x, key), key)
    decreases |s|
  {
    if s != [] && key(s[|s| - 1]) < key(x) {
      var init, last := s[..|s| - 1], s[|s| - 1];
      InsertDescSorted(init, x, key);
      InsertDescPermutes(init, x, key);
      var r := InsertDesc(init, x, key);
      forall y | y in r
        ensures key(y) >= key(last)
      {
        assert y in multiset(r);
        if y != x {
          assert y in multiset(init);
          var k :| 0 <= k < |init| && init[k] == y;
          assert s[k] == y;
        }
      }
      forall i, j | 0 <= i < j < |r| + 1
        ensures key((r + [last])[i]) >= key((r + [last])[j])
      {
        if j == |r| {
          assert (r + [last])[i] == r[i];
          assert r[i] in r;
        }
      }
    }
  }

  /** The sorted result is in descending key order. */
  lemma {:induction false} SortDescSorted<T>(s: seq<T>, key: T -> int)
    ensures SortedDesc(SortDesc(s, key), key)
    decreases |s|
  {
    if s != [] {
      SortDescSorted(s[..|s| - 1], key);
      InsertDescSorted(SortDesc(s[..|s| - 1], key), s[|s| - 1], key);
    }
  }

  /** The elements of s whose key is k, in their order in s. */
  function Ties<T>(s: seq<T>, key: T -> int, k: int): (r: seq<T>)
    ensures |r| <= |s|
    decreases |s|
  {
    if s == [] then []
    else Ties(s[..|s| - 1], key, k) + (if key(s[|s| - 1]) == k then [s[|s| - 1]] else [])
  }

  lemma {:induction false} TiesAppend<T>(a: seq<T>, b: seq<T>, key: T -> int, k: int)
    ensures Ties(a + b, key, k) == Ties(a, key, k) + Ties(b, key, k)
    decreases |b|
  {
    if b == [] {
      assert a + b == a;
    } else {
      var b', last := b[..|b| - 1], b[|b| - 1];
      assert (a + b)[..|a + b| - 1] == a + b';
      TiesAppend(a, b', key, k);
    }
  }

  /** Inserting x keeps the order of equal-key elements and puts x after the ones already there. */
  lemma {:induction false} InsertDescTies<T>(s: seq<T>, x: T, key: T -> int, k: int)
    ensures Ties(InsertDesc(s, x, key), key, k) == Ties(s, key, k) + Ties([x], key, k)
    decreases |s|
  {
    if s == [] || key(s[|s| - 1]) >= key(x) {
      TiesAppend(s, [x], key, k);
    } else {
      var init, last := s[..|s| - 1], s[|s| - 1];
      InsertDescTies(init, x, key, k);
      TiesAppend(InsertDesc(init, x, key), [last], key, k);
      TiesAppend(init, [last], key, k);
      assert init + [last] == s;
      assert Ties([x], key, k) + Ties([last], key, k) == Ties([last], key, k) + Ties([x], key, k) by {
        assert Ties([x], key, k) == if key(x) == k then [x] else [];
        assert Ties([last], key, k) == if key(last) == k then [last] else [];
      }
    }
  }

  /** Stability: for every key value, the elements with that key keep their relative order. */
  lemma {:induction false} SortDescStable<T>(s: seq<T>, key: T -> int, k: int)
    ensures Ties(SortDesc(s, key), key, k) == Ties(s, key, k)
    decreases |s|
  {
    if s != [] {
      var init, last := s[..|s| - 1], s[|s| - 1];
      SortDescStable(init, key, k);
      InsertDescTies(SortDesc(init, key), last, key, k);
      TiesAppend(init, [last], key, k);
      assert init + [last] == s;
    }
  }

  /** A sequence already in descending order is left as it is. */
  lemma {:induction false} SortDescOfSorted<T>(s: seq<T>, key: T -> int)
    requires SortedDesc(s, key)
    ensures SortDesc(s, key) == s
    decreases |s|
  {
    if s != [] {
      var init := s[..|s| - 1];
      assert SortedDesc(init, key);
      SortDescOfSorted(init, key);
      assert init + [s[|s| - 1]] == s;
    }
  }

  /** Unfolding one insertion step: x passes the last element when that one's key is smaller. */
  lemma InsertDescPasses<T>(t: seq<T>, x: T, key: T -> int)
    requires t != [] && key(t[|t| - 1]) < key(x)
    ensures InsertDesc(t, x, key) == InsertDesc(t[..|t| - 1], x, key) + [t[|t| - 1]]
  {
  }

  /** x stays after the last element when that one's key is at least key(x). */
  lemma InsertDescStops<T>(t: seq<T>, x: T, key: T -> int)
    requires t == [] || key(t[|t| - 1]) >= key(x)
    ensures InsertDesc(t, x, key) == t + [x]
  {
  }

  /** The inner-loop invariant of insertion survives moving x one place further left. */
  lemma InsertDescShift<T>(sorted: seq<T>, j: nat, x: T, key: T -> int)
    requires 0 < j <= |sorted| && key(sorted[j - 1]) < key(x)
    ensures InsertDesc(sorted[..j], x, key) + sorted[j..] == InsertDesc(sorted[..j - 1], x, key) + sorted[j - 1..]
  {
    var t := sorted[..j];
    assert t[..j - 1] == sorted[..j - 1] && t[j - 1] == sorted[j - 1];
    InsertDescPasses(t, x, key);
    var p := InsertDesc(sorted[..j - 1], x, key);
    calc {
      InsertDesc(t, x, key) + sorted[j..];
      (p + [sorted[j - 1]]) + sorted[j..];
      p + ([sorted[j - 1]] + sorted[j..]);
      { assert [sorted[j - 1]] + sorted[j..] == sorted[j - 1..]; }
      p + sorted[j - 1..];
    }
  }

  /** The array contents s during the insertion of a[i]: the first j elements of the sorted
      prefix in place, the hole at j, the rest of the prefix shifted one place right, and
      the elements after i untouched. */
  ghost predicate Shifting<T>(s: seq<T>, sorted: seq<T>, tail: seq<T>, i: nat, j: nat) {
    && j <= i == |sorted|
    && |s| == i + 1 + |tail|
    && s[..j] == sorted[..j]
    && s[j + 1..i + 1] == sorted[j..]
    && s[i + 1..] == tail
  }

  /** Copying the element left of the hole into the hole moves the hole one place left. */
  lemma ShiftingStep<T>(s: seq<T>, sorted: seq<T>, tail: seq<T>, i: nat, j: nat)
    requires Shifting(s, sorted, tail, i, j) && j > 0
    ensures s[j - 1] == sorted[j - 1]
    ensures Shifting(s[j := s[j - 1]], sorted, tail, i, j - 1)
  {
    assert s[..j][j - 1] == s[j - 1];
    var t := s[j := s[j - 1]];
    assert t[..j - 1] == s[..j - 1] == sorted[..j - 1];
    assert t[j..i + 1] == [sorted[j - 1]] + sorted[j..];
    assert t[i + 1..] == s[i + 1..];
  }

  /** Filling the hole with x gives the prefix sorted[..j] + [x] + sorted[j..]. */
  lemma ShiftingFill<T>(s: seq<T>, sorted: seq<T>, tail: seq<T>, i: nat, j: nat, x: T)
    requires Shifting(s, sorted, tail, i, j)
    ensures s[j := x][..i + 1] == sorted[..j] + [x] + sorted[j..]
    ensures s[j := x][i + 1..] == tail
  {
    var t := s[j := x];
    assert t[..i + 1] == t[..j] + [x] + t[j + 1..i + 1];
  }

  /** One step of insertion sort: a[i] is moved into the sorted prefix a[..i], shifting
      the larger-index elements with smaller keys one place to the right. */
  method InsertInto<T>(a: array<T>, i: nat, key: T -> int)
    requires i < a.Length
    modifies a
    ensures a[..i + 1] == InsertDesc(old(a[..i]), old(a[i]), key)
    ensures a[i + 1..] == old(a[i + 1..])
  {
    ghost var sorted := a[..i];
    ghost var tail := a[i + 1..];
    var x := a[i];
    var j := i;
    assert sorted[..j] == sorted && sorted[j..] == [];
    assert Shifting(a[..], sorted, tail, i, j);
    while j > 0 && key(a[j - 1]) < key(x)
      invariant 0 <= j <= i
      invariant Shifting(a[..], sorted, tail, i, j)
      invariant InsertDesc(sorted, x, key) == InsertDesc(sorted[..j], x, key) + sorted[j..]
    {
      ShiftingStep(a[..], sorted, tail, i, j);
      InsertDescShift(sorted, j, x, key);
      a[j] := a[j - 1];
      j := j - 1;
    }
    InsertDescStops(sorted[..j], x, key);
    ShiftingFill(a[..], sorted, tail, i, j, x);
    a[j] := x;
  }

  /** `a.sort((x, y) => key(y) - key(x))`: the array is rearranged, in place, into the
      stable descending order of its previous contents. */
  method SortInPlace<T>(a: array<T>, key: T -> int)
    modifies a
    ensures a[..] == SortDesc(old(a[..]), key)
  {
    ghost var input := a[..];
    var i := 0;
    while i < a.Length
      invariant 0 <= i <= a.Length
      invariant a[..i] == SortDesc(input[..i], key)
      invariant forall k :: i <= k < a.Length ==> a[k] == input[k]
    {
      InsertInto(a, i, key);
      assert input[..i + 1][..i] == input[..i];
      i := i + 1;
    }
    assert input[..a.Length] == input;
    assert a[..a.Length] == a[..];
  }
}
