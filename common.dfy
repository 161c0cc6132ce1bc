/** Small value types and sequence/string helpers shared by every module:
    JavaScript's `undefined`-or-value, `String.prototype.includes`,
    `toLowerCase` restricted to ASCII, and `Array.prototype.filter`. */
module Common {

  /** A value that may be absent (JavaScript `undefined`). */
  datatype Option<+T> = None | Some(value: T) {
    /** `x || fallback` for a present value; the value itself when present. */
    function GetOr(fallback: T): T {
      match this
      case Some(v) => v
      case None => fallback
    }
  }

  /** The result of a JavaScript integer parse: NaN, or an integer. */
  datatype Num = NaN | Int(value: int)

  /** `s.includes(sub)`: sub occurs in s as a contiguous block. */
  predicate Contains(s: string, sub: string)
    decreases |s|
  {
    sub <= s || (|s| > 0 && Contains(s[1..], sub))
  }

  /** An occurrence at offset i makes sub contained in s. */
  lemma {:induction false} ContainsAtIndex(s: string, sub: string, i: nat)
    requires i + |sub| <= |s| && sub <= s[i..]
    ensures Contains(s, sub)
    decreases i
  {
    if i > 0 {
      assert s[1..][i - 1..] == s[i..];
      ContainsAtIndex(s[1..], sub, i - 1);
    }
  }

  /** A contained string occurs at some offset. */
  lemma {:induction false} ContainsIndex(s: string, sub: string) returns (i: nat)
    requires Contains(s, sub)
    ensures i + |sub| <= |s| && sub <= s[i..]
    decreases |s|
  {
    if sub <= s {
      i := 0;
    } else {
      var j := ContainsIndex(s[1..], sub);
      assert s[1..][j..] == s[j + 1..];
      i := j + 1;
    }
  }

  /** Whatever contains `x + sub` also contains `sub`: "#shorts" implies "shorts". */
  lemma {:induction false} ContainsSuffix(s: string, x: string, sub: string)
    requires Contains(s, x + sub)
    ensures Contains(s, sub)
    decreases |s|
  {
    if x + sub <= s {
      assert sub <= s[|x|..];
      ContainsAtIndex(s, sub, |x|);
    } else {
      ContainsSuffix(s[1..], x, sub);
    }
  }

  /** A string whose first character does not occur in s is not contained in s. */
  lemma {:induction false} NotContainsFirst(s: string, sub: string)
    requires |sub| > 0 && sub[0] !in s
    ensures !Contains(s, sub)
    decreases |s|
  {
    if |s| > 0 {
      NotContainsFirst(s[1..], sub);
    }
  }

  /** A string longer than s is not contained in s. */
  lemma {:induction false} NotContainsLonger(s: string, sub: string)
    requires |sub| > |s|
    ensures !Contains(s, sub)
    decreases |s|
  {
    if |s| > 0 {
      NotContainsLonger(s[1..], sub);
    }
  }

  /** Every string contains the empty string (`"abc".includes("") === true`). */
  lemma EmptyContained(s: string)
    ensures Contains(s, "")
  {
  }

  /** `toLowerCase` on one character, restricted to ASCII letters. */
  function LowerChar(c: char): (r: char)
    ensures 'A' <= c <= 'Z' ==> r as int == c as int + 32
    ensures !('A' <= c <= 'Z') ==> r == c
  {
    if 'A' <= c <= 'Z' then (c as int + 32) as char else c
  }

  /** `s.toLowerCase()` restricted to ASCII: no upper-case ASCII letter is left. */
  function Lower(s: string): (r: string)
    ensures |r| == |s|
    ensures forall i :: 0 <= i < |s| ==> r[i] == LowerChar(s[i])
    ensures forall i :: 0 <= i < |r| ==> !('A' <= r[i] <= 'Z')
  {
    seq(|s|, i requires 0 <= i < |s| => LowerChar(s[i]))
  }

  /** Lower-casing is idempotent. */
  lemma LowerIdempotent(s: string)
    ensures Lower(Lower(s)) == Lower(s)
  {
  }

  /** `a` can be obtained from `b` by deleting elements: order is preserved. */
  predicate IsSubsequence<T(==)>(a: seq<T>, b: seq<T>)
    decreases |b|
  {
    a == [] || (b != [] && ((a[0] == b[0] && IsSubsequence(a[1..], b[1..])) || IsSubsequence(a, b[1..])))
  }

  /** `s.filter(p)`: exactly the elements satisfying p, in their original order. */
  function Filter<T(==, !new)>(s: seq<T>, p: T -> bool): (r: seq<T>)
    ensures |r| <= |s|
    ensures forall i :: 0 <= i < |r| ==> r[i] in s && p(r[i])
    ensures forall i :: 0 <= i < |s| && p(s[i]) ==> s[i] in r
    ensures IsSubsequence(r, s)
    ensures forall x {:trigger multiset(r)[x]} :: multiset(r)[x] == if p(x) then multiset(s)[x] else 0
    decreases |s|
  {
    if s == [] then []
    else
      assert s == [s[0]] + s[1..];
      if p(s[0]) then [s[0]] + Filter(s[1..], p)
      else Filter(s[1..], p)
  }

  /** Filtering distributes over concatenation. */
  lemma {:induction false} FilterAppend<T(!new)>(a: seq<T>, b: seq<T>, p: T -> bool)
    ensures Filter(a + b, p) == Filter(a, p) + Filter(b, p)
    decreases |a|
  {
    if a != [] {
      var ab := a + b;
      assert ab[0] == a[0] && ab[1..] == a[1..] + b;
      FilterAppend(a[1..], b, p);
      if p(a[0]) {
        calc {
          Filter(ab, p);
          [a[0]] + Filter(a[1..] + b, p);
          [a[0]] + (Filter(a[1..], p) + Filter(b, p));
          ([a[0]] + Filter(a[1..], p)) + Filter(b, p);
        }
      }
    } else {
      assert a + b == b;
    }
  }

  /** Filtering keeps every element when all of them satisfy the predicate. */
  lemma {:induction false} FilterAll<T(!new)>(s: seq<T>, p: T -> bool)
    requires forall i :: 0 <= i < |s| ==> p(s[i])
    ensures Filter(s, p) == s
    decreases |s|
  {
    if s != [] {
      FilterAll(s[1..], p);
    }
  }

  /** Filtering by two predicates that agree on every element gives the same result. */
  lemma {:induction false} FilterAgree<T(!new)>(s: seq<T>, p: T -> bool, q: T -> bool)
    requires forall i :: 0 <= i < |s| ==> p(s[i]) == q(s[i])
    ensures Filter(s, p) == Filter(s, q)
    decreases |s|
  {
    if s != [] {
      FilterAgree(s[1..], p, q);
    }
  }

  /** `s.map(f)`. */
  function Map<A, B>(s: seq<A>, f: A -> B): (r: seq<B>)
    ensures |r| == |s|
    ensures forall i :: 0 <= i < |s| ==> r[i] == f(s[i])
  {
    seq(|s|, i requires 0 <= i < |s| => f(s[i]))
  }

  /** `s.slice(0, end)`: a negative end counts back from the end of s. */
  function SliceTo<T>(s: seq<T>, end: int): (r: seq<T>)
    ensures end >= 0 ==> |r| == if end < |s| then end else |s|
    ensures end < 0 ==> |r| == if |s| + end > 0 then |s| + end else 0
    ensures r <= s
  {
    var e := if end < 0 then (if |s| + end > 0 then |s| + end else 0) else (if end < |s| then end else |s|);
    s[..e]
  }

  /** The number of elements satisfying p (`s.filter(p).length`). */
  function Count<T(==, !new)>(s: seq<T>, p: T -> bool): (n: nat)
    ensures n <= |s|
  {
    |Filter(s, p)|
  }
}
