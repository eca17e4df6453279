/** Order-preserving selection over sequences: the model of Rust's
    `iter().filter(..).collect()` and `iter().filter(..).count()` chains. */
module Seqs {

  /** `a` can be obtained from `b` by deleting elements, order kept. */
  predicate IsSubsequence<T(==)>(a: seq<T>, b: seq<T>)
    decreases |b|
  {
    a == [] || (b != [] && (if a[0] == b[0] then IsSubsequence(a[1..], b[1..]) else IsSubsequence(a, b[1..])))
  }

  /** The elements of `s` satisfying `p`, in their original order. */
  function Keep<T>(s: seq<T>, p: T -> bool): (r: seq<T>)
    ensures |r| <= |s|
    ensures forall i :: 0 <= i < |r| ==> p(r[i])
    ensures forall i :: 0 <= i < |s| && p(s[i]) ==> s[i] in r
    ensures forall i :: 0 <= i < |r| ==> r[i] in s
    decreases |s|
  {
    if s == [] then []
    else if p(s[0]) then [s[0]] + Keep(s[1..], p)
    else Keep(s[1..], p)
  }

  /** The number of elements of `s` satisfying `p`, counted one by one. */
  function CountWhere<T>(s: seq<T>, p: T -> bool): nat
    decreases |s|
  {
    if s == [] then 0 else (if p(s[0]) then 1 else 0) + CountWhere(s[1..], p)
  }

  /** The count over three elements, one by one. */
  lemma CountOfThree<T>(a: T, b: T, c: T, p: T -> bool)
    ensures CountWhere([a, b, c], p) == (if p(a) then 1 else 0) + (if p(b) then 1 else 0) + (if p(c) then 1 else 0)
  {
    assert [a, b, c][1..] == [b, c];
    assert [b, c][1..] == [c];
    assert [c][1..] == [];
    assert CountWhere([c], p) == if p(c) then 1 else 0;
    assert CountWhere([b, c], p) == (if p(b) then 1 else 0) + CountWhere([c], p);
  }

  /** An element that passes the test sits in the filtered sequence at the
      position given by the number of passing elements before it. */
  lemma {:induction false} KeepAt<T>(s: seq<T>, p: T -> bool, i: nat)
    requires i < |s| && p(s[i])
    ensures CountWhere(s[..i], p) < |Keep(s, p)|
    ensures Keep(s, p)[CountWhere(s[..i], p)] == s[i]
    decreases i
  {
    if i > 0 {
      KeepAt(s[1..], p, i - 1);
      assert s[..i][1..] == s[1..][..i - 1];
      assert s[..i][0] == s[0];
    }
  }

  /** `KeepAt` for every passing element at once. */
  lemma KeepPositions<T>(s: seq<T>, p: T -> bool)
    ensures forall i :: 0 <= i < |s| && p(s[i]) ==>
              CountWhere(s[..i], p) < |Keep(s, p)| && Keep(s, p)[CountWhere(s[..i], p)] == s[i]
  {
    forall i | 0 <= i < |s| && p(s[i])
      ensures CountWhere(s[..i], p) < |Keep(s, p)| && Keep(s, p)[CountWhere(s[..i], p)] == s[i]
    {
      KeepAt(s, p, i);
    }
  }

  /** The first `n` elements of `s` that satisfy `p`, as
      `iter().filter(..).take(n)` yields them. */
  function FirstKept<T>(s: seq<T>, p: T -> bool, n: nat): seq<T> {
    var k := Keep(s, p);
    if |k| > n then k[..n] else k
  }

  /** `FirstKept` holds `min(n, count)` passing elements, in order, and a
      passing element with fewer than `n` passing elements before it sits
      at the position given by their number. */
  lemma FirstKeptProperties<T>(s: seq<T>, p: T -> bool, n: nat)
    ensures |FirstKept(s, p, n)| == if CountWhere(s, p) > n then n else CountWhere(s, p)
    ensures forall i :: 0 <= i < |FirstKept(s, p, n)| ==> p(FirstKept(s, p, n)[i])
    ensures IsSubsequence(FirstKept(s, p, n), s)
    ensures forall i :: 0 <= i < |s| && p(s[i]) && s[i] !in FirstKept(s, p, n) ==> |FirstKept(s, p, n)| == n
    ensures forall i :: 0 <= i < |s| && p(s[i]) && CountWhere(s[..i], p) < n ==>
              CountWhere(s[..i], p) < |FirstKept(s, p, n)| && FirstKept(s, p, n)[CountWhere(s[..i], p)] == s[i]
  {
    var k := Keep(s, p);
    var r := FirstKept(s, p, n);
    KeepPositions(s, p);
    KeepIsSubsequence(s, p);
    CountIsLengthOfKeep(s, p);
    PrefixOfSubsequence(k, s, |r|);
    assert r == k[..|r|];
  }

  /** Filtering keeps the order of what it keeps. */
  lemma {:induction false} KeepIsSubsequence<T>(s: seq<T>, p: T -> bool)
    ensures IsSubsequence(Keep(s, p), s)
    decreases |s|
  {
    if s != [] {
      KeepIsSubsequence(s[1..], p);
      if !p(s[0]) && Keep(s, p) != [] {
        SkipHead(Keep(s, p), s);
      }
    }
  }

  /** A subsequence of the tail is a subsequence of the whole. */
  lemma {:induction false} SkipHead<T>(a: seq<T>, b: seq<T>)
    requires b != [] && IsSubsequence(a, b[1..])
    ensures IsSubsequence(a, b)
    decreases |b|, 0
  {
    if a != [] && a[0] == b[0] {
      SubsequenceTail(a, b[1..]);
    }
  }

  /** Dropping the first element of a subsequence keeps it a subsequence. */
  lemma {:induction false} SubsequenceTail<T>(a: seq<T>, b: seq<T>)
    requires a != [] && IsSubsequence(a, b)
    ensures IsSubsequence(a[1..], b)
    decreases |b|, 1
  {
    if a[0] != b[0] {
      SubsequenceTail(a, b[1..]);
    }
    SkipHead(a[1..], b);
  }

  /** Counting agrees with the length of the filtered sequence. */
  lemma {:induction false} CountIsLengthOfKeep<T>(s: seq<T>, p: T -> bool)
    ensures CountWhere(s, p) == |Keep(s, p)|
    decreases |s|
  {
    if s != [] {
      CountIsLengthOfKeep(s[1..], p);
    }
  }

  /** The first `n` elements of a subsequence still form a subsequence. */
  lemma {:induction false} PrefixOfSubsequence<T>(a: seq<T>, b: seq<T>, n: nat)
    requires n <= |a| && IsSubsequence(a, b)
    ensures IsSubsequence(a[..n], b)
    decreases |b|
  {
    if n > 0 {
      if a[0] == b[0] {
        PrefixOfSubsequence(a[1..], b[1..], n - 1);
        assert a[..n][1..] == a[1..][..n - 1];
      } else {
        PrefixOfSubsequence(a, b[1..], n);
      }
    }
  }
}
