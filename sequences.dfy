/** Sequence operations the source takes from JavaScript arrays:
    `reverse`, `filter`, `findIndex` and `splice(start)`. */
module Sequences {

  /** `Array.prototype.reverse` on a copy. */
  function Reverse<X>(s: seq<X>): (r: seq<X>)
    ensures |r| == |s|
    ensures forall k :: 0 <= k < |s| ==> r[k] == s[|s| - 1 - k]
  {
    if s == [] then [] else Reverse(s[1..]) + [s[0]]
  }

  /** Reversing twice gives the original sequence back. */
  lemma ReverseInvolutive<X>(s: seq<X>)
    ensures Reverse(Reverse(s)) == s
  {
    forall k | 0 <= k < |s|
      ensures Reverse(Reverse(s))[k] == s[k]
    {
      assert Reverse(Reverse(s))[k] == Reverse(s)[|s| - 1 - k];
    }
  }

  /** `Array.prototype.filter`: the elements satisfying `p`, in their order. */
  function Filter<X>(s: seq<X>, p: X -> bool): (r: seq<X>)
    ensures |r| <= |s|
    ensures forall i :: 0 <= i < |r| ==> r[i] in s && p(r[i])
    ensures forall i :: 0 <= i < |s| && p(s[i]) ==> s[i] in r
  {
    if s == [] then []
    else if p(s[0]) then [s[0]] + Filter(s[1..], p)
    else Filter(s[1..], p)
  }

  /** `a` is `b` with some elements dropped and the rest kept in order. */
  ghost predicate IsSubsequence<X>(a: seq<X>, b: seq<X>)
    decreases |b|
  {
    if a == [] then true
    else if b == [] then false
    else if a[0] == b[0] then IsSubsequence(a[1..], b[1..])
    else IsSubsequence(a, b[1..])
  }

  lemma {:induction false} FilterIsSubsequence<X>(s: seq<X>, p: X -> bool)
    ensures IsSubsequence(Filter(s, p), s)
  {
    if s != [] {
      FilterIsSubsequence(s[1..], p);
      if !p(s[0]) {
        SubsequenceOfTail(Filter(s[1..], p), s);
      }
    }
  }

  lemma {:induction false} SubsequenceOfTail<X>(a: seq<X>, b: seq<X>)
    requires b != [] && IsSubsequence(a, b[1..])
    ensures IsSubsequence(a, b)
    decreases |b|, 0
  {
    if a != [] && a[0] == b[0] {
      EmbeddedTail(a, b[1..]);
    }
  }

  lemma {:induction false} EmbeddedTail<X>(a: seq<X>, b: seq<X>)
    requires a != [] && IsSubsequence(a, b)
    ensures IsSubsequence(a[1..], b)
    decreases |b|, 1
  {
    if a[0] != b[0] {
      EmbeddedTail(a, b[1..]);
    }
    SubsequenceOfTail(a[1..], b);
  }

  /** Filtering with the same predicate a second time changes nothing. */
  lemma {:induction false} FilterIdempotent<X>(s: seq<X>, p: X -> bool)
    ensures Filter(Filter(s, p), p) == Filter(s, p)
  {
    if s != [] {
      FilterIdempotent(s[1..], p);
    }
  }

  /** Filtering a sequence whose every element passes gives it back. */
  lemma {:induction false} FilterAll<X>(s: seq<X>, p: X -> bool)
    requires forall i :: 0 <= i < |s| ==> p(s[i])
    ensures Filter(s, p) == s
  {
    if s != [] {
      FilterAll(s[1..], p);
    }
  }

  /** `s` without its first occurrence of `x`; all of `s` when `x` is absent. */
  function RemoveFirst<X(==)>(s: seq<X>, x: X): (r: seq<X>)
    ensures x !in s ==> r == s
    ensures x in s ==> |r| == |s| - 1
  {
    if s == [] then []
    else if s[0] == x then s[1..]
    else [s[0]] + RemoveFirst(s[1..], x)
  }

  /** Removing the first occurrence is cutting out the slot where it sits. */
  lemma {:induction false} RemoveFirstAt<X>(s: seq<X>, x: X, j: nat)
    requires j < |s| && s[j] == x
    requires forall i :: 0 <= i < j ==> s[i] != x
    ensures RemoveFirst(s, x) == s[..j] + s[j + 1..]
  {
    if j > 0 {
      RemoveFirstAt(s[1..], x, j - 1);
      assert s[1..][..j - 1] == s[1..j];
      assert s[1..][j..] == s[j + 1..];
      assert [s[0]] + s[1..j] == s[..j];
    }
  }

  /** `Array.prototype.findIndex`: the first index whose element satisfies
      `p`, or -1 when there is none. */
  function FirstIndex<X>(s: seq<X>, p: X -> bool): (r: int)
    ensures -1 <= r < |s|
    ensures r == -1 <==> forall i :: 0 <= i < |s| ==> !p(s[i])
    ensures r >= 0 ==> p(s[r]) && forall j :: 0 <= j < r ==> !p(s[j])
  {
    if s == [] then -1
    else if p(s[0]) then 0
    else
      var k := FirstIndex(s[1..], p);
      if k == -1 then -1 else k + 1
  }

  /** The index `splice(start)` starts deleting at, for a length-`n` array:
      a negative `start` counts from the end, and both ends are clamped. */
  function SpliceStart(start: int, n: nat): (k: nat)
    ensures k <= n
    ensures 0 <= start ==> k == if start <= n then start else n
    ensures start < 0 ==> k == if n + start >= 0 then n + start else 0
  {
    if start < 0 then (if n + start >= 0 then n + start else 0)
    else if start <= n then start else n
  }

  /** What is left of `s` after the in-place `s.splice(start)`. */
  function SpliceKeep<X>(s: seq<X>, start: int): (r: seq<X>)
    ensures |r| == SpliceStart(start, |s|) && r <= s
  {
    s[..SpliceStart(start, |s|)]
  }

  /** Elements taken pairwise distinct by a key. */
  ghost predicate DistinctBy<X, K>(s: seq<X>, key: X -> K)
  {
    forall i, j :: 0 <= i < j < |s| ==> key(s[i]) != key(s[j])
  }

  /** Dropping elements keeps keys distinct. */
  lemma {:induction false} FilterDistinct<X, K>(s: seq<X>, p: X -> bool, key: X -> K)
    requires DistinctBy(s, key)
    ensures DistinctBy(Filter(s, p), key)
  {
    if s != [] {
      FilterDistinct(s[1..], p, key);
      if p(s[0]) {
        var r := Filter(s, p);
        assert r == [s[0]] + Filter(s[1..], p);
        forall j | 1 <= j < |r| ensures key(r[0]) != key(r[j]) {
          assert r[j] in Filter(s[1..], p);
          assert r[j] in s[1..];
          var m :| 0 <= m < |s[1..]| && s[1..][m] == r[j];
          assert s[m + 1] == r[j];
        }
      }
    }
  }
}
