/** Order-preserving filtering (`Array.prototype.filter`) and the
    subsequence relation that describes its result. */
module Sequences {
  import opened Wrappers

  /** `sub` can be obtained from `s` by deleting elements. */
  predicate IsSubsequence<T(==,!new)>(sub: seq<T>, s: seq<T>)
    decreases |s|
  {
    if |sub| == 0 then true
    else if |s| == 0 then false
    else (sub[0] == s[0] && IsSubsequence(sub[1..], s[1..])) || IsSubsequence(sub, s[1..])
  }

  /** The elements of `s` that satisfy `keep`, in their original order. */
  function Filter<T(==,!new)>(s: seq<T>, keep: T -> bool): (r: seq<T>)
    ensures IsSubsequence(r, s)
    ensures forall i :: 0 <= i < |r| ==> keep(r[i])
    ensures |r| <= |s|
  {
    if |s| == 0 then []
    else
      var rest := Filter(s[1..], keep);
      if keep(s[0]) then [s[0]] + rest else rest
  }

  /** Nothing that passes is lost: every kept value occurs in the result as
      often as in the input. */
  lemma {:induction false} FilterCounts<T(!new)>(s: seq<T>, keep: T -> bool)
    ensures forall x :: keep(x) ==> multiset(Filter(s, keep))[x] == multiset(s)[x]
  {
    if |s| > 0 {
      FilterCounts(s[1..], keep);
      assert s == [s[0]] + s[1..];
      var rest := Filter(s[1..], keep);
      if keep(s[0]) {
        assert Filter(s, keep) == [s[0]] + rest;
      }
    }
  }

  /** A filter that keeps everything is the identity. */
  lemma {:induction false} FilterKeepAll<T(!new)>(s: seq<T>, keep: T -> bool)
    requires forall i :: 0 <= i < |s| ==> keep(s[i])
    ensures Filter(s, keep) == s
  {
    if |s| > 0 {
      FilterKeepAll(s[1..], keep);
    }
  }

  /** `[x]` when `x` is kept, otherwise nothing. */
  function Kept<T>(x: T, keep: T -> bool): seq<T> {
    if keep(x) then [x] else []
  }

  lemma FilterCons<T(!new)>(x: T, s: seq<T>, t: seq<T>, keep: T -> bool)
    requires t == [x] + s
    ensures Filter(t, keep) == Kept(x, keep) + Filter(s, keep)
  {
    assert t[1..] == s;
  }

  /** Filtering a list of three, spelled out. */
  lemma FilterThree<T(!new)>(a: T, b: T, c: T, keep: T -> bool)
    ensures Filter([a, b, c], keep) == Kept(a, keep) + Kept(b, keep) + Kept(c, keep)
  {
    var ka, kb, kc := Kept(a, keep), Kept(b, keep), Kept(c, keep);
    FilterCons(c, [], [c], keep);
    assert Filter([c], keep) == kc;
    FilterCons(b, [c], [b, c], keep);
    FilterCons(a, [b, c], [a, b, c], keep);
    assert ka + (kb + kc) == ka + kb + kc;
  }

  /** Index of the first element satisfying `p` (`Array.prototype.find`
      and `findIndex`): none exactly when no element satisfies it. */
  function FirstIndex<T>(s: seq<T>, p: T -> bool): (r: Option<nat>)
    ensures r.Some? ==> r.value < |s| && p(s[r.value])
    ensures r.Some? ==> forall k :: 0 <= k < r.value ==> !p(s[k])
    ensures r.None? <==> forall k :: 0 <= k < |s| ==> !p(s[k])
  {
    if |s| == 0 then None
    else if p(s[0]) then Some(0)
    else match FirstIndex(s[1..], p)
      case None => None
      case Some(i) => Some(i + 1)
  }
}
