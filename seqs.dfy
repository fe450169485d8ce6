/** Sequence searches used by the removal route: the `find` and `filter`
    of JavaScript arrays, and the positions a filter keeps. */
module Seqs {

  datatype Option<+T> = None | Some(value: T)

  /** Index of the first element of `s` that satisfies `p` (what
      `Array.prototype.find` returns the element at), or None. */
  function FindFirst<T>(s: seq<T>, p: T -> bool): (r: Option<nat>)
    ensures r.Some? ==> r.value < |s| && p(s[r.value])
    ensures r.Some? ==> forall j :: 0 <= j < r.value ==> !p(s[j])
    ensures r.None? ==> forall j :: 0 <= j < |s| ==> !p(s[j])
  {
    if s == [] then None
    else if p(s[0]) then Some(0)
    else match FindFirst(s[1..], p)
      case None => None
      case Some(i) => Some(i + 1)
  }

  /** The first-hit property determines FindFirst's answer. */
  lemma FindFirstIs<T>(s: seq<T>, p: T -> bool, i: nat)
    requires i < |s| && p(s[i])
    requires forall j :: 0 <= j < i ==> !p(s[j])
    ensures FindFirst(s, p) == Some(i)
  {
  }

  /** The elements of `s` that satisfy `p`, in the order of `s`
      (`Array.prototype.filter`). */
  function Filter<T(!new)>(s: seq<T>, p: T -> bool): (r: seq<T>)
    ensures |r| <= |s|
    ensures forall x :: x in r <==> x in s && p(x)
    ensures r == [] <==> forall i :: 0 <= i < |s| ==> !p(s[i])
    decreases |s|
  {
    if s == [] then []
    else
      var n := |s| - 1;
      assert s == s[..n] + [s[n]];
      Filter(s[..n], p) + (if p(s[n]) then [s[n]] else [])
  }

  /** Filter keeps every occurrence of a kept element and no occurrence of
      any other: its result is the sub-multiset of `s` selected by `p`. */
  lemma {:induction false} FilterCounts<T(!new)>(s: seq<T>, p: T -> bool)
    ensures forall x :: multiset(Filter(s, p))[x] == if p(x) then multiset(s)[x] else 0
    decreases |s|
  {
    if s != [] {
      var n := |s| - 1;
      FilterCounts(s[..n], p);
      assert s == s[..n] + [s[n]];
    }
  }

  /** The indices of `s` whose elements satisfy `p`, in increasing order. */
  function Positions<T>(s: seq<T>, p: T -> bool): (idx: seq<nat>)
    ensures forall k :: 0 <= k < |idx| ==> idx[k] < |s| && p(s[idx[k]])
    ensures forall k, l :: 0 <= k < l < |idx| ==> idx[k] < idx[l]
    ensures forall i :: 0 <= i < |s| && p(s[i]) ==> i in idx
    decreases |s|
  {
    if s == [] then []
    else
      var n := |s| - 1;
      Positions(s[..n], p) + (if p(s[n]) then [n] else [])
  }

  /** Filter keeps exactly the elements at Positions, in that order: the
      result is the subsequence of `s` picked out by `p`. */
  lemma {:induction false} FilterAtPositions<T(!new)>(s: seq<T>, p: T -> bool)
    ensures |Filter(s, p)| == |Positions(s, p)|
    ensures forall k :: 0 <= k < |Filter(s, p)| ==> Filter(s, p)[k] == s[Positions(s, p)[k]]
    decreases |s|
  {
    if s != [] {
      var n := |s| - 1;
      var front, idx := Filter(s[..n], p), Positions(s[..n], p);
      FilterAtPositions(s[..n], p);
      var last, lastIdx := (if p(s[n]) then [s[n]] else []), (if p(s[n]) then [n] else []);
      assert Filter(s, p) == front + last;
      assert Positions(s, p) == idx + lastIdx;
      forall k | 0 <= k < |front + last|
        ensures (front + last)[k] == s[(idx + lastIdx)[k]]
      {
        if k < |front| {
          assert s[..n][idx[k]] == s[idx[k]];
        }
      }
    }
  }

  /** Filter over a three-element sequence, element by element. */
  lemma FilterOfThree<T(!new)>(a: T, b: T, c: T, p: T -> bool)
    ensures Filter([a, b, c], p) ==
      (if p(a) then [a] else []) + (if p(b) then [b] else []) + (if p(c) then [c] else [])
  {
    assert [a, b, c][..2] == [a, b] && [a, b][..1] == [a] && [a][..0] == [];
    assert Filter([a], p) == (if p(a) then [a] else []);
    assert Filter([a, b], p) == Filter([a], p) + (if p(b) then [b] else []);
  }

  /** FindFirst depends only on which indices satisfy the predicate. */
  lemma {:induction false} FindFirstAgree<T>(s: seq<T>, t: seq<T>, p: T -> bool)
    requires |s| == |t|
    requires forall i :: 0 <= i < |s| ==> p(s[i]) == p(t[i])
    ensures FindFirst(s, p) == FindFirst(t, p)
  {
    if s != [] && !p(s[0]) {
      assert p(s[0]) == p(t[0]);
      FindFirstAgree(s[1..], t[1..], p);
    }
  }

  /** Positions depends only on which indices satisfy the predicate. */
  lemma {:induction false} PositionsAgree<T>(s: seq<T>, t: seq<T>, p: T -> bool)
    requires |s| == |t|
    requires forall i :: 0 <= i < |s| ==> p(s[i]) == p(t[i])
    ensures Positions(s, p) == Positions(t, p)
    decreases |s|
  {
    if s != [] {
      var n := |s| - 1;
      assert p(s[n]) == p(t[n]);
      forall i | 0 <= i < n
        ensures p(s[..n][i]) == p(t[..n][i])
      {
        assert s[..n][i] == s[i] && t[..n][i] == t[i];
      }
      PositionsAgree(s[..n], t[..n], p);
    }
  }
}
