/** `Array.prototype.filter` and `Array.prototype.map` over immutable sequences, with
    the facts about them that the table joins rely on. */
module Seqs {

  /** The elements of `s` that satisfy `p`, in the order of `s` (`s.filter(p)`). */
  function Filter<T>(s: seq<T>, p: T -> bool): (r: seq<T>)
    ensures |r| <= |s|
    ensures forall k :: 0 <= k < |r| ==> r[k] in s && p(r[k])
  {
    if s == [] then []
    else
      var n := |s| - 1;
      assert s == s[..n] + [s[n]];
      Filter(s[..n], p) + (if p(s[n]) then [s[n]] else [])
  }

  /** `f` applied to every element of `s`, in order (`s.map(f)`). */
  function Map<T, U>(s: seq<T>, f: T -> U): (r: seq<U>)
    ensures |r| == |s|
    ensures forall k :: 0 <= k < |s| ==> r[k] == f(s[k])
  {
    if s == [] then [] else Map(s[..|s| - 1], f) + [f(s[|s| - 1])]
  }

  /** `r` lists the elements of `s` at the strictly increasing positions `idx`, and
      those positions are exactly the ones whose element satisfies `p`. Together
      this says that `r` is the order-preserving subsequence of `s` selected by `p`,
      in which every element of `s` occurs at most once. */
  ghost predicate Selects<T>(r: seq<T>, s: seq<T>, idx: seq<int>, p: T -> bool)
  {
    && |idx| == |r|
    && (forall k :: 0 <= k < |idx| ==> 0 <= idx[k] < |s| && r[k] == s[idx[k]])
    && (forall k, l :: 0 <= k < l < |idx| ==> idx[k] < idx[l])
    && (forall k :: 0 <= k < |idx| ==> p(s[idx[k]]))
    && (forall i :: 0 <= i < |s| && p(s[i]) ==> i in idx)
  }

  /** `Filter` keeps exactly the positions that satisfy the predicate, in order. */
  lemma {:induction false} FilterSelects<T>(s: seq<T>, p: T -> bool) returns (idx: seq<int>)
    ensures Selects(Filter(s, p), s, idx, p)
  {
    if s == [] {
      idx := [];
    } else {
      var n := |s| - 1;
      var init := s[..n];
      var pre := FilterSelects(init, p);
      var f := Filter(init, p);
      var r := Filter(s, p);
      assert r == f + (if p(s[n]) then [s[n]] else []);
      idx := pre + (if p(s[n]) then [n] else []);
      forall k | 0 <= k < |idx|
        ensures 0 <= idx[k] < |s| && r[k] == s[idx[k]] && p(s[idx[k]])
      {
        if k < |pre| {
          assert idx[k] == pre[k] && r[k] == f[k];
        }
      }
      forall i | 0 <= i < |s| && p(s[i])
        ensures i in idx
      {
        if i < n {
          assert init[i] == s[i];
          assert i in pre;
        }
      }
    }
  }

  /** Positions selected in the tail `s[1..]`, renumbered as positions of `s`. */
  lemma SelectsShift<T>(s: seq<T>, p: T -> bool, r: seq<T>, idx: seq<int>) returns (shifted: seq<int>)
    requires |s| >= 1 && Selects(r, s[1..], idx, p)
    ensures |shifted| == |r|
    ensures forall k :: 0 <= k < |shifted| ==> 1 <= shifted[k] < |s| && r[k] == s[shifted[k]]
    ensures forall k, l :: 0 <= k < l < |shifted| ==> shifted[k] < shifted[l]
    ensures forall k :: 0 <= k < |shifted| ==> p(s[shifted[k]])
    ensures forall i :: 1 <= i < |s| && p(s[i]) ==> i in shifted
  {
    var tail := s[1..];
    shifted := seq(|idx|, k requires 0 <= k < |idx| => idx[k] + 1);
    forall k | 0 <= k < |shifted|
      ensures 1 <= shifted[k] < |s| && r[k] == s[shifted[k]] && p(s[shifted[k]])
    {
      assert shifted[k] == idx[k] + 1 && tail[idx[k]] == s[idx[k] + 1];
    }
    forall k, l | 0 <= k < l < |shifted|
      ensures shifted[k] < shifted[l]
    {
      assert idx[k] < idx[l];
    }
    forall i | 1 <= i < |s| && p(s[i])
      ensures i in shifted
    {
      assert tail[i - 1] == s[i];
      ShiftedHas(idx, shifted, i);
    }
  }

  lemma ShiftedHas(idx: seq<int>, shifted: seq<int>, i: int)
    requires |shifted| == |idx| && forall k :: 0 <= k < |idx| ==> shifted[k] == idx[k] + 1
    requires i - 1 in idx
    ensures i in shifted
  {
    var k :| 0 <= k < |idx| && idx[k] == i - 1;
    assert shifted[k] == i;
  }

  /** An element occurs in `Filter(s, p)` exactly as often as in `s` when it
      satisfies `p`, and not at all otherwise. */
  lemma {:induction false} FilterMultiplicity<T>(s: seq<T>, p: T -> bool, x: T)
    ensures multiset(Filter(s, p))[x] == if p(x) then multiset(s)[x] else 0
  {
    if s != [] {
      var n := |s| - 1;
      FilterMultiplicity(s[..n], p, x);
      assert s == s[..n] + [s[n]];
      assert multiset(s) == multiset(s[..n]) + multiset{s[n]};
    }
  }

  /** Every element that satisfies the predicate is kept. */
  lemma {:induction false} FilterKeeps<T>(s: seq<T>, p: T -> bool, i: int)
    requires 0 <= i < |s| && p(s[i])
    ensures s[i] in Filter(s, p)
  {
    var n := |s| - 1;
    if i < n {
      FilterKeeps(s[..n], p, i);
    }
  }

  /** Filtering rows appended at the end filters them separately. */
  lemma FilterKeepsPair<T>(x: T, y: T, p: T -> bool)
    requires p(x) && p(y)
    ensures Filter([x, y], p) == [x, y]
  {
    assert [x, y][..1] == [x] && [x][..0] == [];
  }

  lemma MapPairOf<T, U>(x: T, y: T, f: T -> U)
    ensures Map([x, y], f) == [f(x), f(y)]
  {
    assert [x, y][..1] == [x] && [x][..0] == [];
  }

  lemma FilterSnoc<T>(s: seq<T>, x: T, p: T -> bool)
    ensures Filter(s + [x], p) == Filter(s, p) + (if p(x) then [x] else [])
  {
    assert (s + [x])[..|s|] == s;
  }

  /** Mapping rows appended at the end maps them separately. */
  lemma MapSnoc<T, U>(s: seq<T>, x: T, f: T -> U)
    ensures Map(s + [x], f) == Map(s, f) + [f(x)]
  {
    assert (s + [x])[..|s|] == s;
  }

  /** A predicate nothing in `s` satisfies filters `s` to nothing. */
  lemma FilterNone<T>(s: seq<T>, p: T -> bool)
    requires forall i :: 0 <= i < |s| ==> !p(s[i])
    ensures Filter(s, p) == []
  {
  }

  /** Two predicates that agree on the elements of `s` select the same positions. */
  lemma SelectsSamePredicate<T>(r: seq<T>, s: seq<T>, idx: seq<int>, p: T -> bool, q: T -> bool)
    requires Selects(r, s, idx, p)
    requires forall i :: 0 <= i < |s| ==> p(s[i]) == q(s[i])
    ensures Selects(r, s, idx, q)
  {
  }
}
