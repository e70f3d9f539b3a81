/** `Array.prototype.filter` and `map` on sequences. */
module Sequences {

  /** `s.filter(p)`: the elements that pass, in their original order. */
  function Filter<T(!new)>(s: seq<T>, p: T -> bool): (r: seq<T>)
    ensures |r| <= |s|
  {
    if s == [] then []
    else Filter(s[..|s| - 1], p) + (if p(s[|s| - 1]) then [s[|s| - 1]] else [])
  }

  /** An element is kept exactly when it is in the sequence and passes. */
  lemma {:induction false} FilterMembers<T(!new)>(s: seq<T>, p: T -> bool)
    ensures forall x {:trigger x in Filter(s, p)} :: x in Filter(s, p) <==> x in s && p(x)
  {
    if s != [] {
      FilterMembers(s[..|s| - 1], p);
      assert s == s[..|s| - 1] + [s[|s| - 1]];
    }
  }

  /** The positions of the elements of `s` that pass `p`, in increasing order. */
  function FilterIndices<T>(s: seq<T>, p: T -> bool): (idx: seq<nat>)
    ensures forall k :: 0 <= k < |idx| ==> idx[k] < |s|
  {
    if s == [] then [] else FilterIndices(s[..|s| - 1], p) + (if p(s[|s| - 1]) then [|s| - 1] else [])
  }

  /** Every listed position passes `p`, and the positions strictly increase. */
  lemma {:induction false} FilterIndicesPass<T>(s: seq<T>, p: T -> bool)
    ensures forall k :: 0 <= k < |FilterIndices(s, p)| ==> p(s[FilterIndices(s, p)[k]])
    ensures forall k, l :: 0 <= k < l < |FilterIndices(s, p)| ==> FilterIndices(s, p)[k] < FilterIndices(s, p)[l]
  {
    if s != [] {
      var init := s[..|s| - 1];
      FilterIndicesPass(init, p);
      var rest := FilterIndices(init, p);
      var tail := if p(s[|s| - 1]) then [|s| - 1] else [];
      var idx := FilterIndices(s, p);
      assert idx == rest + tail;
      forall k | 0 <= k < |idx|
        ensures p(s[idx[k]])
      {
        if k < |rest| {
          assert s[rest[k]] == init[rest[k]];
        }
      }
      forall k, l | 0 <= k < l < |idx|
        ensures idx[k] < idx[l]
      {
        if l < |rest| {
          assert idx[k] == rest[k] && idx[l] == rest[l];
        } else {
          assert idx[k] == rest[k] < |init|;
        }
      }
    }
  }

  /** Every position that passes `p` is listed. */
  lemma {:induction false} FilterIndicesComplete<T>(s: seq<T>, p: T -> bool)
    ensures forall i :: 0 <= i < |s| && p(s[i]) ==> i in FilterIndices(s, p)
  {
    if s != [] {
      var init := s[..|s| - 1];
      FilterIndicesComplete(init, p);
      assert forall i :: 0 <= i < |init| ==> s[i] == init[i];
    }
  }

  /**
   * `s.filter(p)` keeps exactly the passing elements, in their original
   * order: its `k`-th element is the element at the `k`-th passing position.
   */
  lemma {:induction false} FilterInOrder<T(!new)>(s: seq<T>, p: T -> bool)
    ensures |Filter(s, p)| == |FilterIndices(s, p)|
    ensures forall k :: 0 <= k < |Filter(s, p)| ==> Filter(s, p)[k] == s[FilterIndices(s, p)[k]]
  {
    if s != [] {
      var init := s[..|s| - 1];
      FilterInOrder(init, p);
      var rest := FilterIndices(init, p);
      var last := s[|s| - 1];
      assert Filter(s, p) == Filter(init, p) + (if p(last) then [last] else []);
      assert FilterIndices(s, p) == rest + (if p(last) then [|s| - 1] else []);
      assert forall k :: 0 <= k < |rest| ==> s[rest[k]] == init[rest[k]];
    }
  }

  /** `s.map(f)`. */
  function Map<T, U>(s: seq<T>, f: T -> U): (r: seq<U>)
    ensures |r| == |s|
    ensures forall i :: 0 <= i < |s| ==> r[i] == f(s[i])
  {
    seq(|s|, i requires 0 <= i < |s| => f(s[i]))
  }
}
