/**
 Order-preserving selection on sequences: the building block of the scene's
 tag query and of its end-of-pass compaction, both of which walk a room's list
 and append every element that passes a test.
 */
module Sequences {

  /** The elements of `s` that satisfy `p`, in their order in `s`. It is built
      by appending, as a loop over `s` that appends to an accumulator would. */
  function Keep<T(!new)>(s: seq<T>, p: T -> bool): (r: seq<T>)
    ensures |r| <= |s|
    ensures forall x :: x in r <==> x in s && p(x)
    decreases |s|
  {
    if s == [] then []
    else
      var init := Keep(s[..|s| - 1], p);
      assert s == s[..|s| - 1] + [s[|s| - 1]];
      if p(s[|s| - 1]) then init + [s[|s| - 1]] else init
  }

  /** The positions of `s` whose element satisfies `p`, in increasing order. */
  function Positions<T>(s: seq<T>, p: T -> bool): (idx: seq<nat>)
    ensures forall k :: 0 <= k < |idx| ==> idx[k] < |s| && p(s[idx[k]])
    ensures forall k, l :: 0 <= k < l < |idx| ==> idx[k] < idx[l]
    ensures forall i :: 0 <= i < |s| && p(s[i]) ==> i in idx
    decreases |s|
  {
    if s == [] then []
    else
      var init := Positions(s[..|s| - 1], p);
      if p(s[|s| - 1]) then init + [|s| - 1] else init
  }

  /** `Keep` is exactly the selection of the elements at `Positions`:
      the k-th kept element is the element at the k-th satisfying position. */
  lemma {:induction false} KeepIsSelection<T(!new)>(s: seq<T>, p: T -> bool)
    ensures |Keep(s, p)| == |Positions(s, p)|
    ensures forall k :: 0 <= k < |Keep(s, p)| ==> Keep(s, p)[k] == s[Positions(s, p)[k]]
    decreases |s|
  {
    if s != [] {
      var init := s[..|s| - 1];
      KeepIsSelection(init, p);
      assert forall k :: 0 <= k < |init| ==> init[k] == s[k];
      assert Positions(s, p) == Positions(init, p) + (if p(s[|s| - 1]) then [|s| - 1] else []);
    }
  }

  /** Selection distributes over concatenation. */
  lemma {:induction false} KeepAppend<T(!new)>(a: seq<T>, b: seq<T>, p: T -> bool)
    ensures Keep(a + b, p) == Keep(a, p) + Keep(b, p)
    decreases |b|
  {
    if b != [] {
      var b' := b[..|b| - 1];
      assert (a + b)[..|a + b| - 1] == a + b';
      KeepAppend(a, b', p);
    } else {
      assert a + b == a;
    }
  }

  /** Selection only looks at the test on the elements present: two tests that
      agree on every element of `s` select the same subsequence. */
  lemma {:induction false} KeepAgreeing<T(!new)>(s: seq<T>, p: T -> bool, q: T -> bool)
    requires forall x :: x in s ==> p(x) == q(x)
    ensures Keep(s, p) == Keep(s, q)
    decreases |s|
  {
    if s != [] {
      var init := s[..|s| - 1];
      assert forall x :: x in init ==> x in s;
      KeepAgreeing(init, p, q);
    }
  }

  /** Selecting twice with the same test selects nothing more. */
  lemma {:induction false} KeepIdempotent<T(!new)>(s: seq<T>, p: T -> bool)
    ensures Keep(Keep(s, p), p) == Keep(s, p)
    decreases |s|
  {
    if s != [] {
      var init := s[..|s| - 1];
      KeepIdempotent(init, p);
      if p(s[|s| - 1]) {
        var k := Keep(init, p) + [s[|s| - 1]];
        assert k[..|k| - 1] == Keep(init, p);
      }
    }
  }
}
