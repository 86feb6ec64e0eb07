/**
 * Order-preserving selection: the elements of a sequence that satisfy a predicate, in their
 * original order, as a Python list comprehension with an `if` clause keeps them.
 */
module Sequences {

  /** `[x for x in s if p(x)]`. */
  function Keep<T>(s: seq<T>, p: T -> bool): (r: seq<T>)
    ensures |r| <= |s|
    decreases |s|
  {
    if s == [] then [] else Keep(s[..|s| - 1], p) + (if p(s[|s| - 1]) then [s[|s| - 1]] else [])
  }

  /** Selecting from `[x] + s` selects from `x`, then from `s`. */
  lemma {:induction false} KeepPrepend<T>(x: T, s: seq<T>, p: T -> bool)
    ensures Keep([x] + s, p) == (if p(x) then [x] else []) + Keep(s, p)
    decreases |s|
  {
    if s != [] {
      var n := |s| - 1;
      assert ([x] + s)[..|[x] + s| - 1] == [x] + s[..n];
      assert ([x] + s)[|[x] + s| - 1] == s[n];
      KeepPrepend(x, s[..n], p);
    } else {
      assert ([x] + s)[..0] == [];
    }
  }

  /** The positions in `s` of the elements `Keep` selects. */
  function KeptPositions<T>(s: seq<T>, p: T -> bool): (idx: seq<nat>)
    decreases |s|
  {
    if s == [] then [] else KeptPositions(s[..|s| - 1], p) + (if p(s[|s| - 1]) then [|s| - 1] else [])
  }

  /**
   * What `Keep` selects: the element at each kept position, the positions strictly increasing
   * (so the input order is kept), and a position kept exactly when its element satisfies `p`.
   */
  lemma KeepIsOrderedSelection<T>(s: seq<T>, p: T -> bool)
    ensures |KeptPositions(s, p)| == |Keep(s, p)|
    ensures forall k :: 0 <= k < |KeptPositions(s, p)| ==>
      KeptPositions(s, p)[k] < |s| && Keep(s, p)[k] == s[KeptPositions(s, p)[k]]
    ensures forall k, l :: 0 <= k < l < |KeptPositions(s, p)| ==> KeptPositions(s, p)[k] < KeptPositions(s, p)[l]
    ensures forall i :: 0 <= i < |s| ==> (i in KeptPositions(s, p) <==> p(s[i]))
  {
    KeepAtPositions(s, p);
    KeptPositionsExact(s, p);
  }

  /** The kept elements sit at the kept positions, which strictly increase. */
  lemma {:induction false} KeepAtPositions<T>(s: seq<T>, p: T -> bool)
    ensures |KeptPositions(s, p)| == |Keep(s, p)|
    ensures forall k :: 0 <= k < |KeptPositions(s, p)| ==>
      KeptPositions(s, p)[k] < |s| && Keep(s, p)[k] == s[KeptPositions(s, p)[k]]
    ensures forall k, l :: 0 <= k < l < |KeptPositions(s, p)| ==> KeptPositions(s, p)[k] < KeptPositions(s, p)[l]
    decreases |s|
  {
    if s != [] {
      var init := s[..|s| - 1];
      KeepAtPositions(init, p);
      var r0, idx0 := Keep(init, p), KeptPositions(init, p);
      var r, idx := Keep(s, p), KeptPositions(s, p);
      forall k | 0 <= k < |idx| ensures idx[k] < |s| && r[k] == s[idx[k]] {
        if k < |idx0| {
          assert idx[k] == idx0[k] && r[k] == r0[k];
        }
      }
    }
  }

  /** A position is kept exactly when its element satisfies `p`. */
  lemma {:induction false} KeptPositionsExact<T>(s: seq<T>, p: T -> bool)
    ensures forall i :: 0 <= i < |s| ==> (i in KeptPositions(s, p) <==> p(s[i]))
    decreases |s|
  {
    if s != [] {
      var n := |s| - 1;
      var init := s[..n];
      KeptPositionsExact(init, p);
      KeptPositionsBelow(init, p);
      var idx0, idx := KeptPositions(init, p), KeptPositions(s, p);
      forall i | 0 <= i < |s| ensures i in idx <==> p(s[i]) {
        if i < n {
          assert s[i] == init[i];
        }
      }
    }
  }

  lemma {:induction false} KeptPositionsBelow<T>(s: seq<T>, p: T -> bool)
    ensures forall k :: 0 <= k < |KeptPositions(s, p)| ==> KeptPositions(s, p)[k] < |s|
    decreases |s|
  {
    if s != [] {
      KeptPositionsBelow(s[..|s| - 1], p);
    }
  }
}
