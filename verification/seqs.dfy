/** The optional value that stands for Python's `None` or a raised error. */
module Options {

  datatype Option<+T> = None | Some(value: T)
}

/** Order-preserving filtering, the shape shared by every collecting loop of the pipeline. */
module Seqs {

  /** The elements of `s` that satisfy `keep`, each mapped through `f`, in the order of `s`.
      Defined from the back, the way a loop appends to its result list. */
  function FilterMap<A, B>(keep: A -> bool, f: A -> B, s: seq<A>): (r: seq<B>)
    ensures |r| <= |s|
  {
    if s == [] then []
    else FilterMap(keep, f, s[..|s| - 1]) + (if keep(s[|s| - 1]) then [f(s[|s| - 1])] else [])
  }

  /** Filtering distributes over concatenation: the order of the input is kept. */
  lemma {:induction false} FilterMapAppend<A, B>(keep: A -> bool, f: A -> B, a: seq<A>, b: seq<A>)
    ensures FilterMap(keep, f, a + b) == FilterMap(keep, f, a) + FilterMap(keep, f, b)
    decreases |b|
  {
    if b == [] {
      assert a + b == a;
    } else {
      var b' := b[..|b| - 1];
      assert (a + b)[..|a + b| - 1] == a + b';
      assert (a + b)[|a + b| - 1] == b[|b| - 1];
      FilterMapAppend(keep, f, a, b');
    }
  }

  /** The positions of the kept elements of `s`, in increasing order. */
  ghost function KeptPositions<A>(keep: A -> bool, s: seq<A>): seq<nat> {
    if s == [] then []
    else KeptPositions(keep, s[..|s| - 1]) + (if keep(s[|s| - 1]) then [|s| - 1] else [])
  }

  lemma {:induction false} KeptPositionsMatch<A, B>(keep: A -> bool, f: A -> B, s: seq<A>)
    ensures var src := KeptPositions(keep, s);
      && |src| == |FilterMap(keep, f, s)|
      && forall k :: 0 <= k < |src| ==>
           src[k] < |s| && keep(s[src[k]]) && FilterMap(keep, f, s)[k] == f(s[src[k]])
  {
    if s != [] {
      var n := |s| - 1;
      KeptPositionsMatch(keep, f, s[..n]);
      var src' := KeptPositions(keep, s[..n]);
      forall k | 0 <= k < |src'| ensures s[..n][src'[k]] == s[src'[k]] {
      }
    }
  }

  lemma {:induction false} KeptPositionsIncrease<A>(keep: A -> bool, s: seq<A>)
    ensures forall k :: 0 <= k < |KeptPositions(keep, s)| ==> KeptPositions(keep, s)[k] < |s|
    ensures forall k, l :: 0 <= k < l < |KeptPositions(keep, s)| ==>
      KeptPositions(keep, s)[k] < KeptPositions(keep, s)[l]
  {
    if s != [] {
      var n := |s| - 1;
      var s' := s[..n];
      KeptPositionsIncrease(keep, s');
      var src' := KeptPositions(keep, s');
      assert src' == KeptPositions(keep, s[..|s| - 1]);
      assert KeptPositions(keep, s) == src' + (if keep(s[n]) then [n] else []);
    }
  }

  lemma {:induction false} KeptPositionsComplete<A>(keep: A -> bool, s: seq<A>)
    ensures forall i :: 0 <= i < |s| && keep(s[i]) ==> i in KeptPositions(keep, s)
  {
    if s != [] {
      var n := |s| - 1;
      KeptPositionsComplete(keep, s[..n]);
      forall i | 0 <= i < n ensures s[..n][i] == s[i] {
      }
    }
  }

  /** Every output element comes from exactly one kept input element, strictly in input
      order, and every kept input element yields an output element. */
  lemma FilterMapSources<A, B>(keep: A -> bool, f: A -> B, s: seq<A>) returns (src: seq<nat>)
    ensures |src| == |FilterMap(keep, f, s)|
    ensures forall k :: 0 <= k < |src| ==>
      src[k] < |s| && keep(s[src[k]]) && FilterMap(keep, f, s)[k] == f(s[src[k]])
    ensures forall k, l :: 0 <= k < l < |src| ==> src[k] < src[l]
    ensures forall i :: 0 <= i < |s| && keep(s[i]) ==> i in src
  {
    src := KeptPositions(keep, s);
    KeptPositionsMatch(keep, f, s);
    KeptPositionsIncrease(keep, s);
    KeptPositionsComplete(keep, s);
  }

  /** The result is empty exactly when no element is kept. */
  lemma {:induction false} FilterMapEmpty<A, B>(keep: A -> bool, f: A -> B, s: seq<A>)
    ensures FilterMap(keep, f, s) == [] <==> forall i :: 0 <= i < |s| ==> !keep(s[i])
  {
    if s != [] {
      var n := |s| - 1;
      FilterMapEmpty(keep, f, s[..n]);
      assert forall i :: 0 <= i < n ==> s[..n][i] == s[i];
    }
  }
}
