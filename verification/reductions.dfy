/** Seeded best-of reductions with strict comparisons, as the charts and the
    completion-time summary write them: `xs.reduce((m, x) => x > m ? x : m, seed)`
    and its mirror image. Each reports which element won, or `None` when the
    seed was never beaten. */
module Reductions {

  import opened Wrappers
  import Seqs

  /** A seed for a minimum search; `PosInf` is JavaScript's `Infinity`. */
  datatype Bound = PosInf | Finite(value: real)

  predicate Below(x: real, b: Bound) {
    b.PosInf? || x < b.value
  }

  /** `k` holds the maximum of `xs`, and nothing before it does. */
  predicate IsFirstMax(xs: seq<real>, k: nat) {
    && k < |xs|
    && (forall i :: 0 <= i < |xs| ==> xs[i] <= xs[k])
    && (forall i :: 0 <= i < k ==> xs[i] < xs[k])
  }

  /** The same for integer counts: `k` holds the largest count, and nothing
      before it does. */
  predicate IsFirstLargest(xs: seq<int>, k: nat) {
    && k < |xs|
    && (forall i :: 0 <= i < |xs| ==> xs[i] <= xs[k])
    && (forall i :: 0 <= i < k ==> xs[i] < xs[k])
  }

  /** `k` holds the minimum of `xs`, and nothing before it does. */
  predicate IsFirstMin(xs: seq<real>, k: nat) {
    && k < |xs|
    && (forall i :: 0 <= i < |xs| ==> xs[k] <= xs[i])
    && (forall i :: 0 <= i < k ==> xs[k] < xs[i])
  }

  /** The left fold `x > best ? x : best` from `seed`: the first maximum,
      provided it is strictly above the seed. */
  function MaxAbove(xs: seq<real>, seed: real): (r: Option<nat>)
    ensures r.None? <==> forall i :: 0 <= i < |xs| ==> xs[i] <= seed
    ensures r.Some? ==> IsFirstMax(xs, r.value) && xs[r.value] > seed
  {
    if xs == [] then None
    else
      var front := xs[..|xs| - 1];
      var prev := MaxAbove(front, seed);
      var best := match prev case None => seed case Some(k) => xs[k];
      assert forall i :: 0 <= i < |front| ==> front[i] == xs[i];
      if xs[|xs| - 1] > best then Some(|xs| - 1) else prev
  }

  /** The left fold `x < best ? x : best` from `seed`: the first minimum,
      provided it is strictly below the seed. */
  function MinBelow(xs: seq<real>, seed: Bound): (r: Option<nat>)
    ensures r.None? <==> forall i :: 0 <= i < |xs| ==> !Below(xs[i], seed)
    ensures r.Some? ==> IsFirstMin(xs, r.value) && Below(xs[r.value], seed)
  {
    if xs == [] then None
    else
      var front := xs[..|xs| - 1];
      var prev := MinBelow(front, seed);
      var best := match prev case None => seed case Some(k) => Finite(xs[k]);
      assert forall i :: 0 <= i < |front| ==> front[i] == xs[i];
      if Below(xs[|xs| - 1], best) then Some(|xs| - 1) else prev
  }

  /** With an infinite seed the first element always wins, so a non-empty
      sequence always has a minimum. */
  lemma MinBelowInfinity(xs: seq<real>)
    requires |xs| > 0
    ensures MinBelow(xs, PosInf).Some?
  {
    assert Below(xs[0], PosInf);
  }

  /** `Math.max(...xs)` of a non-empty sequence. */
  function Max(xs: seq<int>): (m: int)
    requires |xs| > 0
    ensures m in xs
    ensures forall i :: 0 <= i < |xs| ==> xs[i] <= m
  {
    if |xs| == 1 then xs[0]
    else
      var m' := Max(xs[..|xs| - 1]);
      assert forall i :: 0 <= i < |xs| - 1 ==> xs[..|xs| - 1][i] == xs[i];
      if xs[|xs| - 1] > m' then xs[|xs| - 1] else m'
  }

  /** `xs.indexOf(Math.max(...xs))`: the first index holding the maximum, or
      -1 for an empty sequence (whose maximum is `-Infinity`). */
  function IndexOfMax(xs: seq<int>): (r: int)
    ensures |xs| == 0 ==> r == -1
    ensures |xs| > 0 ==>
              && 0 <= r < |xs|
              && (forall i :: 0 <= i < |xs| ==> xs[i] <= xs[r])
              && (forall i :: 0 <= i < r ==> xs[i] < xs[r])
  {
    if |xs| == 0 then -1
    else
      var m := Max(xs);
      match Seqs.IndexOf(xs, m)
      case Some(k) => k
      case None => assert false; -1
  }
}
