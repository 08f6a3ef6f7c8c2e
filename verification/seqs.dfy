/** Counting, filtering and summing over sequences: the array methods
    (`filter`, `map`, `reduce`, `forEach` counters) the aggregations use. */
module Seqs {

  import opened Wrappers

  /** Sum of a sequence of integers, folded from the left. */
  function Sum(xs: seq<int>): int {
    if xs == [] then 0 else Sum(xs[..|xs| - 1]) + xs[|xs| - 1]
  }

  /** Number of elements of `s` satisfying `p` (`s.filter(p).length`). */
  function Count<T>(s: seq<T>, p: T -> bool): (n: nat)
    ensures n <= |s|
    ensures n == |s| <==> forall i :: 0 <= i < |s| ==> p(s[i])
  {
    if s == [] then 0
    else
      var n' := Count(s[..|s| - 1], p);
      assert forall i :: 0 <= i < |s| - 1 ==> s[..|s| - 1][i] == s[i];
      n' + (if p(s[|s| - 1]) then 1 else 0)
  }

  /** `s.filter(p)`: the elements satisfying `p`, in their original order. */
  function Filter<T>(s: seq<T>, p: T -> bool): (r: seq<T>)
    ensures |r| == Count(s, p)
    ensures forall i :: 0 <= i < |r| ==> r[i] in s && p(r[i])
    ensures forall i :: 0 <= i < |s| && p(s[i]) ==> s[i] in r
  {
    if s == [] then []
    else
      var front := s[..|s| - 1];
      assert s == front + [s[|s| - 1]];
      Filter(front, p) + (if p(s[|s| - 1]) then [s[|s| - 1]] else [])
  }

  /** `s.map(f)`. */
  function Map<T, U>(s: seq<T>, f: T -> U): (r: seq<U>)
    ensures |r| == |s|
    ensures forall i :: 0 <= i < |s| ==> r[i] == f(s[i])
  {
    seq(|s|, i requires 0 <= i < |s| => f(s[i]))
  }

  /** Mapping distributes over concatenation. */
  lemma MapConcat<T, U>(a: seq<T>, b: seq<T>, f: T -> U)
    ensures Map(a + b, f) == Map(a, f) + Map(b, f)
  {
  }

  /** How many times `k` occurs in `keys`. */
  function Occurrences<K(==)>(keys: seq<K>, k: K): nat {
    if keys == [] then 0
    else Occurrences(keys[..|keys| - 1], k) + (if keys[|keys| - 1] == k then 1 else 0)
  }

  /** How many entries of `keys` are one of `ids`. */
  function CountIn<K(==)>(keys: seq<K>, ids: seq<K>): nat {
    if keys == [] then 0
    else CountIn(keys[..|keys| - 1], ids) + (if keys[|keys| - 1] in ids then 1 else 0)
  }

  /** Index of the first occurrence of `k` in `ids`, if any (`Array.prototype.indexOf`). */
  function IndexOf<K(==)>(ids: seq<K>, k: K): (r: Option<nat>)
    ensures r.None? <==> k !in ids
    ensures r.Some? ==> r.value < |ids| && ids[r.value] == k
                        && forall j :: 0 <= j < r.value ==> ids[j] != k
  {
    if ids == [] then None
    else if ids[0] == k then Some(0)
    else match IndexOf(ids[1..], k)
      case None => None
      case Some(j) => Some(j + 1)
  }

  predicate Distinct<K(==)>(ids: seq<K>) {
    forall i, j :: 0 <= i < j < |ids| ==> ids[i] != ids[j]
  }

  /** A fresh counter per id, all zero. */
  function Zeros(n: nat): (r: seq<nat>)
    ensures |r| == n && Sum(r) == 0
    ensures forall i :: 0 <= i < n ==> r[i] == 0
  {
    if n == 0 then [] else Zeros(n - 1) + [0]
  }

  /**
   * The source's counter idiom: one counter per id, then a single pass over
   * the keys that increments the counter of each key it knows and ignores
   * the others. The ids play the role of the keys of the counter object, so
   * they are distinct.
   */
  function Tally<K(==)>(keys: seq<K>, ids: seq<K>): (r: seq<nat>)
    requires Distinct(ids)
    ensures |r| == |ids|
    ensures forall i :: 0 <= i < |ids| ==> r[i] == Occurrences(keys, ids[i])
    ensures Sum(r) == CountIn(keys, ids)
  {
    if keys == [] then Zeros(|ids|)
    else
      var prev := Tally(keys[..|keys| - 1], ids);
      var k := keys[|keys| - 1];
      match IndexOf(ids, k)
      case None => prev
      case Some(j) =>
        SumIncrement(prev, j);
        prev[j := prev[j] + 1]
  }

  lemma {:induction false} SumIncrement(xs: seq<nat>, j: nat)
    requires j < |xs|
    ensures Sum(xs[j := xs[j] + 1]) == Sum(xs) + 1
  {
    var ys := xs[j := xs[j] + 1];
    if j == |xs| - 1 {
      assert ys[..|ys| - 1] == xs[..|xs| - 1];
    } else {
      assert ys[..|ys| - 1] == xs[..|xs| - 1][j := xs[j] + 1];
      SumIncrement(xs[..|xs| - 1], j);
    }
  }

  /** Counting keys that belong to a set of ids never exceeds the number of keys. */
  lemma {:induction false} CountInBound<K>(keys: seq<K>, ids: seq<K>)
    ensures CountIn(keys, ids) <= |keys|
    ensures CountIn(keys, ids) == |keys| <==> forall i :: 0 <= i < |keys| ==> keys[i] in ids
  {
    if keys != [] {
      var front := keys[..|keys| - 1];
      CountInBound(front, ids);
      assert forall i :: 0 <= i < |front| ==> front[i] == keys[i];
    }
  }

  /** Filtering a sequence extended by one element. */
  lemma FilterSnoc<T>(s: seq<T>, x: T, p: T -> bool)
    ensures Filter(s + [x], p) == Filter(s, p) + (if p(x) then [x] else [])
  {
    assert (s + [x])[..|s|] == s;
  }

  /** Occurrences in a sequence extended by one key. */
  lemma OccurrencesSnoc<K>(keys: seq<K>, x: K, k: K)
    ensures Occurrences(keys + [x], k) == Occurrences(keys, k) + (if x == k then 1 else 0)
  {
    assert (keys + [x])[..|keys|] == keys;
  }

  /** Filtering distributes over concatenation, so it keeps the relative order of what it keeps. */
  lemma {:induction false} FilterConcat<T>(a: seq<T>, b: seq<T>, p: T -> bool)
    ensures Filter(a + b, p) == Filter(a, p) + Filter(b, p)
  {
    if b == [] {
      assert a + b == a;
    } else {
      var front := b[..|b| - 1];
      assert b == front + [b[|b| - 1]];
      FilterConcat(a, front, p);
      FilterConcatStep(a, front, b[|b| - 1], p);
    }
  }

  /** The inductive step of `FilterConcat`: one more element at the end. */
  lemma FilterConcatStep<T>(a: seq<T>, front: seq<T>, x: T, p: T -> bool)
    requires Filter(a + front, p) == Filter(a, p) + Filter(front, p)
    ensures Filter(a + (front + [x]), p) == Filter(a, p) + Filter(front + [x], p)
  {
    var tail := if p(x) then [x] else [];
    assert Filter(a + (front + [x]), p) == Filter(a + front, p) + tail by {
      assert a + (front + [x]) == (a + front) + [x];
      FilterSnoc(a + front, x, p);
    }
    assert Filter(front + [x], p) == Filter(front, p) + tail by {
      FilterSnoc(front, x, p);
    }
    AppendAssoc(Filter(a, p), Filter(front, p), tail);
  }

  /** Concatenation is associative. */
  lemma AppendAssoc<T>(x: seq<T>, y: seq<T>, z: seq<T>)
    ensures (x + y) + z == x + (y + z)
  {
  }

  /** Filtering twice by the same predicate is filtering once. */
  lemma {:induction false} FilterIdempotent<T>(s: seq<T>, p: T -> bool)
    ensures Filter(Filter(s, p), p) == Filter(s, p)
  {
    if s != [] {
      var front := s[..|s| - 1];
      var x := s[|s| - 1];
      var once := Filter(front, p);
      FilterIdempotent(front, p);
      if p(x) {
        assert Filter(s, p) == once + [x];
        FilterConcat(once, [x], p);
        assert [x][..0] == [];
        assert Filter([x], p) == [x];
      } else {
        assert Filter(s, p) == once;
      }
    }
  }

  /** Filtering by a predicate every element satisfies returns the sequence itself. */
  lemma {:induction false} FilterKeepsAll<T>(s: seq<T>, p: T -> bool)
    requires forall i :: 0 <= i < |s| ==> p(s[i])
    ensures Filter(s, p) == s
  {
    if s != [] {
      var front := s[..|s| - 1];
      FilterKeepsAll(front, p);
      assert s == front + [s[|s| - 1]];
    }
  }

  /** Filtering with a predicate no element satisfies leaves nothing. */
  lemma {:induction false} FilterKeepsNone<T>(s: seq<T>, p: T -> bool)
    requires forall i :: 0 <= i < |s| ==> !p(s[i])
    ensures Filter(s, p) == []
  {
    if s != [] {
      FilterKeepsNone(s[..|s| - 1], p);
    }
  }

  /** Appending an element does not move the first occurrence of a key that
      was already there, and puts a new key at the end. */
  lemma {:induction false} IndexOfAppend<K>(keys: seq<K>, x: K, k: K)
    ensures k in keys ==> IndexOf(keys + [x], k) == IndexOf(keys, k)
    ensures k !in keys && x == k ==> IndexOf(keys + [x], k) == Some(|keys|)
  {
    if keys != [] && keys[0] != k {
      IndexOfAppend(keys[1..], x, k);
      assert (keys + [x])[1..] == keys[1..] + [x];
    }
  }
}
