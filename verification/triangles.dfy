/**
 The arrays a summarizing run emits. For element `e` of a run the view model
 builds an array of `e + 1` entries whose entry `i` is the closed form
 `(i + 1) * (i + 2) / 2`, i.e. the triangular number 1 + 2 + ... + (i + 1).
 Each array is computed afresh; this module proves that doing so gives the
 same arrays as extending the previous one by a running sum.
 */
module Triangles {

  /** Reference definition: 1 + 2 + ... + k, by summation. */
  function SumTo(k: nat): nat
  {
    if k == 0 then 0 else SumTo(k - 1) + k
  }

  /** Entry `i` of an emitted array, written with the closed form the view model uses. */
  function Entry(i: nat): int
  {
    (i + 1) * (i + 2) / 2
  }

  lemma {:induction false} TwiceSumTo(k: nat)
    ensures 2 * SumTo(k) == k * (k + 1)
  {
    if k > 0 {
      TwiceSumTo(k - 1);
      assert k * (k + 1) == (k - 1) * k + 2 * k;
    }
  }

  /** The closed form agrees with the summation: entry `i` is 1 + ... + (i + 1). */
  lemma EntryIsSum(i: nat)
    ensures Entry(i) == SumTo(i + 1)
  {
    TwiceSumTo(i + 1);
  }

  /** The array emitted for element `e` of a run (`IntArray(e + 1) { ... }`). */
  function Emission(e: nat): (a: seq<int>)
    ensures |a| == e + 1
    ensures forall i :: 0 <= i < |a| ==> a[i] == SumTo(i + 1)
  {
    AllEntriesAreSums(e);
    seq(e + 1, i requires 0 <= i => Entry(i))
  }

  lemma AllEntriesAreSums(e: nat)
    ensures forall i :: 0 <= i <= e ==> Entry(i) == SumTo(i + 1)
  {
    forall i | 0 <= i <= e
      ensures Entry(i) == SumTo(i + 1)
    {
      EntryIsSum(i);
    }
  }

  /**
   The construction `IntArray(e + 1) { (it + 1) * (it + 2) / 2 }` as it runs:
   the initializer is applied index by index. `Emission` is its value, which
   the state machine uses; this method shows the two agree and both give the
   triangular series.
   */
  method NewTriangleArray(e: nat) returns (a: seq<int>)
    ensures |a| == e + 1
    ensures forall i :: 0 <= i < |a| ==> a[i] == SumTo(i + 1)
    ensures a == Emission(e)
  {
    a := [];
    var i := 0;
    while i < e + 1
      invariant 0 <= i <= e + 1
      invariant |a| == i
      invariant forall j :: 0 <= j < i ==> a[j] == SumTo(j + 1)
    {
      EntryIsSum(i);
      a := a + [(i + 1) * (i + 2) / 2];
      i := i + 1;
    }
  }

  /** True when `xs` is the first `|xs|` triangular numbers 1, 3, 6, ... */
  predicate IsTriangularPrefix(xs: seq<int>)
  {
    forall i :: 0 <= i < |xs| ==> xs[i] == SumTo(i + 1)
  }

  /** Each emitted array is a strict prefix of the one emitted next in the same run. */
  lemma EmissionIsStrictPrefixOfNext(e: nat)
    ensures Emission(e) == Emission(e + 1)[..e + 1]
    ensures |Emission(e)| < |Emission(e + 1)|
  {
  }

  /**
   Recomputing from scratch equals extending the previous array by its running
   sum: the next array is the previous one plus the previous last entry plus e + 2.
   */
  lemma EmissionExtendsByRunningSum(e: nat)
    ensures Emission(e + 1) == Emission(e) + [Emission(e)[e] + (e + 2)]
  {
    var next := Emission(e + 1);
    var extended := Emission(e) + [Emission(e)[e] + (e + 2)];
    assert |next| == |extended|;
    forall i | 0 <= i < |next|
      ensures next[i] == extended[i]
    {
      if i == e + 1 {
        assert next[i] == SumTo(e + 2) == SumTo(e + 1) + (e + 2);
      }
    }
  }

  /** Every emitted array is a triangular prefix, and its entries strictly increase. */
  lemma EmissionIsIncreasingTriangularPrefix(e: nat)
    ensures IsTriangularPrefix(Emission(e))
    ensures Emission(e)[0] == 1
    ensures forall i, j :: 0 <= i < j < |Emission(e)| ==> Emission(e)[i] < Emission(e)[j]
  {
    var a := Emission(e);
    forall i, j | 0 <= i < j < |a|
      ensures a[i] < a[j]
    {
      SumToStrictlyIncreasing(i + 1, j + 1);
    }
  }

  lemma {:induction false} SumToStrictlyIncreasing(m: nat, n: nat)
    requires 0 < m < n
    ensures SumTo(m) < SumTo(n)
  {
    if n - 1 > m {
      SumToStrictlyIncreasing(m, n - 1);
    }
  }

  /** A triangular prefix of length at least one is exactly an emitted array. */
  lemma TriangularPrefixIsEmission(xs: seq<int>)
    requires IsTriangularPrefix(xs) && |xs| > 0
    ensures xs == Emission(|xs| - 1)
  {
  }
}
