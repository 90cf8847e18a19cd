/**
 The pacing of a summarizing run. Before element `e` the run waits
 `(e + 1) * 100` milliseconds, so the gaps between emissions grow linearly
 and element `e` becomes due 100 * (1 + 2 + ... + (e + 1)) milliseconds after
 the run starts. The state machine in module Summarizer abstracts these waits
 into ticks; this module records the timing they stand for.
 */
module Pacing {
  import opened Triangles

  /** Milliseconds the run waits before element `e`. */
  function Delay(e: nat): nat
  {
    (e + 1) * 100
  }

  /** Milliseconds after the start of a run at which element `e` is due: the waits add up. */
  function DueAt(e: nat): nat
  {
    if e == 0 then Delay(0) else DueAt(e - 1) + Delay(e)
  }

  /** Each wait is longer than the one before it. */
  lemma DelayGrows(e: nat)
    ensures Delay(e) < Delay(e + 1)
    ensures Delay(e + 1) - Delay(e) == 100
  {
  }

  /** Element `e` is due after 100 times the (e + 1)-th triangular number of milliseconds. */
  lemma {:induction false} DueAtIsTriangular(e: nat)
    ensures DueAt(e) == 100 * SumTo(e + 1)
  {
    if e > 0 {
      DueAtIsTriangular(e - 1);
    }
  }

  /** Elements of one run fall due in strictly increasing order. */
  lemma {:induction false} DueAtIncreasing(e: nat, f: nat)
    requires e < f
    ensures DueAt(e) < DueAt(f)
  {
    if e < f - 1 {
      DueAtIncreasing(e, f - 1);
    }
  }

  /**
   Two runs of the same target started at `t0 < t1`: whenever element `b` of
   the later run is due no later than element `x` of the earlier run, `b` is
   the smaller element. The earlier run is always ahead, so of the two it
   shows the longer array.
   */
  lemma EarlierRunIsAhead(t0: int, t1: int, x: nat, b: nat)
    requires t0 < t1
    requires t1 + DueAt(b) <= t0 + DueAt(x)
    ensures b < x
  {
    if b > x {
      DueAtIncreasing(x, b);
    }
  }
}
