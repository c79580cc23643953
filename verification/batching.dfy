/**
 * Fixed-size batch processing: the loop `for (i = 0; i < n; i += size)` that
 * awaits one slice of `size` items at a time and sleeps only when another
 * slice follows. The items of one slice run concurrently in the source; each
 * item's outcome depends only on that item, so the model computes them in
 * order. Sleeps are counted rather than performed.
 */
module Batching {

  /** Number of pauses taken between the slices of `n` items cut `size` at a time. */
  function PauseCount(n: nat, size: nat): nat
    requires size > 0
  {
    if n == 0 then 0 else (n - 1) / size
  }

  /** The pauses are one fewer than the slices: `n` items fill `pauses + 1` slices, the last one non-empty. */
  lemma PauseCountBounds(n: nat, size: nat)
    requires size > 0
    ensures n > 0 ==> PauseCount(n, size) * size < n <= (PauseCount(n, size) + 1) * size
  {
    if n > 0 {
      var q := (n - 1) / size;
      assert n - 1 == q * size + (n - 1) % size;
    }
  }

  lemma DivFromBounds(a: int, d: int, q: int)
    requires d > 0
    requires q * d <= a < (q + 1) * d
    ensures a / d == q
  {
    var r := a / d;
    assert a == r * d + a % d;
    if r > q {
      MulMonotone(r, q + 1, d);
      assert false;
    } else if r < q {
      MulMonotone(q, r + 1, d);
      assert false;
    }
  }

  lemma MulMonotone(x: int, y: int, d: int)
    requires x >= y && d > 0
    ensures x * d >= y * d
  {
    assert x * d - y * d == (x - y) * d;
  }

  /** Applies `f` to every item, slice by slice, counting the pauses between slices. */
  method MapInBatches<T, U>(xs: seq<T>, size: nat, f: T -> U) returns (ys: seq<U>, pauses: nat)
    requires size > 0
    ensures |ys| == |xs|
    ensures forall k :: 0 <= k < |xs| ==> ys[k] == f(xs[k])
    ensures pauses == PauseCount(|xs|, size)
  {
    ys := [];
    pauses := 0;
    var i := 0;
    var slices := 0;
    while i < |xs|
      invariant 0 <= i <= |xs|
      invariant |ys| == i
      invariant forall k :: 0 <= k < i ==> ys[k] == f(xs[k])
      invariant i < |xs| ==> i == slices * size && pauses == slices
      invariant i == |xs| && i > 0 ==> pauses == slices - 1 && (slices - 1) * size < i <= slices * size
      invariant i == 0 ==> pauses == 0
    {
      var end := if i + size < |xs| then i + size else |xs|;
      var slice := xs[i..end];
      var done := seq(|slice|, k requires 0 <= k < |slice| => f(slice[k]));
      ys := ys + done;
      assert (slices + 1) * size == slices * size + size;
      slices := slices + 1;
      if i + size < |xs| {
        pauses := pauses + 1;
      }
      i := end;
    }
    if |xs| > 0 {
      DivFromBounds(|xs| - 1, size, slices - 1);
    }
  }
}
