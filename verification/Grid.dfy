/** Evenly spaced points on a line, and how many of them lie before an end. */
module Grid {
  function Point(base: int, i: nat, delta: int): int
  {
    if i == 0 then base else Point(base, i - 1, delta) + delta
  }

  /** How many grid points lie before the end. */
  function GridSize(base: int, end: int, delta: int): nat
    requires delta > 0
    decreases end - base
  {
    if base >= end then 0 else 1 + GridSize(base + delta, end, delta)
  }

  lemma {:induction false} PointShifts(base: int, i: nat, delta: int)
    ensures Point(base + delta, i, delta) == Point(base, i + 1, delta)
  {
    if i > 0 {
      PointShifts(base, i - 1, delta);
    }
  }

  lemma {:induction false} GridSizeMeaning(base: int, end: int, delta: int, i: nat)
    requires delta > 0
    ensures Point(base, i, delta) < end <==> i < GridSize(base, end, delta)
    decreases if end > base then end - base else 0, i
  {
    if base < end && i > 0 {
      PointShifts(base, i - 1, delta);
      GridSizeMeaning(base + delta, end, delta, i - 1);
    } else if base >= end && i > 0 {
      GridSizeMeaning(base, end, delta, i - 1);
    }
  }

  lemma {:induction false} PointsIncrease(base: int, i: nat, j: nat, delta: int)
    requires delta > 0 && i < j
    ensures Point(base, i, delta) < Point(base, j, delta)
  {
    if i < j - 1 {
      PointsIncrease(base, i, j - 1, delta);
    }
  }

  lemma {:induction false} ProductAtLeast(k: nat, d: nat)
    requires k > 0
    ensures k * d >= d
  {
    if k > 1 {
      ProductAtLeast(k - 1, d);
      assert k * d == (k - 1) * d + d;
    }
  }

  lemma Between(a: int, b: int, delta: int)
    requires delta > 0 && 0 <= a * delta - b * delta < delta
    ensures a == b
  {
    assert (a - b) * delta == a * delta - b * delta;
    assert (b - a) * delta == b * delta - a * delta;
    if a < b {
      ProductAtLeast(b - a, delta);
    } else if a > b {
      ProductAtLeast(a - b, delta);
    }
  }

  lemma MultipleHasNoRemainder(q: int, delta: int)
    requires delta > 0
    ensures q * delta % delta == 0 && q * delta / delta == q
  {
    var d, r := q * delta / delta, q * delta % delta;
    assert q * delta == d * delta + r;
    Between(q, d, delta);
  }

  lemma {:induction false} AlignedGridSize(base: int, delta: int, n: nat)
    requires delta > 0
    ensures GridSize(base, base + n * delta, delta) == n
    decreases n
  {
    if n > 0 {
      assert n * delta == (n - 1) * delta + delta;
      ProductAtLeast(n, delta);
      AlignedGridSize(base + delta, delta, n - 1);
    }
  }

  lemma {:induction false} PointIsLinear(base: int, i: nat, delta: int)
    ensures Point(base, i, delta) == base + i * delta
  {
    if i > 0 {
      PointIsLinear(base, i - 1, delta);
      assert i * delta == (i - 1) * delta + delta;
    }
  }

  /** The size of a grid is the length divided by the step, rounded up. */
  lemma GridSizeIsCeiling(base: int, end: int, delta: int)
    requires delta > 0 && base <= end
    ensures var n := GridSize(base, end, delta); end - base <= n * delta && (n > 0 ==> (n - 1) * delta < end - base)
  {
    var n := GridSize(base, end, delta);
    GridSizeMeaning(base, end, delta, n);
    PointIsLinear(base, n, delta);
    if n > 0 {
      GridSizeMeaning(base, end, delta, n - 1);
      PointIsLinear(base, n - 1, delta);
    }
  }
}
