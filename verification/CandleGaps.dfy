/** Compression of missing candle opens into half-open ranges on a time grid. Times are in microseconds. */
module CandleGaps {
  import opened Json
  import opened Grid

  datatype Gap = Gap(start: int, end: int)

  const SECOND := 1_000_000

  /** `int(value.timestamp())`, which truncates toward zero. */
  function Epoch(value: int): int
  {
    if value >= 0 then value / SECOND else -((-value) / SECOND)
  }

  /** `_aligned_floor`, for a width in whole seconds; Python's and Dafny's remainders agree for a positive width. */
  function AlignedFloor(value: int, seconds: int): int
    requires seconds > 0
  {
    (Epoch(value) - Epoch(value) % seconds) * SECOND
  }

  /** `_aligned_ceil` */
  function AlignedCeil(value: int, seconds: int): int
    requires seconds > 0
  {
    var floor := AlignedFloor(value, seconds);
    if floor == value then floor else floor + seconds * SECOND
  }

  predicate OnGrid(t: int, seconds: int)
    requires seconds > 0
  {
    t % (seconds * SECOND) == 0
  }

  /** A time before 1970, within the last second before a grid point. */
  predicate TruncatesOntoGrid(value: int, seconds: int)
    requires seconds > 0
  {
    value < 0 && value % SECOND != 0 && Epoch(value) % seconds == 0
  }

  lemma EpochBounds(value: int)
    ensures value >= 0 || value % SECOND == 0 ==> Epoch(value) * SECOND <= value < (Epoch(value) + 1) * SECOND
    ensures value < 0 && value % SECOND != 0 ==> (Epoch(value) - 1) * SECOND < value < Epoch(value) * SECOND
  {
  }

  lemma FloorOfEpoch(epoch: int, seconds: int)
    requires seconds > 0
    ensures epoch - epoch % seconds == epoch / seconds * seconds
    ensures (epoch - epoch % seconds) * SECOND % (seconds * SECOND) == 0
  {
    var q := epoch / seconds;
    assert epoch == q * seconds + epoch % seconds;
    assert q * seconds * SECOND == q * (seconds * SECOND);
    MultipleHasNoRemainder(q, seconds * SECOND);
  }

  lemma GridEpoch(value: int, seconds: int)
    requires seconds > 0 && OnGrid(value, seconds)
    ensures value == Epoch(value) * SECOND && Epoch(value) % seconds == 0
  {
    var k := value / (seconds * SECOND);
    assert value == k * (seconds * SECOND) == k * seconds * SECOND;
    EpochBounds(value);
    MultipleHasNoRemainder(k * seconds, SECOND);
    MultipleHasNoRemainder(k, seconds);
  }

  /** Flooring lands on the grid and leaves grid values alone. It lands at or below the value exactly when the
      value does not lie within the last second before a grid point that precedes 1970. */
  lemma FloorIsAligned(value: int, seconds: int)
    requires seconds > 0
    ensures var f := AlignedFloor(value, seconds); OnGrid(f, seconds) && f - SECOND < value < f + seconds * SECOND
    ensures AlignedFloor(value, seconds) <= value <==> !TruncatesOntoGrid(value, seconds)
    ensures OnGrid(value, seconds) ==> AlignedFloor(value, seconds) == value == AlignedCeil(value, seconds)
  {
    EpochBounds(value);
    FloorOfEpoch(Epoch(value), seconds);
    if OnGrid(value, seconds) {
      GridEpoch(value, seconds);
    }
  }

  /** The ceiling is a grid value at or above the value, so rounding up twice changes nothing. It is the least one
      except for the values that flooring lifts onto the grid: for those it is one step too far. */
  lemma CeilIsAligned(value: int, seconds: int)
    requires seconds > 0
    ensures var c := AlignedCeil(value, seconds); OnGrid(c, seconds) && value <= c && AlignedCeil(c, seconds) == c
    ensures AlignedCeil(value, seconds) < value + seconds * SECOND <==> !TruncatesOntoGrid(value, seconds)
  {
    FloorIsAligned(value, seconds);
    NextIsOnGrid(AlignedFloor(value, seconds), seconds);
    FloorIsAligned(AlignedCeil(value, seconds), seconds);
  }

  lemma NextIsOnGrid(t: int, seconds: int)
    requires seconds > 0 && OnGrid(t, seconds)
    ensures OnGrid(t + seconds * SECOND, seconds)
  {
    var q := t / (seconds * SECOND);
    assert t + seconds * SECOND == (q + 1) * (seconds * SECOND);
    MultipleHasNoRemainder(q + 1, seconds * SECOND);
  }

  // ------------------------------------------------------------------------------- the ranges

  /** A range of grid positions. */
  datatype Range = Range(lo: nat, hi: nat)

  /** The scan after some positions: the ranges closed so far and where an open one began. */
  datatype Scan = Scan(closed: seq<Range>, open: Option<nat>)

  type Seen = nat -> bool

  function ScanNext(s: Scan, k: nat, seen: bool): Scan
  {
    if !seen && s.open.None? then Scan(s.closed, Some(k))
    else if seen && s.open.Some? then Scan(s.closed + [Range(s.open.value, k)], None)
    else s
  }

  function ScanTo(seen: Seen, n: nat): Scan
  {
    if n == 0 then Scan([], None) else ScanNext(ScanTo(seen, n - 1), n - 1, seen(n - 1))
  }

  function RangesOf(s: Scan, n: nat): seq<Range>
  {
    s.closed + if s.open.Some? then [Range(s.open.value, n)] else []
  }

  function Ranges(seen: Seen, n: nat): seq<Range>
  {
    RangesOf(ScanTo(seen, n), n)
  }

  function CountSeen(seen: Seen, n: nat): nat
  {
    if n == 0 then 0 else CountSeen(seen, n - 1) + if seen(n - 1) then 1 else 0
  }

  function TotalLength(ranges: seq<Range>): int
  {
    if ranges == [] then 0 else TotalLength(ranges[..|ranges| - 1]) + ranges[|ranges| - 1].hi - ranges[|ranges| - 1].lo
  }

  predicate Missing(seen: Seen, r: Range)
  {
    r.lo < r.hi && forall k :: r.lo <= k < r.hi ==> !seen(k)
  }

  /** Nothing could be added to the range at either side. */
  predicate Maximal(seen: Seen, r: Range, n: nat)
  {
    r.hi <= n && (r.lo > 0 ==> seen(r.lo - 1)) && (r.hi < n ==> seen(r.hi))
  }

  predicate Separated(ranges: seq<Range>)
  {
    forall i, j :: 0 <= i < j < |ranges| ==> ranges[i].hi < ranges[j].lo
  }

  predicate Covered(ranges: seq<Range>, k: nat)
  {
    exists i :: 0 <= i < |ranges| && ranges[i].lo <= k < ranges[i].hi
  }

  predicate Exact(seen: Seen, r: Range, n: nat)
  {
    Missing(seen, r) && Maximal(seen, r, n)
  }

  /** Closed ranges end on a seen position, and come before an open one. */
  predicate ClosedWell(s: Scan, seen: Seen, n: nat)
  {
    && (forall i :: 0 <= i < |s.closed| ==> Exact(seen, s.closed[i], n))
    && (forall i :: 0 <= i < |s.closed| ==> s.closed[i].hi < if s.open.Some? then s.open.value else n)
    && Separated(s.closed)
  }

  predicate OpenWell(s: Scan, seen: Seen, n: nat)
  {
    if s.open.Some? then Exact(seen, Range(s.open.value, n), n)
    else n > 0 ==> seen(n - 1)
  }

  predicate CoversMissing(s: Scan, seen: Seen, n: nat)
  {
    forall k :: 0 <= k < n && !seen(k) && (s.open.None? || k < s.open.value) ==> Covered(s.closed, k)
  }

  lemma {:induction false} OpenHolds(seen: Seen, n: nat)
    ensures OpenWell(ScanTo(seen, n), seen, n)
  {
    if n > 0 {
      OpenHolds(seen, n - 1);
    }
  }

  lemma ExactStays(seen: Seen, r: Range, n: nat)
    requires Exact(seen, r, n) && r.hi < n
    ensures Exact(seen, r, n + 1)
  {
  }

  lemma ExactCloses(seen: Seen, lo: nat, n: nat)
    requires Exact(seen, Range(lo, n), n) && seen(n)
    ensures Exact(seen, Range(lo, n), n + 1)
  {
  }

  lemma ClosedStep(s: Scan, seen: Seen, n: nat)
    requires OpenWell(s, seen, n) && ClosedWell(s, seen, n)
    ensures ClosedWell(ScanNext(s, n, seen(n)), seen, n + 1)
  {
    var after := ScanNext(s, n, seen(n));
    forall i | 0 <= i < |after.closed|
      ensures Exact(seen, after.closed[i], n + 1)
    {
      if i < |s.closed| {
        ExactStays(seen, s.closed[i], n);
      } else {
        ExactCloses(seen, s.open.value, n);
      }
    }
  }

  lemma {:induction false} ClosedHolds(seen: Seen, n: nat)
    ensures ClosedWell(ScanTo(seen, n), seen, n)
  {
    if n > 0 {
      var before := ScanTo(seen, n - 1);
      OpenHolds(seen, n - 1);
      ClosedHolds(seen, n - 1);
      ClosedStep(before, seen, n - 1);
      assert ScanTo(seen, n) == ScanNext(before, n - 1, seen(n - 1));
    }
  }

  lemma CoveredGrows(ranges: seq<Range>, r: Range, k: nat)
    ensures Covered(ranges + [r], k) <==> Covered(ranges, k) || r.lo <= k < r.hi
  {
    var all := ranges + [r];
    if Covered(ranges, k) {
      var i :| 0 <= i < |ranges| && ranges[i].lo <= k < ranges[i].hi;
      assert all[i] == ranges[i];
    }
    assert all[|ranges|] == r;
  }

  lemma CoverageStep(s: Scan, seen: Seen, n: nat)
    requires OpenWell(s, seen, n) && CoversMissing(s, seen, n)
    ensures CoversMissing(ScanNext(s, n, seen(n)), seen, n + 1)
  {
    var after := ScanNext(s, n, seen(n));
    forall k | 0 <= k < n + 1 && !seen(k) && (after.open.None? || k < after.open.value)
      ensures Covered(after.closed, k)
    {
      if s.open.Some? {
        CoveredGrows(s.closed, Range(s.open.value, n), k);
      }
    }
  }

  lemma {:induction false} CoverageHolds(seen: Seen, n: nat)
    ensures CoversMissing(ScanTo(seen, n), seen, n)
  {
    if n > 0 {
      CoverageHolds(seen, n - 1);
      OpenHolds(seen, n - 1);
      CoverageStep(ScanTo(seen, n - 1), seen, n - 1);
    }
  }

  /** The ranges are ordered, apart, maximal, and cover exactly the positions not seen. */
  lemma RangesAreExact(seen: Seen, n: nat)
    ensures var ranges := Ranges(seen, n);
      && Separated(ranges)
      && (forall i :: 0 <= i < |ranges| ==> Exact(seen, ranges[i], n))
      && (forall k :: 0 <= k < n ==> (Covered(ranges, k) <==> !seen(k)))
  {
    OpenHolds(seen, n);
    ClosedHolds(seen, n);
    CoverageHolds(seen, n);
    var s, ranges := ScanTo(seen, n), Ranges(seen, n);
    ExactMeans(seen, ranges, n);
    forall k | 0 <= k < n && !seen(k)
      ensures Covered(ranges, k)
    {
      if s.open.Some? {
        CoveredGrows(s.closed, Range(s.open.value, n), k);
      } else {
        assert ranges == s.closed;
      }
    }
  }

  lemma ExactMeans(seen: Seen, ranges: seq<Range>, n: nat)
    requires forall i :: 0 <= i < |ranges| ==> Exact(seen, ranges[i], n)
    ensures forall k :: 0 <= k < n && Covered(ranges, k) ==> !seen(k)
  {
  }

  lemma TotalLengthGrows(ranges: seq<Range>, r: Range)
    ensures TotalLength(ranges + [r]) == TotalLength(ranges) + r.hi - r.lo
  {
    assert (ranges + [r])[..|ranges|] == ranges;
  }

  lemma LengthStep(s: Scan, n: nat, seen: bool)
    ensures TotalLength(RangesOf(ScanNext(s, n, seen), n + 1)) == TotalLength(RangesOf(s, n)) + if seen then 0 else 1
  {
    if s.open.Some? {
      TotalLengthGrows(s.closed, Range(s.open.value, n));
      TotalLengthGrows(s.closed, Range(s.open.value, n + 1));
    } else {
      TotalLengthGrows(s.closed, Range(n, n + 1));
      assert s.closed + [] == s.closed;
    }
    if s.open.Some? && seen {
      assert RangesOf(ScanNext(s, n, seen), n + 1) == RangesOf(s, n);
    }
  }

  /** Positions in ranges and positions seen add up to the grid. */
  lemma {:induction false} LengthsAddUp(seen: Seen, n: nat)
    ensures TotalLength(Ranges(seen, n)) + CountSeen(seen, n) == n
  {
    if n > 0 {
      LengthsAddUp(seen, n - 1);
      LengthStep(ScanTo(seen, n - 1), n - 1, seen(n - 1));
    }
  }

  // ------------------------------------------------------------------------------- the method

  function SeenAt(observed: set<int>, base: int, delta: int): Seen
  {
    (i: nat) => Point(base, i, delta) in observed
  }

  function ToGap(r: Range, base: int, delta: int): Gap
  {
    Gap(Point(base, r.lo, delta), Point(base, r.hi, delta))
  }

  function ToGaps(ranges: seq<Range>, base: int, delta: int): seq<Gap>
  {
    seq(|ranges|, i requires 0 <= i < |ranges| => ToGap(ranges[i], base, delta))
  }

  /** A range still open at the end is closed by the end of the window, not by a grid point. */
  function GapsOf(s: Scan, base: int, end: int, delta: int): seq<Gap>
  {
    ToGaps(s.closed, base, delta) + if s.open.Some? then [Gap(Point(base, s.open.value, delta), end)] else []
  }

  /** `_candle_gap_ranges` */
  method CandleGapRanges(observed: set<int>, start: int, end: int, seconds: int) returns (gaps: seq<Gap>)
    requires seconds > 0
    ensures gaps == Gaps(observed, AlignedCeil(start, seconds), end, seconds * SECOND)
  {
    var base, delta := AlignedCeil(start, seconds), seconds * SECOND;
    ghost var seen, n := SeenAt(observed, base, delta), 0;
    gaps := [];
    var cursor := base;
    var gapStart: Option<int> := None;
    while cursor < end
      invariant cursor == Point(base, n, delta) && n <= GridSize(base, end, delta)
      invariant gaps == ToGaps(ScanTo(seen, n).closed, base, delta)
      invariant gapStart.Some? <==> ScanTo(seen, n).open.Some?
      invariant gapStart.Some? ==> gapStart.value == Point(base, ScanTo(seen, n).open.value, delta)
      decreases end - cursor
    {
      GridSizeMeaning(base, end, delta, n);
      if cursor !in observed && gapStart.None? {
        gapStart := Some(cursor);
      } else if cursor in observed && gapStart.Some? {
        gaps := gaps + [Gap(gapStart.value, cursor)];
        gapStart := None;
      }
      cursor := cursor + delta;
      n := n + 1;
    }
    GridSizeMeaning(base, end, delta, n);
    if gapStart.Some? {
      gaps := gaps + [Gap(gapStart.value, end)];
    }
  }

  // --------------------------------------------------------------------------- what it reports

  /** The gaps of a window, from its grid base. */
  function Gaps(observed: set<int>, base: int, end: int, delta: int): seq<Gap>
    requires delta > 0
  {
    GapsOf(ScanTo(SeenAt(observed, base, delta), GridSize(base, end, delta)), base, end, delta)
  }

  predicate InGap(gaps: seq<Gap>, t: int)
  {
    exists i :: 0 <= i < |gaps| && gaps[i].start <= t < gaps[i].end
  }

  /** Gap and range at the same place: the last one may end before the grid does. */
  lemma GapIsRange(observed: set<int>, base: int, end: int, delta: int, i: nat)
    requires delta > 0
    requires i < |Gaps(observed, base, end, delta)|
    ensures var n, seen := GridSize(base, end, delta), SeenAt(observed, base, delta);
            var gap, ranges := Gaps(observed, base, end, delta)[i], Ranges(seen, n);
      && |ranges| == |Gaps(observed, base, end, delta)|
      && ranges[i].lo < ranges[i].hi <= n
      && gap.start == Point(base, ranges[i].lo, delta)
      && (gap.end == Point(base, ranges[i].hi, delta) || (i == |ranges| - 1 && ranges[i].hi == n && gap.end == end))
  {
    RangesAreExact(SeenAt(observed, base, delta), GridSize(base, end, delta));
  }

  lemma PointInRange(base: int, end: int, delta: int, lo: nat, hi: nat, k: nat, gapEnd: int)
    requires delta > 0 && k < GridSize(base, end, delta) && hi <= GridSize(base, end, delta)
    requires gapEnd == Point(base, hi, delta) || (hi == GridSize(base, end, delta) && gapEnd == end)
    ensures Point(base, lo, delta) <= Point(base, k, delta) < gapEnd <==> lo <= k < hi
  {
    GridSizeMeaning(base, end, delta, k);
    if lo < k { PointsIncrease(base, lo, k, delta); }
    if k < lo { PointsIncrease(base, k, lo, delta); }
    if k < hi { PointsIncrease(base, k, hi, delta); }
    if hi < k { PointsIncrease(base, hi, k, delta); }
  }

  /** A grid point lies in a gap exactly when its position lies in the range the gap came from. */
  lemma GapHoldsRange(observed: set<int>, base: int, end: int, delta: int, i: nat, k: nat)
    requires delta > 0 && k < GridSize(base, end, delta) && i < |Gaps(observed, base, end, delta)|
    ensures var gap, ranges := Gaps(observed, base, end, delta)[i], Ranges(SeenAt(observed, base, delta), GridSize(base, end, delta));
            |ranges| == |Gaps(observed, base, end, delta)|
            && (gap.start <= Point(base, k, delta) < gap.end <==> ranges[i].lo <= k < ranges[i].hi)
  {
    var range := Ranges(SeenAt(observed, base, delta), GridSize(base, end, delta))[i];
    GapIsRange(observed, base, end, delta, i);
    PointInRange(base, end, delta, range.lo, range.hi, k, Gaps(observed, base, end, delta)[i].end);
  }

  lemma SameCover(gaps: seq<Gap>, ranges: seq<Range>, t: int, k: nat)
    requires |gaps| == |ranges|
    requires forall i :: 0 <= i < |gaps| ==> (gaps[i].start <= t < gaps[i].end <==> ranges[i].lo <= k < ranges[i].hi)
    ensures InGap(gaps, t) <==> Covered(ranges, k)
  {
  }

  /** A grid point lies in a gap exactly when it was not observed. */
  lemma GapsAreExact(observed: set<int>, base: int, end: int, delta: int, k: nat)
    requires delta > 0 && k < GridSize(base, end, delta)
    ensures InGap(Gaps(observed, base, end, delta), Point(base, k, delta)) <==> Point(base, k, delta) !in observed
  {
    var gaps, seen := Gaps(observed, base, end, delta), SeenAt(observed, base, delta);
    var ranges := Ranges(seen, GridSize(base, end, delta));
    RangesAreExact(seen, GridSize(base, end, delta));
    forall i | 0 <= i < |gaps|
      ensures gaps[i].start <= Point(base, k, delta) < gaps[i].end <==> ranges[i].lo <= k < ranges[i].hi
    {
      GapHoldsRange(observed, base, end, delta, i, k);
    }
    SameCover(gaps, ranges, Point(base, k, delta), k);
  }

  /** Gaps are in order, and the point between two of them was observed, so none can be merged or widened. */
  lemma GapsAreSeparated(observed: set<int>, base: int, end: int, delta: int, i: nat, j: nat)
    requires delta > 0 && i < j < |Gaps(observed, base, end, delta)|
    ensures var gaps := Gaps(observed, base, end, delta);
            gaps[i].start < gaps[i].end < gaps[j].start && gaps[i].end in observed && gaps[j].start - delta in observed
  {
    var n, seen := GridSize(base, end, delta), SeenAt(observed, base, delta);
    var ranges := Ranges(seen, n);
    RangesAreExact(seen, n);
    GapIsRange(observed, base, end, delta, i);
    GapIsRange(observed, base, end, delta, j);
    PointsIncrease(base, ranges[i].lo, ranges[i].hi, delta);
    PointsIncrease(base, ranges[i].hi, ranges[j].lo, delta);
    assert Exact(seen, ranges[i], n) && Exact(seen, ranges[j], n);
  }

  /** `coverage_ratio` */
  function CoverageRatio(observed: set<int>, base: int, end: int, delta: int): real
    requires delta > 0 && base <= end
  {
    var expected := (end - base) / delta;
    if expected == 0 then 0.0 else
      var ratio := |observed| as real / expected as real;
      if ratio < 1.0 then ratio else 1.0
  }

  function GridPoints(base: int, n: nat, delta: int): set<int>
  {
    if n == 0 then {} else GridPoints(base, n - 1, delta) + {Point(base, n - 1, delta)}
  }

  lemma {:induction false} PointsPrecede(base: int, n: nat, delta: int)
    requires delta > 0
    ensures forall p :: p in GridPoints(base, n, delta) ==> p < Point(base, n, delta)
  {
    if n > 0 {
      PointsPrecede(base, n - 1, delta);
    }
  }

  lemma {:induction false} SeenPointsCount(observed: set<int>, base: int, delta: int, n: nat)
    requires delta > 0
    ensures |observed * GridPoints(base, n, delta)| == CountSeen(SeenAt(observed, base, delta), n)
  {
    if n > 0 {
      SeenPointsCount(observed, base, delta, n - 1);
      PointsPrecede(base, n - 1, delta);
      AddedPoint(observed, GridPoints(base, n - 1, delta), Point(base, n - 1, delta));
    }
  }

  lemma AddedPoint(observed: set<int>, before: set<int>, p: int)
    requires p !in before
    ensures |observed * (before + {p})| == |observed * before| + if p in observed then 1 else 0
  {
    assert observed * (before + {p}) == observed * before + if p in observed then {p} else {};
  }

  lemma RatioIsOne(a: nat, n: nat)
    requires 0 < n
    ensures a as real / n as real >= 1.0 <==> a >= n
  {
  }

  lemma RatioMeaning(observed: set<int>, base: int, end: int, delta: int, n: nat)
    requires delta > 0 && n > 0 && base <= end && (end - base) / delta == n
    ensures CoverageRatio(observed, base, end, delta) == 1.0 <==> |observed| >= n
  {
    RatioIsOne(|observed|, n);
  }

  lemma WindowHolds(base: int, delta: int, n: nat)
    requires delta > 0 && n > 0
    ensures base <= base + n * delta && (base + n * delta - base) / delta == n
    ensures GridSize(base, base + n * delta, delta) == n
  {
    ProductAtLeast(n, delta);
    MultipleHasNoRemainder(n, delta);
    AlignedGridSize(base, delta, n);
  }

  /** On an aligned, non-empty window whose observed times are grid points, the gaps and the observed points
      make up the grid, and full coverage means no gap. */
  lemma FullCoverageIffNoGaps(observed: set<int>, base: int, end: int, delta: int, n: nat)
    requires delta > 0 && n > 0 && end == base + n * delta && observed <= GridPoints(base, n, delta)
    ensures base <= end
    ensures TotalLength(Ranges(SeenAt(observed, base, delta), n)) + |observed| == n
    ensures CoverageRatio(observed, base, end, delta) == 1.0 <==> Gaps(observed, base, end, delta) == []
  {
    WindowHolds(base, delta, n);
    CoverageOfWindow(observed, base, end, delta, n);
  }

  lemma CoverageOfWindow(observed: set<int>, base: int, end: int, delta: int, n: nat)
    requires delta > 0 && n > 0 && observed <= GridPoints(base, n, delta)
    requires base <= end && (end - base) / delta == n == GridSize(base, end, delta)
    ensures TotalLength(Ranges(SeenAt(observed, base, delta), n)) + |observed| == n
    ensures CoverageRatio(observed, base, end, delta) == 1.0 <==> Gaps(observed, base, end, delta) == []
  {
    var seen := SeenAt(observed, base, delta);
    SeenPointsCount(observed, base, delta, n);
    assert observed * GridPoints(base, n, delta) == observed;
    LengthsAddUp(seen, n);
    AllSeenIffNoRange(seen, n);
    RatioMeaning(observed, base, end, delta, n);
    assert |Gaps(observed, base, end, delta)| == |Ranges(seen, n)|;
  }

  lemma AllSeenIffNoRange(seen: Seen, n: nat)
    ensures CountSeen(seen, n) <= n
    ensures CountSeen(seen, n) == n <==> Ranges(seen, n) == []
  {
    LengthsAddUp(seen, n);
    RangesAreExact(seen, n);
    PositiveLength(Ranges(seen, n));
  }

  lemma {:induction false} PositiveLength(ranges: seq<Range>)
    requires forall i :: 0 <= i < |ranges| ==> ranges[i].lo < ranges[i].hi
    ensures TotalLength(ranges) >= |ranges|
  {
    if ranges != [] {
      PositiveLength(ranges[..|ranges| - 1]);
    }
  }
}
