/**
  How `main` turns the search radius and centre, given in blocks, into the
  scan range of region coordinates handed to the cursor. A region of the
  generator is `regionSize` chunks of 16 blocks on a side, so region `k`
  holds the blocks `k * S .. k * S + S - 1` with `S = 16 * regionSize`.
  The divisions are C's, which round toward zero.
*/
module SearchBounds {
  import opened Wrappers
  import opened CArith
  import opened RegionCursor

  /** Blocks per chunk. */
  const CHUNK: int := 16

  /** Blocks per region side. */
  function RegionSpan(regionSize: int): int {
    CHUNK * regionSize
  }

  /** The region that holds block coordinate `block`. */
  function RegionOf(block: int, regionSize: int): int
    requires regionSize >= 1
  {
    block / RegionSpan(regionSize)
  }

  /** `regionRadius`: one more than the number of whole regions in the
      radius, so the regions a radius reaches into are all included. */
  function RegionRadius(searchRadius: int, regionSize: int): (r: int)
    requires regionSize >= 1
    ensures searchRadius >= 0 ==> r >= 1
    ensures searchRadius >= 0 ==>
      (r - 1) * RegionSpan(regionSize) <= searchRadius < r * RegionSpan(regionSize)
  {
    var r := Div(Div(searchRadius, regionSize), CHUNK) + 1;
    assert searchRadius >= 0 ==> (r - 1) * RegionSpan(regionSize) <= searchRadius < r * RegionSpan(regionSize) by {
      if searchRadius >= 0 {
        TruncatedRegion(searchRadius, regionSize);
        FloorBounds(searchRadius, RegionSpan(regionSize));
      }
    }
    r
  }

  /** `regionCenterX` and `regionCenterZ`: the centre divided by the region
      span, rounded toward zero. */
  function RegionCenter(center: int, regionSize: int): (m: int)
    requires regionSize >= 1
    ensures Abs(m) * RegionSpan(regionSize) <= Abs(center) < (Abs(m) + 1) * RegionSpan(regionSize)
    ensures m != 0 ==> (m < 0 <==> center < 0)
  {
    TruncatedCenter(center, regionSize);
    FloorBounds(Abs(center), RegionSpan(regionSize));
    Div(Div(center, regionSize), CHUNK)
  }

  /** The scan range `main` sets up: the centre region plus `regionRadius`
      regions on each side, in both directions. */
  function ScanBounds(searchRadius: int, centerX: int, centerZ: int, regionSize: int): (b: Bounds)
    requires regionSize >= 1
    ensures searchRadius >= 0 ==> Proper(b)
  {
    var r := RegionRadius(searchRadius, regionSize);
    var cx := RegionCenter(centerX, regionSize);
    var cz := RegionCenter(centerZ, regionSize);
    Bounds(cx - r, cx + r, cz - r, cz + r)
  }

  /** The scan range centred on the region that holds the centre block. */
  function FloorScanBounds(searchRadius: int, centerX: int, centerZ: int, regionSize: int): (b: Bounds)
    requires regionSize >= 1
    ensures searchRadius >= 0 ==> Proper(b)
  {
    var r := RegionRadius(searchRadius, regionSize);
    var cx := RegionOf(centerX, regionSize);
    var cz := RegionOf(centerZ, regionSize);
    Bounds(cx - r, cx + r, cz - r, cz + r)
  }

  /** Every block whose coordinates are within the search radius of the
      centre lies in a region of the scan range. */
  ghost predicate Covers(b: Bounds, searchRadius: int, centerX: int, centerZ: int, regionSize: int)
    requires regionSize >= 1
  {
    forall x, z | Abs(x - centerX) <= searchRadius && Abs(z - centerZ) <= searchRadius ::
      b.minX <= RegionOf(x, regionSize) <= b.maxX && b.minZ <= RegionOf(z, regionSize) <= b.maxZ
  }

  /** The scan range holds `(2 * regionRadius + 1)^2` regions and the cursor
      hands out each of them once. */
  lemma ScanRegionCount(searchRadius: int, centerX: int, centerZ: int, regionSize: int)
    requires searchRadius >= 0 && regionSize >= 1
    ensures var r := RegionRadius(searchRadius, regionSize);
      Count(ScanBounds(searchRadius, centerX, centerZ, regionSize)) == (2 * r + 1) * (2 * r + 1)
  {
  }

  /** Centred on the region of the centre block, the scan range covers the
      whole search square. */
  lemma FloorBoundsCover(searchRadius: int, centerX: int, centerZ: int, regionSize: int)
    requires searchRadius >= 0 && regionSize >= 1
    ensures Covers(FloorScanBounds(searchRadius, centerX, centerZ, regionSize), searchRadius, centerX, centerZ, regionSize)
  {
    forall x, z | Abs(x - centerX) <= searchRadius && Abs(z - centerZ) <= searchRadius
      ensures var b := FloorScanBounds(searchRadius, centerX, centerZ, regionSize);
        b.minX <= RegionOf(x, regionSize) <= b.maxX && b.minZ <= RegionOf(z, regionSize) <= b.maxZ
    {
      AxisCovered(x, centerX, searchRadius, regionSize);
      AxisCovered(z, centerZ, searchRadius, regionSize);
    }
  }

  /** Run from the start of the corrected range, the cursor hands out the
      region of every block of the search square. */
  lemma SearchSquareVisited(searchRadius: int, centerX: int, centerZ: int, regionSize: int, x: int, z: int)
    requires searchRadius >= 0 && regionSize >= 1
    requires Abs(x - centerX) <= searchRadius && Abs(z - centerZ) <= searchRadius
    ensures var b := FloorScanBounds(searchRadius, centerX, centerZ, regionSize);
      exists k | 0 <= k < Count(b) ::
        SelectNext(b, After(b, Start(b), k)).output == Some(Region(RegionOf(x, regionSize), RegionOf(z, regionSize)))
  {
    var b := FloorScanBounds(searchRadius, centerX, centerZ, regionSize);
    FloorBoundsCover(searchRadius, centerX, centerZ, regionSize);
    CellsCoverRange(b, RegionOf(x, regionSize), RegionOf(z, regionSize));
    var k :| 0 <= k < Count(b) && Cell(b, k) == Region(RegionOf(x, regionSize), RegionOf(z, regionSize));
    CallsEnumerateRegions(b, k);
  }

  /** With a centre of non-negative coordinates, rounding toward zero is
      rounding down, so the range `main` sets up covers the search
      square. */
  lemma NonNegativeCenterIsCovered(searchRadius: int, centerX: int, centerZ: int, regionSize: int)
    requires searchRadius >= 0 && regionSize >= 1 && centerX >= 0 && centerZ >= 0
    ensures Covers(ScanBounds(searchRadius, centerX, centerZ, regionSize), searchRadius, centerX, centerZ, regionSize)
  {
    CenterRoundsDown(centerX, regionSize);
    CenterRoundsDown(centerZ, regionSize);
    FloorBoundsCover(searchRadius, centerX, centerZ, regionSize);
  }

  /** For a non-negative coordinate the truncated centre is the centre's
      region. */
  lemma CenterRoundsDown(center: int, regionSize: int)
    requires center >= 0 && regionSize >= 1
    ensures RegionCenter(center, regionSize) == RegionOf(center, regionSize)
  {
    var s := RegionSpan(regionSize);
    var m := RegionCenter(center, regionSize);
    assert m * s <= center < (m + 1) * s;
    DivBetween(center, s, m);
  }

  /** As written, a negative centre can leave out the region of a block in
      the search square: with radius 15, region size 1 and centre x -31,
      the range starts at region -2, but block -46 is in region -3. */
  lemma NegativeCenterMissesArea()
    ensures var b := ScanBounds(15, -31, 0, 1);
      && Abs(-46 - (-31)) <= 15
      && RegionOf(-46, 1) == -3
      && b.minX == -2
      && !Covers(b, 15, -31, 0, 1)
  {
    var b := ScanBounds(15, -31, 0, 1);
    assert RegionRadius(15, 1) == 1;
    assert RegionCenter(-31, 1) == -1;
    assert RegionCenter(0, 1) == 0;
    assert RegionOf(-46, 1) == -3;
    assert RegionOf(0, 1) == 0;
    assert Abs(-46 - (-31)) <= 15 && Abs(0 - 0) <= 15;
    assert !(b.minX <= RegionOf(-46, 1));
  }

  /** With validated input (radius up to 30,000,000, centre within
      30,000,000 of the origin), every bound and the cursor's one step past
      the last row fit in `int32_t`. */
  lemma BoundsFitInt32(searchRadius: int, centerX: int, centerZ: int, regionSize: int)
    requires 0 <= searchRadius <= 30_000_000 && regionSize >= 1
    requires Abs(centerX) <= 30_000_000 && Abs(centerZ) <= 30_000_000
    ensures var b := ScanBounds(searchRadius, centerX, centerZ, regionSize);
      && IsInt32(RegionRadius(searchRadius, regionSize))
      && IsInt32(b.minX) && IsInt32(b.maxX + 1) && IsInt32(b.minZ) && IsInt32(b.maxZ + 1)
  {
    var s := RegionSpan(regionSize);
    var r := RegionRadius(searchRadius, regionSize);
    var mx := RegionCenter(centerX, regionSize);
    var mz := RegionCenter(centerZ, regionSize);
    AtMostMultiple(r - 1, s);
    AtMostMultiple(Abs(mx), s);
    AtMostMultiple(Abs(mz), s);
  }

  /** One axis of the covering argument: a coordinate within the radius of
      the centre is in a region at most `regionRadius` away from the
      centre's. */
  lemma AxisCovered(block: int, center: int, searchRadius: int, regionSize: int)
    requires searchRadius >= 0 && regionSize >= 1
    requires Abs(block - center) <= searchRadius
    ensures var r := RegionRadius(searchRadius, regionSize);
      RegionOf(center, regionSize) - r <= RegionOf(block, regionSize) <= RegionOf(center, regionSize) + r
  {
    QuotientsClose(block, center, searchRadius, RegionSpan(regionSize), RegionRadius(searchRadius, regionSize));
  }

  /** Numbers at most `d` apart, with `d` below `r * s`, have quotients by
      `s` at most `r` apart. */
  lemma QuotientsClose(a: int, c: int, d: int, s: int, r: int)
    requires s > 0 && Abs(a - c) <= d < r * s
    ensures c / s - r <= a / s <= c / s + r
  {
    var q := c / s;
    FloorBounds(c, s);
    assert a < (q + r + 1) * s by {
      assert a < (q + 1) * s + r * s;
    }
    QuotientBelow(a, s, q + r + 1);
    assert (q - r) * s <= a by {
      assert q * s - r * s < a;
    }
    QuotientAbove(a, s, q - r);
  }

  // Arithmetic helpers.

  /** The two C divisions of `main` agree with one Euclidean division by
      the region span for a non-negative dividend. */
  lemma TruncatedRegion(a: int, regionSize: int)
    requires a >= 0 && regionSize >= 1
    ensures Div(Div(a, regionSize), CHUNK) == a / RegionSpan(regionSize)
  {
    var q := Div(a, regionSize);
    DivNonNegative(a, regionSize);
    QuotientAbove(a, regionSize, 0);
    DivNonNegative(q, CHUNK);
    NestedDiv(a, regionSize, CHUNK);
  }

  /** The two C divisions of `main` on a centre of either sign: the size of
      the quotient by the region span, with the centre's sign. */
  lemma TruncatedCenter(center: int, regionSize: int)
    requires regionSize >= 1
    ensures var m := Div(Div(center, regionSize), CHUNK);
      Abs(m) == Abs(center) / RegionSpan(regionSize) && (m != 0 ==> (m < 0 <==> center < 0))
  {
    var a := Abs(center);
    TruncatedRegion(a, regionSize);
    QuotientAbove(a, RegionSpan(regionSize), 0);
    if center < 0 {
      assert center == -a;
      DivNegate(a, regionSize);
      DivNegate(Div(a, regionSize), CHUNK);
    }
  }

  /** A non-negative number is at most its multiple by a positive factor. */
  lemma AtMostMultiple(k: int, s: int)
    requires k >= 0 && s >= 1
    ensures k <= k * s
  {
    ProductMonotone(1, s, k);
  }

  /** A number lies between the multiples of `s` around its quotient. */
  lemma FloorBounds(a: int, s: int)
    requires s > 0
    ensures (a / s) * s <= a < (a / s) * s + s
    ensures a < (a / s + 1) * s
  {
  }

  /** Below `k * s`, the quotient is below `k`. */
  lemma QuotientBelow(a: int, s: int, k: int)
    requires s > 0 && a < k * s
    ensures a / s < k
  {
    FloorBounds(a, s);
    if a / s >= k {
      ProductMonotone(k, a / s, s);
    }
  }

  /** From `k * s` on, the quotient is at least `k`. */
  lemma QuotientAbove(a: int, s: int, k: int)
    requires s > 0 && k * s <= a
    ensures k <= a / s
  {
    FloorBounds(a, s);
    if a / s < k {
      ProductMonotone(a / s + 1, k, s);
    }
  }

  /** `a / b / c == a / (b * c)` for Euclidean division of a non-negative
      number by positive divisors. */
  lemma NestedDiv(a: int, b: int, c: int)
    requires a >= 0 && b > 0 && c > 0
    ensures a / b / c == a / (c * b)
  {
    var q1, r1 := a / b, a % b;
    var q2, r2 := q1 / c, q1 % c;
    assert a == (q2 * c + r2) * b + r1;
    assert a == q2 * (c * b) + (r2 * b + r1);
    ProductMonotone(r2, c - 1, b);
    assert 0 <= r2 * b + r1 < c * b;
    DivModOf(q2, r2 * b + r1, c * b);
  }

  /** A quotient pinned between two multiples is the Euclidean quotient. */
  lemma DivBetween(a: int, s: int, m: int)
    requires s > 0 && m * s <= a < (m + 1) * s
    ensures a / s == m
  {
    DivModOf(m, a - m * s, s);
  }
}
