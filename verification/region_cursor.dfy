/**
  `selectNextRegion`: the shared cursor that hands out the regions of the
  scan range, row by row. Each call returns the region under the cursor and
  moves it one place on; once the cursor has left the last row every call
  fails and leaves it where it is. Calls are serialized by a lock in the
  program, so a run of the workers is one sequence of calls, whichever
  thread makes them.
*/
module RegionCursor {
  import opened Wrappers
  import opened CArith

  /** The inclusive ranges of region coordinates to scan. */
  datatype Bounds = Bounds(minX: int, maxX: int, minZ: int, maxZ: int)

  /** `(currentRegionX, currentRegionZ)`. */
  datatype Cursor = Cursor(x: int, z: int)

  /** A region handed to a worker. */
  datatype Region = Region(x: int, z: int)

  /** What one call returns (`None` for `false`) and where it leaves the
      cursor. */
  datatype Selection = Selection(output: Option<Region>, next: Cursor)

  /** Where `main` places the cursor before the workers start. */
  function Start(b: Bounds): Cursor {
    Cursor(b.minX, b.minZ)
  }

  /** A scan range with at least one column and no negative number of
      rows. */
  predicate Proper(b: Bounds) {
    b.minZ <= b.maxZ && b.minX <= b.maxX + 1
  }

  /** The number of regions in one row. */
  function Width(b: Bounds): int {
    b.maxZ - b.minZ + 1
  }

  /** The number of regions in the scan range. */
  function Count(b: Bounds): (n: nat)
    requires Proper(b)
    ensures n == 0 <==> b.minX > b.maxX
  {
    NonNegativeProduct(b.maxX - b.minX + 1, Width(b));
    (b.maxX - b.minX + 1) * Width(b)
  }

  /** A cursor the calls can reach: on a region of the range, or just past
      the last row at its first column. */
  predicate Valid(b: Bounds, cur: Cursor) {
    && Proper(b)
    && b.minX <= cur.x <= b.maxX + 1
    && b.minZ <= cur.z <= b.maxZ
    && (cur.x == b.maxX + 1 ==> cur.z == b.minZ)
  }

  /** The number of regions before `cur` in row-major order. */
  function Index(b: Bounds, cur: Cursor): int {
    (cur.x - b.minX) * Width(b) + (cur.z - b.minZ)
  }

  /** The cursor that has `i` regions before it. */
  function CursorAt(b: Bounds, i: int): Cursor
    requires Proper(b)
  {
    Cursor(b.minX + i / Width(b), b.minZ + i % Width(b))
  }

  /** The region under the cursor that has `k` regions before it. */
  function Cell(b: Bounds, k: int): Region
    requires Proper(b)
  {
    Region(CursorAt(b, k).x, CursorAt(b, k).z)
  }

  /** One call. The comparison with `regionMaxZ` is `>=`, not `==`. */
  function SelectNext(b: Bounds, cur: Cursor): (s: Selection)
    ensures s.output.None? ==> s.next == cur
    ensures Valid(b, cur) ==> Valid(b, s.next)
    ensures Valid(b, cur) && s.output.Some? ==>
      Index(b, s.next) == Index(b, cur) + 1 && s.output.value == Cell(b, Index(b, cur))
  {
    if cur.x > b.maxX then Selection(None, cur)
    else
      var next := if cur.z >= b.maxZ then Cursor(cur.x + 1, b.minZ) else Cursor(cur.x, cur.z + 1);
      assert Valid(b, cur) ==> Index(b, next) == Index(b, cur) + 1 && Cell(b, Index(b, cur)) == Region(cur.x, cur.z) by {
        if Valid(b, cur) {
          ValidIndex(b, cur);
          if cur.z >= b.maxZ {
            assert Index(b, next) == (cur.x - b.minX) * Width(b) + Width(b);
          }
        }
      }
      Selection(Some(Region(cur.x, cur.z)), next)
  }

  /** The cursor after `k` calls starting from `cur`. */
  function After(b: Bounds, cur: Cursor, k: nat): Cursor {
    if k == 0 then cur else SelectNext(b, After(b, cur, k - 1)).next
  }

  /** A reachable cursor is the cursor at its index, and its index lies
      between `0` and `Count(b)`. */
  lemma ValidIndex(b: Bounds, cur: Cursor)
    requires Valid(b, cur)
    ensures 0 <= Index(b, cur) <= Count(b)
    ensures CursorAt(b, Index(b, cur)) == cur
  {
    var w := Width(b);
    var q, r := cur.x - b.minX, cur.z - b.minZ;
    NonNegativeProduct(q, w);
    DivModOf(q, r, w);
    if cur.x <= b.maxX {
      ProductMonotone(q + 1, b.maxX - b.minX + 1, w);
    }
  }

  /** The cursor at index `i`, for `i` up to `Count(b)`, is reachable and
      has index `i`; it is on a region of the range exactly when `i` is
      below `Count(b)`. */
  lemma CursorAtValid(b: Bounds, i: int)
    requires Proper(b) && 0 <= i <= Count(b)
    ensures Valid(b, CursorAt(b, i)) && Index(b, CursorAt(b, i)) == i
    ensures CursorAt(b, i).x <= b.maxX <==> i < Count(b)
  {
    var w, h := Width(b), b.maxX - b.minX + 1;
    var q, r := i / w, i % w;
    assert i == q * w + r;
    if q > h || (q == h && r > 0) {
      ProductMonotone(h, q, w);
      assert false;
    }
    if q == h {
      assert i == Count(b);
    } else {
      ProductMonotone(q + 1, h, w);
    }
  }

  /** After `k` calls from the start the cursor has `k` regions behind it,
      or all of them once `k` passes `Count(b)`. */
  lemma {:induction false} AfterCalls(b: Bounds, k: nat)
    requires Proper(b)
    ensures After(b, Start(b), k) == CursorAt(b, if k < Count(b) then k else Count(b))
  {
    if k == 0 {
      assert CursorAt(b, 0) == Start(b);
    } else {
      AfterCalls(b, k - 1);
      var prev := After(b, Start(b), k - 1);
      if k - 1 < Count(b) {
        CursorAtValid(b, k - 1);
        var next := SelectNext(b, prev).next;
        ValidIndex(b, next);
      } else {
        CursorAtValid(b, Count(b));
      }
    }
  }

  /** Call `k` (counting from 0) hands out the `k`-th region in row-major
      order while there is one, and fails from then on. */
  lemma CallsEnumerateRegions(b: Bounds, k: nat)
    requires Proper(b)
    ensures SelectNext(b, After(b, Start(b), k)).output == if k < Count(b) then Some(Cell(b, k)) else None
  {
    AfterCalls(b, k);
    if k < Count(b) {
      CursorAtValid(b, k);
    } else {
      CursorAtValid(b, Count(b));
    }
  }

  /** Every region handed out lies in the scan range. */
  lemma CellInRange(b: Bounds, k: int)
    requires Proper(b) && 0 <= k < Count(b)
    ensures b.minX <= Cell(b, k).x <= b.maxX && b.minZ <= Cell(b, k).z <= b.maxZ
  {
    CursorAtValid(b, k);
  }

  /** Every region of the scan range is handed out. */
  lemma CellsCoverRange(b: Bounds, x: int, z: int)
    requires Proper(b)
    requires b.minX <= x <= b.maxX && b.minZ <= z <= b.maxZ
    ensures exists k | 0 <= k < Count(b) :: Cell(b, k) == Region(x, z)
  {
    var cur := Cursor(x, z);
    ValidIndex(b, cur);
    var k := Index(b, cur);
    CursorAtValid(b, k);
    assert Cell(b, k) == Region(x, z);
  }

  /** Regions are handed out in row-major order, so none twice. */
  lemma CellsInRowMajorOrder(b: Bounds, j: int, k: int)
    requires Proper(b) && 0 <= j < k < Count(b)
    ensures Cell(b, j).x < Cell(b, k).x || (Cell(b, j).x == Cell(b, k).x && Cell(b, j).z < Cell(b, k).z)
  {
    var w := Width(b);
    var qj, rj, qk, rk := j / w, j % w, k / w, k % w;
    assert j == qj * w + rj && k == qk * w + rk;
    if qk < qj {
      ProductMonotone(qk + 1, qj, w);
    } else if qk == qj {
    }
  }

  /** With an empty row range, which `main` never sets up, `>=` still moves
      the cursor to the next row after one region, where `==` would run
      along the row for ever. */
  lemma EmptyRowStillAdvances(b: Bounds)
    requires b.minZ > b.maxZ && b.minX <= b.maxX
    ensures SelectNext(b, Start(b)) == Selection(Some(Region(b.minX, b.minZ)), Cursor(b.minX + 1, b.minZ))
  {
  }
}
