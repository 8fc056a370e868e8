/**
  The variants of a category together cover every rotation and mirror image
  of its base cluster, so `processRegion` reports a corner exactly when the
  base cluster, turned or mirrored in any way, lies among the kept crossings
  at one height.
*/
module Placement {
  import opened Counting
  import opened Pieces
  import opened Shapes
  import opened ShapeOrientations
  import opened HeightGroups
  import opened Matcher
  import opened SearchProperties

  /** The base cluster of `c`, moved by `t` so that its anchor cell lands at
      `(x, z)`, has a kept crossing with minimum corner on every cell, all at
      height `y`. */
  ghost predicate Placed(pieces: seq<Piece>, maxY: int, c: CrossroadShape, t: Symmetry, x: int, y: int, z: int) {
    PlacedCells(pieces, maxY, BaseCells(c), t, x, y, z)
  }

  /** The cells `base`, moved by `t` and shifted by `(x, z)`, each have a
      kept crossing with minimum corner on them, at height `y`. */
  ghost predicate PlacedCells(pieces: seq<Piece>, maxY: int, base: seq<Offset>, t: Symmetry, x: int, y: int, z: int) {
    forall q | q in base ::
      exists p | p in pieces && IsCandidate(p, maxY) :: CornerOf(p.boundingBox) == Location(x + Apply(t, q).x, y, z + Apply(t, q).z)
  }

  /** The cells of a well-formed variant are distinct: its offsets are, and
      none is the anchor. */
  lemma CellsDistinct(v: seq<Offset>, n: int)
    requires VariantWellFormed(v, n)
    ensures Distinct(Cells(v)) && |Cells(v)| == n + 1
  {
    var cells := Cells(v);
    forall j, k | 0 <= j < k < |cells|
      ensures cells[j] != cells[k]
    {
      if j == 0 {
        assert AfterAnchor(v[k - 1]);
      } else {
        assert cells[j] == v[j - 1] && cells[k] == v[k - 1];
      }
    }
  }

  /** A motion of the grid never sends two cells to one place. */
  lemma RelativeInjective(t: Symmetry, q: Offset, r: Offset, q0: Offset)
    requires Relative(t, q, q0) == Relative(t, r, q0)
    ensures q == r
  {
  }

  /** The moved base cluster fills all of variant `i`'s cells, not just
      some: both have `offsetsCount + 1` distinct cells. */
  lemma ListedExactly(c: CrossroadShape, t: Symmetry, i: int, q0: Offset)
    requires ListedAs(c, t, i, q0)
    ensures forall d | d in Cells(Variants(c).shapes[i]) :: exists q | q in BaseCells(c) :: Relative(t, q, q0) == d
  {
    CatalogueWellFormed(c);
    var n := Variants(c).offsetsCount;
    assert VariantWellFormed(Variants(c).shapes[0], n);
    assert VariantWellFormed(Variants(c).shapes[i], n);
    CellsDistinct(Variants(c).shapes[0], n);
    CellsDistinct(Variants(c).shapes[i], n);
    MovedCoversAll(t, BaseCells(c), Cells(Variants(c).shapes[i]), q0);
  }

  /** Moving `base` into `cells` without collisions, when both are lists of
      the same length without repeats, reaches every cell. */
  lemma MovedCoversAll(t: Symmetry, base: seq<Offset>, cells: seq<Offset>, q0: Offset)
    requires Distinct(base) && Distinct(cells) && |base| == |cells|
    requires forall q | q in base :: Relative(t, q, q0) in cells
    ensures forall d | d in cells :: exists q | q in base :: Relative(t, q, q0) == d
  {
    var moved := seq(|base|, k requires 0 <= k < |base| => Relative(t, base[k], q0));
    forall j, k | 0 <= j < k < |moved|
      ensures moved[j] != moved[k]
    {
      if moved[j] == moved[k] {
        RelativeInjective(t, base[j], base[k], q0);
      }
    }
    forall k | 0 <= k < |moved|
      ensures moved[k] in cells
    {
      assert base[k] in base;
    }
    CoversAll(moved, cells);
    forall d | d in cells
      ensures exists q | q in base :: Relative(t, q, q0) == d
    {
      var k :| 0 <= k < |moved| && moved[k] == d;
      assert base[k] in base;
    }
  }

  /** A placed base cluster, in any of the eight orientations, is always
      reported. */
  lemma PlacedShapeIsFound(pieces: seq<Piece>, maxY: int, c: CrossroadShape, t: Symmetry, x: int, y: int, z: int)
    requires Placed(pieces, maxY, c, t, x, y, z)
    ensures ProcessRegion(pieces, maxY, c).Some?
  {
    EveryOrientationIsListed(c, t);
    var i, q0 :| ListedAs(c, t, i, q0);
    ListedExactly(c, t, i, q0);
    var anchor :| anchor in pieces && IsCandidate(anchor, maxY)
      && CornerOf(anchor.boundingBox) == Location(x + Apply(t, q0).x, y, z + Apply(t, q0).z);
    assert Variant(c, i) == Variants(c).shapes[i];
    PlacedCellsAreCrossings(pieces, maxY, t, x, y, z, BaseCells(c), Variant(c, i), q0, anchor);
    PresentClusterIsFound(pieces, maxY, c, anchor, i);
  }

  /** Read from the crossing on cell `q0`, a placed cluster has a crossing
      at every offset of the variant it is listed as. */
  lemma PlacedCellsAreCrossings(pieces: seq<Piece>, maxY: int, t: Symmetry, x: int, y: int, z: int,
                                base: seq<Offset>, offsets: seq<Offset>, q0: Offset, anchor: Piece)
    requires PlacedCells(pieces, maxY, base, t, x, y, z)
    requires forall d | d in Cells(offsets) :: exists q | q in base :: Relative(t, q, q0) == d
    requires CornerOf(anchor.boundingBox) == Location(x + Apply(t, q0).x, y, z + Apply(t, q0).z)
    ensures PartnersAmong(pieces, maxY, anchor.boundingBox, offsets)
  {
    forall d | d in offsets
      ensures exists p | p in pieces && IsCandidate(p, maxY) ::
        p.boundingBox.minY == anchor.boundingBox.minY && Delta(anchor.boundingBox, p.boundingBox) == d
    {
      assert d in Cells(offsets);
      var q :| q in base && Relative(t, q, q0) == d;
      var p :| p in pieces && IsCandidate(p, maxY) && CornerOf(p.boundingBox) == Location(x + Apply(t, q).x, y, z + Apply(t, q).z);
    }
  }

  /** When no two kept crossings share a corner, a reported corner is a cell
      of a placed base cluster in some orientation. */
  lemma ReportedShapeIsPlaced(pieces: seq<Piece>, maxY: int, c: CrossroadShape)
    requires CornersDistinct(Candidates(pieces, maxY))
    requires ProcessRegion(pieces, maxY, c).Some?
    ensures exists t, x, y, z | Placed(pieces, maxY, c, t, x, y, z) ::
      exists q | q in BaseCells(c) :: ProcessRegion(pieces, maxY, c).value == Location(x + Apply(t, q).x, y, z + Apply(t, q).z)
  {
    ReportedClusterIsPresent(pieces, maxY, c);
    var anchor :| anchor in pieces && IsCandidate(anchor, maxY) && CornerOf(anchor.boundingBox) == ProcessRegion(pieces, maxY, c).value
      && exists s | 0 <= s < Variants(c).shapesCount :: ClusterAt(pieces, maxY, c, anchor.boundingBox, s);
    var s :| 0 <= s < Variants(c).shapesCount && ClusterAt(pieces, maxY, c, anchor.boundingBox, s);
    ClusterGivesPlacement(pieces, maxY, c, anchor, s);
  }

  /** A cluster of some variant around a kept crossing is the base shape
      placed in some orientation, with the crossing on one of its cells. */
  lemma ClusterGivesPlacement(pieces: seq<Piece>, maxY: int, c: CrossroadShape, anchor: Piece, s: nat)
    requires anchor in pieces && IsCandidate(anchor, maxY)
    requires s < Variants(c).shapesCount && ClusterAt(pieces, maxY, c, anchor.boundingBox, s)
    ensures exists t, x, y, z | Placed(pieces, maxY, c, t, x, y, z) ::
      exists q | q in BaseCells(c) :: CornerOf(anchor.boundingBox) == Location(x + Apply(t, q).x, y, z + Apply(t, q).z)
  {
    EveryVariantIsAnOrientation(c, s);
    var t, q0 :| ListedAs(c, t, s, q0);
    var b := anchor.boundingBox;
    var x, y, z := b.minX - Apply(t, q0).x, b.minY, b.minZ - Apply(t, q0).z;
    assert Variant(c, s) == Variants(c).shapes[s];
    ListedClusterIsPlaced(pieces, maxY, c, anchor, s, t, q0);
    assert CornerOf(b) == Location(x + Apply(t, q0).x, y, z + Apply(t, q0).z);
  }

  /** The same, for an orientation `t` and cell `q0` that move the base
      cluster onto the cells of variant `s`. */
  lemma ListedClusterIsPlaced(pieces: seq<Piece>, maxY: int, c: CrossroadShape, anchor: Piece, s: nat, t: Symmetry, q0: Offset)
    requires anchor in pieces && IsCandidate(anchor, maxY)
    requires s < Variants(c).shapesCount && ClusterAt(pieces, maxY, c, anchor.boundingBox, s)
    requires MovesInto(BaseCells(c), t, q0, Variant(c, s))
    ensures var b := anchor.boundingBox;
      Placed(pieces, maxY, c, t, b.minX - Apply(t, q0).x, b.minY, b.minZ - Apply(t, q0).z)
  {
    var b := anchor.boundingBox;
    ClusterIsPlaced(pieces, maxY, t, b.minX - Apply(t, q0).x, b.minY, b.minZ - Apply(t, q0).z, BaseCells(c), Variant(c, s), q0, anchor);
  }

  /** A crossing with a partner at every offset of a variant, the variant
      being `base` moved by `t` and read from cell `q0`, is cell `q0` of a
      placement of `base`. */
  lemma ClusterIsPlaced(pieces: seq<Piece>, maxY: int, t: Symmetry, x: int, y: int, z: int,
                        base: seq<Offset>, offsets: seq<Offset>, q0: Offset, anchor: Piece)
    requires anchor in pieces && IsCandidate(anchor, maxY)
    requires CornerOf(anchor.boundingBox) == Location(x + Apply(t, q0).x, y, z + Apply(t, q0).z)
    requires MovesInto(base, t, q0, offsets)
    requires PartnersAmong(pieces, maxY, anchor.boundingBox, offsets)
    ensures PlacedCells(pieces, maxY, base, t, x, y, z)
  {
    var b := anchor.boundingBox;
    forall q | q in base
      ensures exists p | p in pieces && IsCandidate(p, maxY) :: CornerOf(p.boundingBox) == Location(x + Apply(t, q).x, y, z + Apply(t, q).z)
    {
      var d := Relative(t, q, q0);
      if d == Offset(0, 0) {
        assert CornerOf(anchor.boundingBox) == Location(x + Apply(t, q).x, y, z + Apply(t, q).z);
      } else {
        assert d in offsets;
        var p :| p in pieces && IsCandidate(p, maxY) && p.boundingBox.minY == b.minY && Delta(b, p.boundingBox) == d;
        assert CornerOf(p.boundingBox) == Location(x + Apply(t, q).x, y, z + Apply(t, q).z);
      }
    }
  }
  /** When no two kept crossings share a corner, `processRegion` reports a
      corner exactly when the base cluster lies among the kept crossings in
      one of the eight orientations. */
  lemma FoundIffPlaced(pieces: seq<Piece>, maxY: int, c: CrossroadShape)
    requires CornersDistinct(Candidates(pieces, maxY))
    ensures ProcessRegion(pieces, maxY, c).Some? <==> exists t, x, y, z :: Placed(pieces, maxY, c, t, x, y, z)
  {
    if ProcessRegion(pieces, maxY, c).Some? {
      ReportedShapeIsPlaced(pieces, maxY, c);
    }
    if exists t, x, y, z :: Placed(pieces, maxY, c, t, x, y, z) {
      var t, x, y, z :| Placed(pieces, maxY, c, t, x, y, z);
      PlacedShapeIsFound(pieces, maxY, c, t, x, y, z);
    }
  }
}
