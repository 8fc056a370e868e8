/**
  The catalogue of crossroad shapes (main.c, `SHAPES` and the offset arrays
  before it). A shape category lists one or more rigid orientation variants;
  a variant is the list of offsets, relative to an anchor crossroad, at which
  the other crossroads of a cluster must sit. Offsets are in blocks and lie on
  the 19-block grid that fortress crossroads are placed on.
*/
module Shapes {
  import opened Counting

  /** Spacing of the grid crossroads sit on. */
  const GRID: int := 19

  datatype Offset = Offset(x: int, z: int)

  /** The `CrossroadShape` enumeration, in declaration order. */
  datatype CrossroadShape =
    | Double
    | TripleLine
    | QuadLine
    | QuintLine
    | TripleCorner
    | QuadSquare
    | QuintBlob

  /** One row of `SHAPES`: the variants, the number of offsets in each variant
      (`offsetsCount`, one less than the cluster size) and the number of
      variants (`shapesCount`). */
  datatype ShapeVariants = ShapeVariants(shapes: seq<seq<Offset>>, offsetsCount: int, shapesCount: int)

  const DOUBLE_X_OFFSETS: seq<Offset> := [Offset(19, 0)]
  const DOUBLE_Z_OFFSETS: seq<Offset> := [Offset(0, 19)]

  const TRIPLE_LINE_X_OFFSETS: seq<Offset> := [Offset(19, 0), Offset(38, 0)]
  const TRIPLE_LINE_Z_OFFSETS: seq<Offset> := [Offset(0, 19), Offset(0, 38)]

  const QUAD_LINE_X_OFFSETS: seq<Offset> := [Offset(19, 0), Offset(38, 0), Offset(57, 0)]
  const QUAD_LINE_Z_OFFSETS: seq<Offset> := [Offset(0, 19), Offset(0, 38), Offset(0, 57)]

  const QUINT_LINE_X_OFFSETS: seq<Offset> := [Offset(19, 0), Offset(38, 0), Offset(57, 0), Offset(76, 0)]
  const QUINT_LINE_Z_OFFSETS: seq<Offset> := [Offset(0, 19), Offset(0, 38), Offset(0, 57), Offset(0, 76)]

  const TRIPLE_CORNER_NN_OFFSETS: seq<Offset> := [Offset(19, 0), Offset(19, -19)]
  const TRIPLE_CORNER_NP_OFFSETS: seq<Offset> := [Offset(19, 0), Offset(19, 19)]
  const TRIPLE_CORNER_PP_OFFSETS: seq<Offset> := [Offset(19, 0), Offset(0, 19)]
  const TRIPLE_CORNER_PN_OFFSETS: seq<Offset> := [Offset(0, 19), Offset(19, 19)]

  const QUAD_SQUARE_OFFSETS: seq<Offset> := [Offset(0, 19), Offset(19, 0), Offset(19, 19)]

  const QUINT_BLOB_0_OFFSETS: seq<Offset> := [Offset(0, 19), Offset(0, 38), Offset(19, 19), Offset(19, 38)]
  const QUINT_BLOB_1_OFFSETS: seq<Offset> := [Offset(0, 19), Offset(19, -19), Offset(19, 0), Offset(19, 19)]
  const QUINT_BLOB_2_OFFSETS: seq<Offset> := [Offset(0, 19), Offset(19, 0), Offset(19, 19), Offset(38, 0)]
  const QUINT_BLOB_3_OFFSETS: seq<Offset> := [Offset(0, 19), Offset(19, 0), Offset(19, 19), Offset(38, 19)]
  const QUINT_BLOB_4_OFFSETS: seq<Offset> := [Offset(0, 19), Offset(19, 0), Offset(19, 19), Offset(19, 38)]
  const QUINT_BLOB_5_OFFSETS: seq<Offset> := [Offset(0, 19), Offset(0, 38), Offset(19, 0), Offset(19, 19)]
  const QUINT_BLOB_6_OFFSETS: seq<Offset> := [Offset(19, 0), Offset(19, -19), Offset(38, 0), Offset(38, -19)]
  const QUINT_BLOB_7_OFFSETS: seq<Offset> := [Offset(19, 0), Offset(19, 19), Offset(38, 0), Offset(38, 19)]


  /** The `SHAPES` table: the variants of each category, with its
      `offsetsCount` and `shapesCount`. */
  function Variants(c: CrossroadShape): ShapeVariants {
    match c
    case Double => ShapeVariants([DOUBLE_X_OFFSETS, DOUBLE_Z_OFFSETS], 1, 2)
    case TripleLine => ShapeVariants([TRIPLE_LINE_X_OFFSETS, TRIPLE_LINE_Z_OFFSETS], 2, 2)
    case QuadLine => ShapeVariants([QUAD_LINE_X_OFFSETS, QUAD_LINE_Z_OFFSETS], 3, 2)
    case QuintLine => ShapeVariants([QUINT_LINE_X_OFFSETS, QUINT_LINE_Z_OFFSETS], 4, 2)
    case TripleCorner =>
      ShapeVariants([TRIPLE_CORNER_NN_OFFSETS, TRIPLE_CORNER_NP_OFFSETS,
                     TRIPLE_CORNER_PP_OFFSETS, TRIPLE_CORNER_PN_OFFSETS], 2, 4)
    case QuadSquare => ShapeVariants([QUAD_SQUARE_OFFSETS], 3, 1)
    case QuintBlob =>
      ShapeVariants([QUINT_BLOB_0_OFFSETS, QUINT_BLOB_1_OFFSETS, QUINT_BLOB_2_OFFSETS, QUINT_BLOB_3_OFFSETS,
                     QUINT_BLOB_4_OFFSETS, QUINT_BLOB_5_OFFSETS, QUINT_BLOB_6_OFFSETS, QUINT_BLOB_7_OFFSETS], 4, 8)
  }

  /** Both coordinates are multiples of the grid spacing. */
  predicate OnGrid(o: Offset) {
    o.x % GRID == 0 && o.z % GRID == 0
  }

  /** The offset comes after the anchor in (x, z) order, so it is never the
      anchor itself and the anchor is the first cell of its cluster. */
  predicate AfterAnchor(o: Offset) {
    o.x > 0 || (o.x == 0 && o.z > 0)
  }

  /** What the search loop relies on in a row of `SHAPES`: `shapesCount`
      variants of exactly `offsetsCount` distinct, non-zero grid offsets. */
  predicate WellFormed(sv: ShapeVariants) {
    && sv.offsetsCount >= 1
    && sv.shapesCount == |sv.shapes| >= 1
    && (forall i | 0 <= i < |sv.shapes| :: VariantWellFormed(sv.shapes[i], sv.offsetsCount))
  }

  /** One variant: exactly `n` distinct grid offsets after the anchor. */
  predicate VariantWellFormed(v: seq<Offset>, n: int) {
    && |v| == n
    && Distinct(v)
    && forall k | 0 <= k < |v| :: OnGrid(v[k]) && AfterAnchor(v[k])
  }

  lemma DoubleWellFormed()
    ensures WellFormed(Variants(Double))
  {
  }

  lemma TripleLineWellFormed()
    ensures WellFormed(Variants(TripleLine))
  {
  }

  lemma QuadLineWellFormed()
    ensures WellFormed(Variants(QuadLine))
  {
  }

  lemma QuintLineWellFormed()
    ensures WellFormed(Variants(QuintLine))
  {
  }

  lemma TripleCornerWellFormed()
    ensures WellFormed(Variants(TripleCorner))
  {
  }

  lemma QuadSquareWellFormed()
    ensures WellFormed(Variants(QuadSquare))
  {
  }

  lemma QuintBlobWellFormed()
    ensures WellFormed(Variants(QuintBlob))
  {
    var sv := Variants(QuintBlob);
    forall i | 0 <= i < |sv.shapes|
      ensures VariantWellFormed(sv.shapes[i], sv.offsetsCount)
    {
      if i == 0 {
      } else if i == 1 {
      } else if i == 2 {
      } else if i == 3 {
      } else if i == 4 {
      } else if i == 5 {
      } else if i == 6 {
      } else {
      }
    }
  }

  /** Every row of `SHAPES` is well formed. */
  lemma CatalogueWellFormed(c: CrossroadShape)
    ensures WellFormed(Variants(c))
  {
    match c
    case Double => DoubleWellFormed();
    case TripleLine => TripleLineWellFormed();
    case QuadLine => QuadLineWellFormed();
    case QuintLine => QuintLineWellFormed();
    case TripleCorner => TripleCornerWellFormed();
    case QuadSquare => QuadSquareWellFormed();
    case QuintBlob => QuintBlobWellFormed();
  }

  /** The cells of a cluster relative to its anchor: the anchor itself
      followed by the offsets of one variant. */
  function Cells(offsets: seq<Offset>): seq<Offset> {
    [Offset(0, 0)] + offsets
  }

  /** The reference cluster of a category: the cells of its first variant. */
  function BaseCells(c: CrossroadShape): seq<Offset> {
    Cells(Variants(c).shapes[0])
  }

  /** The eight rigid motions of the grid that keep the origin fixed. */
  datatype Symmetry = Identity | Rot90 | Rot180 | Rot270 | MirrorX | MirrorZ | Transpose | AntiTranspose

  function Apply(t: Symmetry, o: Offset): Offset {
    match t
    case Identity => o
    case Rot90 => Offset(-o.z, o.x)
    case Rot180 => Offset(-o.x, -o.z)
    case Rot270 => Offset(o.z, -o.x)
    case MirrorX => Offset(-o.x, o.z)
    case MirrorZ => Offset(o.x, -o.z)
    case Transpose => Offset(o.z, o.x)
    case AntiTranspose => Offset(-o.z, -o.x)
  }

  /** Where cell `q` lands, seen from where cell `q0` lands, once the
      cluster is moved by `t`. */
  function Relative(t: Symmetry, q: Offset, q0: Offset): Offset {
    Offset(Apply(t, q).x - Apply(t, q0).x, Apply(t, q).z - Apply(t, q0).z)
  }

  /** Moving the cells `base` by `t` and reading them from where cell `q0`
      lands gives only cells of the cluster with offsets `offsets`. */
  ghost predicate MovesInto(base: seq<Offset>, t: Symmetry, q0: Offset, offsets: seq<Offset>) {
    forall q {:trigger Relative(t, q, q0)} | q in base :: Relative(t, q, q0) in Cells(offsets)
  }

  /** Moving the base cluster of `c` by `t` and reading it from where its
      cell `q0` lands gives only cells of variant `i`. */
  ghost predicate ListedAs(c: CrossroadShape, t: Symmetry, i: int, q0: Offset) {
    && 0 <= i < Variants(c).shapesCount
    && q0 in BaseCells(c)
    && MovesInto(BaseCells(c), t, q0, Variants(c).shapes[i])
  }
}
