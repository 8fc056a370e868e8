/**
  Worked cases of `processRegion`: a two-crossing cluster that is reported;
  a square of four crossings that is reported when all four share a height;
  and the same square with one corner raised, which is not, because the
  three left at the lower height do not pass the size guard.
*/
module WorkedCases {
  import opened Wrappers
  import opened Pieces
  import opened Shapes
  import opened HeightGroups
  import opened Matcher
  import opened SearchProperties

  /** A crossing whose box is one grid cell at `(x, y, z)`. */
  function CrossingAt(x: int, y: int, z: int): Piece {
    Piece(BridgeCrossing, BlockBox(x, y, z, x + 18, y + 6, z + 18))
  }

  /** The first pass, one piece at a time. */
  lemma GroupByHeightSnoc(pieces: seq<Piece>, p: Piece, maxY: int)
    ensures GroupByHeight(pieces + [p], maxY) ==
      if IsCandidate(p, maxY) then AddCrossing(GroupByHeight(pieces, maxY), p.boundingBox) else GroupByHeight(pieces, maxY)
  {
    assert (pieces + [p])[..|pieces|] == pieces;
  }

  /** Two crossings 19 blocks apart along x form a `DOUBLE`; the first one's
      corner is reported. */
  lemma DoubleAlongX()
    ensures ProcessRegion([CrossingAt(100, 48, 200), CrossingAt(119, 48, 200)], 70, Double) == Some(Location(100, 48, 200))
  {
    var p0, p1 := CrossingAt(100, 48, 200), CrossingAt(119, 48, 200);
    var b0, b1 := p0.boundingBox, p1.boundingBox;
    GroupByHeightSnoc([], p0, 70);
    var g1 := GroupByHeight([p0], 70);
    assert g1 == [HeightGroup(48, [b0])];
    GroupByHeightSnoc([p0], p1, 70);
    assert [p0] + [p1] == [p0, p1];
    assert FindHeight(g1, 48) == 0;
    assert [b0] + [b1] == [b0, b1];
    var groups := GroupByHeight([p0, p1], 70);
    assert groups == [HeightGroup(48, [b0, b1])];
    var cr := [b0, b1];
    assert Variant(Double, 0) == [Offset(19, 0)];
    assert Counted(cr, 0, [Offset(19, 0)], 1, 1);
    assert Good(cr, 0, [Offset(19, 0)], 1, 2) == 1;
    assert FirstGroup(groups, Double, 0) == Some(Location(100, 48, 200));
  }

  /** Four crossings on the four cells of a square, all at height 0, form a
      `QUAD_SQUARE`, read from the crossing at `(0, 0)`. */
  lemma SquareAtOneHeight()
    ensures ProcessRegion([CrossingAt(0, 0, 0), CrossingAt(0, 0, 19), CrossingAt(19, 0, 0), CrossingAt(19, 0, 19)], 70, QuadSquare).Some?
  {
    var p0, p1, p2, p3 := CrossingAt(0, 0, 0), CrossingAt(0, 0, 19), CrossingAt(19, 0, 0), CrossingAt(19, 0, 19);
    var pieces := [p0, p1, p2, p3];
    assert Variant(QuadSquare, 0) == [Offset(0, 19), Offset(19, 0), Offset(19, 19)];
    assert p1 in pieces && IsCandidate(p1, 70) && Delta(p0.boundingBox, p1.boundingBox) == Offset(0, 19);
    assert p2 in pieces && IsCandidate(p2, 70) && Delta(p0.boundingBox, p2.boundingBox) == Offset(19, 0);
    assert p3 in pieces && IsCandidate(p3, 70) && Delta(p0.boundingBox, p3.boundingBox) == Offset(19, 19);
    assert ClusterAt(pieces, 70, QuadSquare, p0.boundingBox, 0);
    PresentClusterIsFound(pieces, 70, QuadSquare, p0, 0);
  }

  /** The same square with its `(19, 0)` corner raised to height 19: the
      three crossings at height 0 are no more than `offsetsCount`, so their
      group is skipped, the raised one is alone in its group, and nothing is
      reported. */
  lemma SquareSplitByHeight()
    ensures ProcessRegion([CrossingAt(0, 0, 0), CrossingAt(0, 0, 19), CrossingAt(19, 19, 0), CrossingAt(19, 0, 19)], 70, QuadSquare) == None
  {
    var p0, p1, p2, p3 := CrossingAt(0, 0, 0), CrossingAt(0, 0, 19), CrossingAt(19, 19, 0), CrossingAt(19, 0, 19);
    var b0, b1, b2, b3 := p0.boundingBox, p1.boundingBox, p2.boundingBox, p3.boundingBox;
    GroupByHeightSnoc([], p0, 70);
    assert GroupByHeight([p0], 70) == [HeightGroup(0, [b0])];
    GroupByHeightSnoc([p0], p1, 70);
    assert [p0] + [p1] == [p0, p1];
    assert FindHeight([HeightGroup(0, [b0])], 0) == 0;
    assert [b0] + [b1] == [b0, b1];
    assert GroupByHeight([p0, p1], 70) == [HeightGroup(0, [b0, b1])];
    GroupByHeightSnoc([p0, p1], p2, 70);
    assert [p0, p1] + [p2] == [p0, p1, p2];
    assert GroupByHeight([p0, p1, p2], 70) == [HeightGroup(0, [b0, b1]), HeightGroup(19, [b2])];
    GroupByHeightSnoc([p0, p1, p2], p3, 70);
    assert [p0, p1, p2] + [p3] == [p0, p1, p2, p3];
    assert FindHeight([HeightGroup(0, [b0, b1]), HeightGroup(19, [b2])], 0) == 0;
    assert [b0, b1] + [b3] == [b0, b1, b3];
    var groups := GroupByHeight([p0, p1, p2, p3], 70);
    assert groups == [HeightGroup(0, [b0, b1, b3]), HeightGroup(19, [b2])];
    assert !LargeEnough(groups[0], QuadSquare);
    assert !LargeEnough(groups[1], QuadSquare);
    assert FirstGroup(groups, QuadSquare, 2) == None;
    assert FirstGroup(groups, QuadSquare, 1) == None;
    assert FirstGroup(groups, QuadSquare, 0) == None;
  }
}
