/**
  The variants listed for each crossroad shape are exactly the rotations and
  mirror images of one cluster. For every category and every one of the eight
  grid symmetries, the moved base cluster, read from its first cell in
  (x, z) order, is one of the listed variants; and every listed variant arises
  this way. The facts are checked case by case on the concrete table.
*/
module ShapeOrientations {
  import opened Shapes

  // The cells of every listed variant, spelled out.

  lemma DoubleCells0()
    ensures Cells(Variants(Double).shapes[0]) == [Offset(0, 0), Offset(19, 0)]
  {
  }

  lemma DoubleCells1()
    ensures Cells(Variants(Double).shapes[1]) == [Offset(0, 0), Offset(0, 19)]
  {
  }

  lemma TripleLineCells0()
    ensures Cells(Variants(TripleLine).shapes[0]) == [Offset(0, 0), Offset(19, 0), Offset(38, 0)]
  {
  }

  lemma TripleLineCells1()
    ensures Cells(Variants(TripleLine).shapes[1]) == [Offset(0, 0), Offset(0, 19), Offset(0, 38)]
  {
  }

  lemma QuadLineCells0()
    ensures Cells(Variants(QuadLine).shapes[0]) == [Offset(0, 0), Offset(19, 0), Offset(38, 0), Offset(57, 0)]
  {
  }

  lemma QuadLineCells1()
    ensures Cells(Variants(QuadLine).shapes[1]) == [Offset(0, 0), Offset(0, 19), Offset(0, 38), Offset(0, 57)]
  {
  }

  lemma QuintLineCells0()
    ensures Cells(Variants(QuintLine).shapes[0]) == [Offset(0, 0), Offset(19, 0), Offset(38, 0), Offset(57, 0), Offset(76, 0)]
  {
  }

  lemma QuintLineCells1()
    ensures Cells(Variants(QuintLine).shapes[1]) == [Offset(0, 0), Offset(0, 19), Offset(0, 38), Offset(0, 57), Offset(0, 76)]
  {
  }

  lemma TripleCornerCells0()
    ensures Cells(Variants(TripleCorner).shapes[0]) == [Offset(0, 0), Offset(19, 0), Offset(19, -19)]
  {
  }

  lemma TripleCornerCells1()
    ensures Cells(Variants(TripleCorner).shapes[1]) == [Offset(0, 0), Offset(19, 0), Offset(19, 19)]
  {
  }

  lemma TripleCornerCells2()
    ensures Cells(Variants(TripleCorner).shapes[2]) == [Offset(0, 0), Offset(19, 0), Offset(0, 19)]
  {
  }

  lemma TripleCornerCells3()
    ensures Cells(Variants(TripleCorner).shapes[3]) == [Offset(0, 0), Offset(0, 19), Offset(19, 19)]
  {
  }

  lemma QuadSquareCells0()
    ensures Cells(Variants(QuadSquare).shapes[0]) == [Offset(0, 0), Offset(0, 19), Offset(19, 0), Offset(19, 19)]
  {
  }

  lemma QuintBlobCells0()
    ensures Cells(Variants(QuintBlob).shapes[0]) == [Offset(0, 0), Offset(0, 19), Offset(0, 38), Offset(19, 19), Offset(19, 38)]
  {
  }

  lemma QuintBlobCells1()
    ensures Cells(Variants(QuintBlob).shapes[1]) == [Offset(0, 0), Offset(0, 19), Offset(19, -19), Offset(19, 0), Offset(19, 19)]
  {
  }

  lemma QuintBlobCells2()
    ensures Cells(Variants(QuintBlob).shapes[2]) == [Offset(0, 0), Offset(0, 19), Offset(19, 0), Offset(19, 19), Offset(38, 0)]
  {
  }

  lemma QuintBlobCells3()
    ensures Cells(Variants(QuintBlob).shapes[3]) == [Offset(0, 0), Offset(0, 19), Offset(19, 0), Offset(19, 19), Offset(38, 19)]
  {
  }

  lemma QuintBlobCells4()
    ensures Cells(Variants(QuintBlob).shapes[4]) == [Offset(0, 0), Offset(0, 19), Offset(19, 0), Offset(19, 19), Offset(19, 38)]
  {
  }

  lemma QuintBlobCells5()
    ensures Cells(Variants(QuintBlob).shapes[5]) == [Offset(0, 0), Offset(0, 19), Offset(0, 38), Offset(19, 0), Offset(19, 19)]
  {
  }

  lemma QuintBlobCells6()
    ensures Cells(Variants(QuintBlob).shapes[6]) == [Offset(0, 0), Offset(19, 0), Offset(19, -19), Offset(38, 0), Offset(38, -19)]
  {
  }

  lemma QuintBlobCells7()
    ensures Cells(Variants(QuintBlob).shapes[7]) == [Offset(0, 0), Offset(19, 0), Offset(19, 19), Offset(38, 0), Offset(38, 19)]
  {
  }

  // One lemma per category and symmetry: the variant the moved base cluster
  // is listed as, and the base cell that becomes its anchor.

  lemma DoubleIdentityCells()
    ensures forall q | q in [Offset(0, 0), Offset(19, 0)] :: Relative(Identity, q, Offset(0, 0)) in [Offset(0, 0), Offset(19, 0)]
  {
  }

  lemma DoubleIdentity()
    ensures ListedAs(Double, Identity, 0, Offset(0, 0))
  {
    DoubleCells0();
    DoubleIdentityCells();
  }

  lemma DoubleRot90Cells()
    ensures forall q | q in [Offset(0, 0), Offset(19, 0)] :: Relative(Rot90, q, Offset(0, 0)) in [Offset(0, 0), Offset(0, 19)]
  {
  }

  lemma DoubleRot90()
    ensures ListedAs(Double, Rot90, 1, Offset(0, 0))
  {
    DoubleCells0();
    DoubleCells1();
    DoubleRot90Cells();
  }

  lemma DoubleRot180Cells()
    ensures forall q | q in [Offset(0, 0), Offset(19, 0)] :: Relative(Rot180, q, Offset(19, 0)) in [Offset(0, 0), Offset(19, 0)]
  {
  }

  lemma DoubleRot180()
    ensures ListedAs(Double, Rot180, 0, Offset(19, 0))
  {
    DoubleCells0();
    DoubleRot180Cells();
  }

  lemma DoubleRot270Cells()
    ensures forall q | q in [Offset(0, 0), Offset(19, 0)] :: Relative(Rot270, q, Offset(19, 0)) in [Offset(0, 0), Offset(0, 19)]
  {
  }

  lemma DoubleRot270()
    ensures ListedAs(Double, Rot270, 1, Offset(19, 0))
  {
    DoubleCells0();
    DoubleCells1();
    DoubleRot270Cells();
  }

  lemma DoubleMirrorXCells()
    ensures forall q | q in [Offset(0, 0), Offset(19, 0)] :: Relative(MirrorX, q, Offset(19, 0)) in [Offset(0, 0), Offset(19, 0)]
  {
  }

  lemma DoubleMirrorX()
    ensures ListedAs(Double, MirrorX, 0, Offset(19, 0))
  {
    DoubleCells0();
    DoubleMirrorXCells();
  }

  lemma DoubleMirrorZCells()
    ensures forall q | q in [Offset(0, 0), Offset(19, 0)] :: Relative(MirrorZ, q, Offset(0, 0)) in [Offset(0, 0), Offset(19, 0)]
  {
  }

  lemma DoubleMirrorZ()
    ensures ListedAs(Double, MirrorZ, 0, Offset(0, 0))
  {
    DoubleCells0();
    DoubleMirrorZCells();
  }

  lemma DoubleTransposeCells()
    ensures forall q | q in [Offset(0, 0), Offset(19, 0)] :: Relative(Transpose, q, Offset(0, 0)) in [Offset(0, 0), Offset(0, 19)]
  {
  }

  lemma DoubleTranspose()
    ensures ListedAs(Double, Transpose, 1, Offset(0, 0))
  {
    DoubleCells0();
    DoubleCells1();
    DoubleTransposeCells();
  }

  lemma DoubleAntiTransposeCells()
    ensures forall q | q in [Offset(0, 0), Offset(19, 0)] :: Relative(AntiTranspose, q, Offset(19, 0)) in [Offset(0, 0), Offset(0, 19)]
  {
  }

  lemma DoubleAntiTranspose()
    ensures ListedAs(Double, AntiTranspose, 1, Offset(19, 0))
  {
    DoubleCells0();
    DoubleCells1();
    DoubleAntiTransposeCells();
  }

  lemma TripleLineIdentityCells()
    ensures forall q | q in [Offset(0, 0), Offset(19, 0), Offset(38, 0)] :: Relative(Identity, q, Offset(0, 0)) in [Offset(0, 0), Offset(19, 0), Offset(38, 0)]
  {
  }

  lemma TripleLineIdentity()
    ensures ListedAs(TripleLine, Identity, 0, Offset(0, 0))
  {
    TripleLineCells0();
    TripleLineIdentityCells();
  }

  lemma TripleLineRot90Cells()
    ensures forall q | q in [Offset(0, 0), Offset(19, 0), Offset(38, 0)] :: Relative(Rot90, q, Offset(0, 0)) in [Offset(0, 0), Offset(0, 19), Offset(0, 38)]
  {
  }

  lemma TripleLineRot90()
    ensures ListedAs(TripleLine, Rot90, 1, Offset(0, 0))
  {
    TripleLineCells0();
    TripleLineCells1();
    TripleLineRot90Cells();
  }

  lemma TripleLineRot180Cells()
    ensures forall q | q in [Offset(0, 0), Offset(19, 0), Offset(38, 0)] :: Relative(Rot180, q, Offset(38, 0)) in [Offset(0, 0), Offset(19, 0), Offset(38, 0)]
  {
  }

  lemma TripleLineRot180()
    ensures ListedAs(TripleLine, Rot180, 0, Offset(38, 0))
  {
    TripleLineCells0();
    TripleLineRot180Cells();
  }

  lemma TripleLineRot270Cells()
    ensures forall q | q in [Offset(0, 0), Offset(19, 0), Offset(38, 0)] :: Relative(Rot270, q, Offset(38, 0)) in [Offset(0, 0), Offset(0, 19), Offset(0, 38)]
  {
  }

  lemma TripleLineRot270()
    ensures ListedAs(TripleLine, Rot270, 1, Offset(38, 0))
  {
    TripleLineCells0();
    TripleLineCells1();
    TripleLineRot270Cells();
  }

  lemma TripleLineMirrorXCells()
    ensures forall q | q in [Offset(0, 0), Offset(19, 0), Offset(38, 0)] :: Relative(MirrorX, q, Offset(38, 0)) in [Offset(0, 0), Offset(19, 0), Offset(38, 0)]
  {
  }

  lemma TripleLineMirrorX()
    ensures ListedAs(TripleLine, MirrorX, 0, Offset(38, 0))
  {
    TripleLineCells0();
    TripleLineMirrorXCells();
  }

  lemma TripleLineMirrorZCells()
    ensures forall q | q in [Offset(0, 0), Offset(19, 0), Offset(38, 0)] :: Relative(MirrorZ, q, Offset(0, 0)) in [Offset(0, 0), Offset(19, 0), Offset(38, 0)]
  {
  }

  lemma TripleLineMirrorZ()
    ensures ListedAs(TripleLine, MirrorZ, 0, Offset(0, 0))
  {
    TripleLineCells0();
    TripleLineMirrorZCells();
  }

  lemma TripleLineTransposeCells()
    ensures forall q | q in [Offset(0, 0), Offset(19, 0), Offset(38, 0)] :: Relative(Transpose, q, Offset(0, 0)) in [Offset(0, 0), Offset(0, 19), Offset(0, 38)]
  {
  }

  lemma TripleLineTranspose()
    ensures ListedAs(TripleLine, Transpose, 1, Offset(0, 0))
  {
    TripleLineCells0();
    TripleLineCells1();
    TripleLineTransposeCells();
  }

  lemma TripleLineAntiTransposeCells()
    ensures forall q | q in [Offset(0, 0), Offset(19, 0), Offset(38, 0)] :: Relative(AntiTranspose, q, Offset(38, 0)) in [Offset(0, 0), Offset(0, 19), Offset(0, 38)]
  {
  }

  lemma TripleLineAntiTranspose()
    ensures ListedAs(TripleLine, AntiTranspose, 1, Offset(38, 0))
  {
    TripleLineCells0();
    TripleLineCells1();
    TripleLineAntiTransposeCells();
  }

  lemma QuadLineIdentityCells()
    ensures forall q | q in [Offset(0, 0), Offset(19, 0), Offset(38, 0), Offset(57, 0)] :: Relative(Identity, q, Offset(0, 0)) in [Offset(0, 0), Offset(19, 0), Offset(38, 0), Offset(57, 0)]
  {
  }

  lemma QuadLineIdentity()
    ensures ListedAs(QuadLine, Identity, 0, Offset(0, 0))
  {
    QuadLineCells0();
    QuadLineIdentityCells();
  }

  lemma QuadLineRot90Cells()
    ensures forall q | q in [Offset(0, 0), Offset(19, 0), Offset(38, 0), Offset(57, 0)] :: Relative(Rot90, q, Offset(0, 0)) in [Offset(0, 0), Offset(0, 19), Offset(0, 38), Offset(0, 57)]
  {
  }

  lemma QuadLineRot90()
    ensures ListedAs(QuadLine, Rot90, 1, Offset(0, 0))
  {
    QuadLineCells0();
    QuadLineCells1();
    QuadLineRot90Cells();
  }

  lemma QuadLineRot180Cells()
    ensures forall q | q in [Offset(0, 0), Offset(19, 0), Offset(38, 0), Offset(57, 0)] :: Relative(Rot180, q, Offset(57, 0)) in [Offset(0, 0), Offset(19, 0), Offset(38, 0), Offset(57, 0)]
  {
  }

  lemma QuadLineRot180()
    ensures ListedAs(QuadLine, Rot180, 0, Offset(57, 0))
  {
    QuadLineCells0();
    QuadLineRot180Cells();
  }

  lemma QuadLineRot270Cells()
    ensures forall q | q in [Offset(0, 0), Offset(19, 0), Offset(38, 0), Offset(57, 0)] :: Relative(Rot270, q, Offset(57, 0)) in [Offset(0, 0), Offset(0, 19), Offset(0, 38), Offset(0, 57)]
  {
  }

  lemma QuadLineRot270()
    ensures ListedAs(QuadLine, Rot270, 1, Offset(57, 0))
  {
    QuadLineCells0();
    QuadLineCells1();
    QuadLineRot270Cells();
  }

  lemma QuadLineMirrorXCells()
    ensures forall q | q in [Offset(0, 0), Offset(19, 0), Offset(38, 0), Offset(57, 0)] :: Relative(MirrorX, q, Offset(57, 0)) in [Offset(0, 0), Offset(19, 0), Offset(38, 0), Offset(57, 0)]
  {
  }

  lemma QuadLineMirrorX()
    ensures ListedAs(QuadLine, MirrorX, 0, Offset(57, 0))
  {
    QuadLineCells0();
    QuadLineMirrorXCells();
  }

  lemma QuadLineMirrorZCells()
    ensures forall q | q in [Offset(0, 0), Offset(19, 0), Offset(38, 0), Offset(57, 0)] :: Relative(MirrorZ, q, Offset(0, 0)) in [Offset(0, 0), Offset(19, 0), Offset(38, 0), Offset(57, 0)]
  {
  }

  lemma QuadLineMirrorZ()
    ensures ListedAs(QuadLine, MirrorZ, 0, Offset(0, 0))
  {
    QuadLineCells0();
    QuadLineMirrorZCells();
  }

  lemma QuadLineTransposeCells()
    ensures forall q | q in [Offset(0, 0), Offset(19, 0), Offset(38, 0), Offset(57, 0)] :: Relative(Transpose, q, Offset(0, 0)) in [Offset(0, 0), Offset(0, 19), Offset(0, 38), Offset(0, 57)]
  {
  }

  lemma QuadLineTranspose()
    ensures ListedAs(QuadLine, Transpose, 1, Offset(0, 0))
  {
    QuadLineCells0();
    QuadLineCells1();
    QuadLineTransposeCells();
  }

  lemma QuadLineAntiTransposeCells()
    ensures forall q | q in [Offset(0, 0), Offset(19, 0), Offset(38, 0), Offset(57, 0)] :: Relative(AntiTranspose, q, Offset(57, 0)) in [Offset(0, 0), Offset(0, 19), Offset(0, 38), Offset(0, 57)]
  {
  }

  lemma QuadLineAntiTranspose()
    ensures ListedAs(QuadLine, AntiTranspose, 1, Offset(57, 0))
  {
    QuadLineCells0();
    QuadLineCells1();
    QuadLineAntiTransposeCells();
  }

  lemma QuintLineIdentityCells()
    ensures forall q | q in [Offset(0, 0), Offset(19, 0), Offset(38, 0), Offset(57, 0), Offset(76, 0)] :: Relative(Identity, q, Offset(0, 0)) in [Offset(0, 0), Offset(19, 0), Offset(38, 0), Offset(57, 0), Offset(76, 0)]
  {
  }

  lemma QuintLineIdentity()
    ensures ListedAs(QuintLine, Identity, 0, Offset(0, 0))
  {
    QuintLineCells0();
    QuintLineIdentityCells();
  }

  lemma QuintLineRot90Cells()
    ensures forall q | q in [Offset(0, 0), Offset(19, 0), Offset(38, 0), Offset(57, 0), Offset(76, 0)] :: Relative(Rot90, q, Offset(0, 0)) in [Offset(0, 0), Offset(0, 19), Offset(0, 38), Offset(0, 57), Offset(0, 76)]
  {
  }

  lemma QuintLineRot90()
    ensures ListedAs(QuintLine, Rot90, 1, Offset(0, 0))
  {
    QuintLineCells0();
    QuintLineCells1();
    QuintLineRot90Cells();
  }

  lemma QuintLineRot180Cells()
    ensures forall q | q in [Offset(0, 0), Offset(19, 0), Offset(38, 0), Offset(57, 0), Offset(76, 0)] :: Relative(Rot180, q, Offset(76, 0)) in [Offset(0, 0), Offset(19, 0), Offset(38, 0), Offset(57, 0), Offset(76, 0)]
  {
  }

  lemma QuintLineRot180()
    ensures ListedAs(QuintLine, Rot180, 0, Offset(76, 0))
  {
    QuintLineCells0();
    QuintLineRot180Cells();
  }

  lemma QuintLineRot270Cells()
    ensures forall q | q in [Offset(0, 0), Offset(19, 0), Offset(38, 0), Offset(57, 0), Offset(76, 0)] :: Relative(Rot270, q, Offset(76, 0)) in [Offset(0, 0), Offset(0, 19), Offset(0, 38), Offset(0, 57), Offset(0, 76)]
  {
  }

  lemma QuintLineRot270()
    ensures ListedAs(QuintLine, Rot270, 1, Offset(76, 0))
  {
    QuintLineCells0();
    QuintLineCells1();
    QuintLineRot270Cells();
  }

  lemma QuintLineMirrorXCells()
    ensures forall q | q in [Offset(0, 0), Offset(19, 0), Offset(38, 0), Offset(57, 0), Offset(76, 0)] :: Relative(MirrorX, q, Offset(76, 0)) in [Offset(0, 0), Offset(19, 0), Offset(38, 0), Offset(57, 0), Offset(76, 0)]
  {
  }

  lemma QuintLineMirrorX()
    ensures ListedAs(QuintLine, MirrorX, 0, Offset(76, 0))
  {
    QuintLineCells0();
    QuintLineMirrorXCells();
  }

  lemma QuintLineMirrorZCells()
    ensures forall q | q in [Offset(0, 0), Offset(19, 0), Offset(38, 0), Offset(57, 0), Offset(76, 0)] :: Relative(MirrorZ, q, Offset(0, 0)) in [Offset(0, 0), Offset(19, 0), Offset(38, 0), Offset(57, 0), Offset(76, 0)]
  {
  }

  lemma QuintLineMirrorZ()
    ensures ListedAs(QuintLine, MirrorZ, 0, Offset(0, 0))
  {
    QuintLineCells0();
    QuintLineMirrorZCells();
  }

  lemma QuintLineTransposeCells()
    ensures forall q | q in [Offset(0, 0), Offset(19, 0), Offset(38, 0), Offset(57, 0), Offset(76, 0)] :: Relative(Transpose, q, Offset(0, 0)) in [Offset(0, 0), Offset(0, 19), Offset(0, 38), Offset(0, 57), Offset(0, 76)]
  {
  }

  lemma QuintLineTranspose()
    ensures ListedAs(QuintLine, Transpose, 1, Offset(0, 0))
  {
    QuintLineCells0();
    QuintLineCells1();
    QuintLineTransposeCells();
  }

  lemma QuintLineAntiTransposeCells()
    ensures forall q | q in [Offset(0, 0), Offset(19, 0), Offset(38, 0), Offset(57, 0), Offset(76, 0)] :: Relative(AntiTranspose, q, Offset(76, 0)) in [Offset(0, 0), Offset(0, 19), Offset(0, 38), Offset(0, 57), Offset(0, 76)]
  {
  }

  lemma QuintLineAntiTranspose()
    ensures ListedAs(QuintLine, AntiTranspose, 1, Offset(76, 0))
  {
    QuintLineCells0();
    QuintLineCells1();
    QuintLineAntiTransposeCells();
  }

  lemma TripleCornerIdentityCells()
    ensures forall q | q in [Offset(0, 0), Offset(19, 0), Offset(19, -19)] :: Relative(Identity, q, Offset(0, 0)) in [Offset(0, 0), Offset(19, 0), Offset(19, -19)]
  {
  }

  lemma TripleCornerIdentity()
    ensures ListedAs(TripleCorner, Identity, 0, Offset(0, 0))
  {
    TripleCornerCells0();
    TripleCornerIdentityCells();
  }

  lemma TripleCornerRot90Cells()
    ensures forall q | q in [Offset(0, 0), Offset(19, 0), Offset(19, -19)] :: Relative(Rot90, q, Offset(0, 0)) in [Offset(0, 0), Offset(0, 19), Offset(19, 19)]
  {
  }

  lemma TripleCornerRot90()
    ensures ListedAs(TripleCorner, Rot90, 3, Offset(0, 0))
  {
    TripleCornerCells0();
    TripleCornerCells3();
    TripleCornerRot90Cells();
  }

  lemma TripleCornerRot180Cells()
    ensures forall q | q in [Offset(0, 0), Offset(19, 0), Offset(19, -19)] :: Relative(Rot180, q, Offset(19, 0)) in [Offset(0, 0), Offset(19, 0), Offset(0, 19)]
  {
  }

  lemma TripleCornerRot180()
    ensures ListedAs(TripleCorner, Rot180, 2, Offset(19, 0))
  {
    TripleCornerCells0();
    TripleCornerCells2();
    TripleCornerRot180Cells();
  }

  lemma TripleCornerRot270Cells()
    ensures forall q | q in [Offset(0, 0), Offset(19, 0), Offset(19, -19)] :: Relative(Rot270, q, Offset(19, -19)) in [Offset(0, 0), Offset(19, 0), Offset(19, 19)]
  {
  }

  lemma TripleCornerRot270()
    ensures ListedAs(TripleCorner, Rot270, 1, Offset(19, -19))
  {
    TripleCornerCells0();
    TripleCornerCells1();
    TripleCornerRot270Cells();
  }

  lemma TripleCornerMirrorXCells()
    ensures forall q | q in [Offset(0, 0), Offset(19, 0), Offset(19, -19)] :: Relative(MirrorX, q, Offset(19, -19)) in [Offset(0, 0), Offset(0, 19), Offset(19, 19)]
  {
  }

  lemma TripleCornerMirrorX()
    ensures ListedAs(TripleCorner, MirrorX, 3, Offset(19, -19))
  {
    TripleCornerCells0();
    TripleCornerCells3();
    TripleCornerMirrorXCells();
  }

  lemma TripleCornerMirrorZCells()
    ensures forall q | q in [Offset(0, 0), Offset(19, 0), Offset(19, -19)] :: Relative(MirrorZ, q, Offset(0, 0)) in [Offset(0, 0), Offset(19, 0), Offset(19, 19)]
  {
  }

  lemma TripleCornerMirrorZ()
    ensures ListedAs(TripleCorner, MirrorZ, 1, Offset(0, 0))
  {
    TripleCornerCells0();
    TripleCornerCells1();
    TripleCornerMirrorZCells();
  }

  lemma TripleCornerTransposeCells()
    ensures forall q | q in [Offset(0, 0), Offset(19, 0), Offset(19, -19)] :: Relative(Transpose, q, Offset(19, -19)) in [Offset(0, 0), Offset(19, 0), Offset(19, -19)]
  {
  }

  lemma TripleCornerTranspose()
    ensures ListedAs(TripleCorner, Transpose, 0, Offset(19, -19))
  {
    TripleCornerCells0();
    TripleCornerTransposeCells();
  }

  lemma TripleCornerAntiTransposeCells()
    ensures forall q | q in [Offset(0, 0), Offset(19, 0), Offset(19, -19)] :: Relative(AntiTranspose, q, Offset(19, 0)) in [Offset(0, 0), Offset(19, 0), Offset(0, 19)]
  {
  }

  lemma TripleCornerAntiTranspose()
    ensures ListedAs(TripleCorner, AntiTranspose, 2, Offset(19, 0))
  {
    TripleCornerCells0();
    TripleCornerCells2();
    TripleCornerAntiTransposeCells();
  }

  lemma QuadSquareIdentityCells()
    ensures forall q | q in [Offset(0, 0), Offset(0, 19), Offset(19, 0), Offset(19, 19)] :: Relative(Identity, q, Offset(0, 0)) in [Offset(0, 0), Offset(0, 19), Offset(19, 0), Offset(19, 19)]
  {
  }

  lemma QuadSquareIdentity()
    ensures ListedAs(QuadSquare, Identity, 0, Offset(0, 0))
  {
    QuadSquareCells0();
    QuadSquareIdentityCells();
  }

  lemma QuadSquareRot90Cells()
    ensures forall q | q in [Offset(0, 0), Offset(0, 19), Offset(19, 0), Offset(19, 19)] :: Relative(Rot90, q, Offset(0, 19)) in [Offset(0, 0), Offset(0, 19), Offset(19, 0), Offset(19, 19)]
  {
  }

  lemma QuadSquareRot90()
    ensures ListedAs(QuadSquare, Rot90, 0, Offset(0, 19))
  {
    QuadSquareCells0();
    QuadSquareRot90Cells();
  }

  lemma QuadSquareRot180Cells()
    ensures forall q | q in [Offset(0, 0), Offset(0, 19), Offset(19, 0), Offset(19, 19)] :: Relative(Rot180, q, Offset(19, 19)) in [Offset(0, 0), Offset(0, 19), Offset(19, 0), Offset(19, 19)]
  {
  }

  lemma QuadSquareRot180()
    ensures ListedAs(QuadSquare, Rot180, 0, Offset(19, 19))
  {
    QuadSquareCells0();
    QuadSquareRot180Cells();
  }

  lemma QuadSquareRot270Cells()
    ensures forall q | q in [Offset(0, 0), Offset(0, 19), Offset(19, 0), Offset(19, 19)] :: Relative(Rot270, q, Offset(19, 0)) in [Offset(0, 0), Offset(0, 19), Offset(19, 0), Offset(19, 19)]
  {
  }

  lemma QuadSquareRot270()
    ensures ListedAs(QuadSquare, Rot270, 0, Offset(19, 0))
  {
    QuadSquareCells0();
    QuadSquareRot270Cells();
  }

  lemma QuadSquareMirrorXCells()
    ensures forall q | q in [Offset(0, 0), Offset(0, 19), Offset(19, 0), Offset(19, 19)] :: Relative(MirrorX, q, Offset(19, 0)) in [Offset(0, 0), Offset(0, 19), Offset(19, 0), Offset(19, 19)]
  {
  }

  lemma QuadSquareMirrorX()
    ensures ListedAs(QuadSquare, MirrorX, 0, Offset(19, 0))
  {
    QuadSquareCells0();
    QuadSquareMirrorXCells();
  }

  lemma QuadSquareMirrorZCells()
    ensures forall q | q in [Offset(0, 0), Offset(0, 19), Offset(19, 0), Offset(19, 19)] :: Relative(MirrorZ, q, Offset(0, 19)) in [Offset(0, 0), Offset(0, 19), Offset(19, 0), Offset(19, 19)]
  {
  }

  lemma QuadSquareMirrorZ()
    ensures ListedAs(QuadSquare, MirrorZ, 0, Offset(0, 19))
  {
    QuadSquareCells0();
    QuadSquareMirrorZCells();
  }

  lemma QuadSquareTransposeCells()
    ensures forall q | q in [Offset(0, 0), Offset(0, 19), Offset(19, 0), Offset(19, 19)] :: Relative(Transpose, q, Offset(0, 0)) in [Offset(0, 0), Offset(0, 19), Offset(19, 0), Offset(19, 19)]
  {
  }

  lemma QuadSquareTranspose()
    ensures ListedAs(QuadSquare, Transpose, 0, Offset(0, 0))
  {
    QuadSquareCells0();
    QuadSquareTransposeCells();
  }

  lemma QuadSquareAntiTransposeCells()
    ensures forall q | q in [Offset(0, 0), Offset(0, 19), Offset(19, 0), Offset(19, 19)] :: Relative(AntiTranspose, q, Offset(19, 19)) in [Offset(0, 0), Offset(0, 19), Offset(19, 0), Offset(19, 19)]
  {
  }

  lemma QuadSquareAntiTranspose()
    ensures ListedAs(QuadSquare, AntiTranspose, 0, Offset(19, 19))
  {
    QuadSquareCells0();
    QuadSquareAntiTransposeCells();
  }

  lemma QuintBlobIdentityCells()
    ensures forall q | q in [Offset(0, 0), Offset(0, 19), Offset(0, 38), Offset(19, 19), Offset(19, 38)] :: Relative(Identity, q, Offset(0, 0)) in [Offset(0, 0), Offset(0, 19), Offset(0, 38), Offset(19, 19), Offset(19, 38)]
  {
  }

  lemma QuintBlobIdentity()
    ensures ListedAs(QuintBlob, Identity, 0, Offset(0, 0))
  {
    QuintBlobCells0();
    QuintBlobIdentityCells();
  }

  lemma QuintBlobRot90Cells()
    ensures forall q | q in [Offset(0, 0), Offset(0, 19), Offset(0, 38), Offset(19, 19), Offset(19, 38)] :: Relative(Rot90, q, Offset(0, 38)) in [Offset(0, 0), Offset(0, 19), Offset(19, 0), Offset(19, 19), Offset(38, 0)]
  {
  }

  lemma QuintBlobRot90()
    ensures ListedAs(QuintBlob, Rot90, 2, Offset(0, 38))
  {
    QuintBlobCells0();
    QuintBlobCells2();
    QuintBlobRot90Cells();
  }

  lemma QuintBlobRot180Cells()
    ensures forall q | q in [Offset(0, 0), Offset(0, 19), Offset(0, 38), Offset(19, 19), Offset(19, 38)] :: Relative(Rot180, q, Offset(19, 38)) in [Offset(0, 0), Offset(0, 19), Offset(19, 0), Offset(19, 19), Offset(19, 38)]
  {
  }

  lemma QuintBlobRot180()
    ensures ListedAs(QuintBlob, Rot180, 4, Offset(19, 38))
  {
    QuintBlobCells0();
    QuintBlobCells4();
    QuintBlobRot180Cells();
  }

  lemma QuintBlobRot270Cells()
    ensures forall q | q in [Offset(0, 0), Offset(0, 19), Offset(0, 38), Offset(19, 19), Offset(19, 38)] :: Relative(Rot270, q, Offset(0, 0)) in [Offset(0, 0), Offset(19, 0), Offset(19, -19), Offset(38, 0), Offset(38, -19)]
  {
  }

  lemma QuintBlobRot270()
    ensures ListedAs(QuintBlob, Rot270, 6, Offset(0, 0))
  {
    QuintBlobCells0();
    QuintBlobCells6();
    QuintBlobRot270Cells();
  }

  lemma QuintBlobMirrorXCells()
    ensures forall q | q in [Offset(0, 0), Offset(0, 19), Offset(0, 38), Offset(19, 19), Offset(19, 38)] :: Relative(MirrorX, q, Offset(19, 19)) in [Offset(0, 0), Offset(0, 19), Offset(19, -19), Offset(19, 0), Offset(19, 19)]
  {
  }

  lemma QuintBlobMirrorX()
    ensures ListedAs(QuintBlob, MirrorX, 1, Offset(19, 19))
  {
    QuintBlobCells0();
    QuintBlobCells1();
    QuintBlobMirrorXCells();
  }

  lemma QuintBlobMirrorZCells()
    ensures forall q | q in [Offset(0, 0), Offset(0, 19), Offset(0, 38), Offset(19, 19), Offset(19, 38)] :: Relative(MirrorZ, q, Offset(0, 38)) in [Offset(0, 0), Offset(0, 19), Offset(0, 38), Offset(19, 0), Offset(19, 19)]
  {
  }

  lemma QuintBlobMirrorZ()
    ensures ListedAs(QuintBlob, MirrorZ, 5, Offset(0, 38))
  {
    QuintBlobCells0();
    QuintBlobCells5();
    QuintBlobMirrorZCells();
  }

  lemma QuintBlobTransposeCells()
    ensures forall q | q in [Offset(0, 0), Offset(0, 19), Offset(0, 38), Offset(19, 19), Offset(19, 38)] :: Relative(Transpose, q, Offset(0, 0)) in [Offset(0, 0), Offset(19, 0), Offset(19, 19), Offset(38, 0), Offset(38, 19)]
  {
  }

  lemma QuintBlobTranspose()
    ensures ListedAs(QuintBlob, Transpose, 7, Offset(0, 0))
  {
    QuintBlobCells0();
    QuintBlobCells7();
    QuintBlobTransposeCells();
  }

  lemma QuintBlobAntiTransposeCells()
    ensures forall q | q in [Offset(0, 0), Offset(0, 19), Offset(0, 38), Offset(19, 19), Offset(19, 38)] :: Relative(AntiTranspose, q, Offset(19, 38)) in [Offset(0, 0), Offset(0, 19), Offset(19, 0), Offset(19, 19), Offset(38, 19)]
  {
  }

  lemma QuintBlobAntiTranspose()
    ensures ListedAs(QuintBlob, AntiTranspose, 3, Offset(19, 38))
  {
    QuintBlobCells0();
    QuintBlobCells3();
    QuintBlobAntiTransposeCells();
  }

  /** Every rotation or mirror image of a category's base cluster is listed. */
  lemma EveryOrientationIsListed(c: CrossroadShape, t: Symmetry)
    ensures exists i, q0 :: ListedAs(c, t, i, q0)
  {
    match c
    case Double =>
      match t {
      case Identity => DoubleIdentity();
      case Rot90 => DoubleRot90();
      case Rot180 => DoubleRot180();
      case Rot270 => DoubleRot270();
      case MirrorX => DoubleMirrorX();
      case MirrorZ => DoubleMirrorZ();
      case Transpose => DoubleTranspose();
      case AntiTranspose => DoubleAntiTranspose();
      }
    case TripleLine =>
      match t {
      case Identity => TripleLineIdentity();
      case Rot90 => TripleLineRot90();
      case Rot180 => TripleLineRot180();
      case Rot270 => TripleLineRot270();
      case MirrorX => TripleLineMirrorX();
      case MirrorZ => TripleLineMirrorZ();
      case Transpose => TripleLineTranspose();
      case AntiTranspose => TripleLineAntiTranspose();
      }
    case QuadLine =>
      match t {
      case Identity => QuadLineIdentity();
      case Rot90 => QuadLineRot90();
      case Rot180 => QuadLineRot180();
      case Rot270 => QuadLineRot270();
      case MirrorX => QuadLineMirrorX();
      case MirrorZ => QuadLineMirrorZ();
      case Transpose => QuadLineTranspose();
      case AntiTranspose => QuadLineAntiTranspose();
      }
    case QuintLine =>
      match t {
      case Identity => QuintLineIdentity();
      case Rot90 => QuintLineRot90();
      case Rot180 => QuintLineRot180();
      case Rot270 => QuintLineRot270();
      case MirrorX => QuintLineMirrorX();
      case MirrorZ => QuintLineMirrorZ();
      case Transpose => QuintLineTranspose();
      case AntiTranspose => QuintLineAntiTranspose();
      }
    case TripleCorner =>
      match t {
      case Identity => TripleCornerIdentity();
      case Rot90 => TripleCornerRot90();
      case Rot180 => TripleCornerRot180();
      case Rot270 => TripleCornerRot270();
      case MirrorX => TripleCornerMirrorX();
      case MirrorZ => TripleCornerMirrorZ();
      case Transpose => TripleCornerTranspose();
      case AntiTranspose => TripleCornerAntiTranspose();
      }
    case QuadSquare =>
      match t {
      case Identity => QuadSquareIdentity();
      case Rot90 => QuadSquareRot90();
      case Rot180 => QuadSquareRot180();
      case Rot270 => QuadSquareRot270();
      case MirrorX => QuadSquareMirrorX();
      case MirrorZ => QuadSquareMirrorZ();
      case Transpose => QuadSquareTranspose();
      case AntiTranspose => QuadSquareAntiTranspose();
      }
    case QuintBlob =>
      match t {
      case Identity => QuintBlobIdentity();
      case Rot90 => QuintBlobRot90();
      case Rot180 => QuintBlobRot180();
      case Rot270 => QuintBlobRot270();
      case MirrorX => QuintBlobMirrorX();
      case MirrorZ => QuintBlobMirrorZ();
      case Transpose => QuintBlobTranspose();
      case AntiTranspose => QuintBlobAntiTranspose();
      }
  }

  /** Every listed variant is a rotation or mirror image of the base cluster. */
  lemma EveryVariantIsAnOrientation(c: CrossroadShape, i: int)
    requires 0 <= i < Variants(c).shapesCount
    ensures exists t, q0 :: ListedAs(c, t, i, q0)
  {
    match c
    case Double =>
      if i == 0 {
        DoubleIdentity();
      }
      else {
        DoubleRot90();
      }
    case TripleLine =>
      if i == 0 {
        TripleLineIdentity();
      }
      else {
        TripleLineRot90();
      }
    case QuadLine =>
      if i == 0 {
        QuadLineIdentity();
      }
      else {
        QuadLineRot90();
      }
    case QuintLine =>
      if i == 0 {
        QuintLineIdentity();
      }
      else {
        QuintLineRot90();
      }
    case TripleCorner =>
      if i == 0 {
        TripleCornerIdentity();
      }
      else if i == 1 {
        TripleCornerRot270();
      }
      else if i == 2 {
        TripleCornerRot180();
      }
      else {
        TripleCornerRot90();
      }
    case QuadSquare =>
      QuadSquareIdentity();
    case QuintBlob =>
      if i == 0 {
        QuintBlobIdentity();
      }
      else if i == 1 {
        QuintBlobMirrorX();
      }
      else if i == 2 {
        QuintBlobRot90();
      }
      else if i == 3 {
        QuintBlobAntiTranspose();
      }
      else if i == 4 {
        QuintBlobRot180();
      }
      else if i == 5 {
        QuintBlobMirrorZ();
      }
      else if i == 6 {
        QuintBlobRot270();
      }
      else {
        QuintBlobTranspose();
      }
  }
}
