/**
  What the fortress generator hands to the search for one region: a list of
  structure pieces, each with a type and a block bounding box. The generator
  itself (fortressgenerator/FortressGenerator.h) is not part of this model;
  its output is taken as an arbitrary list.
*/
module Pieces {

  /** The piece types. The search only tells bridge crossings (the
      crossroads) apart from everything else. */
  datatype PieceType = BridgeCrossing | OtherPiece

  /** A bounding box in block coordinates, corners included. */
  datatype BlockBox = BlockBox(minX: int, minY: int, minZ: int, maxX: int, maxY: int, maxZ: int)

  datatype Piece = Piece(pieceType: PieceType, boundingBox: BlockBox)

  /** A reported match: the minimum corner of the anchor crossroad. */
  datatype Location = Location(x: int, y: int, z: int)

  /** The corner `processRegion` prints for a crossroad. */
  function CornerOf(b: BlockBox): Location {
    Location(b.minX, b.minY, b.minZ)
  }
}
