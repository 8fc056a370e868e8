/**
  What `processRegion` guarantees about the pieces it is given: it reports a
  corner exactly when some kept crossing has, at its own height, a kept
  crossing at every offset of some variant of the configured shape, and the
  corner it reports is such a crossing's.
*/
module SearchProperties {
  import opened Pieces
  import opened Shapes
  import opened HeightGroups
  import opened Matcher
  import opened MatcherProperties

  /** No two kept crossings share a minimum corner. */
  predicate CornersDistinct(boxes: seq<BlockBox>) {
    forall j, k | 0 <= j < k < |boxes| :: CornerOf(boxes[j]) != CornerOf(boxes[k])
  }

  /** At every offset of variant `shapeId`, seen from `anchor`, there is a
      kept crossing at the anchor's height. */
  ghost predicate ClusterAt(pieces: seq<Piece>, maxY: int, c: CrossroadShape, anchor: BlockBox, shapeId: nat)
    requires shapeId < Variants(c).shapesCount
  {
    PartnersAmong(pieces, maxY, anchor, Variant(c, shapeId))
  }

  /** At every offset of `offsets`, seen from `anchor`, there is a kept
      crossing at the anchor's height. */
  ghost predicate PartnersAmong(pieces: seq<Piece>, maxY: int, anchor: BlockBox, offsets: seq<Offset>) {
    forall d | d in offsets ::
      exists p | p in pieces && IsCandidate(p, maxY) :: p.boundingBox.minY == anchor.minY && Delta(anchor, p.boundingBox) == d
  }

  /** Keeping the boxes of one height keeps corners apart, and within one
      height distinct corners are distinct columns. */
  lemma {:induction false} WithHeightPositionsDistinct(boxes: seq<BlockBox>, h: int)
    requires CornersDistinct(boxes)
    ensures PositionsDistinct(WithHeight(boxes, h))
  {
    if |boxes| > 0 {
      var init := boxes[..|boxes| - 1];
      var last := boxes[|boxes| - 1];
      assert CornersDistinct(init);
      WithHeightPositionsDistinct(init, h);
      if last.minY == h {
        var r := WithHeight(boxes, h);
        var kept := WithHeight(init, h);
        assert r == kept + [last];
        forall j | 0 <= j < |kept|
          ensures kept[j].minX != last.minX || kept[j].minZ != last.minZ
        {
          assert kept[j] in init;
          var i :| 0 <= i < |init| && init[i] == kept[j];
          assert CornerOf(boxes[i]) != CornerOf(boxes[|boxes| - 1]);
        }
      }
    }
  }

  /** With distinct corners, every group's crossroads sit in distinct
      columns. */
  lemma GroupPositionsDistinct(pieces: seq<Piece>, maxY: int, i: nat)
    requires CornersDistinct(Candidates(pieces, maxY))
    requires i < |GroupByHeight(pieces, maxY)|
    ensures PositionsDistinct(GroupByHeight(pieces, maxY)[i].crossroads)
  {
    GroupByHeightMatchesReference(pieces, maxY);
    var boxes := Candidates(pieces, maxY);
    WithHeightPositionsDistinct(boxes, Heights(boxes)[i]);
  }

  /** A box among the group of its height, by index. */
  lemma InItsGroup(pieces: seq<Piece>, maxY: int, p: Piece, i: nat)
    requires p in pieces && IsCandidate(p, maxY)
    requires i < |GroupByHeight(pieces, maxY)| && GroupByHeight(pieces, maxY)[i].height == p.boundingBox.minY
    ensures p.boundingBox in GroupByHeight(pieces, maxY)[i].crossroads
  {
    var groups := GroupByHeight(pieces, maxY);
    CandidatesAreGrouped(pieces, maxY, p);
    GroupHeightsDistinct(pieces, maxY);
    var j :| 0 <= j < |groups| && groups[j].height == p.boundingBox.minY && p.boundingBox in groups[j].crossroads;
    assert i == j;
  }

  /** Completeness: a cluster of some variant around a kept crossing is
      always reported (though perhaps a different, earlier one). */
  lemma PresentClusterIsFound(pieces: seq<Piece>, maxY: int, c: CrossroadShape, anchor: Piece, shapeId: nat)
    requires anchor in pieces && IsCandidate(anchor, maxY)
    requires shapeId < Variants(c).shapesCount
    requires ClusterAt(pieces, maxY, c, anchor.boundingBox, shapeId)
    ensures ProcessRegion(pieces, maxY, c).Some?
  {
    var groups := GroupByHeight(pieces, maxY);
    CandidatesAreGrouped(pieces, maxY, anchor);
    var i :| 0 <= i < |groups| && groups[i].height == anchor.boundingBox.minY && anchor.boundingBox in groups[i].crossroads;
    var cr := groups[i].crossroads;
    var m :| 0 <= m < |cr| && cr[m] == anchor.boundingBox;
    forall d | d in Variant(c, shapeId)
      ensures exists o | 0 <= o < |cr| :: Delta(cr[m], cr[o]) == d
    {
      var p :| p in pieces && IsCandidate(p, maxY) && p.boundingBox.minY == anchor.boundingBox.minY && Delta(anchor.boundingBox, p.boundingBox) == d;
      InItsGroup(pieces, maxY, p, i);
      var o :| 0 <= o < |cr| && cr[o] == p.boundingBox;
    }
    AnchorFitsComplete(cr, m, c, shapeId);
    SizeGuardIsRedundant(cr, m, c, shapeId);
    assert Succeeds(groups, c, Attempt(i, m, shapeId));
  }

  /** Soundness: when no two kept crossings share a corner, the reported
      corner is a kept crossing's with a cluster of some variant around
      it. */
  lemma ReportedClusterIsPresent(pieces: seq<Piece>, maxY: int, c: CrossroadShape)
    requires CornersDistinct(Candidates(pieces, maxY))
    requires ProcessRegion(pieces, maxY, c).Some?
    ensures exists anchor | anchor in pieces && IsCandidate(anchor, maxY) && CornerOf(anchor.boundingBox) == ProcessRegion(pieces, maxY, c).value ::
      exists s | 0 <= s < Variants(c).shapesCount :: ClusterAt(pieces, maxY, c, anchor.boundingBox, s)
  {
    var groups := GroupByHeight(pieces, maxY);
    var a :| FirstSuccessFrom(groups, c, 0, a) && ProcessRegion(pieces, maxY, c).value == CornerOf(groups[a.heightId].crossroads[a.mainId]);
    var cr := groups[a.heightId].crossroads;
    GroupPositionsDistinct(pieces, maxY, a.heightId);
    AnchorFitsSound(cr, a.mainId, c, a.shapeId);
    GroupMembersAreCandidates(pieces, maxY);
    var anchor :| anchor in pieces && IsCandidate(anchor, maxY) && anchor.boundingBox == cr[a.mainId];
    forall d | d in Variant(c, a.shapeId)
      ensures exists p | p in pieces && IsCandidate(p, maxY) ::
        p.boundingBox.minY == anchor.boundingBox.minY && Delta(anchor.boundingBox, p.boundingBox) == d
    {
      var o :| 0 <= o < |cr| && Delta(cr[a.mainId], cr[o]) == d;
      assert cr[o] in cr;
      var p :| p in pieces && IsCandidate(p, maxY) && p.boundingBox == cr[o];
    }
    assert ClusterAt(pieces, maxY, c, anchor.boundingBox, a.shapeId);
  }
}
