/**
  The first pass of `processRegion`: the bridge crossings no higher than
  `maxY` are collected into groups of equal `minY`. Groups are created in the
  order their height is first met and keep their members in piece order.
*/
module HeightGroups {
  import opened Pieces
  import opened Counting

  /** A piece the first pass keeps. */
  predicate IsCandidate(p: Piece, maxY: int) {
    p.pieceType == BridgeCrossing && p.boundingBox.minY <= maxY
  }

  /** One row of `crossroadsByHeight` with its `height` entry. */
  datatype HeightGroup = HeightGroup(height: int, crossroads: seq<BlockBox>)

  /** The index the inner search loop stops at: the first group of height
      `h`, or the number of groups when there is none. */
  function FindHeight(groups: seq<HeightGroup>, h: int): (i: nat)
    ensures i <= |groups|
    ensures i < |groups| ==> groups[i].height == h
    ensures forall j | 0 <= j < i :: groups[j].height != h
  {
    if |groups| == 0 then 0
    else if groups[0].height == h then 0
    else 1 + FindHeight(groups[1..], h)
  }

  /** Files one crossing: appended to the group of its height, or to a new
      group at the end when its height has not been seen. */
  function AddCrossing(groups: seq<HeightGroup>, b: BlockBox): seq<HeightGroup> {
    var i := FindHeight(groups, b.minY);
    if i < |groups| then groups[i := HeightGroup(b.minY, groups[i].crossroads + [b])]
    else groups + [HeightGroup(b.minY, [b])]
  }

  /** The height groups the first pass builds from the generator's pieces. */
  function GroupByHeight(pieces: seq<Piece>, maxY: int): seq<HeightGroup> {
    if |pieces| == 0 then []
    else
      var groups := GroupByHeight(pieces[..|pieces| - 1], maxY);
      var last := pieces[|pieces| - 1];
      if IsCandidate(last, maxY) then AddCrossing(groups, last.boundingBox) else groups
  }

  // An independent description of the same groups.

  /** The bounding boxes of the kept pieces, in piece order. */
  function Candidates(pieces: seq<Piece>, maxY: int): (boxes: seq<BlockBox>)
    ensures |boxes| <= |pieces|
    ensures forall b :: b in boxes <==> exists p | p in pieces :: IsCandidate(p, maxY) && p.boundingBox == b
  {
    if |pieces| == 0 then []
    else
      var init := pieces[..|pieces| - 1];
      var boxes := Candidates(init, maxY);
      var last := pieces[|pieces| - 1];
      assert pieces == init + [last];
      if IsCandidate(last, maxY) then boxes + [last.boundingBox] else boxes
  }

  /** The distinct heights of `boxes`, in the order they first appear. */
  function Heights(boxes: seq<BlockBox>): (hs: seq<int>)
    ensures Distinct(hs)
    ensures forall h :: h in hs <==> exists b | b in boxes :: b.minY == h
  {
    if |boxes| == 0 then []
    else
      var init := boxes[..|boxes| - 1];
      var last := boxes[|boxes| - 1];
      var hs := Heights(init);
      assert boxes == init + [last];
      if last.minY in hs then hs else hs + [last.minY]
  }

  /** The boxes of height `h`, in order. */
  function WithHeight(boxes: seq<BlockBox>, h: int): (r: seq<BlockBox>)
    ensures forall b :: b in r <==> b in boxes && b.minY == h
  {
    if |boxes| == 0 then []
    else
      var init := boxes[..|boxes| - 1];
      var last := boxes[|boxes| - 1];
      assert boxes == init + [last];
      if last.minY == h then WithHeight(init, h) + [last] else WithHeight(init, h)
  }

  /** `groups` lists the heights of `boxes` in first-seen order, each with
      every box of that height in order. */
  ghost predicate Describes(groups: seq<HeightGroup>, boxes: seq<BlockBox>) {
    && |groups| == |Heights(boxes)|
    && forall i | 0 <= i < |groups| ::
         groups[i] == HeightGroup(Heights(boxes)[i], WithHeight(boxes, Heights(boxes)[i]))
  }

  /** The one-pass grouping builds exactly the reference groups of the
      candidates. */
  lemma {:induction false} GroupByHeightMatchesReference(pieces: seq<Piece>, maxY: int)
    ensures Describes(GroupByHeight(pieces, maxY), Candidates(pieces, maxY))
  {
    if |pieces| > 0 {
      var init := pieces[..|pieces| - 1];
      var last := pieces[|pieces| - 1];
      GroupByHeightMatchesReference(init, maxY);
      if IsCandidate(last, maxY) {
        AddCrossingKeepsDescription(GroupByHeight(init, maxY), Candidates(init, maxY), last.boundingBox);
      }
    }
  }

  /** Filing one more box keeps the groups equal to the reference groups. */
  lemma {:induction false} AddCrossingKeepsDescription(groups: seq<HeightGroup>, boxes: seq<BlockBox>, b: BlockBox)
    requires Describes(groups, boxes)
    ensures Describes(AddCrossing(groups, b), boxes + [b])
  {
    var hs := Heights(boxes);
    var more := boxes + [b];
    assert more[..|more| - 1] == boxes;
    var y := b.minY;
    var i := FindHeight(groups, y);
    var r := AddCrossing(groups, b);
    if i < |groups| {
      assert groups[i].height == hs[i] == y;
      assert Heights(more) == hs;
      forall j | 0 <= j < |r|
        ensures r[j] == HeightGroup(hs[j], WithHeight(more, hs[j]))
      {
        if j != i {
          assert hs[j] != y;
        }
      }
    } else {
      assert y !in hs by {
        forall j | 0 <= j < |hs|
          ensures hs[j] != y
        {
          assert groups[j].height == hs[j];
        }
      }
      assert Heights(more) == hs + [y];
      NoneOfHeight(boxes, y);
      forall j | 0 <= j < |r|
        ensures r[j] == HeightGroup(Heights(more)[j], WithHeight(more, Heights(more)[j]))
      {
        if j < |groups| {
          assert hs[j] != y;
        }
      }
    }
  }

  /** A height no box has collects nothing. */
  lemma NoneOfHeight(boxes: seq<BlockBox>, h: int)
    requires h !in Heights(boxes)
    ensures WithHeight(boxes, h) == []
  {
  }

  /** Distinct groups have distinct heights. */
  lemma GroupHeightsDistinct(pieces: seq<Piece>, maxY: int)
    ensures var groups := GroupByHeight(pieces, maxY);
      forall i, j | 0 <= i < j < |groups| :: groups[i].height != groups[j].height
  {
    GroupByHeightMatchesReference(pieces, maxY);
  }

  /** Every member of a group is a kept piece's box of the group's height. */
  lemma GroupMembersAreCandidates(pieces: seq<Piece>, maxY: int)
    ensures var groups := GroupByHeight(pieces, maxY);
      forall i, b | 0 <= i < |groups| && b in groups[i].crossroads ::
        b.minY == groups[i].height && exists p | p in pieces :: IsCandidate(p, maxY) && p.boundingBox == b
  {
    GroupByHeightMatchesReference(pieces, maxY);
  }

  /** Every kept piece's box sits in the group of its height. */
  lemma CandidatesAreGrouped(pieces: seq<Piece>, maxY: int, p: Piece)
    requires p in pieces && IsCandidate(p, maxY)
    ensures exists i | 0 <= i < |GroupByHeight(pieces, maxY)| ::
      && GroupByHeight(pieces, maxY)[i].height == p.boundingBox.minY
      && p.boundingBox in GroupByHeight(pieces, maxY)[i].crossroads
  {
    var groups := GroupByHeight(pieces, maxY);
    var boxes := Candidates(pieces, maxY);
    var hs := Heights(boxes);
    GroupByHeightMatchesReference(pieces, maxY);
    var b := p.boundingBox;
    assert b in boxes;
    assert b.minY in hs;
    var i :| 0 <= i < |hs| && hs[i] == b.minY;
    assert b in groups[i].crossroads;
  }
}
