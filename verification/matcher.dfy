/**
  `processRegion` after the pieces are generated: the crossings are grouped
  by height, then every anchor of every large enough group is tried against
  every variant of the configured shape, counting the other crossings that
  sit at one of the variant's offsets. The first anchor that collects
  `offsetsCount` partners ends the search and its corner is reported.
*/
module Matcher {
  import opened Wrappers
  import opened CArith
  import opened Pieces
  import opened Shapes
  import opened HeightGroups

  /** `(offsetX, offsetZ)`: where `other` sits as seen from `main`. */
  function Delta(main: BlockBox, other: BlockBox): Offset {
    Offset(other.minX - main.minX, other.minZ - main.minZ)
  }

  /** The pre-check on both components, with C's `%`. */
  predicate PassesGridCheck(d: Offset) {
    Rem(d.x, GRID) == 0 && Rem(d.z, GRID) == 0
  }

  /** The offset loop, entered at `offsetId`: the first index below `n` whose
      offset equals `d`, where the loop breaks, or none. */
  function FirstMatchingOffset(d: Offset, offsets: seq<Offset>, n: nat, offsetId: nat): (r: Option<nat>)
    requires offsetId <= n <= |offsets|
    ensures r.Some? ==> offsetId <= r.value < n && offsets[r.value] == d
    ensures r.Some? ==> forall k | offsetId <= k < r.value :: offsets[k] != d
    ensures r.None? <==> forall k | offsetId <= k < n :: offsets[k] != d
    decreases n - offsetId
  {
    if offsetId == n then None
    else if offsets[offsetId] == d then Some(offsetId)
    else FirstMatchingOffset(d, offsets, n, offsetId + 1)
  }

  /** Whether `crossroads[otherId]` raises `good` for anchor `mainId` and
      the variant `offsets`, whose first `n` entries are examined. */
  predicate Counted(crossroads: seq<BlockBox>, mainId: nat, offsets: seq<Offset>, n: nat, otherId: nat)
    requires mainId < |crossroads| && otherId < |crossroads| && n <= |offsets|
  {
    var d := Delta(crossroads[mainId], crossroads[otherId]);
    && otherId != mainId
    && PassesGridCheck(d)
    && FirstMatchingOffset(d, offsets, n, 0).Some?
  }

  /** `good` once the other-loop has looked at `crossroads[..k]`. Each
      crossroad adds at most one, and the anchor adds nothing. */
  function Good(crossroads: seq<BlockBox>, mainId: nat, offsets: seq<Offset>, n: nat, k: nat): (good: nat)
    requires mainId < |crossroads| && k <= |crossroads| && n <= |offsets|
    ensures good <= if mainId < k then k - 1 else k
  {
    if k == 0 then 0
    else Good(crossroads, mainId, offsets, n, k - 1) + if Counted(crossroads, mainId, offsets, n, k - 1) then 1 else 0
  }

  /** The variant the loop examines as `shapeId`, with every row of `SHAPES`
      long enough for the offset loop. */
  function Variant(c: CrossroadShape, shapeId: nat): (offsets: seq<Offset>)
    requires shapeId < Variants(c).shapesCount
    ensures |offsets| == Variants(c).offsetsCount >= 1
  {
    CatalogueWellFormed(c);
    Variants(c).shapes[shapeId]
  }

  /** The final test: anchor `mainId` collects `offsetsCount` partners for
      variant `shapeId`. */
  predicate AnchorFits(crossroads: seq<BlockBox>, mainId: nat, c: CrossroadShape, shapeId: nat)
    requires mainId < |crossroads| && shapeId < Variants(c).shapesCount
  {
    var n := Variants(c).offsetsCount;
    Good(crossroads, mainId, Variant(c, shapeId), n, |crossroads|) >= n
  }

  /** The variant loop for one anchor, entered at `shapeId`. */
  function FirstVariant(crossroads: seq<BlockBox>, mainId: nat, c: CrossroadShape, shapeId: nat): (r: Option<nat>)
    requires mainId < |crossroads| && shapeId <= Variants(c).shapesCount
    ensures r.Some? ==> shapeId <= r.value < Variants(c).shapesCount && AnchorFits(crossroads, mainId, c, r.value)
    ensures r.Some? ==> forall s | shapeId <= s < r.value :: !AnchorFits(crossroads, mainId, c, s)
    ensures r.None? <==> forall s | shapeId <= s < Variants(c).shapesCount :: !AnchorFits(crossroads, mainId, c, s)
    decreases Variants(c).shapesCount - shapeId
  {
    if shapeId == Variants(c).shapesCount then None
    else if AnchorFits(crossroads, mainId, c, shapeId) then Some(shapeId)
    else FirstVariant(crossroads, mainId, c, shapeId + 1)
  }

  /** Some variant fits anchor `mainId`. */
  predicate AnyVariantFits(crossroads: seq<BlockBox>, mainId: nat, c: CrossroadShape)
    requires mainId < |crossroads|
  {
    exists s | 0 <= s < Variants(c).shapesCount :: AnchorFits(crossroads, mainId, c, s)
  }

  /** The anchor loop of one group, entered at `mainId`. */
  function FirstAnchor(crossroads: seq<BlockBox>, c: CrossroadShape, mainId: nat): (r: Option<nat>)
    requires mainId <= |crossroads|
    ensures r.Some? ==> mainId <= r.value < |crossroads| && AnyVariantFits(crossroads, r.value, c)
    ensures r.Some? ==> forall m | mainId <= m < r.value :: !AnyVariantFits(crossroads, m, c)
    ensures r.None? <==> forall m | mainId <= m < |crossroads| :: !AnyVariantFits(crossroads, m, c)
    decreases |crossroads| - mainId
  {
    if mainId == |crossroads| then None
    else if FirstVariant(crossroads, mainId, c, 0).Some? then
      assert AnyVariantFits(crossroads, mainId, c) by {
        assert AnchorFits(crossroads, mainId, c, FirstVariant(crossroads, mainId, c, 0).value);
      }
      Some(mainId)
    else FirstAnchor(crossroads, c, mainId + 1)
  }

  /** The size guard in front of the anchor loop. */
  predicate LargeEnough(group: HeightGroup, c: CrossroadShape) {
    |group.crossroads| > Variants(c).offsetsCount
  }

  /** The group loop, entered at `heightId`. */
  function FirstGroup(groups: seq<HeightGroup>, c: CrossroadShape, heightId: nat): (r: Option<Location>)
    requires heightId <= |groups|
    decreases |groups| - heightId
  {
    if heightId == |groups| then None
    else if !LargeEnough(groups[heightId], c) then FirstGroup(groups, c, heightId + 1)
    else match FirstAnchor(groups[heightId].crossroads, c, 0)
      case Some(mainId) => Some(CornerOf(groups[heightId].crossroads[mainId]))
      case None => FirstGroup(groups, c, heightId + 1)
  }

  /** One iteration of the three nested loops: a group, an anchor in it
      and a variant. */
  datatype Attempt = Attempt(heightId: nat, mainId: nat, shapeId: nat)

  /** The loops would report at attempt `a` if they got that far: the group
      passes the size guard and the anchor fits the variant. */
  predicate Succeeds(groups: seq<HeightGroup>, c: CrossroadShape, a: Attempt) {
    && a.heightId < |groups|
    && LargeEnough(groups[a.heightId], c)
    && a.mainId < |groups[a.heightId].crossroads|
    && a.shapeId < Variants(c).shapesCount
    && AnchorFits(groups[a.heightId].crossroads, a.mainId, c, a.shapeId)
  }

  /** The order the loops visit attempts in: groups, then anchors, then
      variants. */
  predicate Before(a: Attempt, b: Attempt) {
    || a.heightId < b.heightId
    || (a.heightId == b.heightId && a.mainId < b.mainId)
    || (a.heightId == b.heightId && a.mainId == b.mainId && a.shapeId < b.shapeId)
  }

  /** The anchor and variant loops of one group: when they find nothing no
      anchor fits any variant; when they stop at anchor `m` its first
      fitting variant is found and no earlier anchor fits any variant. */
  lemma GroupSearch(crossroads: seq<BlockBox>, c: CrossroadShape)
    ensures FirstAnchor(crossroads, c, 0).None? ==>
      forall m: nat, s: nat | m < |crossroads| && s < Variants(c).shapesCount :: !AnchorFits(crossroads, m, c, s)
    ensures FirstAnchor(crossroads, c, 0).Some? ==>
      var m := FirstAnchor(crossroads, c, 0).value;
      && FirstVariant(crossroads, m, c, 0).Some?
      && forall m': nat, s: nat | m' < m && s < Variants(c).shapesCount :: !AnchorFits(crossroads, m', c, s)
  {
    var found := FirstAnchor(crossroads, c, 0);
    if found.Some? {
      var m := found.value;
      assert AnyVariantFits(crossroads, m, c);
      forall m': nat, s: nat | m' < m && s < Variants(c).shapesCount
        ensures !AnchorFits(crossroads, m', c, s)
      {
        assert !AnyVariantFits(crossroads, m', c);
      }
    } else {
      forall m: nat, s: nat | m < |crossroads| && s < Variants(c).shapesCount
        ensures !AnchorFits(crossroads, m, c, s)
      {
        assert !AnyVariantFits(crossroads, m, c);
      }
    }
  }

  /** The group loop from `heightId` on finds nothing exactly when no
      attempt in that range succeeds. */
  lemma {:induction false} FirstGroupNone(groups: seq<HeightGroup>, c: CrossroadShape, heightId: nat)
    requires heightId <= |groups|
    ensures FirstGroup(groups, c, heightId).None? <==>
      forall a | Succeeds(groups, c, a) :: a.heightId < heightId
    decreases |groups| - heightId
  {
    if heightId < |groups| {
      FirstGroupNone(groups, c, heightId + 1);
      var group := groups[heightId];
      if LargeEnough(group, c) && FirstAnchor(group.crossroads, c, 0).Some? {
        FoundInThisGroup(groups, c, heightId);
      } else {
        NoSuccessInGroup(groups, c, heightId);
      }
    }
  }

  /** A group the loop passes over holds no successful attempt. */
  lemma NoSuccessInGroup(groups: seq<HeightGroup>, c: CrossroadShape, heightId: nat)
    requires heightId < |groups|
    requires !(LargeEnough(groups[heightId], c) && FirstAnchor(groups[heightId].crossroads, c, 0).Some?)
    ensures forall a | Succeeds(groups, c, a) :: a.heightId != heightId
  {
    GroupSearch(groups[heightId].crossroads, c);
  }

  /** `a` succeeds and no successful attempt from group `heightId` on
      comes before it. */
  ghost predicate FirstSuccessFrom(groups: seq<HeightGroup>, c: CrossroadShape, heightId: nat, a: Attempt) {
    && Succeeds(groups, c, a)
    && heightId <= a.heightId
    && forall b | Succeeds(groups, c, b) && heightId <= b.heightId :: !Before(b, a)
  }

  /** When the group loop from `heightId` on reports a corner, it is the
      anchor's of the first successful attempt in that range. */
  lemma {:induction false} FirstGroupSome(groups: seq<HeightGroup>, c: CrossroadShape, heightId: nat)
    requires heightId <= |groups|
    requires FirstGroup(groups, c, heightId).Some?
    ensures exists a | FirstSuccessFrom(groups, c, heightId, a) ::
      FirstGroup(groups, c, heightId).value == CornerOf(groups[a.heightId].crossroads[a.mainId])
    decreases |groups| - heightId
  {
    var group := groups[heightId];
    if LargeEnough(group, c) && FirstAnchor(group.crossroads, c, 0).Some? {
      FoundInThisGroup(groups, c, heightId);
    } else {
      FirstGroupSome(groups, c, heightId + 1);
      var a :| FirstSuccessFrom(groups, c, heightId + 1, a)
        && FirstGroup(groups, c, heightId + 1).value == CornerOf(groups[a.heightId].crossroads[a.mainId]);
      NothingInThisGroup(groups, c, heightId, a);
    }
  }

  /** The anchor loop of group `heightId` stops at the first success from
      that group on. */
  lemma FoundInThisGroup(groups: seq<HeightGroup>, c: CrossroadShape, heightId: nat)
    requires heightId < |groups|
    requires LargeEnough(groups[heightId], c) && FirstAnchor(groups[heightId].crossroads, c, 0).Some?
    ensures var m := FirstAnchor(groups[heightId].crossroads, c, 0).value;
      && FirstVariant(groups[heightId].crossroads, m, c, 0).Some?
      && FirstSuccessFrom(groups, c, heightId, Attempt(heightId, m, FirstVariant(groups[heightId].crossroads, m, c, 0).value))
  {
    GroupSearch(groups[heightId].crossroads, c);
  }

  /** A group the loop passes over adds no success before later ones. */
  lemma NothingInThisGroup(groups: seq<HeightGroup>, c: CrossroadShape, heightId: nat, a: Attempt)
    requires heightId < |groups|
    requires !(LargeEnough(groups[heightId], c) && FirstAnchor(groups[heightId].crossroads, c, 0).Some?)
    requires FirstSuccessFrom(groups, c, heightId + 1, a)
    ensures FirstSuccessFrom(groups, c, heightId, a)
  {
    NoSuccessInGroup(groups, c, heightId);
  }

  /** `processRegion` on the generator's output for one region. Nothing is
      reported exactly when no attempt succeeds; otherwise the corner of the
      anchor of the first successful attempt in loop order is. */
  function ProcessRegion(pieces: seq<Piece>, maxY: int, c: CrossroadShape): (r: Option<Location>)
    ensures |pieces| == 0 ==> r.None?
    ensures r.None? <==> forall a :: !Succeeds(GroupByHeight(pieces, maxY), c, a)
    ensures r.Some? ==>
      var groups := GroupByHeight(pieces, maxY);
      exists a | FirstSuccessFrom(groups, c, 0, a) :: r.value == CornerOf(groups[a.heightId].crossroads[a.mainId])
  {
    FirstGroupNone(GroupByHeight(pieces, maxY), c, 0);
    if |pieces| == 0 then None
    else if FirstGroup(GroupByHeight(pieces, maxY), c, 0).None? then None
    else
      FirstGroupSome(GroupByHeight(pieces, maxY), c, 0);
      FirstGroup(GroupByHeight(pieces, maxY), c, 0)
  }
}
