/**
  What the region matcher guarantees: `good` counts distinct partners, the
  size guard and the grid pre-check never change the outcome, a reported
  corner is a kept crossing, and a cluster of the configured shape, in any
  rotation or mirror image, is found exactly when it is there.
*/
module MatcherProperties {
  import opened CArith
  import opened Counting
  import opened Pieces
  import opened Shapes
  import opened HeightGroups
  import opened Matcher

  /** The indices among `0, ..., k - 1` of the crossroads that raise
      `good`, in order. */
  ghost function PartnerIds(crossroads: seq<BlockBox>, mainId: nat, offsets: seq<Offset>, n: nat, k: nat): (ids: seq<nat>)
    requires mainId < |crossroads| && k <= |crossroads| && n <= |offsets|
    ensures forall i | 0 <= i < |ids| :: ids[i] < k && Counted(crossroads, mainId, offsets, n, ids[i])
  {
    if k == 0 then []
    else
      var ids := PartnerIds(crossroads, mainId, offsets, n, k - 1);
      if Counted(crossroads, mainId, offsets, n, k - 1) then ids + [k - 1] else ids
  }

  /** There are exactly `good` partners: the `break` after the first
      matching offset keeps any crossroad from counting twice. */
  lemma {:induction false} GoodCountsPartners(crossroads: seq<BlockBox>, mainId: nat, offsets: seq<Offset>, n: nat, k: nat)
    requires mainId < |crossroads| && k <= |crossroads| && n <= |offsets|
    ensures |PartnerIds(crossroads, mainId, offsets, n, k)| == Good(crossroads, mainId, offsets, n, k)
    ensures Distinct(PartnerIds(crossroads, mainId, offsets, n, k))
  {
    if k > 0 {
      GoodCountsPartners(crossroads, mainId, offsets, n, k - 1);
    }
  }

  /** Every crossroad that raises `good` is listed. */
  lemma {:induction false} PartnersComplete(crossroads: seq<BlockBox>, mainId: nat, offsets: seq<Offset>, n: nat, k: nat, o: nat)
    requires mainId < |crossroads| && k <= |crossroads| && n <= |offsets|
    requires o < k && Counted(crossroads, mainId, offsets, n, o)
    ensures o in PartnerIds(crossroads, mainId, offsets, n, k)
  {
    if o < k - 1 {
      PartnersComplete(crossroads, mainId, offsets, n, k - 1, o);
    }
  }

  /** The size guard in front of the anchor loop never skips a group that
      could match: an anchor can only collect `offsetsCount` partners among
      more than `offsetsCount` crossroads. */
  lemma SizeGuardIsRedundant(crossroads: seq<BlockBox>, mainId: nat, c: CrossroadShape, shapeId: nat)
    requires mainId < |crossroads| && shapeId < Variants(c).shapesCount
    requires AnchorFits(crossroads, mainId, c, shapeId)
    ensures |crossroads| > Variants(c).offsetsCount
  {
  }

  /** Every offset of a variant is a multiple of the grid spacing, so the
      pre-check with C's `%` never rejects a crossroad the offset loop would
      count: a crossroad is counted exactly when it is not the anchor and sits
      at one of the variant's offsets. */
  lemma GridCheckIsRedundant(crossroads: seq<BlockBox>, mainId: nat, c: CrossroadShape, shapeId: nat, otherId: nat)
    requires mainId < |crossroads| && otherId < |crossroads| && shapeId < Variants(c).shapesCount
    ensures Counted(crossroads, mainId, Variant(c, shapeId), Variants(c).offsetsCount, otherId) <==>
      otherId != mainId && Delta(crossroads[mainId], crossroads[otherId]) in Variant(c, shapeId)
  {
    var offsets := Variant(c, shapeId);
    var d := Delta(crossroads[mainId], crossroads[otherId]);
    CatalogueWellFormed(c);
    assert VariantWellFormed(offsets, Variants(c).offsetsCount);
    if d in offsets {
      var k :| 0 <= k < |offsets| && offsets[k] == d;
      assert OnGrid(offsets[k]);
      RemZeroIff(d.x, GRID);
      RemZeroIff(d.z, GRID);
    }
  }

  /** No two crossroads of a group share a column: their `(minX, minZ)`
      differ. */
  predicate PositionsDistinct(crossroads: seq<BlockBox>) {
    forall j, k | 0 <= j < k < |crossroads| ::
      crossroads[j].minX != crossroads[k].minX || crossroads[j].minZ != crossroads[k].minZ
  }

  /** Every offset of `offsets` has a crossroad at it, seen from the
      anchor. */
  ghost predicate PartnersPresent(crossroads: seq<BlockBox>, mainId: nat, offsets: seq<Offset>)
    requires mainId < |crossroads|
  {
    forall d | d in offsets :: exists o | 0 <= o < |crossroads| :: Delta(crossroads[mainId], crossroads[o]) == d
  }

  /** The offsets at which the partners sit. */
  function PartnerDeltas(crossroads: seq<BlockBox>, mainId: nat, ids: seq<nat>): (ds: seq<Offset>)
    requires mainId < |crossroads|
    requires forall i | 0 <= i < |ids| :: ids[i] < |crossroads|
    ensures |ds| == |ids|
    ensures forall i | 0 <= i < |ids| :: ds[i] == Delta(crossroads[mainId], crossroads[ids[i]])
  {
    seq(|ids|, i requires 0 <= i < |ids| => Delta(crossroads[mainId], crossroads[ids[i]]))
  }

  /** When the columns are distinct, an anchor fits a variant exactly when
      each of the variant's offsets has a crossroad at it. */
  lemma AnchorFitsIffPartnersPresent(crossroads: seq<BlockBox>, mainId: nat, c: CrossroadShape, shapeId: nat)
    requires mainId < |crossroads| && shapeId < Variants(c).shapesCount
    requires PositionsDistinct(crossroads)
    ensures AnchorFits(crossroads, mainId, c, shapeId) <==> PartnersPresent(crossroads, mainId, Variant(c, shapeId))
  {
    if AnchorFits(crossroads, mainId, c, shapeId) {
      AnchorFitsSound(crossroads, mainId, c, shapeId);
    }
    if PartnersPresent(crossroads, mainId, Variant(c, shapeId)) {
      AnchorFitsComplete(crossroads, mainId, c, shapeId);
    }
  }

  /** An anchor that collects `offsetsCount` partners among crossroads in
      distinct columns has a partner at every offset: the partners sit at
      distinct offsets of the variant, and there are only `offsetsCount`
      of those. */
  lemma AnchorFitsSound(crossroads: seq<BlockBox>, mainId: nat, c: CrossroadShape, shapeId: nat)
    requires mainId < |crossroads| && shapeId < Variants(c).shapesCount
    requires PositionsDistinct(crossroads)
    requires AnchorFits(crossroads, mainId, c, shapeId)
    ensures PartnersPresent(crossroads, mainId, Variant(c, shapeId))
  {
    CatalogueWellFormed(c);
    assert VariantWellFormed(Variant(c, shapeId), Variants(c).offsetsCount);
    EnoughPartnersCoverOffsets(crossroads, mainId, Variant(c, shapeId));
  }

  /** The counting step of `AnchorFitsSound`, for any list of offsets
      without repeats. */
  lemma EnoughPartnersCoverOffsets(crossroads: seq<BlockBox>, mainId: nat, offsets: seq<Offset>)
    requires mainId < |crossroads|
    requires PositionsDistinct(crossroads) && Distinct(offsets)
    requires Good(crossroads, mainId, offsets, |offsets|, |crossroads|) >= |offsets|
    ensures PartnersPresent(crossroads, mainId, offsets)
  {
    var n := |offsets|;
    var ids := PartnerIds(crossroads, mainId, offsets, n, |crossroads|);
    GoodCountsPartners(crossroads, mainId, offsets, n, |crossroads|);
    var ds := PartnerDeltas(crossroads, mainId, ids);
    PartnersAtDistinctOffsets(crossroads, mainId, offsets, n, ids);
    CoversAll(ds, offsets);
    forall d | d in offsets
      ensures exists o | 0 <= o < |crossroads| :: Delta(crossroads[mainId], crossroads[o]) == d
    {
      var i :| 0 <= i < |ds| && ds[i] == d;
      assert Delta(crossroads[mainId], crossroads[ids[i]]) == d;
    }
  }

  /** Distinct counted crossroads in distinct columns sit at distinct
      offsets of the variant. */
  lemma PartnersAtDistinctOffsets(crossroads: seq<BlockBox>, mainId: nat, offsets: seq<Offset>, n: nat, ids: seq<nat>)
    requires mainId < |crossroads| && n <= |offsets|
    requires PositionsDistinct(crossroads) && Distinct(ids)
    requires forall i | 0 <= i < |ids| :: ids[i] < |crossroads| && Counted(crossroads, mainId, offsets, n, ids[i])
    ensures Distinct(PartnerDeltas(crossroads, mainId, ids))
    ensures forall i | 0 <= i < |ids| :: PartnerDeltas(crossroads, mainId, ids)[i] in offsets
  {
    var ds := PartnerDeltas(crossroads, mainId, ids);
    forall j, k | 0 <= j < k < |ds|
      ensures ds[j] != ds[k]
    {
      assert ids[j] != ids[k];
    }
    forall i | 0 <= i < |ds|
      ensures ds[i] in offsets
    {
      var r := FirstMatchingOffset(ds[i], offsets, n, 0);
      assert offsets[r.value] == ds[i];
    }
  }

  /** An anchor with a crossroad at every offset of a variant collects at
      least `offsetsCount` partners: each offset is non-zero, so its
      crossroad is not the anchor, and distinct offsets come from distinct
      crossroads. */
  lemma AnchorFitsComplete(crossroads: seq<BlockBox>, mainId: nat, c: CrossroadShape, shapeId: nat)
    requires mainId < |crossroads| && shapeId < Variants(c).shapesCount
    requires PartnersPresent(crossroads, mainId, Variant(c, shapeId))
    ensures AnchorFits(crossroads, mainId, c, shapeId)
  {
    var v := Variant(c, shapeId);
    var n := Variants(c).offsetsCount;
    var ids := PartnerIds(crossroads, mainId, v, n, |crossroads|);
    GoodCountsPartners(crossroads, mainId, v, n, |crossroads|);
    var ds := PartnerDeltas(crossroads, mainId, ids);
    CatalogueWellFormed(c);
    assert VariantWellFormed(v, n);
    assert (set x | x in v) <= (set x | x in ds) by {
      forall d | d in v
        ensures d in ds
      {
        var o :| 0 <= o < |crossroads| && Delta(crossroads[mainId], crossroads[o]) == d;
        assert AfterAnchor(d);
        GridCheckIsRedundant(crossroads, mainId, c, shapeId, o);
        PartnersComplete(crossroads, mainId, v, n, |crossroads|, o);
        var i :| 0 <= i < |ids| && ids[i] == o;
        assert ds[i] == d;
      }
    }
    DistinctCard(v);
    SubsetCard(set x | x in v, set x | x in ds);
    SetCardAtMost(ds);
  }
}
