# CrossroadFinder in Dafny

CrossroadFinder searches a Minecraft Nether world for places where several
fortress bridge crossings ("crossroads") form a chosen shape. The program
works region by region. A shared cursor hands the regions of a square scan
range to worker threads. For each region a worker asks the fortress
generator for the structure pieces and runs `processRegion` on them, which
does three things:

- it keeps the bridge crossings no higher than `maxY` and groups them by
  their exact `minY`;
- it tries every crossing of every group large enough to matter as an
  anchor, against every variant of the configured shape;
- it prints the anchor's corner at the first anchor that has a partner
  crossing at enough of the variant's offsets.

This project models that core:

- the `SHAPES` catalogue;
- the height grouping;
- the matcher;
- the region cursor `selectNextRegion`;
- the way `main` turns the search radius and centre into the scan range.

Everything is modelled as pure functions. The properties proved are these:

- The catalogue is well formed, and its variants are exactly the eight
  rotations and mirror images of each shape.
- The one-pass grouping equals a reference grouping.
- `processRegion` reports nothing exactly when no (group, anchor, variant)
  attempt succeeds. Otherwise it reports the anchor of the first successful
  attempt in loop order.
- The size guard and the C `%` grid pre-check never change the outcome.
- `good` counts distinct partners.
- Suppose no two kept crossings share a corner. Then a corner is reported
  exactly when the base shape, in some orientation, lies among the kept
  crossings at one height. The reported corner is one of that shape's cells.
- Call `k` of the cursor hands out the `k`-th region of the scan range in
  row-major order. Every region is handed out once, and every call after
  the last one fails.
- For validated input the scan range fits in `int32_t`. It covers the
  search square when the centre is non-negative. It can miss part of the
  square when the centre is negative (see Findings).

Files:

- `wrappers.dfy`: `Option`.
- `c_arith.dfy`: C's truncating `/` and `%`.
- `counting.dfy`: sequence and set counting facts.
- `shapes.dfy`: the catalogue and the eight grid symmetries.
- `shape_orientations.dfy`: one proof per category and orientation.
- `pieces.dfy`: pieces and bounding boxes.
- `height_groups.dfy`: the grouping pass.
- `matcher.dfy`: the search loops and `ProcessRegion`.
- `matcher_properties.dfy`: partner counting.
- `search_properties.dfy`: soundness and completeness in terms of pieces.
- `placement.dfy`: the orientation theorem.
- `worked_cases.dfy`: three concrete regions.
- `region_cursor.dfy`: the region cursor.
- `search_bounds.dfy`: the scan range.

The fortress generator is a parameter: a region's pieces are an arbitrary
list. `regionSize` is an arbitrary positive number. A region `k` is taken to
hold the blocks `k * S .. k * S + S - 1` with `S = 16 * regionSize`.

The cursor wraps to the next row on `currentRegionZ >= regionMaxZ`, and
the model keeps the `>=`. From a valid start it behaves as `==` would; the
two differ only when `regionMinZ > regionMaxZ`, which `main` never sets up.
`RegionCursor.EmptyRowStillAdvances` shows that case.

## Model

| member | source | states |
|---|---|---|
| Shapes.DoubleWellFormed | main.c:49-60 | the `DOUBLE` row has 2 variants of 1 distinct non-zero grid offset |
| Shapes.TripleLineWellFormed | main.c:62-75 | the `TRIPLE_LINE` row has 2 variants of 2 distinct non-zero grid offsets |
| Shapes.QuadLineWellFormed | main.c:77-92 | the `QUAD_LINE` row has 2 variants of 3 distinct non-zero grid offsets |
| Shapes.QuintLineWellFormed | main.c:94-111 | the `QUINT_LINE` row has 2 variants of 4 distinct non-zero grid offsets |
| Shapes.TripleCornerWellFormed | main.c:113-138 | the `TRIPLE_CORNER` row has 4 variants of 2 distinct non-zero grid offsets |
| Shapes.QuadSquareWellFormed | main.c:140-148 | the `QUAD_SQUARE` row has 1 variant of 3 distinct non-zero grid offsets |
| Shapes.QuintBlobWellFormed | main.c:150-215 | the `QUINT_BLOB` row has 8 variants of 4 distinct non-zero grid offsets |
| Shapes.Variants | main.c:217-225 | the `SHAPES` row of each category, with its `offsetsCount` and `shapesCount`; `CatalogueWellFormed` states what every row satisfies |
| Shapes.CatalogueWellFormed | main.c:217-225 | every row of `SHAPES` has `shapesCount` variants of exactly `offsetsCount` distinct offsets, each a multiple of 19 and after the anchor |
| ShapeOrientations.EveryOrientationIsListed | main.c:49-225 | for each category, each of the eight rotations and mirror images of the base cluster, read from one of its cells, lies on the cells of some variant |
| ShapeOrientations.EveryVariantIsAnOrientation | main.c:49-225 | each variant is the base cluster in some orientation, read from one of its cells |
| CArith.Div | main.c:395-397 | C's `/`: the remainder is smaller than the divisor and has the dividend's sign |
| CArith.Rem | main.c:282 | C's `%`: differs from the dividend by a multiple of the divisor, is smaller than the divisor and has the dividend's sign |
| CArith.DivNegate | main.c:396-397 | C's division is odd in the dividend |
| CArith.DivNonNegative | main.c:395 | on non-negative operands C's `/` is floor division |
| CArith.RemZeroIff | main.c:282 | C's `x % 19 != 0` rejects exactly the non-multiples of 19 |
| HeightGroups.IsCandidate | main.c:250 | the first-pass filter; `Candidates` and `GroupMembersAreCandidates` state that exactly these pieces are grouped |
| HeightGroups.FindHeight | main.c:251-255 | the search loop stops at the first group of the height, or at `heightCount` when there is none |
| HeightGroups.AddCrossing | main.c:251-259 | filing one crossing; `AddCrossingKeepsDescription` states it appends to the group of its height or opens a new group at the end |
| HeightGroups.GroupByHeight | main.c:248-261 | the first pass; `GroupByHeightMatchesReference` states it builds the reference groups of the kept boxes |
| HeightGroups.Candidates | main.c:250 | the kept boxes are exactly the boxes of bridge crossings with `minY <= maxY` |
| HeightGroups.Heights | main.c:251-258 | the reference list of heights is without repeats and holds exactly the kept boxes' heights |
| HeightGroups.WithHeight | main.c:256 | the reference group of a height holds exactly the kept boxes of that height |
| HeightGroups.GroupByHeightMatchesReference | main.c:247-260 | the one-pass grouping lists heights in first-seen order, each with all its kept boxes in piece order |
| HeightGroups.AddCrossingKeepsDescription | main.c:251-258 | filing one more box appends it to its height's group or opens a new group at the end |
| HeightGroups.GroupHeightsDistinct | main.c:251-258 | no two groups have the same height |
| HeightGroups.GroupMembersAreCandidates | main.c:250-256 | every group member is a kept piece's box of the group's height |
| HeightGroups.CandidatesAreGrouped | main.c:250-256 | every kept piece's box is in the group of its height |
| Matcher.Delta | main.c:280-281 | the offset of a crossing from the anchor; `AnchorFitsIffPartnersPresent` states the match in terms of these offsets |
| Matcher.PassesGridCheck | main.c:282 | the `% 19` pre-check; `GridCheckIsRedundant` states it never rejects a crossing the offset loop would count |
| Matcher.Counted | main.c:277-289 | whether a crossing raises `good`; `GridCheckIsRedundant` states it is counted exactly when it is not the anchor and sits on a variant offset |
| Matcher.FirstMatchingOffset | main.c:284-289 | the offset loop breaks at the first offset equal to the difference, and finds none exactly when no offset is equal |
| Matcher.Good | main.c:276-290 | each other crossing adds at most one to `good`, and the anchor adds nothing |
| Matcher.Variant | main.c:273 | every variant examined has `offsetsCount` offsets |
| Matcher.AnchorFits | main.c:291 | the success test `good >= offsetsCount`; `AnchorFitsIffPartnersPresent` states it holds exactly when every offset has a crossing |
| Matcher.FirstVariant | main.c:272-296 | the variant loop stops at the first variant the anchor fits, or fits none |
| Matcher.FirstAnchor | main.c:270-297 | the anchor loop stops at the first anchor that fits some variant, or none fits |
| Matcher.GroupSearch | main.c:270-297 | when the anchor loop ends without a match no anchor fits any variant; when it stops, no earlier anchor fits any |
| Matcher.LargeEnough | main.c:267 | the size guard; `SizeGuardIsRedundant` states a group it skips holds no fitting anchor |
| Matcher.FirstGroup | main.c:265-297 | the group loop; `FirstGroupNone` and `FirstGroupSome` state it finds the first successful attempt from a group on |
| Matcher.FirstGroupNone | main.c:264-298 | the group loop finds nothing exactly when no attempt in its range succeeds |
| Matcher.NoSuccessInGroup | main.c:267 | a group the loop passes over holds no successful attempt |
| Matcher.FirstGroupSome | main.c:264-298 | a reported corner belongs to the anchor of the first successful attempt in loop order |
| Matcher.FoundInThisGroup | main.c:270-297 | the loops stop inside a group at the first success from that group on |
| Matcher.NothingInThisGroup | main.c:264-267 | skipping a group keeps the first success from later groups first |
| Matcher.ProcessRegion | main.c:239-298 | no pieces means no report; nothing is reported exactly when no attempt succeeds; otherwise the first successful attempt's anchor corner is |
| MatcherProperties.PartnerIds | main.c:276-290 | the crossroads that raise `good` are listed, each of them counted |
| MatcherProperties.GoodCountsPartners | main.c:284-289 | `good` is the number of distinct crossroads that raise it: the `break` keeps one from counting twice |
| MatcherProperties.PartnersComplete | main.c:276-290 | every crossroad that raises `good` is among the partners |
| MatcherProperties.SizeGuardIsRedundant | main.c:267 | an anchor that fits a variant is in a group of more than `offsetsCount` crossroads |
| MatcherProperties.GridCheckIsRedundant | main.c:280-289 | a crossroad is counted exactly when it is not the anchor and sits at one of the variant's offsets; the `% 19` pre-check rejects nothing the offset loop would count |
| MatcherProperties.AnchorFitsIffPartnersPresent | main.c:276-291 | with crossroads in distinct columns, an anchor fits a variant exactly when every offset of the variant has a crossroad |
| MatcherProperties.AnchorFitsSound | main.c:291 | `good >= offsetsCount` among crossroads in distinct columns means every offset has a crossroad |
| MatcherProperties.EnoughPartnersCoverOffsets | main.c:276-291 | `offsetsCount` partners at distinct offsets use up all the offsets |
| MatcherProperties.PartnersAtDistinctOffsets | main.c:280-289 | distinct partners in distinct columns sit at distinct offsets of the variant |
| MatcherProperties.AnchorFitsComplete | main.c:276-291 | a crossroad at every offset makes `good` reach `offsetsCount` |
| SearchProperties.WithHeightPositionsDistinct | main.c:251-256 | the boxes of one height with distinct corners are in distinct columns |
| SearchProperties.GroupPositionsDistinct | main.c:251-256 | with distinct corners, each group's crossroads are in distinct columns |
| SearchProperties.InItsGroup | main.c:251-256 | a kept box is in the group whose height it has |
| SearchProperties.PresentClusterIsFound | main.c:239-298 | a kept crossing with kept crossings at its height on every offset of some variant makes the region report a corner |
| SearchProperties.ReportedClusterIsPresent | main.c:291-293 | with distinct corners, the reported corner is a kept crossing's, and kept crossings at its height sit on every offset of some variant |
| Placement.CellsDistinct | main.c:49-225 | a cluster's cells, the anchor and its offsets, are distinct |
| Placement.RelativeInjective | main.c:49-225 | a grid symmetry sends distinct cells to distinct places |
| Placement.ListedExactly | main.c:49-225 | the moved base cluster fills all the cells of the variant it is listed as |
| Placement.MovedCoversAll | main.c:49-225 | moving a cluster into one of the same size, without collisions, reaches every cell |
| Placement.PlacedShapeIsFound | main.c:239-298 | the base shape placed in any of the eight orientations among kept crossings at one height is always reported |
| Placement.PlacedCellsAreCrossings | main.c:276-291 | a placed cluster has a crossing at every offset of its variant, seen from the crossing on the anchor cell |
| Placement.ReportedShapeIsPlaced | main.c:291-293 | with distinct corners, the reported corner is a cell of the base shape placed in some orientation |
| Placement.ClusterGivesPlacement | main.c:49-225 | a cluster of any variant around a kept crossing is the base shape placed in some orientation, with that crossing on one of its cells |
| Placement.ListedClusterIsPlaced | main.c:49-225 | a cluster of variant `s`, where `s` is the base shape moved by `t` and read from cell `q0`, is the base shape placed by `t` with the crossing on `q0` |
| Placement.ClusterIsPlaced | main.c:276-291 | a crossing with partners at a variant's offsets is a cell of a placement of the base shape |
| Placement.FoundIffPlaced | main.c:239-298 | with distinct corners, a corner is reported exactly when the base shape lies among the kept crossings in some orientation |
| WorkedCases.DoubleAlongX | main.c:239-298 | crossings at x = 100 and x = 119 with equal y and z form a `DOUBLE`, reported at the first one's corner |
| WorkedCases.SquareAtOneHeight | main.c:239-298 | four crossings on the cells (0, 0), (0, 19), (19, 0) and (19, 19) at one height form a `QUAD_SQUARE` and are reported |
| WorkedCases.SquareSplitByHeight | main.c:264-267 | the same square with its (19, 0) crossing raised to another height is not reported, because the group of three left fails the size guard |
| RegionCursor.Count | main.c:357-378 | the scan range is empty exactly when `regionMinX > regionMaxX` |
| RegionCursor.SelectNext | main.c:357-378 | a failing call leaves the cursor alone; a reachable cursor stays reachable, and a successful call hands out the region under it and moves it one place on in row-major order |
| RegionCursor.ValidIndex | main.c:368-373 | a reachable cursor is determined by the number of regions before it, which is at most the size of the range |
| RegionCursor.CursorAtValid | main.c:360-373 | the cursor with `i` regions before it is reachable, and is on a region exactly when `i` is below the size of the range |
| RegionCursor.AfterCalls | main.c:357-378 | after `k` calls from `(regionMinX, regionMinZ)` the cursor has `k` regions behind it, or all of them |
| RegionCursor.CallsEnumerateRegions | main.c:357-378 | call `k` hands out the `k`-th region in row-major order while there is one and fails from then on |
| RegionCursor.CellInRange | main.c:365-366 | every region handed out is in the scan range |
| RegionCursor.CellsCoverRange | main.c:357-378 | every region of the scan range is handed out |
| RegionCursor.CellsInRowMajorOrder | main.c:368-373 | regions are handed out in row-major order, so none twice |
| RegionCursor.EmptyRowStillAdvances | main.c:368-370 | with `>=`, a range with no columns still moves to the next row after one region |
| SearchBounds.RegionRadius | main.c:395 | `regionRadius` is at least 1, and the search radius reaches into exactly the regions up to `regionRadius - 1` whole spans away |
| SearchBounds.RegionCenter | main.c:396-397 | the centre region is the centre divided by the region span, rounded toward zero |
| SearchBounds.ScanBounds | main.c:399-402 | the scan range `main` sets up is a proper range |
| SearchBounds.FloorScanBounds | main.c:396-402 | the scan range around the region holding the centre is a proper range |
| SearchBounds.ScanRegionCount | main.c:395-402 | the scan range holds `(2 * regionRadius + 1)^2` regions |
| SearchBounds.FloorBoundsCover | main.c:395-402 | the range around the centre's region covers every block of the search square |
| SearchBounds.SearchSquareVisited | main.c:395-405 | starting the cursor on the corrected range, some call hands out the region of any block in the search square |
| SearchBounds.NonNegativeCenterIsCovered | main.c:395-402 | for a non-negative centre the range `main` sets up covers the search square |
| SearchBounds.CenterRoundsDown | main.c:396-397 | for a non-negative centre the truncated centre region is the region holding the centre |
| SearchBounds.NegativeCenterMissesArea | main.c:396-399 | with radius 15, region size 1 and centre x -31, block -46 lies in region -3, outside the range starting at -2 |
| SearchBounds.BoundsFitInt32 | main.c:343-351 | for validated input, the radius and the bounds, including one step past the last row, fit in `int32_t` |
| SearchBounds.AxisCovered | main.c:395-402 | a block within the radius of the centre is in a region at most `regionRadius` from the centre's |
| SearchBounds.TruncatedRegion | main.c:395-397 | the two C divisions by `regionSize` and 16 of a non-negative value are one floor division by the region span |
| SearchBounds.TruncatedCenter | main.c:396-397 | for a centre of either sign, the truncated centre region has the size of the floor quotient of the centre's magnitude, and the centre's sign |

## Left out

- The fortress generator (`fortressGenerator_generateForRegion`, `fortressGenerator_getRegionSize`) is a foreign call. A region's pieces are an arbitrary list, and `regionSize` is an arbitrary positive number.
- `getInputData` and the input helpers are interactive console I/O. The input ranges they validate appear only as the preconditions of `SearchBounds.BoundsFitInt32`.
- Threads, `thread_main` and the mutex are left out. The lock makes calls to `selectNextRegion` one sequence, so the model is that sequence of calls, whichever thread makes them.
- `printf` of the result and `system("pause")` are output. `ProcessRegion` returns the corner it would print.
- The fixed `[5][5]` arrays `crossroadsByHeight` are not modelled. The model's groups are unbounded lists, so it does not model what happens with more than five heights or five crossings at one height.
- Matcher.Delta: the subtraction `other->minX - main->minX` is taken on unbounded integers. Its `int32_t` overflow is not modelled, because bounding boxes of one region are small.
- RegionCursor.SelectNext: `currentRegionX++` is taken on unbounded integers. `SearchBounds.BoundsFitInt32` shows it stays within `int32_t` for validated input.
- The soundness results (`SearchProperties.ReportedClusterIsPresent`, `Placement.ReportedShapeIsPlaced`, `Placement.FoundIffPlaced`) assume that no two kept crossings share a minimum corner. With two boxes at the same place, one offset can be counted twice.

## Findings

| source | as written | input that shows it | evidently intended | confidence | as-written member | corrected member |
|---|---|---|---|---|---|---|
| main.c:396-399 | the centre region is the centre divided by the region span with C's `/`, which rounds a negative centre up | search radius 15, region size 1, centre x -31: the range starts at region -2, but block -46, 15 blocks from the centre, is in region -3 | the centre region is the region that holds the centre block (floor division), so the range covers the search square | medium, not executed; rests on region `k` holding blocks `16 * regionSize * k` onward | SearchBounds.NegativeCenterMissesArea | SearchBounds.FloorBoundsCover |
