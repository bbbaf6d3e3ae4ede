/** The two overlap passes touch every sample exactly once, so their filters never meet. */
module ExactTiling {
  import opened Wrappers
  import opened Memory
  import opened Phases
  import opened Overlap
  import opened Regions
  import opened Tiling
  import opened Passes

  /** How many records of a list touch an address. */
  ghost function TouchCount(works: seq<Work>, i: nat): nat {
    if works == [] then 0 else (if i in Addresses(works[0]) then 1 else 0) + TouchCount(works[1..], i)
  }

  lemma {:induction false} CoverMember(tiles: seq<Tile>, k: nat, x: nat, y: nat)
    requires k < |tiles| && Covers(tiles[k], x, y)
    ensures Cover(tiles, x, y) >= 1
  {
    if k > 0 {
      CoverMember(tiles[1..], k - 1, x, y);
    }
  }

  lemma {:induction false} TouchMember(works: seq<Work>, k: nat, i: nat)
    requires k < |works| && i in Addresses(works[k])
    ensures TouchCount(works, i) >= 1
  {
    hide Addresses;
    if k > 0 {
      TouchMember(works[1..], k - 1, i);
    }
  }

  lemma {:induction false} TouchTwice(works: seq<Work>, j: nat, k: nat, i: nat)
    requires j < k < |works| && i in Addresses(works[j]) && i in Addresses(works[k])
    ensures TouchCount(works, i) >= 2
  {
    hide Addresses;
    if j > 0 {
      TouchTwice(works[1..], j - 1, k - 1, i);
    } else {
      TouchMember(works[1..], k - 1, i);
    }
  }

  ghost predicate AllInPlane(tiles: seq<Tile>, width: nat, height: nat) {
    forall k :: 0 <= k < |tiles| ==> InPlane(tiles[k], width, height)
  }

  lemma EncodedTail(at: Layout, tiles: seq<Tile>, works: seq<Work>)
    requires EncodeAll(at, tiles) == Some(works) && tiles != []
    ensures Encode(at, tiles[0]) == Some(works[0]) && EncodeAll(at, tiles[1..]) == Some(works[1..])
  {
    hide Encode;
    assert EncodeAll(at, tiles[1..]).value == works[1..];
  }

  /** An address is touched as often as its cell is covered. */
  lemma {:induction false} TouchesAreCovers(at: Layout, tiles: seq<Tile>, works: seq<Work>, height: nat, x: nat, y: nat)
    requires at.stride > 0 && x < at.stride
    requires EncodeAll(at, tiles) == Some(works) && AllInPlane(tiles, at.stride, height)
    ensures TouchCount(works, Index(at, x, y)) == Cover(tiles, x, y)
    decreases |tiles|
  {
    if tiles != [] {
      hide Addresses, Encode, Index, EncodeAll;
      EncodedTail(at, tiles, works);
      EncodedTouches(at, tiles[0], works[0], height, x, y);
      TouchesAreCovers(at, tiles[1..], works[1..], height, x, y);
    }
  }

  lemma EncodedValid(at: Layout, t: Tile, w: Work, height: nat)
    requires at.stride > 0 && Encode(at, t) == Some(w) && InPlane(t, at.stride, height)
    requires t.Residual? || t.Restore? ==> t.source != t.x
    ensures ValidWork(w)
  {
    assert Covers(t, t.x, t.y);
    match t
    case Block(a, b) => assert Covers(t, a + 3, b);
    case Column(_, _) =>
    case Row(_, _) =>
    case Corner(a, b) => assert Covers(t, a + 1, b);
    case Square(a, b) => assert Covers(t, a + 1, b);
    case Upright(a, b) => SameCell(at.stride, a, b, a, b + 1);
    case Level(a, b) => assert Covers(t, a + 1, b); SameCell(at.stride, a, b, a + 1, b);
    case Residual(a, b, source) => assert Covers(t, source, b); SameCell(at.stride, a, b, source, b);
    case Restore(a, b, source) => assert Covers(t, source, b); SameCell(at.stride, a, b, source, b);
  }

  lemma IndexInPlane(at: Layout, x: nat, y: nat, height: nat)
    requires x < at.stride
    ensures at.offset <= Index(at, x, y)
    ensures y < height <==> Index(at, x, y) < at.offset + at.stride * height
  {
    if y < height {
      RowsFit(at.stride, y, height);
    } else {
      RowsPast(at.stride, y, height);
    }
  }

  lemma RowsPast(stride: nat, y: nat, height: nat)
    requires y >= height
    ensures y * stride >= stride * height
  {
    RowsBeyond(y - height, stride);
    assert y * stride == stride * height + (y - height) * stride;
  }

  lemma RowsFit(stride: nat, y: nat, height: nat)
    requires y < height
    ensures y * stride + stride <= stride * height
  {
    RowsBeyond(height - y - 1, stride);
    assert stride * height == y * stride + stride + (height - y - 1) * stride;
  }

  lemma RowsBeyond(rows: nat, stride: nat)
    ensures rows * stride >= 0
  {}

  lemma AtLeastFirst(w: Work, i: nat)
    requires i in Addresses(w)
    ensures i >= w.first || (i == w.second && w.kind >= 4)
  {}

  lemma EncodedAtLeast(at: Layout, t: Tile, w: Work, i: nat)
    requires Encode(at, t) == Some(w) && i in Addresses(w)
    ensures i >= at.offset
  {
    hide Addresses, Index;
    AtLeastFirst(w, i);
    forall x: nat, y: nat
      ensures Index(at, x, y) >= at.offset
    {
      IndexAtLeast(at, x, y);
    }
  }

  lemma IndexAtLeast(at: Layout, x: nat, y: nat)
    ensures Index(at, x, y) >= at.offset
  {
    assert y * at.stride >= 0;
  }

  /** Every address of a record lies in its plane's range. */
  lemma EncodedInRange(at: Layout, t: Tile, w: Work, height: nat, i: nat)
    requires at.stride > 0 && Encode(at, t) == Some(w) && InPlane(t, at.stride, height) && i in Addresses(w)
    ensures at.offset <= i < at.offset + at.stride * height
  {
    hide Addresses, Encode;
    EncodedAtLeast(at, t, w, i);
    var x, y := CellOf(at, i);
    hide Index;
    EncodedTouches(at, t, w, height, x, y);
    IndexInPlane(at, x, y, height);
  }

  /**
   A work list that is sound for a plane: addresses are distinct within each record, stay in the
   plane's range, and no address belongs to two records.
   */
  ghost predicate SoundPass(works: seq<Work>, low: nat, high: nat) {
    && (forall k :: 0 <= k < |works| ==> ValidWork(works[k]))
    && (forall k, i: nat :: 0 <= k < |works| && i in Addresses(works[k]) ==> low <= i < high)
    && (forall j, k, i: nat :: 0 <= j < k < |works| && i in Addresses(works[j]) ==> i !in Addresses(works[k]))
  }

  lemma SoundFromCover(at: Layout, tiles: seq<Tile>, works: seq<Work>, height: nat)
    requires at.stride > 0
    requires EncodeAll(at, tiles) == Some(works) && AllInPlane(tiles, at.stride, height)
    requires forall k :: 0 <= k < |tiles| && (tiles[k].Residual? || tiles[k].Restore?) ==> tiles[k].source != tiles[k].x
    requires forall x: nat, y: nat :: Cover(tiles, x, y) <= 1
    ensures SoundPass(works, at.offset, at.offset + at.stride * height)
  {
    hide Addresses, Encode, Index;
    forall k | 0 <= k < |works|
      ensures ValidWork(works[k])
    {
      EncodedValid(at, tiles[k], works[k], height);
    }
    forall k, i: nat | 0 <= k < |works| && i in Addresses(works[k])
      ensures at.offset <= i < at.offset + at.stride * height
    {
      EncodedInRange(at, tiles[k], works[k], height, i);
    }
    forall j, k, i: nat | 0 <= j < k < |works| && i in Addresses(works[j])
      ensures i !in Addresses(works[k])
    {
      if i in Addresses(works[k]) {
        TouchTwice(works, j, k, i);
        var x, y := CellOf(at, i);
        TouchesAreCovers(at, tiles, works, height, x, y);
      }
    }
  }

  /** The records of a sound pass are independent device items. */
  lemma SoundIndependent(works: seq<Work>, fits: Fitting, low: nat, high: nat, size: nat)
    requires SoundPass(works, low, high) && high <= size
    ensures ValidWorks(works, size)
    ensures ValidItems(WorkItems(works, fits), size) && Independent(WorkItems(works, fits))
  {
    hide Addresses;
    forall k | 0 <= k < |works|
      ensures Within(Addresses(works[k]), size)
    {
      forall p | 0 <= p < |Addresses(works[k])|
        ensures Addresses(works[k])[p] < size
      {
        assert Addresses(works[k])[p] in Addresses(works[k]);
      }
    }
    WorkItemsValid(works, fits, size);
    var items := WorkItems(works, fits);
    forall j, k, cell: nat | 0 <= j < |items| && 0 <= k < |items| && j != k && cell in items[j].stores
      ensures cell !in items[k].stores && cell !in items[k].loads
    {
      DestinationsAreAddresses(works[j], cell);
      if cell in items[k].stores {
        DestinationsAreAddresses(works[k], cell);
      }
    }
  }

  lemma DestinationsAreAddresses(w: Work, cell: nat)
    requires cell in Destinations(w)
    ensures cell in Addresses(w)
  {
    assert 5 <= w.kind <= 6 ==> Addresses(w)[0] == w.first;
  }

  // ---- Full passes ----

  lemma {:induction false} AllFullCover(regions: seq<Region>, x: nat, y: nat)
    requires LargeEnough(regions) && Grained(regions, 4)
    ensures Cover(AllFullTiles(regions), x, y) == InsideCount(regions, x, y)
  {
    if regions != [] {
      hide FullTiles;
      FullRegionCover(regions[0], x, y);
      AllFullCover(regions[1..], x, y);
      CoverConcat(FullTiles(regions[0]), AllFullTiles(regions[1..]), x, y);
    }
  }

  /** The tiles of the filter phase are not corner residuals. */
  ghost predicate Filters(tiles: seq<Tile>) {
    forall k :: 0 <= k < |tiles| ==> !tiles[k].Residual? && !tiles[k].Restore?
  }

  lemma FiltersConcat(a: seq<Tile>, b: seq<Tile>)
    requires Filters(a) && Filters(b)
    ensures Filters(a + b)
  {}

  lemma {:induction false} InteriorFilters(r: Region, x: nat, y: nat)
    ensures Filters(Interior(r, x, y))
    decreases r.bottom - y, r.right - x
  {
    if y + 2 < r.bottom {
      if x + 2 < r.right { InteriorFilters(r, x + 4, y); } else { InteriorFilters(r, r.left + 2, y + 4); }
    }
  }

  lemma {:induction false} SideColumnsFilters(r: Region, y: nat)
    requires r.right >= 2
    ensures Filters(SideColumns(r, y))
    decreases r.bottom - y
  {
    if y + 2 < r.bottom { SideColumnsFilters(r, y + 4); }
  }

  lemma {:induction false} SideRowsFilters(r: Region, x: nat)
    requires r.bottom >= 2
    ensures Filters(SideRows(r, x))
    decreases r.right - x
  {
    if x + 2 < r.right { SideRowsFilters(r, x + 4); }
  }

  lemma {:induction false} FullTilesFilters(regions: seq<Region>)
    requires LargeEnough(regions)
    ensures Filters(AllFullTiles(regions))
  {
    if regions != [] {
      var r := regions[0];
      InteriorFilters(r, r.left + 2, r.top + 2);
      SideColumnsFilters(r, r.top + 2);
      SideRowsFilters(r, r.left + 2);
      FullTilesFilters(regions[1..]);
      var interior, columns := Interior(r, r.left + 2, r.top + 2), SideColumns(r, r.top + 2);
      var rows, corners := SideRows(r, r.left + 2), Corners(r);
      assert Filters(corners);
      hide Filters, Interior, SideColumns, SideRows, Corners;
      FiltersConcat(interior, columns);
      FiltersConcat(interior + columns, rows);
      FiltersConcat(interior + columns + rows, corners);
      FiltersConcat(FullTiles(r), AllFullTiles(regions[1..]));
    }
  }

  /** The records touch every address of the range exactly once, and no other. */
  ghost predicate EachOnce(works: seq<Work>, from: nat, end: nat) {
    forall i: nat :: TouchCount(works, i) == if from <= i < end then 1 else 0
  }

  /** The full schedule of regions that cut up a plane touches each sample of the plane once, and nothing else. */
  lemma FullTiling(at: Layout, regions: seq<Region>, height: nat)
    requires at.stride > 0 && LargeEnough(regions) && Grained(regions, 4)
    requires forall x: nat, y: nat :: InsideCount(regions, x, y) == if x < at.stride && y < height then 1 else 0
    requires FullSchedule(at, regions).Some?
    ensures var s, end := FullSchedule(at, regions).value, at.offset + at.stride * height;
      s.prefix == [] && s.suffix == [] && SoundPass(s.filters, at.offset, end) && EachOnce(s.filters, at.offset, end)
  {
    hide Addresses, Encode, Index, EncodeAll;
    var tiles := AllFullTiles(regions);
    var works := FullSchedule(at, regions).value.filters;
    forall x: nat, y: nat
      ensures Cover(tiles, x, y) == if x < at.stride && y < height then 1 else 0
    {
      AllFullCover(regions, x, y);
    }
    TilesInPlane(tiles, at.stride, height);
    FullTilesFilters(regions);
    assert |works| == |tiles|;
    SoundFromCover(at, tiles, works, height);
    TouchesThePlane(at, tiles, works, height);
  }

  lemma TilesInPlane(tiles: seq<Tile>, width: nat, height: nat)
    requires forall x: nat, y: nat :: !(x < width && y < height) ==> Cover(tiles, x, y) == 0
    ensures AllInPlane(tiles, width, height)
  {
    forall k, x: nat, y: nat | 0 <= k < |tiles| && Covers(tiles[k], x, y)
      ensures x < width && y < height
    {
      CoverMember(tiles, k, x, y);
    }
  }

  lemma TouchesThePlane(at: Layout, tiles: seq<Tile>, works: seq<Work>, height: nat)
    requires at.stride > 0
    requires EncodeAll(at, tiles) == Some(works) && AllInPlane(tiles, at.stride, height)
    requires SoundPass(works, at.offset, at.offset + at.stride * height)
    requires forall x: nat, y: nat :: Cover(tiles, x, y) == if x < at.stride && y < height then 1 else 0
    ensures forall i: nat :: TouchCount(works, i) == if at.offset <= i < at.offset + at.stride * height then 1 else 0
  {
    hide Addresses, Encode, EncodeAll, Index;
    forall i: nat
      ensures TouchCount(works, i) == if at.offset <= i < at.offset + at.stride * height then 1 else 0
    {
      if i >= at.offset {
        var x, y := CellOf(at, i);
        TouchesAreCovers(at, tiles, works, height, x, y);
        IndexInPlane(at, x, y, height);
      } else {
        Untouched(works, i);
      }
    }
  }

  lemma {:induction false} Untouched(works: seq<Work>, i: nat)
    requires forall k :: 0 <= k < |works| ==> i !in Addresses(works[k])
    ensures TouchCount(works, i) == 0
  {
    hide Addresses;
    if works != [] {
      forall k | 0 <= k < |works[1..]|
        ensures works[1..][k] == works[k + 1]
      {}
      Untouched(works[1..], i);
    }
  }

  /** What the tile partition of a coded image guarantees: no tile is empty. */
  ghost predicate TileGrid(tileColumns: seq<nat>, tileRows: seq<nat>) {
    Positive(tileColumns) && Positive(tileRows)
  }

  /**
   The second pass touches every sample of the plane exactly once, whatever the window, tile partition
   and tiling mode.
   */
  lemma SecondPassTiling(p: Plane, hard: bool, tileColumns: seq<nat>, tileRows: seq<nat>)
    requires ValidPlane(p) && TileGrid(tileColumns, tileRows)
    requires SecondSchedule(p, hard, tileColumns, tileRows).Some?
    ensures var s := SecondSchedule(p, hard, tileColumns, tileRows).value;
      var end := p.sampleOffset + p.sampleWidth * p.sampleHeight;
      s.prefix == [] && s.suffix == [] && SoundPass(s.filters, p.sampleOffset, end) && EachOnce(s.filters, p.sampleOffset, end)
  {
    hide TileRegions, FullSchedule, SoundPass, TouchCount;
    var horizontal, vertical := p.blockColumns * 4, p.blockRows * 4;
    var regions := TileRegions(p, hard, tileColumns, tileRows, horizontal, vertical).value;
    RegionsLarge(p, hard, tileColumns, tileRows, horizontal, vertical);
    RegionsPartition(p, hard, tileColumns, tileRows, horizontal, vertical, 4);
    FullTiling(SampleLayout(p), regions, p.sampleHeight);
  }

  /** The first pass of a 4-by-4-block plane touches every low-pass coefficient exactly once. */
  lemma FirstPassTiling(p: Plane, hard: bool, tileColumns: seq<nat>, tileRows: seq<nat>)
    requires ValidPlane(p) && p.blockColumns == 4 && TileGrid(tileColumns, tileRows)
    requires FirstSchedule(p, hard, tileColumns, tileRows).Some?
    ensures var s := FirstSchedule(p, hard, tileColumns, tileRows).value;
      var end := p.lowOffset + (p.macroblocksX * 4) * (p.macroblocksY * 4);
      s.prefix == [] && s.suffix == [] && SoundPass(s.filters, p.lowOffset, end) && EachOnce(s.filters, p.lowOffset, end)
  {
    hide TileRegions, FullSchedule, SoundPass, TouchCount;
    var regions := TileRegions(p, hard, tileColumns, tileRows, 4, 4).value;
    RegionsLarge(p, hard, tileColumns, tileRows, 4, 4);
    RegionsPartition(p, hard, tileColumns, tileRows, 4, 4, 4);
    FullTiling(LowLayout(p), regions, p.macroblocksY * 4);
  }

  // ---- Subsampled passes ----

  ghost function CornerCount(regions: seq<Region>, x: nat, y: nat): nat {
    if regions == [] then 0
    else (if Inside(regions[0], x, y) && AtCorner(regions[0], x, y) then 1 else 0) + CornerCount(regions[1..], x, y)
  }

  lemma {:induction false} AllSubsampledCover(regions: seq<Region>, x: nat, y: nat)
    requires LargeEnough(regions) && Grained(regions, 2)
    ensures Cover(AllSubsampledTiles(regions), x, y) + CornerCount(regions, x, y) == InsideCount(regions, x, y)
  {
    if regions != [] {
      hide SubsampledTiles;
      SubsampledRegionCover(regions[0], x, y);
      AllSubsampledCover(regions[1..], x, y);
      CoverConcat(SubsampledTiles(regions[0]), AllSubsampledTiles(regions[1..]), x, y);
    }
  }

  lemma {:induction false} SquaresFilters(r: Region, x: nat, y: nat)
    requires x >= 1 && y >= 1
    ensures Filters(Squares(r, x, y))
    decreases r.bottom - y, r.right - x
  {
    if y < r.bottom {
      if x < r.right { SquaresFilters(r, x + 2, y); } else { SquaresFilters(r, r.left + 2, y + 2); }
    }
  }

  lemma {:induction false} UprightsFilters(r: Region, y: nat)
    requires y >= 1 && r.right >= 1
    ensures Filters(Uprights(r, y))
    decreases r.bottom - y
  {
    if y < r.bottom { UprightsFilters(r, y + 2); }
  }

  lemma {:induction false} LevelsFilters(r: Region, x: nat)
    requires x >= 1 && r.bottom >= 1
    ensures Filters(Levels(r, x))
    decreases r.right - x
  {
    if x < r.right { LevelsFilters(r, x + 2); }
  }

  lemma {:induction false} SubsampledTilesFilters(regions: seq<Region>)
    requires LargeEnough(regions)
    ensures Filters(AllSubsampledTiles(regions))
  {
    if regions != [] {
      var r := regions[0];
      SquaresFilters(r, r.left + 2, r.top + 2);
      UprightsFilters(r, r.top + 2);
      LevelsFilters(r, r.left + 2);
      SubsampledTilesFilters(regions[1..]);
      hide Filters, Squares, Uprights, Levels;
      FiltersConcat(Squares(r, r.left + 2, r.top + 2), Uprights(r, r.top + 2));
      FiltersConcat(Squares(r, r.left + 2, r.top + 2) + Uprights(r, r.top + 2), Levels(r, r.left + 2));
      FiltersConcat(SubsampledTiles(r), AllSubsampledTiles(regions[1..]));
    }
  }

  /** A subsampled schedule's filters touch each sample once, except the corners of the regions. */
  lemma SubsampledTiling(at: Layout, regions: seq<Region>, height: nat)
    requires at.stride > 0 && LargeEnough(regions) && Grained(regions, 2)
    requires forall x: nat, y: nat :: InsideCount(regions, x, y) == if x < at.stride && y < height then 1 else 0
    requires SubsampledSchedule(at, regions).Some?
    ensures var s := SubsampledSchedule(at, regions).value;
      && SoundPass(s.filters, at.offset, at.offset + at.stride * height)
      && forall x: nat, y: nat :: x < at.stride ==>
           TouchCount(s.filters, Index(at, x, y)) + CornerCount(regions, x, y) == if y < height then 1 else 0
  {
    hide Addresses, Encode, Index, EncodeAll;
    var tiles := AllSubsampledTiles(regions);
    var works := SubsampledSchedule(at, regions).value.filters;
    forall x: nat, y: nat
      ensures Cover(tiles, x, y) + CornerCount(regions, x, y) == if x < at.stride && y < height then 1 else 0
    {
      AllSubsampledCover(regions, x, y);
    }
    TilesInPlane(tiles, at.stride, height);
    SubsampledTilesFilters(regions);
    SoundFromCover(at, tiles, works, height);
    forall x: nat, y: nat | x < at.stride
      ensures TouchCount(works, Index(at, x, y)) + CornerCount(regions, x, y) == if y < height then 1 else 0
    {
      TouchesAreCovers(at, tiles, works, height, x, y);
    }
  }

  // ---- Corner residuals ----

  ghost predicate WideEnough(regions: seq<Region>) {
    forall k :: 0 <= k < |regions| ==> regions[k].left + 4 <= regions[k].right
  }

  lemma ResidualsCover(r: Region, x: nat, y: nat)
    requires GrainedRegion(r, 2)
    ensures Cover(Residuals(r), x, y) == Cover(Restores(r), x, y)
    ensures Cover(Residuals(r), x, y) <= if Inside(r, x, y) then 2 else 0
    ensures r.left + 4 <= r.right ==> Cover(Residuals(r), x, y) <= if Inside(r, x, y) then 1 else 0
  {
    var a, b := Residuals(r), Restores(r);
    CoverFour(a[0], a[1], a[2], a[3], x, y);
    CoverFour(b[0], b[1], b[2], b[3], x, y);
    hide Cover;
  }

  lemma {:induction false} AllResidualsCover(regions: seq<Region>, x: nat, y: nat)
    requires LargeEnough(regions) && Grained(regions, 2)
    ensures Cover(AllResiduals(regions), x, y) == Cover(AllRestores(regions), x, y)
    ensures Cover(AllResiduals(regions), x, y) <= 2 * InsideCount(regions, x, y)
    ensures WideEnough(regions) ==> Cover(AllResiduals(regions), x, y) <= InsideCount(regions, x, y)
  {
    if regions != [] {
      hide Residuals, Restores;
      ResidualsCover(regions[0], x, y);
      AllResidualsCover(regions[1..], x, y);
      CoverConcat(Residuals(regions[0]), AllResiduals(regions[1..]), x, y);
      CoverConcat(Restores(regions[0]), AllRestores(regions[1..]), x, y);
      assert WideEnough(regions) ==> WideEnough(regions[1..]) && regions[0].left + 4 <= regions[0].right;
      hide Cover;
    }
  }

  lemma {:induction false} ResidualSources(regions: seq<Region>)
    requires LargeEnough(regions)
    ensures forall k :: 0 <= k < |AllResiduals(regions)| ==>
      AllResiduals(regions)[k].Residual? && AllResiduals(regions)[k].source != AllResiduals(regions)[k].x
    ensures forall k :: 0 <= k < |AllRestores(regions)| ==>
      AllRestores(regions)[k].Restore? && AllRestores(regions)[k].source != AllRestores(regions)[k].x
  {
    if regions != [] {
      ResidualSources(regions[1..]);
    }
  }

  /** The corner records have distinct addresses inside the plane, whatever the width of the regions. */
  lemma ResidualsValid(at: Layout, regions: seq<Region>, height: nat, size: nat)
    requires at.stride > 0 && LargeEnough(regions) && Grained(regions, 2)
    requires forall x: nat, y: nat :: InsideCount(regions, x, y) == if x < at.stride && y < height then 1 else 0
    requires SubsampledSchedule(at, regions).Some? && at.offset + at.stride * height <= size
    ensures AllInPlane(AllResiduals(regions), at.stride, height) && AllInPlane(AllRestores(regions), at.stride, height)
    ensures var s := SubsampledSchedule(at, regions).value; ValidWorks(s.prefix, size) && ValidWorks(s.suffix, size)
  {
    hide Addresses, EncodeAll, Encode;
    forall x: nat, y: nat
      ensures Cover(AllResiduals(regions), x, y) == Cover(AllRestores(regions), x, y) <= 2 * InsideCount(regions, x, y)
    {
      AllResidualsCover(regions, x, y);
    }
    TilesInPlane(AllResiduals(regions), at.stride, height);
    TilesInPlane(AllRestores(regions), at.stride, height);
    ResidualSources(regions);
    var s := SubsampledSchedule(at, regions).value;
    EncodedWorks(at, AllResiduals(regions), s.prefix, height, size);
    EncodedWorks(at, AllRestores(regions), s.suffix, height, size);
  }

  lemma EncodedWorks(at: Layout, tiles: seq<Tile>, works: seq<Work>, height: nat, size: nat)
    requires at.stride > 0 && EncodeAll(at, tiles) == Some(works) && AllInPlane(tiles, at.stride, height)
    requires forall k :: 0 <= k < |tiles| && (tiles[k].Residual? || tiles[k].Restore?) ==> tiles[k].source != tiles[k].x
    requires at.offset + at.stride * height <= size
    ensures ValidWorks(works, size)
  {
    hide Addresses, Encode, Index;
    forall k | 0 <= k < |works|
      ensures ValidWork(works[k]) && Within(Addresses(works[k]), size)
    {
      EncodedValid(at, tiles[k], works[k], height);
      forall p | 0 <= p < |Addresses(works[k])|
        ensures Addresses(works[k])[p] < size
      {
        assert Addresses(works[k])[p] in Addresses(works[k]);
        EncodedInRange(at, tiles[k], works[k], height, Addresses(works[k])[p]);
      }
    }
  }

  /** On regions at least four samples wide, neither corner phase has two records that meet. */
  lemma ResidualsSound(at: Layout, regions: seq<Region>, height: nat)
    requires at.stride > 0 && LargeEnough(regions) && Grained(regions, 2) && WideEnough(regions)
    requires forall x: nat, y: nat :: InsideCount(regions, x, y) == if x < at.stride && y < height then 1 else 0
    requires SubsampledSchedule(at, regions).Some?
    ensures var s := SubsampledSchedule(at, regions).value;
      && SoundPass(s.prefix, at.offset, at.offset + at.stride * height)
      && SoundPass(s.suffix, at.offset, at.offset + at.stride * height)
  {
    hide EncodeAll;
    var s := SubsampledSchedule(at, regions).value;
    forall x: nat, y: nat
      ensures Cover(AllResiduals(regions), x, y) == Cover(AllRestores(regions), x, y) <= InsideCount(regions, x, y)
    {
      AllResidualsCover(regions, x, y);
    }
    TilesInPlane(AllResiduals(regions), at.stride, height);
    TilesInPlane(AllRestores(regions), at.stride, height);
    ResidualSources(regions);
    SoundFromCover(at, AllResiduals(regions), s.prefix, height);
    SoundFromCover(at, AllRestores(regions), s.suffix, height);
  }
}
