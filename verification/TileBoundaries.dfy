/**
 Hard tiles: the regions of a plane end exactly where the tiles of the image do, and no overlap record reaches from one
 tile into another.
 */
module TileBoundaries {
  import opened Arithmetic
  import opened Wrappers
  import opened Words
  import opened Overlap
  import opened Regions
  import opened Tiling
  import opened Passes
  import opened ExactTiling

  // ---- Boundaries ----

  /** Where the first `k` tiles end, in macroblocks of the image. */
  ghost function Ends(sizes: seq<nat>, k: nat): nat
    requires k <= |sizes|
  {
    if k == 0 then 0 else Ends(sizes, k - 1) + sizes[k - 1]
  }

  /** Some tile from the `i`-th on ends at `v`. */
  ghost predicate EndsAt(sizes: seq<nat>, i: nat, v: nat) {
    exists k: nat :: i < k <= |sizes| && Ends(sizes, k) == v
  }

  ghost predicate EndsFit(sizes: seq<nat>, i: nat) {
    forall k: nat :: i < k <= |sizes| ==> Ends(sizes, k) <= 0xFFFF_FFFF
  }

  lemma {:induction false} BoundariesAccepted(sizes: seq<nat>, i: nat, origin: nat, extent: nat)
    requires i <= |sizes|
    ensures Boundaries(sizes[i..], origin, extent, Ends(sizes, i)).Some? <==>
      EndsFit(sizes, i) && Ends(sizes, |sizes|) >= origin + extent
    decreases |sizes| - i
  {
    if i < |sizes| {
      assert sizes[i..][1..] == sizes[i + 1..];
      var next := Ends(sizes, i + 1);
      assert next == Ends(sizes, i) + sizes[i..][0];
      BoundariesAccepted(sizes, i + 1, origin, extent);
      assert EndsFit(sizes, i) <==> next <= 0xFFFF_FFFF && EndsFit(sizes, i + 1);
    }
  }

  lemma {:induction false} BoundariesListed(sizes: seq<nat>, i: nat, origin: nat, extent: nat, v: nat)
    requires i <= |sizes| && 0 < v < extent && Boundaries(sizes[i..], origin, extent, Ends(sizes, i)).Some?
    ensures v in Boundaries(sizes[i..], origin, extent, Ends(sizes, i)).value <==> EndsAt(sizes, i, origin + v)
    decreases |sizes| - i
  {
    if i < |sizes| {
      assert sizes[i..][1..] == sizes[i + 1..];
      var next := Ends(sizes, i + 1);
      assert next == Ends(sizes, i) + sizes[i..][0];
      BoundariesListed(sizes, i + 1, origin, extent, v);
      assert EndsAt(sizes, i, origin + v) <==> next == origin + v || EndsAt(sizes, i + 1, origin + v);
    }
  }

  lemma AxisAccepted(sizes: seq<nat>, origin: nat, extent: nat)
    ensures ClippedAxis(sizes, origin, extent).Some? <==>
      origin + extent <= 0xFFFF_FFFF && EndsFit(sizes, 0) && Ends(sizes, |sizes|) >= origin + extent
  {
    hide Boundaries, EndsFit;
    assert sizes[0..] == sizes;
    BoundariesAccepted(sizes, 0, origin, extent);
  }

  lemma AxisListed(sizes: seq<nat>, origin: nat, extent: nat, v: nat)
    requires ClippedAxis(sizes, origin, extent).Some? && 0 < v < extent
    ensures v in ClippedAxis(sizes, origin, extent).value <==> EndsAt(sizes, 0, origin + v)
  {
    hide Boundaries, EndsAt;
    assert sizes[0..] == sizes;
    BoundariesListed(sizes, 0, origin, extent, v);
  }

  /**
   A window's axis is refused exactly when the window or a tile ends beyond 32 bits or the tiles end inside the window;
   otherwise its inner boundaries are exactly the places inside the window where a tile ends.
   */
  lemma AxisExactly(sizes: seq<nat>, origin: nat, extent: nat)
    ensures ClippedAxis(sizes, origin, extent).Some? <==>
      origin + extent <= 0xFFFF_FFFF && EndsFit(sizes, 0) && Ends(sizes, |sizes|) >= origin + extent
    ensures ClippedAxis(sizes, origin, extent).Some? ==>
      forall v: nat :: 0 < v < extent ==> (v in ClippedAxis(sizes, origin, extent).value <==> EndsAt(sizes, 0, origin + v))
  {
    hide ClippedAxis, EndsFit, EndsAt;
    AxisAccepted(sizes, origin, extent);
    if ClippedAxis(sizes, origin, extent).Some? {
      forall v: nat | 0 < v < extent
        ensures v in ClippedAxis(sizes, origin, extent).value <==> EndsAt(sizes, 0, origin + v)
      {
        AxisListed(sizes, origin, extent, v);
      }
    }
  }

  /** Two macroblock columns or rows of the image belong to the same tile: no tile ends between them. */
  ghost predicate SameTile(sizes: seq<nat>, a: nat, b: nat) {
    forall k: nat :: k <= |sizes| ==> (Ends(sizes, k) <= a <==> Ends(sizes, k) <= b)
  }

  lemma {:induction false} AxisOrder(axis: seq<nat>, i: nat, j: nat)
    requires Increasing(axis) && i <= j < |axis|
    ensures axis[i] <= axis[j]
    decreases j
  {
    if i < j {
      AxisOrder(axis, i, j - 1);
    }
  }

  /** No boundary lies strictly between two neighbours of an axis. */
  lemma NoneBetween(axis: seq<nat>, i: nat, v: nat)
    requires Increasing(axis) && i + 1 < |axis| && v in axis
    ensures v <= axis[i] || axis[i + 1] <= v
  {
    var j: nat :| j < |axis| && axis[j] == v;
    if j <= i {
      AxisOrder(axis, j, i);
    } else {
      AxisOrder(axis, i + 1, j);
    }
  }

  /** The intervals of a window's axis are its tiles. */
  lemma IntervalIsTile(sizes: seq<nat>, origin: nat, extent: nat, i: nat, a: nat, b: nat)
    requires Positive(sizes) && extent >= 1 && ClippedAxis(sizes, origin, extent).Some?
    requires var axis := ClippedAxis(sizes, origin, extent).value; i + 1 < |axis| && axis[i] <= a < axis[i + 1]
    requires b < extent
    ensures var axis := ClippedAxis(sizes, origin, extent).value;
      axis[i] <= b < axis[i + 1] <==> SameTile(sizes, origin + a, origin + b)
  {
    AxisExactly(sizes, origin, extent);
    AxisIncreasing(sizes, origin, extent);
    AxisShape(sizes, origin, extent);
    var axis := ClippedAxis(sizes, origin, extent).value;
    hide ClippedAxis, Increasing;
    if axis[i] <= b < axis[i + 1] {
      SharedTile(sizes, origin, extent, axis, i, a, b);
    } else {
      AxisOrder(axis, i + 1, |axis| - 1);
      ApartTiles(sizes, origin, extent, axis, i, a, b);
    }
  }

  lemma ApartTiles(sizes: seq<nat>, origin: nat, extent: nat, axis: seq<nat>, i: nat, a: nat, b: nat)
    requires i + 1 < |axis| && axis[0] == 0 && axis[i] <= a < axis[i + 1] <= extent && b < extent
    requires b < axis[i] || axis[i + 1] <= b
    requires forall v: nat :: 0 < v < extent ==> (v in axis <==> EndsAt(sizes, 0, origin + v))
    ensures !SameTile(sizes, origin + a, origin + b)
  {
    var v := if b < axis[i] then axis[i] else axis[i + 1];
    assert v in axis && 0 < v < extent;
    var k: nat :| k <= |sizes| && Ends(sizes, k) == origin + v;
    assert !(Ends(sizes, k) <= origin + a <==> Ends(sizes, k) <= origin + b);
  }

  lemma SharedTile(sizes: seq<nat>, origin: nat, extent: nat, axis: seq<nat>, i: nat, a: nat, b: nat)
    requires Increasing(axis) && i + 1 < |axis| && axis[i] <= a < axis[i + 1] && axis[i] <= b < axis[i + 1]
    requires a < extent && b < extent
    requires forall v: nat :: 0 < v < extent ==> (v in axis <==> EndsAt(sizes, 0, origin + v))
    ensures SameTile(sizes, origin + a, origin + b)
  {
    forall k: nat | k <= |sizes|
      ensures Ends(sizes, k) <= origin + a <==> Ends(sizes, k) <= origin + b
    {
      var v := Ends(sizes, k) - origin;
      if 0 < v < extent {
        assert EndsAt(sizes, 0, origin + v);
        NoneBetween(axis, i, v);
      }
    }
  }

  // ---- Regions ----

  /** In plane coordinates: the macroblock columns and rows of two cells belong to the same tile. */
  ghost predicate TogetherIn(p: Plane, tileColumns: seq<nat>, tileRows: seq<nat>, horizontal: nat, vertical: nat,
                             x: nat, y: nat, x2: nat, y2: nat)
    requires horizontal > 0 && vertical > 0
  {
    && SameTile(tileColumns, p.originX + x / horizontal, p.originX + x2 / horizontal)
    && SameTile(tileRows, p.originY + y / vertical, p.originY + y2 / vertical)
  }

  lemma Ordered(scale: nat, a: nat, b: nat)
    requires a <= b
    ensures scale * a <= scale * b
  {
    assert scale * b == scale * a + scale * (b - a);
  }

  lemma ScaledBelow(boundary: nat, scale: nat, x: nat)
    requires scale > 0
    ensures Scaled(boundary, scale) <= x <==> boundary <= x / scale
  {
    var q := x / scale;
    FloorDivision(x, scale);
    if boundary <= q {
      Ordered(scale, boundary, q);
    } else {
      Ordered(scale, q + 1, boundary);
    }
  }

  lemma ScaledInterval(low: nat, high: nat, scale: nat, x: nat)
    requires scale > 0
    ensures Scaled(low, scale) <= x < Scaled(high, scale) <==> low <= x / scale < high
  {
    hide Scaled;
    ScaledBelow(low, scale, x);
    ScaledBelow(high, scale, x);
  }

  ghost predicate Between(r: Region, columns: seq<nat>, rows: seq<nat>, horizontal: nat, vertical: nat, i: nat, j: nat) {
    && i + 1 < |columns| && j + 1 < |rows|
    && r == Region(Scaled(columns[i], horizontal), Scaled(columns[i + 1], horizontal),
                   Scaled(rows[j], vertical), Scaled(rows[j + 1], vertical))
  }

  lemma {:induction false} RowPlace(columns: seq<nat>, top: nat, bottom: nat, scale: nat, k: nat) returns (i: nat)
    requires k < |RegionRow(columns, top, bottom, scale)|
    ensures i + 1 < |columns|
    ensures RegionRow(columns, top, bottom, scale)[k] == Region(Scaled(columns[i], scale), Scaled(columns[i + 1], scale), top, bottom)
  {
    i := 0;
    if k > 0 {
      i := RowPlace(columns[1..], top, bottom, scale, k - 1);
      i := i + 1;
    }
  }

  lemma {:induction false} GridPlace(columns: seq<nat>, rows: seq<nat>, horizontal: nat, vertical: nat, k: nat)
    returns (i: nat, j: nat)
    requires k < |RegionGrid(columns, rows, horizontal, vertical)|
    ensures Between(RegionGrid(columns, rows, horizontal, vertical)[k], columns, rows, horizontal, vertical, i, j)
  {
    hide Scaled, RegionRow;
    var row := RegionRow(columns, Scaled(rows[0], vertical), Scaled(rows[1], vertical), horizontal);
    j := 0;
    if k < |row| {
      i := RowPlace(columns, Scaled(rows[0], vertical), Scaled(rows[1], vertical), horizontal, k);
    } else {
      i, j := GridPlace(columns, rows[1..], horizontal, vertical, k - |row|);
      j := j + 1;
    }
  }

  /**
   A cell of a region shares it with exactly the cells of the plane that belong to its tile when tiles are hard, and with
   all cells of the plane when they are soft.
   */
  lemma RegionIsTile(p: Plane, hard: bool, tileColumns: seq<nat>, tileRows: seq<nat>, horizontal: nat, vertical: nat, k: nat,
                     x: nat, y: nat, x2: nat, y2: nat)
    requires p.macroblocksX >= 1 && p.macroblocksY >= 1 && horizontal > 0 && vertical > 0 && TileGrid(tileColumns, tileRows)
    requires var regions := TileRegions(p, hard, tileColumns, tileRows, horizontal, vertical);
      regions.Some? && k < |regions.value| && Inside(regions.value[k], x, y)
    requires x2 / horizontal < p.macroblocksX && y2 / vertical < p.macroblocksY
    ensures Inside(TileRegions(p, hard, tileColumns, tileRows, horizontal, vertical).value[k], x2, y2) <==>
      (hard ==> TogetherIn(p, tileColumns, tileRows, horizontal, vertical, x, y, x2, y2))
  {
    if hard {
      HardRegion(p, tileColumns, tileRows, horizontal, vertical, k, x, y, x2, y2);
    } else {
      ScaledInterval(0, p.macroblocksX, horizontal, x2);
      ScaledInterval(0, p.macroblocksY, vertical, y2);
    }
  }

  lemma HardRegion(p: Plane, tileColumns: seq<nat>, tileRows: seq<nat>, horizontal: nat, vertical: nat, k: nat,
                   x: nat, y: nat, x2: nat, y2: nat)
    requires p.macroblocksX >= 1 && p.macroblocksY >= 1 && horizontal > 0 && vertical > 0 && TileGrid(tileColumns, tileRows)
    requires var regions := TileRegions(p, true, tileColumns, tileRows, horizontal, vertical);
      regions.Some? && k < |regions.value| && Inside(regions.value[k], x, y)
    requires x2 / horizontal < p.macroblocksX && y2 / vertical < p.macroblocksY
    ensures Inside(TileRegions(p, true, tileColumns, tileRows, horizontal, vertical).value[k], x2, y2) <==>
      TogetherIn(p, tileColumns, tileRows, horizontal, vertical, x, y, x2, y2)
  {
    hide ClippedAxis, ScaleFits, Scaled, SameTile, RegionGrid;
    var columns := ClippedAxis(tileColumns, p.originX, p.macroblocksX).value;
    var rows := ClippedAxis(tileRows, p.originY, p.macroblocksY).value;
    var i, j := GridPlace(columns, rows, horizontal, vertical, k);
    ScaledInterval(columns[i], columns[i + 1], horizontal, x);
    ScaledInterval(columns[i], columns[i + 1], horizontal, x2);
    ScaledInterval(rows[j], rows[j + 1], vertical, y);
    ScaledInterval(rows[j], rows[j + 1], vertical, y2);
    IntervalIsTile(tileColumns, p.originX, p.macroblocksX, i, x / horizontal, x2 / horizontal);
    IntervalIsTile(tileRows, p.originY, p.macroblocksY, j, y / vertical, y2 / vertical);
  }

  /**
   A plane has regions exactly when tiles are soft or the hard tiles cover its window in 32 bits; the scaled boundaries
   are then never beyond them.
   */
  lemma RegionsExactly(p: Plane, hard: bool, tileColumns: seq<nat>, tileRows: seq<nat>, horizontal: nat, vertical: nat)
    requires p.macroblocksX * horizontal <= 0xFFFF_FFFF && p.macroblocksY * vertical <= 0xFFFF_FFFF
    ensures TileRegions(p, hard, tileColumns, tileRows, horizontal, vertical).Some? <==> (hard ==>
      && p.originX + p.macroblocksX <= 0xFFFF_FFFF && EndsFit(tileColumns, 0)
      && Ends(tileColumns, |tileColumns|) >= p.originX + p.macroblocksX
      && p.originY + p.macroblocksY <= 0xFFFF_FFFF && EndsFit(tileRows, 0)
      && Ends(tileRows, |tileRows|) >= p.originY + p.macroblocksY)
  {
    if hard {
      AxisExactly(tileColumns, p.originX, p.macroblocksX);
      AxisExactly(tileRows, p.originY, p.macroblocksY);
      AxisShape(tileColumns, p.originX, p.macroblocksX);
      AxisShape(tileRows, p.originY, p.macroblocksY);
      hide ClippedAxis, EndsFit;
      if ClippedAxis(tileColumns, p.originX, p.macroblocksX).Some? {
        AxisScaled(ClippedAxis(tileColumns, p.originX, p.macroblocksX).value, p.macroblocksX, horizontal);
      }
      if ClippedAxis(tileRows, p.originY, p.macroblocksY).Some? {
        AxisScaled(ClippedAxis(tileRows, p.originY, p.macroblocksY).value, p.macroblocksY, vertical);
      }
    }
  }

  lemma AxisScaled(axis: seq<nat>, extent: nat, scale: nat)
    requires |axis| >= 2 && axis[0] == 0 && axis[|axis| - 1] == extent && extent * scale <= 0xFFFF_FFFF
    requires forall i :: 0 < i < |axis| - 1 ==> axis[i] < extent
    ensures ScaleFits(axis, scale)
  {
    forall i | 0 <= i < |axis|
      ensures Scaled(axis[i], scale) <= U32_MAX
    {
      Ordered(scale, axis[i], extent);
    }
  }

  // ---- Schedules ----

  ghost predicate Houses(r: Region, t: Tile) {
    forall x: nat, y: nat :: Covers(t, x, y) ==> Inside(r, x, y)
  }

  ghost predicate Housed(t: Tile, regions: seq<Region>) {
    exists k: nat :: k < |regions| && Houses(regions[k], t)
  }

  ghost predicate AllHoused(tiles: seq<Tile>, regions: seq<Region>) {
    forall j :: 0 <= j < |tiles| ==> Housed(tiles[j], regions)
  }

  lemma HousedConcat(a: seq<Tile>, b: seq<Tile>, regions: seq<Region>)
    requires regions != [] && AllHoused(b, regions[1..]) && forall j :: 0 <= j < |a| ==> Houses(regions[0], a[j])
    ensures AllHoused(a + b, regions)
  {
    hide Houses;
    forall j | 0 <= j < |a + b|
      ensures Housed((a + b)[j], regions)
    {
      if j < |a| {
        assert Houses(regions[0], (a + b)[j]);
      } else {
        assert Housed(b[j - |a|], regions[1..]);
        var k: nat :| k < |regions[1..]| && Houses(regions[1..][k], b[j - |a|]);
        assert Houses(regions[k + 1], (a + b)[j]);
      }
    }
  }

  lemma HousedByCover(tiles: seq<Tile>, r: Region)
    requires forall x: nat, y: nat :: !Inside(r, x, y) ==> Cover(tiles, x, y) == 0
    ensures forall j :: 0 <= j < |tiles| ==> Houses(r, tiles[j])
  {
    forall j, x: nat, y: nat | 0 <= j < |tiles| && Covers(tiles[j], x, y)
      ensures Inside(r, x, y)
    {
      CoverMember(tiles, j, x, y);
    }
  }

  lemma {:induction false} FullHoused(regions: seq<Region>)
    requires LargeEnough(regions) && Grained(regions, 4)
    ensures AllHoused(AllFullTiles(regions), regions)
  {
    if regions != [] {
      hide FullTiles, Cover, Inside, Houses, AllHoused;
      var tiles := FullTiles(regions[0]);
      forall x: nat, y: nat
        ensures !Inside(regions[0], x, y) ==> Cover(tiles, x, y) == 0
      {
        FullRegionCover(regions[0], x, y);
      }
      HousedByCover(tiles, regions[0]);
      FullHoused(regions[1..]);
      HousedConcat(tiles, AllFullTiles(regions[1..]), regions);
    }
  }

  lemma {:induction false} SubsampledHoused(regions: seq<Region>)
    requires LargeEnough(regions) && Grained(regions, 2)
    ensures AllHoused(AllSubsampledTiles(regions), regions)
    ensures AllHoused(AllResiduals(regions), regions) && AllHoused(AllRestores(regions), regions)
  {
    if regions != [] {
      hide SubsampledTiles, Residuals, Restores, Cover, Inside, Houses, AllHoused;
      var tiles, before, after := SubsampledTiles(regions[0]), Residuals(regions[0]), Restores(regions[0]);
      forall x: nat, y: nat
        ensures !Inside(regions[0], x, y) ==> Cover(tiles, x, y) == Cover(before, x, y) == Cover(after, x, y) == 0
      {
        SubsampledRegionCover(regions[0], x, y);
        ResidualsCover(regions[0], x, y);
      }
      HousedByCover(tiles, regions[0]);
      HousedByCover(before, regions[0]);
      HousedByCover(after, regions[0]);
      SubsampledHoused(regions[1..]);
      HousedConcat(tiles, AllSubsampledTiles(regions[1..]), regions);
      HousedConcat(before, AllResiduals(regions[1..]), regions);
      HousedConcat(after, AllRestores(regions[1..]), regions);
    }
  }

  /** Any two cells that one record addresses belong to the same tile. */
  ghost predicate OneTile(p: Plane, tileColumns: seq<nat>, tileRows: seq<nat>, at: Layout, horizontal: nat, vertical: nat, w: Work)
    requires horizontal > 0 && vertical > 0
  {
    forall x: nat, y: nat, x2: nat, y2: nat ::
      x < at.stride && Index(at, x, y) in Addresses(w) && x2 < at.stride && Index(at, x2, y2) in Addresses(w) ==>
        TogetherIn(p, tileColumns, tileRows, horizontal, vertical, x, y, x2, y2)
  }

  ghost predicate AllOneTile(p: Plane, tileColumns: seq<nat>, tileRows: seq<nat>, at: Layout, horizontal: nat, vertical: nat,
                             works: seq<Work>)
    requires horizontal > 0 && vertical > 0
  {
    forall k :: 0 <= k < |works| ==> OneTile(p, tileColumns, tileRows, at, horizontal, vertical, works[k])
  }

  lemma {:induction false} InsideCounted(regions: seq<Region>, k: nat, x: nat, y: nat)
    requires k < |regions| && Inside(regions[k], x, y)
    ensures InsideCount(regions, x, y) >= 1
  {
    if k > 0 {
      InsideCounted(regions[1..], k - 1, x, y);
    }
  }

  /** The shape of a plane's regions that the schedules need. */
  ghost predicate PlaneRegions(p: Plane, tileColumns: seq<nat>, tileRows: seq<nat>, horizontal: nat, vertical: nat, regions: seq<Region>) {
    && p.macroblocksX >= 1 && p.macroblocksY >= 1 && horizontal > 0 && vertical > 0 && TileGrid(tileColumns, tileRows)
    && TileRegions(p, true, tileColumns, tileRows, horizontal, vertical) == Some(regions)
    && forall x: nat, y: nat :: InsideCount(regions, x, y) ==
         if x < p.macroblocksX * horizontal && y < p.macroblocksY * vertical then 1 else 0
  }

  lemma InsideWindow(count: nat, scale: nat, x: nat)
    requires scale > 0 && x < count * scale
    ensures x / scale < count
  {
    ScaledInterval(0, count, scale, x);
  }

  lemma RecordTogether(p: Plane, tileColumns: seq<nat>, tileRows: seq<nat>, at: Layout, horizontal: nat, vertical: nat,
                       regions: seq<Region>, k: nat, t: Tile, w: Work)
    requires PlaneRegions(p, tileColumns, tileRows, horizontal, vertical, regions) && at.stride == p.macroblocksX * horizontal
    requires k < |regions| && Houses(regions[k], t) && Encode(at, t) == Some(w)
    ensures OneTile(p, tileColumns, tileRows, at, horizontal, vertical, w)
  {
    hide Index, Addresses, Encode, Inside, Covers, TileRegions, InsideCount, TogetherIn;
    forall x: nat, y: nat | Covers(t, x, y)
      ensures x < at.stride && y < p.macroblocksY * vertical
    {
      InsideCounted(regions, k, x, y);
    }
    assert at.stride > 0;
    forall x: nat, y: nat, x2: nat, y2: nat
      | x < at.stride && Index(at, x, y) in Addresses(w) && x2 < at.stride && Index(at, x2, y2) in Addresses(w)
      ensures TogetherIn(p, tileColumns, tileRows, horizontal, vertical, x, y, x2, y2)
    {
      EncodedTouches(at, t, w, p.macroblocksY * vertical, x, y);
      EncodedTouches(at, t, w, p.macroblocksY * vertical, x2, y2);
      InsideWindow(p.macroblocksX, horizontal, x2);
      InsideWindow(p.macroblocksY, vertical, y2);
      RegionIsTile(p, true, tileColumns, tileRows, horizontal, vertical, k, x, y, x2, y2);
    }
  }

  lemma ListTogether(p: Plane, tileColumns: seq<nat>, tileRows: seq<nat>, at: Layout, horizontal: nat, vertical: nat,
                     regions: seq<Region>, tiles: seq<Tile>, works: seq<Work>)
    requires PlaneRegions(p, tileColumns, tileRows, horizontal, vertical, regions) && at.stride == p.macroblocksX * horizontal
    requires AllHoused(tiles, regions) && EncodeAll(at, tiles) == Some(works)
    ensures AllOneTile(p, tileColumns, tileRows, at, horizontal, vertical, works)
  {
    hide Encode, Houses, OneTile;
    assert horizontal > 0 && vertical > 0;
    hide PlaneRegions;
    forall j | 0 <= j < |works|
      ensures OneTile(p, tileColumns, tileRows, at, horizontal, vertical, works[j])
    {
      assert Housed(tiles[j], regions);
      var k: nat :| k < |regions| && Houses(regions[k], tiles[j]);
      RecordTogether(p, tileColumns, tileRows, at, horizontal, vertical, regions, k, tiles[j], works[j]);
    }
  }

  /** Under hard tiles no record of either pass reaches from one tile into another. */
  lemma SecondPassWithinTiles(p: Plane, tileColumns: seq<nat>, tileRows: seq<nat>)
    requires ValidPlane(p) && TileGrid(tileColumns, tileRows) && SecondSchedule(p, true, tileColumns, tileRows).Some?
    ensures var s := SecondSchedule(p, true, tileColumns, tileRows).value;
      AllOneTile(p, tileColumns, tileRows, SampleLayout(p), p.blockColumns * 4, p.blockRows * 4, s.prefix + s.filters + s.suffix)
  {
    hide TileRegions, EncodeAll, AllOneTile;
    var horizontal, vertical := p.blockColumns * 4, p.blockRows * 4;
    var regions := TileRegions(p, true, tileColumns, tileRows, horizontal, vertical).value;
    RegionsLarge(p, true, tileColumns, tileRows, horizontal, vertical);
    RegionsPartition(p, true, tileColumns, tileRows, horizontal, vertical, 4);
    FullHoused(regions);
    var works := SecondSchedule(p, true, tileColumns, tileRows).value.filters;
    ListTogether(p, tileColumns, tileRows, SampleLayout(p), horizontal, vertical, regions, AllFullTiles(regions), works);
    assert [] + works + [] == works;
  }

  lemma FirstPassWithinTiles(p: Plane, tileColumns: seq<nat>, tileRows: seq<nat>)
    requires ValidPlane(p) && TileGrid(tileColumns, tileRows) && FirstSchedule(p, true, tileColumns, tileRows).Some?
    ensures var s := FirstSchedule(p, true, tileColumns, tileRows).value;
      AllOneTile(p, tileColumns, tileRows, LowLayout(p), p.blockColumns, p.blockRows, s.prefix + s.filters + s.suffix)
  {
    hide TileRegions, EncodeAll;
    var horizontal, vertical, at := p.blockColumns, p.blockRows, LowLayout(p);
    var regions := TileRegions(p, true, tileColumns, tileRows, horizontal, vertical).value;
    var s := FirstSchedule(p, true, tileColumns, tileRows).value;
    RegionsLarge(p, true, tileColumns, tileRows, horizontal, vertical);
    hide AllOneTile;
    if p.blockColumns == 4 {
      RegionsPartition(p, true, tileColumns, tileRows, horizontal, vertical, 4);
      FullHoused(regions);
      ListTogether(p, tileColumns, tileRows, at, horizontal, vertical, regions, AllFullTiles(regions), s.filters);
      assert s.prefix + s.filters + s.suffix == s.filters;
    } else {
      RegionsPartition(p, true, tileColumns, tileRows, horizontal, vertical, 2);
      SubsampledHoused(regions);
      ListTogether(p, tileColumns, tileRows, at, horizontal, vertical, regions, AllResiduals(regions), s.prefix);
      ListTogether(p, tileColumns, tileRows, at, horizontal, vertical, regions, AllSubsampledTiles(regions), s.filters);
      ListTogether(p, tileColumns, tileRows, at, horizontal, vertical, regions, AllRestores(regions), s.suffix);
      JoinedTogether(p, tileColumns, tileRows, at, horizontal, vertical, s);
    }
  }

  lemma JoinedTogether(p: Plane, tileColumns: seq<nat>, tileRows: seq<nat>, at: Layout, horizontal: nat, vertical: nat, s: Schedule)
    requires horizontal > 0 && vertical > 0
    requires AllOneTile(p, tileColumns, tileRows, at, horizontal, vertical, s.prefix)
    requires AllOneTile(p, tileColumns, tileRows, at, horizontal, vertical, s.filters)
    requires AllOneTile(p, tileColumns, tileRows, at, horizontal, vertical, s.suffix)
    ensures AllOneTile(p, tileColumns, tileRows, at, horizontal, vertical, s.prefix + s.filters + s.suffix)
  {
    hide OneTile;
  }
}
