/** Exact tiling: the filters of a schedule cover every sample of the plane once. */
module Tiling {
  import opened Arithmetic
  import opened Overlap
  import opened Regions

  /** The cells a tile reads and writes, in plane coordinates. */
  predicate Covers(t: Tile, x: nat, y: nat) {
    match t
    case Block(a, b) => a <= x < a + 4 && b <= y < b + 4
    case Column(a, b) => x == a && b <= y < b + 4
    case Row(a, b) => a <= x < a + 4 && y == b
    case Corner(a, b) => a <= x < a + 2 && b <= y < b + 2
    case Square(a, b) => a <= x < a + 2 && b <= y < b + 2
    case Upright(a, b) => x == a && b <= y < b + 2
    case Level(a, b) => a <= x < a + 2 && y == b
    case Residual(a, b, source) => (x == a || x == source) && y == b
    case Restore(a, b, source) => (x == a || x == source) && y == b
  }

  /** How many tiles of a list cover a cell. */
  ghost function Cover(tiles: seq<Tile>, x: nat, y: nat): nat {
    if tiles == [] then 0 else (if Covers(tiles[0], x, y) then 1 else 0) + Cover(tiles[1..], x, y)
  }

  lemma {:induction false} CoverConcat(a: seq<Tile>, b: seq<Tile>, x: nat, y: nat)
    ensures Cover(a + b, x, y) == Cover(a, x, y) + Cover(b, x, y)
  {
    if a == [] {
      assert a + b == b;
    } else {
      assert (a + b)[1..] == a[1..] + b;
      CoverConcat(a[1..], b, x, y);
    }
  }

  lemma CoverFour(t0: Tile, t1: Tile, t2: Tile, t3: Tile, x: nat, y: nat)
    ensures Cover([t0, t1, t2, t3], x, y) ==
      (if Covers(t0, x, y) then 1 else 0) + (if Covers(t1, x, y) then 1 else 0)
      + (if Covers(t2, x, y) then 1 else 0) + (if Covers(t3, x, y) then 1 else 0)
  {
    assert [t0, t1, t2, t3][1..] == [t1, t2, t3];
    assert [t1, t2, t3][1..] == [t2, t3];
    assert [t2, t3][1..] == [t3];
    assert [t3][1..] == [];
    assert Cover([t3], x, y) == if Covers(t3, x, y) then 1 else 0;
    assert Cover([t2, t3], x, y) == (if Covers(t2, x, y) then 1 else 0) + Cover([t3], x, y);
    assert Cover([t1, t2, t3], x, y) == (if Covers(t1, x, y) then 1 else 0) + Cover([t2, t3], x, y);
  }

  predicate Inside(r: Region, x: nat, y: nat) {
    r.left <= x < r.right && r.top <= y < r.bottom
  }

  // ---- One region, full schedule ----

  /** A region whose sides are positive multiples of four. */
  predicate FourAligned(r: Region) {
    && r.left + 4 <= r.right && (r.right - r.left) % 4 == 0
    && r.top + 4 <= r.bottom && (r.bottom - r.top) % 4 == 0
  }

  lemma {:induction false} InteriorCover(r: Region, x: nat, y: nat, cx: nat, cy: nat)
    requires FourAligned(r)
    requires r.left + 2 <= x <= r.right - 2 && (x - r.left) % 4 == 2
    requires r.top + 2 <= y <= r.bottom - 2 && (y - r.top) % 4 == 2
    ensures Cover(Interior(r, x, y), cx, cy) ==
      if (y <= cy < y + 4 && y + 2 < r.bottom && x <= cx < r.right - 2)
        || (y + 4 <= cy < r.bottom - 2 && r.left + 2 <= cx < r.right - 2) then 1 else 0
    decreases r.bottom - y, r.right - x
  {
    if y + 2 < r.bottom {
      if x + 2 < r.right {
        InteriorCover(r, x + 4, y, cx, cy);
        assert ([Block(x, y)] + Interior(r, x + 4, y))[1..] == Interior(r, x + 4, y);
      } else {
        InteriorCover(r, r.left + 2, y + 4, cx, cy);
      }
    }
  }

  lemma {:induction false} SideColumnsCover(r: Region, y: nat, cx: nat, cy: nat)
    requires FourAligned(r) && r.top + 2 <= y <= r.bottom - 2 && (y - r.top) % 4 == 2
    ensures Cover(SideColumns(r, y), cx, cy) ==
      if y <= cy < r.bottom - 2 && (r.left <= cx < r.left + 2 || r.right - 2 <= cx < r.right) then 1 else 0
    decreases r.bottom - y
  {
    if y + 2 < r.bottom {
      SideColumnsCover(r, y + 4, cx, cy);
      var four := [Column(r.left, y), Column(r.left + 1, y), Column(r.right - 2, y), Column(r.right - 1, y)];
      CoverFour(four[0], four[1], four[2], four[3], cx, cy);
      CoverConcat(four, SideColumns(r, y + 4), cx, cy);
    }
  }

  lemma {:induction false} SideRowsCover(r: Region, x: nat, cx: nat, cy: nat)
    requires FourAligned(r) && r.left + 2 <= x <= r.right - 2 && (x - r.left) % 4 == 2
    ensures Cover(SideRows(r, x), cx, cy) ==
      if x <= cx < r.right - 2 && (r.top <= cy < r.top + 2 || r.bottom - 2 <= cy < r.bottom) then 1 else 0
    decreases r.right - x
  {
    if x + 2 < r.right {
      SideRowsCover(r, x + 4, cx, cy);
      var four := [Row(x, r.top), Row(x, r.top + 1), Row(x, r.bottom - 2), Row(x, r.bottom - 1)];
      CoverFour(four[0], four[1], four[2], four[3], cx, cy);
      CoverConcat(four, SideRows(r, x + 4), cx, cy);
    }
  }

  /** The full schedule of a region covers each of its samples once, and nothing else. */
  lemma FullRegionCover(r: Region, cx: nat, cy: nat)
    requires FourAligned(r)
    ensures Cover(FullTiles(r), cx, cy) == if Inside(r, cx, cy) then 1 else 0
  {
    hide Interior, SideColumns, SideRows, Corners, Cover;
    var interior, columns, rows := Interior(r, r.left + 2, r.top + 2), SideColumns(r, r.top + 2), SideRows(r, r.left + 2);
    InteriorCover(r, r.left + 2, r.top + 2, cx, cy);
    SideColumnsCover(r, r.top + 2, cx, cy);
    SideRowsCover(r, r.left + 2, cx, cy);
    CornersCover(r, cx, cy);
    CoverConcat(interior, columns, cx, cy);
    CoverConcat(interior + columns, rows, cx, cy);
    CoverConcat(interior + columns + rows, Corners(r), cx, cy);
  }

  lemma CornersCover(r: Region, cx: nat, cy: nat)
    requires FourAligned(r)
    ensures Cover(Corners(r), cx, cy) ==
      if (r.left <= cx < r.left + 2 || r.right - 2 <= cx < r.right) && (r.top <= cy < r.top + 2 || r.bottom - 2 <= cy < r.bottom)
      then 1 else 0
  {
    var corners := Corners(r);
    CoverFour(corners[0], corners[1], corners[2], corners[3], cx, cy);
    hide Cover;
  }

  // ---- One region, subsampled schedule ----

  /** A region whose sides are positive and even. */
  predicate TwoAligned(r: Region) {
    && r.left + 2 <= r.right && (r.right - r.left) % 2 == 0
    && r.top + 2 <= r.bottom && (r.bottom - r.top) % 2 == 0
  }

  lemma {:induction false} SquaresCover(r: Region, x: nat, y: nat, cx: nat, cy: nat)
    requires TwoAligned(r)
    requires r.left + 2 <= x <= r.right && (x - r.left) % 2 == 0
    requires r.top + 2 <= y <= r.bottom && (y - r.top) % 2 == 0
    ensures Cover(Squares(r, x, y), cx, cy) ==
      if (y - 1 <= cy < y + 1 && y < r.bottom && x - 1 <= cx < r.right - 1)
        || (y + 1 <= cy < r.bottom - 1 && r.left + 1 <= cx < r.right - 1) then 1 else 0
    decreases r.bottom - y, r.right - x
  {
    if y < r.bottom {
      if x < r.right {
        SquaresCover(r, x + 2, y, cx, cy);
        assert ([Square(x - 1, y - 1)] + Squares(r, x + 2, y))[1..] == Squares(r, x + 2, y);
      } else {
        SquaresCover(r, r.left + 2, y + 2, cx, cy);
      }
    }
  }

  lemma CoverTwo(t0: Tile, t1: Tile, x: nat, y: nat)
    ensures Cover([t0, t1], x, y) == (if Covers(t0, x, y) then 1 else 0) + (if Covers(t1, x, y) then 1 else 0)
  {
    assert [t0, t1][1..] == [t1];
    assert [t1][1..] == [];
    assert Cover([t1], x, y) == if Covers(t1, x, y) then 1 else 0;
  }

  lemma {:induction false} UprightsCover(r: Region, y: nat, cx: nat, cy: nat)
    requires TwoAligned(r) && r.top + 2 <= y <= r.bottom && (y - r.top) % 2 == 0
    ensures Cover(Uprights(r, y), cx, cy) ==
      if y - 1 <= cy < r.bottom - 1 && (cx == r.left || cx == r.right - 1) then 1 else 0
    decreases r.bottom - y
  {
    if y < r.bottom {
      UprightsCover(r, y + 2, cx, cy);
      var two := [Upright(r.left, y - 1), Upright(r.right - 1, y - 1)];
      CoverTwo(two[0], two[1], cx, cy);
      CoverConcat(two, Uprights(r, y + 2), cx, cy);
    }
  }

  lemma {:induction false} LevelsCover(r: Region, x: nat, cx: nat, cy: nat)
    requires TwoAligned(r) && r.left + 2 <= x <= r.right && (x - r.left) % 2 == 0
    ensures Cover(Levels(r, x), cx, cy) ==
      if x - 1 <= cx < r.right - 1 && (cy == r.top || cy == r.bottom - 1) then 1 else 0
    decreases r.right - x
  {
    if x < r.right {
      LevelsCover(r, x + 2, cx, cy);
      var two := [Level(x - 1, r.top), Level(x - 1, r.bottom - 1)];
      CoverTwo(two[0], two[1], cx, cy);
      CoverConcat(two, Levels(r, x + 2), cx, cy);
    }
  }

  predicate AtCorner(r: Region, x: nat, y: nat) {
    (x == r.left || x + 1 == r.right) && (y == r.top || y + 1 == r.bottom)
  }

  /** The subsampled filters cover each sample of a region once, except its four corners. */
  lemma SubsampledRegionCover(r: Region, cx: nat, cy: nat)
    requires TwoAligned(r)
    ensures Cover(SubsampledTiles(r), cx, cy) == if Inside(r, cx, cy) && !AtCorner(r, cx, cy) then 1 else 0
  {
    var squares := Squares(r, r.left + 2, r.top + 2);
    var uprights := Uprights(r, r.top + 2);
    var levels := Levels(r, r.left + 2);
    SquaresCover(r, r.left + 2, r.top + 2, cx, cy);
    UprightsCover(r, r.top + 2, cx, cy);
    LevelsCover(r, r.left + 2, cx, cy);
    hide Squares, Uprights, Levels, Cover;
    CoverConcat(squares, uprights, cx, cy);
    CoverConcat(squares + uprights, levels, cx, cy);
  }

  // ---- The regions of a plane ----

  /** How many regions of a list contain a cell. */
  ghost function InsideCount(regions: seq<Region>, x: nat, y: nat): nat {
    if regions == [] then 0 else (if Inside(regions[0], x, y) then 1 else 0) + InsideCount(regions[1..], x, y)
  }

  lemma {:induction false} InsideConcat(a: seq<Region>, b: seq<Region>, x: nat, y: nat)
    ensures InsideCount(a + b, x, y) == InsideCount(a, x, y) + InsideCount(b, x, y)
  {
    if a == [] {
      assert a + b == b;
    } else {
      assert (a + b)[1..] == a[1..] + b;
      InsideConcat(a[1..], b, x, y);
    }
  }

  ghost predicate Increasing(axis: seq<nat>) {
    forall i :: 0 <= i < |axis| - 1 ==> axis[i] < axis[i + 1]
  }

  ghost predicate Positive(sizes: seq<nat>) {
    forall i :: 0 <= i < |sizes| ==> sizes[i] >= 1
  }

  /** Tile sizes that are all positive cut a window into non-empty intervals. */
  lemma AxisIncreasing(sizes: seq<nat>, origin: nat, extent: nat)
    requires Positive(sizes) && extent >= 1
    ensures var axis := ClippedAxis(sizes, origin, extent); axis.Some? ==> Increasing(axis.value)
  {
    BoundariesIncreasing(sizes, origin, extent, 0);
  }

  lemma {:induction false} BoundariesIncreasing(sizes: seq<nat>, origin: nat, extent: nat, position: nat)
    requires Positive(sizes) && extent >= 1
    ensures var rest := Boundaries(sizes, origin, extent, position);
      rest.Some? ==> (
        && |rest.value| >= 1 && Increasing(rest.value) && rest.value[0] >= 1
        && (position < origin + extent ==> rest.value[0] + origin > position)
        && (position >= origin + extent ==> rest.value == [extent]))
  {
    if sizes != [] {
      BoundariesIncreasing(sizes[1..], origin, extent, position + sizes[0]);
    }
  }

  lemma {:induction false} RowInside(columns: seq<nat>, top: nat, bottom: nat, scale: nat, x: nat, y: nat)
    requires |columns| >= 1 && Increasing(columns)
    ensures InsideCount(RegionRow(columns, top, bottom, scale), x, y) ==
      if top <= y < bottom && Scaled(columns[0], scale) <= x < Scaled(columns[|columns| - 1], scale) then 1 else 0
  {
    if |columns| >= 2 {
      RowInside(columns[1..], top, bottom, scale, x, y);
      ScaledIncreasing(columns, scale);
      hide Scaled;
      var first := Region(Scaled(columns[0], scale), Scaled(columns[1], scale), top, bottom);
      assert ([first] + RegionRow(columns[1..], top, bottom, scale))[1..] == RegionRow(columns[1..], top, bottom, scale);
    }
  }

  lemma {:induction false} ScaledIncreasing(axis: seq<nat>, scale: nat)
    requires |axis| >= 2 && Increasing(axis)
    ensures Scaled(axis[0], scale) <= Scaled(axis[1], scale) <= Scaled(axis[|axis| - 1], scale)
  {
    if |axis| > 2 {
      ScaledIncreasing(axis[1..], scale);
    }
    assert (axis[1] - axis[0]) * scale >= 0;
  }

  lemma {:induction false} GridInside(columns: seq<nat>, rows: seq<nat>, horizontal: nat, vertical: nat, x: nat, y: nat)
    requires |columns| >= 1 && |rows| >= 1 && Increasing(columns) && Increasing(rows)
    ensures InsideCount(RegionGrid(columns, rows, horizontal, vertical), x, y) ==
      if Scaled(columns[0], horizontal) <= x < Scaled(columns[|columns| - 1], horizontal)
        && Scaled(rows[0], vertical) <= y < Scaled(rows[|rows| - 1], vertical) then 1 else 0
  {
    if |rows| >= 2 {
      GridInside(columns, rows[1..], horizontal, vertical, x, y);
      ScaledIncreasing(rows, vertical);
      hide Scaled;
      RowInside(columns, Scaled(rows[0], vertical), Scaled(rows[1], vertical), horizontal, x, y);
      InsideConcat(RegionRow(columns, Scaled(rows[0], vertical), Scaled(rows[1], vertical), horizontal),
                   RegionGrid(columns, rows[1..], horizontal, vertical), x, y);
    }
  }

  /** Every region has sides that are positive multiples of `grain`. */
  ghost predicate Grained(regions: seq<Region>, grain: nat)
    requires grain > 0
  {
    forall k :: 0 <= k < |regions| ==> GrainedRegion(regions[k], grain)
  }

  predicate GrainedRegion(r: Region, grain: nat)
    requires grain > 0
  {
    && r.left + grain <= r.right && (r.right - r.left) % grain == 0
    && r.top + grain <= r.bottom && (r.bottom - r.top) % grain == 0
  }

  lemma Difference(a: nat, b: nat, scale: nat, grain: nat)
    requires a < b && scale > 0 && grain > 0 && scale % grain == 0
    ensures Scaled(a, scale) + grain <= Scaled(b, scale)
    ensures (Scaled(b, scale) - Scaled(a, scale)) % grain == 0
  {
    var m := scale / grain;
    assert scale == grain * m;
    assert Scaled(b, scale) - Scaled(a, scale) == (b - a) * scale == grain * ((b - a) * m);
    assert (b - a) * m >= 1;
    MultipleMod(grain, (b - a) * m);
  }

  lemma MultipleMod(grain: nat, k: nat)
    requires grain > 0
    ensures (grain * k) % grain == 0
    ensures k >= 1 ==> grain * k >= grain
  {
    DivisionUnique(grain * k, grain, k, 0);
    MultipleAtLeast(grain, k);
  }

  lemma {:induction false} RowGrained(columns: seq<nat>, top: nat, bottom: nat, scale: nat, grain: nat)
    requires Increasing(columns) && scale > 0 && grain > 0 && scale % grain == 0
    requires top + grain <= bottom && (bottom - top) % grain == 0
    ensures Grained(RegionRow(columns, top, bottom, scale), grain)
  {
    if |columns| >= 2 {
      RowGrained(columns[1..], top, bottom, scale, grain);
      Difference(columns[0], columns[1], scale, grain);
    }
  }

  lemma {:induction false} GridGrained(columns: seq<nat>, rows: seq<nat>, horizontal: nat, vertical: nat, grain: nat)
    requires Increasing(columns) && Increasing(rows)
    requires horizontal > 0 && vertical > 0 && grain > 0 && horizontal % grain == 0 && vertical % grain == 0
    ensures Grained(RegionGrid(columns, rows, horizontal, vertical), grain)
  {
    if |rows| >= 2 {
      Difference(rows[0], rows[1], vertical, grain);
      RowGrained(columns, Scaled(rows[0], vertical), Scaled(rows[1], vertical), horizontal, grain);
      GridGrained(columns, rows[1..], horizontal, vertical, grain);
    }
  }

  /**
   The tile regions of a plane cut its rectangle into pieces: each cell of the rectangle lies in one
   region, no other cell in any, and every piece has sides that are positive multiples of `grain`.
   */
  lemma RegionsPartition(p: Plane, hard: bool, tileColumns: seq<nat>, tileRows: seq<nat>,
                         horizontal: nat, vertical: nat, grain: nat)
    requires p.macroblocksX >= 1 && p.macroblocksY >= 1 && Positive(tileColumns) && Positive(tileRows)
    requires horizontal > 0 && vertical > 0 && grain > 0 && horizontal % grain == 0 && vertical % grain == 0
    requires TileRegions(p, hard, tileColumns, tileRows, horizontal, vertical).Some?
    ensures var regions := TileRegions(p, hard, tileColumns, tileRows, horizontal, vertical).value;
      Grained(regions, grain) &&
      forall x: nat, y: nat :: InsideCount(regions, x, y) ==
        if x < p.macroblocksX * horizontal && y < p.macroblocksY * vertical then 1 else 0
  {
    hide ClippedAxis, ScaleFits;
    var regions := TileRegions(p, hard, tileColumns, tileRows, horizontal, vertical).value;
    if hard {
      var columns := ClippedAxis(tileColumns, p.originX, p.macroblocksX).value;
      var rows := ClippedAxis(tileRows, p.originY, p.macroblocksY).value;
      AxisShape(tileColumns, p.originX, p.macroblocksX);
      AxisShape(tileRows, p.originY, p.macroblocksY);
      AxisIncreasing(tileColumns, p.originX, p.macroblocksX);
      AxisIncreasing(tileRows, p.originY, p.macroblocksY);
      GridGrained(columns, rows, horizontal, vertical, grain);
      forall x: nat, y: nat
        ensures InsideCount(regions, x, y) ==
          if x < p.macroblocksX * horizontal && y < p.macroblocksY * vertical then 1 else 0
      {
        GridInside(columns, rows, horizontal, vertical, x, y);
      }
    } else {
      Difference(0, p.macroblocksX, horizontal, grain);
      Difference(0, p.macroblocksY, vertical, grain);
      forall x: nat, y: nat
        ensures InsideCount(regions, x, y) ==
          if x < p.macroblocksX * horizontal && y < p.macroblocksY * vertical then 1 else 0
      {
        assert regions[1..] == [];
      }
    }
  }
}
