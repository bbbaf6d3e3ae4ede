/** Tile regions of a reconstruction plane, and the two overlap passes built from them. */
module Regions {
  import opened Wrappers
  import opened Words
  import opened Overlap

  /** Checked geometry of one reconstruction plane. */
  datatype Plane = Plane(
    macroblockOffset: nat,
    macroblockCount: nat,
    blockColumns: nat,
    blockRows: nat,
    originX: nat,
    originY: nat,
    macroblocksX: nat,
    macroblocksY: nat,
    sampleWidth: nat,
    sampleHeight: nat,
    lowOffset: nat,
    sampleOffset: nat,
    scaled: bool)

  /** What the plan constructors guarantee of every plane they hand out. */
  predicate ValidPlane(p: Plane) {
    && ((p.blockColumns == 4 && p.blockRows == 4) || (p.blockColumns == 2 && (p.blockRows == 4 || p.blockRows == 2)))
    && 1 <= p.macroblocksX && 1 <= p.macroblocksY
    && p.sampleWidth == p.macroblocksX * (p.blockColumns * 4) <= U32_MAX
    && p.sampleHeight == p.macroblocksY * (p.blockRows * 4) <= U32_MAX
  }

  // ---- Tile boundaries inside a window ----

  /** The boundaries still to come after `position`, closed by the window's extent. */
  function Boundaries(sizes: seq<nat>, origin: nat, extent: nat, position: nat): Option<seq<nat>> {
    if sizes == [] then
      if position < origin + extent then None else Some([extent])
    else
      var next := position + sizes[0];
      if next > U32_MAX then None
      else
        var rest :- Boundaries(sizes[1..], origin, extent, next);
        Some((if origin < next < origin + extent then [next - origin] else []) + rest)
  }

  function ClippedAxis(sizes: seq<nat>, origin: nat, extent: nat): Option<seq<nat>> {
    if origin + extent > U32_MAX then None
    else
      var rest :- Boundaries(sizes, origin, extent, 0);
      Some([0] + rest)
  }

  /** What has been found so far, followed by what is still to come. */
  function Joined(found: seq<nat>, rest: Option<seq<nat>>): (r: Option<seq<nat>>)
    ensures found == [] ==> r == rest
  {
    if rest.None? then None
    else
      assert [] + rest.value == rest.value;
      Some(found + rest.value)
  }

  lemma JoinedNext(found: seq<nat>, head: seq<nat>, rest: Option<seq<nat>>)
    ensures Joined(found, Joined(head, rest)) == Joined(found + head, rest)
  {
    if rest.Some? {
      assert found + (head + rest.value) == found + head + rest.value;
    }
  }

  method BuildClippedAxis(sizes: seq<nat>, origin: nat, extent: nat) returns (r: Option<seq<nat>>)
    ensures r == ClippedAxis(sizes, origin, extent)
  {
    var end := origin + extent;
    if end > U32_MAX {
      return None;
    }
    var boundaries: seq<nat> := [0];
    var position: nat := 0;
    for i := 0 to |sizes|
      invariant |boundaries| >= 1 && boundaries[0] == 0
      invariant Boundaries(sizes, origin, extent, 0) == Joined(boundaries[1..], Boundaries(sizes[i..], origin, extent, position))
    {
      assert sizes[i..][1..] == sizes[i + 1..];
      position := position + sizes[i];
      if position > U32_MAX {
        return None;
      }
      ghost var head: seq<nat> := if position > origin && position < end then [position - origin] else [];
      JoinedNext(boundaries[1..], head, Boundaries(sizes[i + 1..], origin, extent, position));
      if position > origin && position < end {
        ghost var before := boundaries;
        boundaries := boundaries + [position - origin];
        assert boundaries[1..] == before[1..] + [position - origin];
      }
    }
    ghost var found := boundaries[1..];
    boundaries := boundaries + [extent];
    if position < end {
      return None;
    }
    assert boundaries == [0] + (found + [extent]);
    return Some(boundaries);
  }

  // ---- Regions ----

  function Scaled(value: nat, scale: nat): nat {
    value * scale
  }

  function RegionRow(columns: seq<nat>, top: nat, bottom: nat, scale: nat): seq<Region> {
    if |columns| < 2 then []
    else [Region(Scaled(columns[0], scale), Scaled(columns[1], scale), top, bottom)] + RegionRow(columns[1..], top, bottom, scale)
  }

  function RegionGrid(columns: seq<nat>, rows: seq<nat>, horizontal: nat, vertical: nat): seq<Region> {
    if |rows| < 2 then []
    else
      RegionRow(columns, Scaled(rows[0], vertical), Scaled(rows[1], vertical), horizontal)
      + RegionGrid(columns, rows[1..], horizontal, vertical)
  }

  predicate ScaleFits(boundaries: seq<nat>, scale: nat) {
    forall i :: 0 <= i < |boundaries| ==> Scaled(boundaries[i], scale) <= U32_MAX
  }

  function TileRegions(p: Plane, hard: bool, tileColumns: seq<nat>, tileRows: seq<nat>,
                       horizontal: nat, vertical: nat): Option<seq<Region>> {
    if !hard then Some([Region(0, p.macroblocksX * horizontal, 0, p.macroblocksY * vertical)])
    else
      var columns :- ClippedAxis(tileColumns, p.originX, p.macroblocksX);
      var rows :- ClippedAxis(tileRows, p.originY, p.macroblocksY);
      if ScaleFits(columns, horizontal) && ScaleFits(rows, vertical)
      then Some(RegionGrid(columns, rows, horizontal, vertical))
      else None
  }

  method BuildRegionRow(columns: seq<nat>, top: nat, bottom: nat, scale: nat)
    returns (r: Option<seq<Region>>)
    requires |columns| >= 2
    ensures r == if ScaleFits(columns, scale) && top <= U32_MAX && bottom <= U32_MAX
                 then Some(RegionRow(columns, top, bottom, scale)) else None
  {
    hide Scaled;
    assert columns[0..] == columns;
    var output: seq<Region> := [];
    var i := 0;
    while i + 1 < |columns|
      invariant 0 <= i < |columns|
      invariant output + RegionRow(columns[i..], top, bottom, scale) == RegionRow(columns, top, bottom, scale)
      invariant i > 0 ==> ScaleFits(columns[..i + 1], scale) && top <= U32_MAX && bottom <= U32_MAX
    {
      var left, right := Scaled(columns[i], scale), Scaled(columns[i + 1], scale);
      if left > U32_MAX || right > U32_MAX || top > U32_MAX || bottom > U32_MAX {
        return None;
      }
      RowStep(columns, i, top, bottom, scale);
      ghost var later := RegionRow(columns[i + 1..], top, bottom, scale);
      assert output + ([Region(left, right, top, bottom)] + later) == output + [Region(left, right, top, bottom)] + later;
      output := output + [Region(left, right, top, bottom)];
      i := i + 1;
    }
    assert columns[..i + 1] == columns;
    assert output + [] == output;
    return Some(output);
  }

  lemma RowStep(columns: seq<nat>, i: nat, top: nat, bottom: nat, scale: nat)
    requires i + 1 < |columns|
    ensures RegionRow(columns[i..], top, bottom, scale) ==
      [Region(Scaled(columns[i], scale), Scaled(columns[i + 1], scale), top, bottom)] + RegionRow(columns[i + 1..], top, bottom, scale)
  {
    assert columns[i..][1..] == columns[i + 1..];
  }

  method BuildGrid(columns: seq<nat>, rows: seq<nat>, horizontal: nat, vertical: nat) returns (r: Option<seq<Region>>)
    requires |columns| >= 2 && |rows| >= 2
    ensures r == if ScaleFits(columns, horizontal) && ScaleFits(rows, vertical)
                 then Some(RegionGrid(columns, rows, horizontal, vertical)) else None
  {
    hide Scaled, RegionRow;
    var output: seq<Region> := [];
    var j := 0;
    while j + 1 < |rows|
      invariant 0 <= j < |rows|
      invariant output + RegionGrid(columns, rows[j..], horizontal, vertical) == RegionGrid(columns, rows, horizontal, vertical)
      invariant j > 0 ==> ScaleFits(columns, horizontal) && ScaleFits(rows[..j + 1], vertical)
    {
      assert rows[j..][1..] == rows[j + 1..];
      var row :- BuildRegionRow(columns, Scaled(rows[j], vertical), Scaled(rows[j + 1], vertical), horizontal);
      ghost var later := RegionGrid(columns, rows[j + 1..], horizontal, vertical);
      assert output + (row + later) == output + row + later;
      output := output + row;
      j := j + 1;
    }
    assert rows[..j + 1] == rows;
    assert output + [] == output;
    return Some(output);
  }

  method BuildRegions(p: Plane, hard: bool, tileColumns: seq<nat>, tileRows: seq<nat>, horizontal: nat, vertical: nat)
    returns (r: Option<seq<Region>>)
    ensures r == TileRegions(p, hard, tileColumns, tileRows, horizontal, vertical)
  {
    hide ScaleFits;
    if !hard {
      return Some([Region(0, p.macroblocksX * horizontal, 0, p.macroblocksY * vertical)]);
    }
    var columns :- BuildClippedAxis(tileColumns, p.originX, p.macroblocksX);
    var rows :- BuildClippedAxis(tileRows, p.originY, p.macroblocksY);
    AxisShape(tileColumns, p.originX, p.macroblocksX);
    AxisShape(tileRows, p.originY, p.macroblocksY);
    r := BuildGrid(columns, rows, horizontal, vertical);
  }

  /** A clipped axis starts at zero, ends at the extent, and lists the boundaries strictly between. */
  lemma AxisShape(sizes: seq<nat>, origin: nat, extent: nat)
    ensures var axis := ClippedAxis(sizes, origin, extent);
      axis.Some? ==> |axis.value| >= 2 && axis.value[0] == 0 && axis.value[|axis.value| - 1] == extent
    ensures var axis := ClippedAxis(sizes, origin, extent);
      axis.Some? ==> forall i :: 0 < i < |axis.value| - 1 ==> 0 < axis.value[i] < extent
  {
    BoundariesShape(sizes, origin, extent, 0);
  }

  lemma {:induction false} BoundariesShape(sizes: seq<nat>, origin: nat, extent: nat, position: nat)
    ensures var rest := Boundaries(sizes, origin, extent, position);
      rest.Some? ==> |rest.value| >= 1 && rest.value[|rest.value| - 1] == extent
    ensures var rest := Boundaries(sizes, origin, extent, position);
      rest.Some? ==> forall i :: 0 <= i < |rest.value| - 1 ==> 0 < rest.value[i] < extent
  {
    if sizes != [] {
      BoundariesShape(sizes[1..], origin, extent, position + sizes[0]);
    }
  }

  // ---- The two passes ----

  lemma {:induction false} RowLarge(columns: seq<nat>, top: nat, bottom: nat, scale: nat)
    requires scale >= 2 && bottom >= 2 && forall i :: 0 < i < |columns| ==> columns[i] >= 1
    ensures LargeEnough(RegionRow(columns, top, bottom, scale))
  {
    if |columns| >= 2 {
      RowLarge(columns[1..], top, bottom, scale);
      assert columns[1] * scale >= scale;
    }
  }

  lemma {:induction false} GridLarge(columns: seq<nat>, rows: seq<nat>, horizontal: nat, vertical: nat)
    requires horizontal >= 2 && vertical >= 2
    requires forall i :: 0 < i < |columns| ==> columns[i] >= 1
    requires forall i :: 0 < i < |rows| ==> rows[i] >= 1
    ensures LargeEnough(RegionGrid(columns, rows, horizontal, vertical))
  {
    if |rows| >= 2 {
      assert rows[1] * vertical >= vertical;
      RowLarge(columns, Scaled(rows[0], vertical), Scaled(rows[1], vertical), horizontal);
      GridLarge(columns, rows[1..], horizontal, vertical);
    }
  }

  lemma RegionsLarge(p: Plane, hard: bool, tileColumns: seq<nat>, tileRows: seq<nat>, horizontal: nat, vertical: nat)
    requires p.macroblocksX >= 1 && p.macroblocksY >= 1 && horizontal >= 2 && vertical >= 2
    ensures var regions := TileRegions(p, hard, tileColumns, tileRows, horizontal, vertical);
      regions.Some? ==> LargeEnough(regions.value)
  {
    hide ClippedAxis, ScaleFits;
    if hard {
      AxisShape(tileColumns, p.originX, p.macroblocksX);
      AxisShape(tileRows, p.originY, p.macroblocksY);
      var columns := ClippedAxis(tileColumns, p.originX, p.macroblocksX);
      var rows := ClippedAxis(tileRows, p.originY, p.macroblocksY);
      if columns.Some? && rows.Some? {
        GridLarge(columns.value, rows.value, horizontal, vertical);
      }
    } else {
      assert p.macroblocksX * horizontal >= horizontal && p.macroblocksY * vertical >= vertical;
    }
  }

  /** The low-pass plane and the sample plane of a reconstruction plane. */
  function LowLayout(p: Plane): Layout {
    Layout(p.lowOffset, p.macroblocksX * p.blockColumns)
  }

  function SampleLayout(p: Plane): Layout {
    Layout(p.sampleOffset, p.sampleWidth)
  }

  function FirstSchedule(p: Plane, hard: bool, tileColumns: seq<nat>, tileRows: seq<nat>): Option<Schedule>
    requires ValidPlane(p)
  {
    var regions :- TileRegions(p, hard, tileColumns, tileRows, p.blockColumns, p.blockRows);
    RegionsLarge(p, hard, tileColumns, tileRows, p.blockColumns, p.blockRows);
    if p.blockColumns == 4 then FullSchedule(LowLayout(p), regions) else SubsampledSchedule(LowLayout(p), regions)
  }

  function SecondSchedule(p: Plane, hard: bool, tileColumns: seq<nat>, tileRows: seq<nat>): Option<Schedule>
    requires ValidPlane(p)
  {
    var regions :- TileRegions(p, hard, tileColumns, tileRows, p.blockColumns * 4, p.blockRows * 4);
    RegionsLarge(p, hard, tileColumns, tileRows, p.blockColumns * 4, p.blockRows * 4);
    FullSchedule(SampleLayout(p), regions)
  }

  method FirstOverlapSchedule(p: Plane, hard: bool, tileColumns: seq<nat>, tileRows: seq<nat>)
    returns (r: Option<Schedule>)
    requires ValidPlane(p)
    ensures r == FirstSchedule(p, hard, tileColumns, tileRows)
  {
    var regions :- BuildRegions(p, hard, tileColumns, tileRows, p.blockColumns, p.blockRows);
    RegionsLarge(p, hard, tileColumns, tileRows, p.blockColumns, p.blockRows);
    if p.blockColumns == 4 {
      r := BuildFullSchedule(Layout(p.lowOffset, p.macroblocksX * 4), regions);
    } else {
      r := BuildSubsampledSchedule(Layout(p.lowOffset, p.macroblocksX * p.blockColumns), regions);
    }
  }

  method SecondOverlapSchedule(p: Plane, hard: bool, tileColumns: seq<nat>, tileRows: seq<nat>)
    returns (r: Option<Schedule>)
    requires ValidPlane(p)
    ensures r == SecondSchedule(p, hard, tileColumns, tileRows)
  {
    var horizontal, vertical := p.blockColumns * 4, p.blockRows * 4;
    var regions :- BuildRegions(p, hard, tileColumns, tileRows, horizontal, vertical);
    RegionsLarge(p, hard, tileColumns, tileRows, horizontal, vertical);
    r := BuildFullSchedule(Layout(p.sampleOffset, p.sampleWidth), regions);
  }
}
