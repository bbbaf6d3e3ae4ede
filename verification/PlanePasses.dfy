/**
 The overlap passes of one plane: their records stay in the plane's ranges, what they do there depends on
 nothing else, and when the corner phases of a subsampled plane are free of order.
 */
module PlanePasses {
  import opened Wrappers
  import opened Memory
  import opened Phases
  import opened Overlap
  import opened Regions
  import opened Tiling
  import opened Passes
  import opened ExactTiling
  import opened OverlapPass
  import opened Corners
  import opened PhaseOrder
  import opened Window
  import L = Locality

  /** Well-formed records whose addresses all lie in [low, high). */
  ghost predicate WorksInside(works: seq<Work>, low: nat, high: nat) {
    forall k :: 0 <= k < |works| ==> ValidWork(works[k]) && WorkInside(works[k], low, high)
  }

  ghost predicate WorkInside(w: Work, low: nat, high: nat) {
    forall i: nat :: i in Addresses(w) ==> low <= i < high
  }

  ghost predicate PassInside(s: Schedule, low: nat, high: nat) {
    WorksInside(s.prefix, low, high) && WorksInside(s.filters, low, high) && WorksInside(s.suffix, low, high)
  }

  lemma SoundInside(works: seq<Work>, low: nat, high: nat)
    requires SoundPass(works, low, high)
    ensures WorksInside(works, low, high)
  {}

  lemma EncodedInside(at: Layout, tiles: seq<Tile>, works: seq<Work>, height: nat)
    requires at.stride > 0 && EncodeAll(at, tiles) == Some(works) && AllInPlane(tiles, at.stride, height)
    requires forall k :: 0 <= k < |tiles| && (tiles[k].Residual? || tiles[k].Restore?) ==> tiles[k].source != tiles[k].x
    ensures WorksInside(works, at.offset, at.offset + at.stride * height)
  {
    hide Addresses, Encode, Index;
    forall k | 0 <= k < |works|
      ensures ValidWork(works[k]) && WorkInside(works[k], at.offset, at.offset + at.stride * height)
    {
      EncodedValid(at, tiles[k], works[k], height);
      forall i: nat | i in Addresses(works[k])
        ensures at.offset <= i < at.offset + at.stride * height
      {
        EncodedInRange(at, tiles[k], works[k], height, i);
      }
    }
  }

  lemma SubsampledInside(at: Layout, regions: seq<Region>, height: nat)
    requires Partition(at, regions, height) && SubsampledSchedule(at, regions).Some?
    ensures PassInside(SubsampledSchedule(at, regions).value, at.offset, at.offset + at.stride * height)
  {
    var s := SubsampledSchedule(at, regions).value;
    ResidualsValid(at, regions, height, at.offset + at.stride * height);
    ResidualSources(regions);
    SubsampledTiling(at, regions, height);
    SoundInside(s.filters, at.offset, at.offset + at.stride * height);
    hide SubsampledTiles, Residuals, Restores, SoundPass, Grained, Partition, WorksInside;
    EncodedInside(at, AllResiduals(regions), s.prefix, height);
    EncodedInside(at, AllRestores(regions), s.suffix, height);
  }

  /** The regions of a subsampled plane's first pass cut up its low plane. */
  lemma FirstRegions(p: Plane, hard: bool, tileColumns: seq<nat>, tileRows: seq<nat>)
    requires ValidPlane(p) && TileGrid(tileColumns, tileRows)
    requires TileRegions(p, hard, tileColumns, tileRows, p.blockColumns, p.blockRows).Some?
    ensures Partition(LowLayout(p), TileRegions(p, hard, tileColumns, tileRows, p.blockColumns, p.blockRows).value,
                      p.macroblocksY * p.blockRows)
  {
    hide TileRegions, Grained;
    RegionsLarge(p, hard, tileColumns, tileRows, p.blockColumns, p.blockRows);
    RegionsPartition(p, hard, tileColumns, tileRows, p.blockColumns, p.blockRows, 2);
  }

  lemma FirstPassInside(p: Plane, hard: bool, tileColumns: seq<nat>, tileRows: seq<nat>)
    requires ValidPlane(p) && TileGrid(tileColumns, tileRows)
    requires FirstSchedule(p, hard, tileColumns, tileRows).Some?
    ensures PassInside(FirstSchedule(p, hard, tileColumns, tileRows).value, p.lowOffset, LowEnd(p))
  {
    hide TileRegions, LowEnd, SoundPass, SubsampledSchedule, WorksInside, Partition;
    LowSize(p);
    if p.blockColumns == 4 {
      hide FirstSchedule;
      FirstPassTiling(p, hard, tileColumns, tileRows);
      var s := FirstSchedule(p, hard, tileColumns, tileRows).value;
      SoundInside(s.filters, p.lowOffset, LowEnd(p));
      NothingInside(p.lowOffset, LowEnd(p));
    } else {
      FirstRegions(p, hard, tileColumns, tileRows);
      var regions := TileRegions(p, hard, tileColumns, tileRows, p.blockColumns, p.blockRows).value;
      SubsampledInside(LowLayout(p), regions, p.macroblocksY * p.blockRows);
    }
  }

  lemma NothingInside(low: nat, high: nat)
    ensures WorksInside([], low, high)
  {}

  lemma SecondPassInside(p: Plane, hard: bool, tileColumns: seq<nat>, tileRows: seq<nat>)
    requires ValidPlane(p) && TileGrid(tileColumns, tileRows)
    requires SecondSchedule(p, hard, tileColumns, tileRows).Some?
    ensures PassInside(SecondSchedule(p, hard, tileColumns, tileRows).value, p.sampleOffset, SampleEnd(p))
  {
    hide SecondSchedule, SoundPass, WorksInside;
    SecondPassTiling(p, hard, tileColumns, tileRows);
    var s := SecondSchedule(p, hard, tileColumns, tileRows).value;
    SoundInside(s.filters, p.sampleOffset, SampleEnd(p));
    NothingInside(p.sampleOffset, SampleEnd(p));
  }

  lemma InsideValid(s: Schedule, low: nat, high: nat, size: nat)
    requires PassInside(s, low, high) && high <= size
    ensures ValidSchedule(s, size)
  {
    WorksInsideValid(s.prefix, low, high, size);
    WorksInsideValid(s.filters, low, high, size);
    WorksInsideValid(s.suffix, low, high, size);
  }

  lemma WorksInsideValid(works: seq<Work>, low: nat, high: nat, size: nat)
    requires WorksInside(works, low, high) && high <= size
    ensures ValidWorks(works, size)
  {
    hide Addresses;
    forall k, p | 0 <= k < |works| && 0 <= p < |Addresses(works[k])|
      ensures Addresses(works[k])[p] < size
    {
      assert Addresses(works[k])[p] in Addresses(works[k]);
    }
  }

  // ---- What a pass does to a plane depends on the plane alone ----

  ghost predicate SameRange(one: seq<int>, two: seq<int>, low: nat, high: nat) {
    |one| == |two| && forall i: nat :: low <= i < high && i < |one| ==> one[i] == two[i]
  }

  function Range(low: nat, high: nat): L.Part {
    cell => low <= cell < high
  }

  lemma {:induction false} RunSame(items: seq<Item>, one: seq<int>, two: seq<int>, part: L.Part)
    requires L.Agree(one, two, part) && ValidItems(items, |one|)
    requires forall k :: 0 <= k < |items| ==> L.StaysIn(items[k], part)
    requires Run(items, one).Some?
    ensures Run(items, two).Some? && L.Agree(Run(items, one).value, Run(items, two).value, part)
  {
    if items != [] {
      var init, last := items[..|items| - 1], items[|items| - 1];
      RunSame(init, one, two, part);
      L.ApplyInside(last, Run(init, one).value, Run(init, two).value, part);
    }
  }

  lemma WorksStay(works: seq<Work>, fits: Fitting, low: nat, high: nat)
    requires WorksInside(works, low, high)
    ensures forall k :: 0 <= k < |works| ==> L.StaysIn(WorkItems(works, fits)[k], Range(low, high))
  {
    forall k | 0 <= k < |works|
      ensures L.StaysIn(WorkItems(works, fits)[k], Range(low, high))
    {
      forall cell: nat | cell in Destinations(works[k])
        ensures low <= cell < high
      {
        DestinationsAreAddresses(works[k], cell);
      }
      hide Addresses, Destinations, Filter;
      assert WorkItems(works, fits)[k] == WorkItem(works[k], fits);
    }
  }

  lemma PhaseLocal(works: seq<Work>, fits: Fitting, one: seq<int>, two: seq<int>, low: nat, high: nat)
    requires WorksInside(works, low, high) && high <= |one| && ValidWorks(works, |one|)
    requires SameRange(one, two, low, high) && PhaseRun(works, fits, one).Some?
    ensures PhaseRun(works, fits, two).Some?
    ensures SameRange(PhaseRun(works, fits, one).value, PhaseRun(works, fits, two).value, low, high)
  {
    hide WorksInside, Run, L.StaysIn, ValidWorks;
    WorksStay(works, fits, low, high);
    WorkItemsValid(works, fits, |one|);
    RunSame(WorkItems(works, fits), one, two, Range(low, high));
  }

  /** On memories that agree on the plane a pass completes alike and leaves them agreeing there. */
  lemma RunPassLocal(s: Schedule, fits: Fitting, one: seq<int>, two: seq<int>, low: nat, high: nat)
    requires PassInside(s, low, high) && high <= |one| && ValidSchedule(s, |one|)
    requires SameRange(one, two, low, high) && RunPass(s, fits, one).Some?
    ensures RunPass(s, fits, two).Some?
    ensures SameRange(RunPass(s, fits, one).value, RunPass(s, fits, two).value, low, high)
  {
    hide PhaseRun, WorksInside, SameRange, ValidWorks;
    SameLength(one, two, low, high);
    PhaseLocal(s.prefix, fits, one, two, low, high);
    var one1, two1 := PhaseRun(s.prefix, fits, one).value, PhaseRun(s.prefix, fits, two).value;
    PhaseLocal(s.filters, fits, one1, two1, low, high);
    var one2, two2 := PhaseRun(s.filters, fits, one1).value, PhaseRun(s.filters, fits, two1).value;
    PhaseLocal(s.suffix, fits, one2, two2, low, high);
  }

  lemma SameLength(one: seq<int>, two: seq<int>, low: nat, high: nat)
    requires SameRange(one, two, low, high)
    ensures |one| == |two|
  {}

  lemma UnfilteredSame(w: Work, one: seq<int>, two: seq<int>, low: nat, high: nat)
    requires ValidWork(w) && WorkInside(w, low, high) && high <= |one| && SameRange(one, two, low, high)
    requires Within(Addresses(w), |one|)
    ensures SameRange(Unfiltered(w, one), Unfiltered(w, two), low, high)
  {
    AddressesDistinct(w);
    forall p | 0 <= p < |Addresses(w)|
      ensures one[Addresses(w)[p]] == two[Addresses(w)[p]]
    {
      assert Addresses(w)[p] in Addresses(w);
    }
    hide Addresses, ForwardFilter;
    assert Gather(one, Addresses(w)) == Gather(two, Addresses(w));
    var at, out := Destinations(w), ForwardFilter(w.kind, Gather(one, Addresses(w)));
    ScatterStores(one, at, out);
    ScatterStores(two, at, out);
    forall i: nat | low <= i < high && i < |one|
      ensures Scatter(one, at, out)[i] == Scatter(two, at, out)[i]
    {
      if i in at {
        var k :| 0 <= k < |at| && at[k] == i;
      }
    }
  }

  lemma {:induction false} UndoAllSame(works: seq<Work>, one: seq<int>, two: seq<int>, low: nat, high: nat)
    requires WorksInside(works, low, high) && high <= |one| && SameRange(one, two, low, high)
    requires ValidWorks(works, |one|)
    ensures SameRange(UndoAll(works, one), UndoAll(works, two), low, high)
  {
    if works != [] {
      hide Addresses, ForwardFilter, Scatter, WorkInside;
      var last := works[|works| - 1];
      UnfilteredSame(last, one, two, low, high);
      UndoAllSame(works[..|works| - 1], Unfiltered(last, one), Unfiltered(last, two), low, high);
    }
  }

  lemma UndoPassSame(s: Schedule, one: seq<int>, two: seq<int>, low: nat, high: nat)
    requires PassInside(s, low, high) && high <= |one| && SameRange(one, two, low, high)
    requires ValidSchedule(s, |one|) && ValidSchedule(s, |two|)
    ensures SameRange(UndoPass(s, one), UndoPass(s, two), low, high)
  {
    hide WorksInside, UndoAll, Addresses;
    UndoAllSame(s.suffix, one, two, low, high);
    UndoAllSame(s.filters, UndoAll(s.suffix, one), UndoAll(s.suffix, two), low, high);
    UndoAllSame(s.prefix, UndoAll(s.filters, UndoAll(s.suffix, one)), UndoAll(s.filters, UndoAll(s.suffix, two)), low, high);
  }

  /** Two memories a completed pass makes agree on the plane agreed there before it. */
  lemma RunPassInjective(s: Schedule, fits: Fitting, one: seq<int>, two: seq<int>, low: nat, high: nat)
    requires PassInside(s, low, high) && high <= |one| == |two| && ValidSchedule(s, |one|)
    requires RunPass(s, fits, one).Some? && RunPass(s, fits, two).Some?
    requires SameRange(RunPass(s, fits, one).value, RunPass(s, fits, two).value, low, high)
    ensures SameRange(one, two, low, high)
  {
    hide RunPass, UndoPass, PassInside, ValidSchedule;
    RunPassUndone(s, fits, one);
    RunPassUndone(s, fits, two);
    UndoPassSame(s, RunPass(s, fits, one).value, RunPass(s, fits, two).value, low, high);
  }

  // ---- The corner phases of a subsampled plane ----

  /** No interval of a clipped axis is a single macroblock. */
  predicate Spaced(axis: seq<nat>) {
    forall i :: 0 <= i < |axis| - 1 ==> axis[i] + 2 <= axis[i + 1]
  }

  /** No tile shows only one macroblock column in the window. */
  predicate WideTiles(p: Plane, hard: bool, tileColumns: seq<nat>) {
    if !hard then p.macroblocksX >= 2
    else
      var columns := ClippedAxis(tileColumns, p.originX, p.macroblocksX);
      columns.Some? && Spaced(columns.value)
  }

  lemma {:induction false} RowWide(columns: seq<nat>, top: nat, bottom: nat)
    ensures WideEnough(RegionRow(columns, top, bottom, 2)) <==> Spaced(columns)
  {
    if |columns| >= 2 {
      RowWide(columns[1..], top, bottom);
      var row := RegionRow(columns, top, bottom, 2);
      WideHead(row);
      SpacedHead(columns);
    }
  }

  lemma WideHead(regions: seq<Region>)
    requires regions != []
    ensures WideEnough(regions) <==> regions[0].left + 4 <= regions[0].right && WideEnough(regions[1..])
  {
    forall k | 0 <= k < |regions|
      ensures regions[k] == if k == 0 then regions[0] else regions[1..][k - 1]
    {}
  }

  lemma SpacedHead(axis: seq<nat>)
    requires |axis| >= 2
    ensures Spaced(axis) <==> axis[0] + 2 <= axis[1] && Spaced(axis[1..])
  {
    if axis[0] + 2 <= axis[1] && Spaced(axis[1..]) {
      forall i | 0 <= i < |axis| - 1
        ensures axis[i] + 2 <= axis[i + 1]
      {
        if i > 0 {
          assert axis[1..][i - 1] == axis[i];
        }
      }
    }
    if Spaced(axis) {
      forall i | 0 <= i < |axis[1..]| - 1
        ensures axis[1..][i] + 2 <= axis[1..][i + 1]
      {
        assert axis[i + 1] + 2 <= axis[i + 2];
      }
    }
  }

  lemma WideConcat(a: seq<Region>, b: seq<Region>)
    ensures WideEnough(a + b) <==> WideEnough(a) && WideEnough(b)
  {
    if WideEnough(a + b) {
      forall k | 0 <= k < |a|
        ensures a[k].left + 4 <= a[k].right
      {
        assert (a + b)[k] == a[k];
      }
      forall k | 0 <= k < |b|
        ensures b[k].left + 4 <= b[k].right
      {
        assert (a + b)[|a| + k] == b[k];
      }
    }
  }

  lemma {:induction false} GridWide(columns: seq<nat>, rows: seq<nat>, vertical: nat)
    ensures |rows| >= 2 ==> (WideEnough(RegionGrid(columns, rows, 2, vertical)) <==> Spaced(columns))
  {
    if |rows| >= 2 {
      hide WideEnough, Spaced, RegionRow, Scaled;
      GridWide(columns, rows[1..], vertical);
      RowWide(columns, Scaled(rows[0], vertical), Scaled(rows[1], vertical));
      WideConcat(RegionRow(columns, Scaled(rows[0], vertical), Scaled(rows[1], vertical), 2),
                 RegionGrid(columns, rows[1..], 2, vertical));
      if |rows| == 2 {
        NothingWide(columns, rows[1..], vertical);
      }
    }
  }

  lemma NothingWide(columns: seq<nat>, rows: seq<nat>, vertical: nat)
    requires |rows| < 2
    ensures WideEnough(RegionGrid(columns, rows, 2, vertical))
  {}

  lemma RegionsWide(p: Plane, hard: bool, tileColumns: seq<nat>, tileRows: seq<nat>)
    requires ValidPlane(p) && p.blockColumns == 2
    requires TileRegions(p, hard, tileColumns, tileRows, 2, p.blockRows).Some?
    ensures WideEnough(TileRegions(p, hard, tileColumns, tileRows, 2, p.blockRows).value) <==> WideTiles(p, hard, tileColumns)
  {
    hide ClippedAxis, RegionGrid, Spaced;
    if hard {
      hide WideEnough;
      var columns := ClippedAxis(tileColumns, p.originX, p.macroblocksX).value;
      var rows := ClippedAxis(tileRows, p.originY, p.macroblocksY).value;
      AxisShape(tileRows, p.originY, p.macroblocksY);
      GridWide(columns, rows, p.blockRows);
    } else {
      var regions := TileRegions(p, hard, tileColumns, tileRows, 2, p.blockRows).value;
      assert regions[0] == Region(0, p.macroblocksX * 2, 0, p.macroblocksY * p.blockRows);
    }
  }

  /**
   The corner phases of a subsampled plane give the same result in every order exactly when no tile shows
   only one macroblock column in the window; otherwise threads of one phase race for a corner.
   */
  lemma FirstPassOrderFree(p: Plane, hard: bool, tileColumns: seq<nat>, tileRows: seq<nat>, s: Schedule,
                           fits: Fitting, size: nat)
    requires ValidPlane(p) && p.blockColumns == 2 && TileGrid(tileColumns, tileRows) && Modest(fits)
    requires FirstSchedule(p, hard, tileColumns, tileRows) == Some(s) && LowEnd(p) <= size
    requires ValidItems(WorkItems(s.prefix, fits), size) && ValidItems(WorkItems(s.suffix, fits), size)
    ensures OrderFree(WorkItems(s.prefix, fits), size) <==> WideTiles(p, hard, tileColumns)
    ensures OrderFree(WorkItems(s.suffix, fits), size) <==> WideTiles(p, hard, tileColumns)
  {
    hide TileRegions, LowEnd, SubsampledSchedule, Partition, OrderFree, WorkItems, WideEnough, WideTiles;
    LowSize(p);
    FirstRegions(p, hard, tileColumns, tileRows);
    RegionsWide(p, hard, tileColumns, tileRows);
    var regions := TileRegions(p, hard, tileColumns, tileRows, 2, p.blockRows).value;
    CornersOrderFree(LowLayout(p), regions, p.macroblocksY * p.blockRows, s, fits, size);
  }

  /** On a plane without such tiles the first pass keeps each corner's distance to its neighbour. */
  lemma FirstPassKeepsDistance(p: Plane, hard: bool, tileColumns: seq<nat>, tileRows: seq<nat>, s: Schedule,
                               fits: Fitting, memory: seq<int>, k: nat)
    requires ValidPlane(p) && p.blockColumns == 2 && TileGrid(tileColumns, tileRows)
    requires FirstSchedule(p, hard, tileColumns, tileRows) == Some(s) && WideTiles(p, hard, tileColumns)
    requires LowEnd(p) <= |memory| && k < |s.prefix| && ValidSchedule(s, |memory|) && RunPass(s, fits, memory).Some?
    ensures var corner, neighbour := s.prefix[k].first, s.prefix[k].second;
      var after := RunPass(s, fits, memory).value;
      corner < |memory| && neighbour < |memory| &&
      after[corner] - after[neighbour] == memory[corner] - memory[neighbour]
  {
    hide TileRegions, LowEnd, SubsampledSchedule, Partition, WideEnough, WideTiles, RunPass, ValidSchedule;
    LowSize(p);
    FirstRegions(p, hard, tileColumns, tileRows);
    RegionsWide(p, hard, tileColumns, tileRows);
    var regions := TileRegions(p, hard, tileColumns, tileRows, 2, p.blockRows).value;
    CornersKeepDistance(LowLayout(p), regions, p.macroblocksY * p.blockRows, s, fits, memory, k);
  }
}
