/**
 Reconstruction of one plane: first transform, first overlap, high-pass prediction with the second
 transform, second overlap. Each stage is a set of device work items; the whole chain loses nothing and
 sees nothing of what its scratch buffers held.
 */
module Reconstruction {
  import opened Wrappers
  import opened Memory
  import opened Blocks
  import opened Phases
  import opened Regions
  import opened ExactTiling
  import opened OverlapPass
  import opened PlanePasses
  import opened Window
  import opened Kernels
  import opened CellGrid

  datatype OverlapMode = NoOverlap | One | Two

  /** One plane to reconstruct, with the records of its own macroblocks. */
  datatype Job = Job(plane: Plane, macroblocks: seq<Macroblock>, overlap: OverlapMode, hard: bool,
                     tileColumns: seq<nat>, tileRows: seq<nat>, table: seq<nat>)

  function CodedX(ms: seq<Macroblock>): (xs: seq<nat>)
    ensures |xs| == |ms| && forall k :: 0 <= k < |ms| ==> xs[k] == ms[k].codedX
  {
    seq(|ms|, k requires 0 <= k < |ms| => ms[k].codedX)
  }

  function CodedY(ms: seq<Macroblock>): (ys: seq<nat>)
    ensures |ys| == |ms| && forall k :: 0 <= k < |ms| ==> ys[k] == ms[k].codedY
  {
    seq(|ms|, k requires 0 <= k < |ms| => ms[k].codedY)
  }

  /** The macroblocks fill the plane's window, one to a cell. */
  ghost predicate FillsWindow(ms: seq<Macroblock>, p: Plane) {
    && (forall g :: 0 <= g < |ms| ==> InWindow(ms[g], p))
    && NoRepeat(CodedX(ms), CodedY(ms))
    && forall x: nat, y: nat :: x < p.macroblocksX && y < p.macroblocksY ==> HasMacroblock(ms, p, x, y)
  }

  ghost predicate HasMacroblock(ms: seq<Macroblock>, p: Plane, x: nat, y: nat) {
    exists g :: 0 <= g < |ms| && ms[g].codedX == p.originX + x && ms[g].codedY == p.originY + y
  }

  /** A window the plan accepts is filled. */
  lemma AcceptedFills(ms: seq<Macroblock>, p: Plane)
    requires AcceptedWindow(CodedX(ms), CodedY(ms), p.blockColumns, p.blockRows)
      == Some(PlaneWindow(p.originX, p.originY, p.macroblocksX, p.macroblocksY, p.sampleWidth, p.sampleHeight))
    ensures FillsWindow(ms, p)
  {
    hide BoundingWindow, AcceptedWindow, NoRepeat, Cells;
    var w := PlaneWindow(p.originX, p.originY, p.macroblocksX, p.macroblocksY, p.sampleWidth, p.sampleHeight);
    WindowFacts(CodedX(ms), CodedY(ms), p.blockColumns, p.blockRows, w);
    WindowBijection(CodedX(ms), CodedY(ms), p.blockColumns, p.blockRows, w);
    forall x: nat, y: nat | x < p.macroblocksX && y < p.macroblocksY
      ensures HasMacroblock(ms, p, x, y)
    {
      assert Occupied(CodedX(ms), CodedY(ms), w, x, y);
    }
  }

  /** A plane as the plan constructors hand it to the device, with buffers of the given sizes. */
  ghost predicate ValidJob(job: Job, packed: nat, low: nat, samples: nat) {
    var p := job.plane;
    && ValidPlane(p) && TileGrid(job.tileColumns, job.tileRows)
    && FillsWindow(job.macroblocks, p) && AllReady(job, packed)
    && LowEnd(p) <= low && SampleEnd(p) <= samples
    && (job.overlap.Two? ==> FirstSchedule(p, job.hard, job.tileColumns, job.tileRows).Some?)
    && (!job.overlap.NoOverlap? ==> SecondSchedule(p, job.hard, job.tileColumns, job.tileRows).Some?)
  }

  // ---- The four stages ----

  ghost function FirstItem(job: Job, packed: seq<int>, m: Macroblock): Item
    requires Ready(m, job.plane, |packed|) && IsPermutation(job.table)
  {
    Item([], LowCells(job.plane, m),
         v => if FirstFits(job.table, packed, m, job.plane) then Some(FirstExact(job.table, packed, m, job.plane)) else None)
  }

  ghost function FirstItems(job: Job, packed: seq<int>): (items: seq<Item>)
    requires AllReady(job, |packed|)
    ensures |items| == |job.macroblocks|
    ensures forall g :: 0 <= g < |items| ==> items[g] == FirstItem(job, packed, job.macroblocks[g])
  {
    seq(|job.macroblocks|, g requires 0 <= g < |job.macroblocks| => FirstItem(job, packed, job.macroblocks[g]))
  }

  lemma LowHeld(p: Plane, m: Macroblock, size: nat)
    requires ValidPlane(p) && InWindow(m, p) && LowEnd(p) <= size
    ensures LowPlaneHolds(p, m, size)
  {
    forall k: nat | k < BlockCount(p)
      ensures LowCell(p, m, k) < size
    {
      LowCellInside(p, m, k);
    }
  }

  ghost function SecondItem(job: Job, packed: seq<int>, low: seq<int>, m: Macroblock): Item
    requires Ready(m, job.plane, |packed|) && IsPermutation(job.table) && LowEnd(job.plane) <= |low|
  {
    LowHeld(job.plane, m, |low|);
    Item([], GroupCells(job.plane, m),
         v => if GroupFits(job.table, packed, low, m, job.plane)
              then Some(GroupExact(job.table, packed, low, m, job.plane)) else None)
  }

  ghost predicate AllReady(job: Job, packed: nat) {
    IsPermutation(job.table) && forall g :: 0 <= g < |job.macroblocks| ==> Ready(job.macroblocks[g], job.plane, packed)
  }

  ghost function SecondItems(job: Job, packed: seq<int>, low: seq<int>): (items: seq<Item>)
    requires AllReady(job, |packed|) && LowEnd(job.plane) <= |low|
    ensures |items| == |job.macroblocks|
    ensures forall g :: 0 <= g < |items| ==> items[g] == SecondItem(job, packed, low, job.macroblocks[g])
  {
    seq(|job.macroblocks|, g requires 0 <= g < |job.macroblocks| => SecondItem(job, packed, low, job.macroblocks[g]))
  }

  /** Work items that load nothing and store a fixed part of the plane, no two the same cell. */
  ghost predicate Writers(items: seq<Item>, low: nat, high: nat) {
    && (forall k :: 0 <= k < |items| ==> items[k].loads == [] && Distinct(items[k].stores))
    && (forall k, i :: 0 <= k < |items| && i in items[k].stores ==> low <= i < high)
    && (forall j, k, i :: 0 <= j < k < |items| && i in items[j].stores ==> i !in items[k].stores)
  }

  lemma FirstItemsWrite(job: Job, packed: seq<int>, low: nat, samples: nat)
    requires ValidJob(job, |packed|, low, samples)
    ensures Writers(FirstItems(job, packed), job.plane.lowOffset, LowEnd(job.plane))
  {
    hide LowEnd, LowCell, FirstItem, TileGrid;
    var p, items := job.plane, FirstItems(job, packed);
    forall j, k, a, b | 0 <= j < |items| && 0 <= k < |items| && 0 <= a < BlockCount(p) && 0 <= b < BlockCount(p)
      && LowCells(p, job.macroblocks[j])[a] == LowCells(p, job.macroblocks[k])[b]
      ensures j == k && a == b
    {
      LowCellUnique(p, job.macroblocks[j], job.macroblocks[k], a, b);
    }
    forall k, i | 0 <= k < |items| && i in LowCells(p, job.macroblocks[k])
      ensures p.lowOffset <= i < LowEnd(p)
    {
      var a :| 0 <= a < BlockCount(p) && LowCells(p, job.macroblocks[k])[a] == i;
      LowCellInside(p, job.macroblocks[k], a);
    }
    forall k | 0 <= k < |items|
      ensures items[k].loads == [] && items[k].stores == LowCells(p, job.macroblocks[k])
    {
      FirstItemShape(job, packed, job.macroblocks[k]);
    }
  }

  lemma FirstItemShape(job: Job, packed: seq<int>, m: Macroblock)
    requires Ready(m, job.plane, |packed|) && IsPermutation(job.table)
    ensures FirstItem(job, packed, m).loads == [] && FirstItem(job, packed, m).stores == LowCells(job.plane, m)
  {}

  lemma SecondItemShape(job: Job, packed: seq<int>, low: seq<int>, m: Macroblock)
    requires Ready(m, job.plane, |packed|) && IsPermutation(job.table) && LowEnd(job.plane) <= |low|
    ensures SecondItem(job, packed, low, m).loads == []
    ensures SecondItem(job, packed, low, m).stores == GroupCells(job.plane, m)
  {}

  lemma SecondItemsWrite(job: Job, packed: seq<int>, low: seq<int>, samples: nat)
    requires ValidJob(job, |packed|, |low|, samples)
    ensures Writers(SecondItems(job, packed, low), job.plane.sampleOffset, SampleEnd(job.plane))
  {
    hide LowEnd, SampleEnd, SampleCell, SecondItem, TileGrid;
    var p, items := job.plane, SecondItems(job, packed, low);
    forall j, k, a, b | 0 <= j < |items| && 0 <= k < |items| && 0 <= a < BlockCount(p) * 16 && 0 <= b < BlockCount(p) * 16
      && GroupCells(p, job.macroblocks[j])[a] == GroupCells(p, job.macroblocks[k])[b]
      ensures j == k && a == b
    {
      SampleCellUnique(p, job.macroblocks[j], job.macroblocks[k], a / 16, b / 16, a % 16, b % 16);
    }
    forall k, i | 0 <= k < |items| && i in GroupCells(p, job.macroblocks[k])
      ensures p.sampleOffset <= i < SampleEnd(p)
    {
      var a :| 0 <= a < BlockCount(p) * 16 && GroupCells(p, job.macroblocks[k])[a] == i;
      SampleCellInside(p, job.macroblocks[k], a / 16, a % 16);
    }
    forall k | 0 <= k < |items|
      ensures items[k].loads == [] && items[k].stores == GroupCells(p, job.macroblocks[k])
    {
      SecondItemShape(job, packed, low, job.macroblocks[k]);
    }
  }

  /** Such items are valid for the device and independent of each other. */
  lemma WritersSound(items: seq<Item>, low: nat, high: nat, size: nat)
    requires Writers(items, low, high) && high <= size
    requires forall k, v: seq<int> :: 0 <= k < |items| && items[k].op(v).Some? ==> |items[k].op(v).value| == |items[k].stores|
    ensures ValidItems(items, size) && Independent(items)
  {
    forall k | 0 <= k < |items|
      ensures ValidItem(items[k], size)
    {
      forall i | 0 <= i < |items[k].stores|
        ensures items[k].stores[i] < size
      {
        assert items[k].stores[i] in items[k].stores;
      }
    }
  }

  lemma FirstItemsSound(job: Job, packed: seq<int>, low: nat, samples: nat)
    requires ValidJob(job, |packed|, low, samples)
    ensures ValidItems(FirstItems(job, packed), low) && Independent(FirstItems(job, packed))
  {
    FirstItemsWrite(job, packed, low, samples);
    hide Writers, FirstFits, FirstExact, LowCells;
    WritersSound(FirstItems(job, packed), job.plane.lowOffset, LowEnd(job.plane), low);
  }

  lemma SecondItemsSound(job: Job, packed: seq<int>, low: seq<int>, samples: nat)
    requires ValidJob(job, |packed|, |low|, samples)
    ensures ValidItems(SecondItems(job, packed, low), samples) && Independent(SecondItems(job, packed, low))
  {
    SecondItemsWrite(job, packed, low, samples);
    hide Writers, GroupFits, GroupExact, GroupCells;
    WritersSound(SecondItems(job, packed, low), job.plane.sampleOffset, SampleEnd(job.plane), samples);
  }

  ghost function FirstStage(job: Job, packed: seq<int>, low: seq<int>, samples: nat): (after: Option<seq<int>>)
    requires ValidJob(job, |packed|, |low|, samples)
    ensures after.Some? ==> |after.value| == |low|
  {
    FirstItemsSound(job, packed, |low|, samples);
    Run(FirstItems(job, packed), low)
  }

  ghost function FirstOverlap(job: Job, low: seq<int>, packed: nat, samples: nat): (after: Option<seq<int>>)
    requires ValidJob(job, packed, |low|, samples)
    ensures after.Some? ==> |after.value| == |low|
  {
    if !job.overlap.Two? then Some(low)
    else
      var p := job.plane;
      FirstPassInside(p, job.hard, job.tileColumns, job.tileRows);
      var s := FirstSchedule(p, job.hard, job.tileColumns, job.tileRows).value;
      InsideValid(s, p.lowOffset, LowEnd(p), |low|);
      RunPass(s, FilterFits, low)
  }

  ghost function SecondStage(job: Job, packed: seq<int>, low: seq<int>, samples: seq<int>): (after: Option<seq<int>>)
    requires ValidJob(job, |packed|, |low|, |samples|)
    ensures after.Some? ==> |after.value| == |samples|
  {
    SecondItemsSound(job, packed, low, |samples|);
    Run(SecondItems(job, packed, low), samples)
  }

  ghost function SecondOverlap(job: Job, samples: seq<int>, packed: nat, low: nat): (after: Option<seq<int>>)
    requires ValidJob(job, packed, low, |samples|)
    ensures after.Some? ==> |after.value| == |samples|
  {
    if job.overlap.NoOverlap? then Some(samples)
    else
      var p := job.plane;
      SecondPassInside(p, job.hard, job.tileColumns, job.tileRows);
      var s := SecondSchedule(p, job.hard, job.tileColumns, job.tileRows).value;
      InsideValid(s, p.sampleOffset, SampleEnd(p), |samples|);
      RunPass(s, FilterFits, samples)
  }

  /** The samples of a plane from its coefficients, on scratch buffers `low` and `samples`; `None` on overflow. */
  ghost function Reconstruct(job: Job, packed: seq<int>, low: seq<int>, samples: seq<int>): (after: Option<seq<int>>)
    requires ValidJob(job, |packed|, |low|, |samples|)
    ensures after.Some? ==> |after.value| == |samples|
  {
    var transformed :- FirstStage(job, packed, low, |samples|);
    var filtered :- FirstOverlap(job, transformed, |packed|, |samples|);
    var output :- SecondStage(job, packed, filtered, samples);
    SecondOverlap(job, output, |packed|, |low|)
  }

  // ---- What the transform stages leave ----

  /** A completed first stage leaves every block's value in its own cell. */
  lemma FirstStageAt(job: Job, packed: seq<int>, low: seq<int>, samples: nat, g: nat, k: nat)
    requires ValidJob(job, |packed|, |low|, samples) && g < |job.macroblocks| && k < BlockCount(job.plane)
    requires FirstStage(job, packed, low, samples).Some?
    ensures var m, p := job.macroblocks[g], job.plane;
      && FirstFits(job.table, packed, m, p) && LowCell(p, m, k) < |low|
      && FirstStage(job, packed, low, samples).value[LowCell(p, m, k)] == FirstExact(job.table, packed, m, p)[k]
  {
    hide FirstFits, FirstExact, LowCell, TileGrid, FillsWindow, PhaseResult, Independent;
    var m, items := job.macroblocks[g], FirstItems(job, packed);
    FirstItemsSound(job, packed, |low|, samples);
    RunIsPhaseResult(items, low);
    FirstItemShape(job, packed, m);
    PhaseAt(items, low, Run(items, low).value, g, k);
    FirstItemComputes(job, packed, m, low);
  }

  lemma FirstItemComputes(job: Job, packed: seq<int>, m: Macroblock, low: seq<int>)
    requires Ready(m, job.plane, |packed|) && IsPermutation(job.table) && ValidItem(FirstItem(job, packed, m), |low|)
    ensures Computed(FirstItem(job, packed, m), low) ==
      if FirstFits(job.table, packed, m, job.plane) then Some(FirstExact(job.table, packed, m, job.plane)) else None
  {
    hide FirstFits, FirstExact, LowCells;
  }

  lemma PhaseAt(items: seq<Item>, before: seq<int>, after: seq<int>, k: nat, i: nat)
    requires ValidItems(items, |before|) && PhaseResult(items, before, after) && k < |items| && i < |items[k].stores|
    ensures Computed(items[k], before).Some? && items[k].stores[i] < |after|
    ensures after[items[k].stores[i]] == Computed(items[k], before).value[i]
  {}

  /** A completed second stage leaves every transformed sample in its own cell. */
  lemma SecondStageAt(job: Job, packed: seq<int>, low: seq<int>, samples: seq<int>, g: nat, i: nat)
    requires ValidJob(job, |packed|, |low|, |samples|) && g < |job.macroblocks| && i < BlockCount(job.plane) * 16
    requires SecondStage(job, packed, low, samples).Some?
    ensures var m, p := job.macroblocks[g], job.plane;
      && LowPlaneHolds(p, m, |low|) && GroupFits(job.table, packed, low, m, p) && SampleCell(p, m, i / 16, i % 16) < |samples|
      && SecondStage(job, packed, low, samples).value[SampleCell(p, m, i / 16, i % 16)] == GroupExact(job.table, packed, low, m, p)[i]
  {
    hide GroupFits, GroupExact, SampleCell, TileGrid, FillsWindow, PhaseResult, Independent;
    var m, items := job.macroblocks[g], SecondItems(job, packed, low);
    SecondItemsSound(job, packed, low, |samples|);
    RunIsPhaseResult(items, samples);
    SecondItemShape(job, packed, low, m);
    PhaseAt(items, samples, Run(items, samples).value, g, i);
    LowHeld(job.plane, m, |low|);
    SecondItemComputes(job, packed, low, m, samples);
  }

  lemma SecondItemComputes(job: Job, packed: seq<int>, low: seq<int>, m: Macroblock, samples: seq<int>)
    requires Ready(m, job.plane, |packed|) && IsPermutation(job.table) && LowEnd(job.plane) <= |low|
    requires LowPlaneHolds(job.plane, m, |low|) && ValidItem(SecondItem(job, packed, low, m), |samples|)
    ensures Computed(SecondItem(job, packed, low, m), samples) ==
      if GroupFits(job.table, packed, low, m, job.plane) then Some(GroupExact(job.table, packed, low, m, job.plane)) else None
  {
    hide GroupFits, GroupExact, GroupCells;
  }
}
