/**
 What the check of the Metal plan lets through. Its window need only have as many cells as macroblocks; the samples
 of a plane in such a window are free of what the recycled buffers held exactly when no two macroblocks share a place.
 */
module StaleScratch {
  import opened Wrappers
  import opened Blocks
  import opened Phases
  import opened Overlap
  import opened Regions
  import opened ExactTiling
  import opened OverlapPass
  import opened PlanePasses
  import opened Window
  import opened Kernels
  import opened CellGrid
  import opened Reconstruction
  import opened Lossless
  import opened Device
  import L = Locality

  /** A job whose window has as many cells as macroblocks, be they filled or not. */
  ghost predicate BoundedJob(job: Job, packed: nat, low: nat, samples: nat) {
    var p := job.plane;
    && ValidPlane(p) && TileGrid(job.tileColumns, job.tileRows)
    && BoundingWindow(CodedX(job.macroblocks), CodedY(job.macroblocks), p.blockColumns, p.blockRows)
         == Some(WindowOf(p))
    && AllReady(job, packed) && LowEnd(p) <= low && SampleEnd(p) <= samples
    && (job.overlap.Two? ==> FirstSchedule(p, job.hard, job.tileColumns, job.tileRows).Some?)
    && (!job.overlap.NoOverlap? ==> SecondSchedule(p, job.hard, job.tileColumns, job.tileRows).Some?)
  }

  function WindowOf(p: Plane): PlaneWindow {
    PlaneWindow(p.originX, p.originY, p.macroblocksX, p.macroblocksY, p.sampleWidth, p.sampleHeight)
  }

  lemma FirstItemValid(job: Job, packed: seq<int>, m: Macroblock, low: nat)
    requires Ready(m, job.plane, |packed|) && IsPermutation(job.table) && LowEnd(job.plane) <= low
    ensures ValidItem(FirstItem(job, packed, m), low)
  {
    hide IsPermutation, FirstFits, FirstExact, LowEnd, LowCell;
    var p, cells := job.plane, LowCells(job.plane, m);
    forall a | 0 <= a < |cells|
      ensures cells[a] < low
    {
      LowCellInside(p, m, a);
    }
    forall a, b | 0 <= a < b < |cells|
      ensures cells[a] != cells[b]
    {
      if LowCell(p, m, a) == LowCell(p, m, b) {
        LowCellUnique(p, m, m, a, b);
      }
    }
  }

  lemma SecondItemValid(job: Job, packed: seq<int>, low: seq<int>, m: Macroblock, samples: nat)
    requires Ready(m, job.plane, |packed|) && IsPermutation(job.table)
    requires LowEnd(job.plane) <= |low| && SampleEnd(job.plane) <= samples
    ensures ValidItem(SecondItem(job, packed, low, m), samples)
  {
    hide IsPermutation, GroupFits, GroupExact, LowEnd, SampleEnd, SampleCell, LowCell;
    var p, cells := job.plane, GroupCells(job.plane, m);
    forall a | 0 <= a < |cells|
      ensures cells[a] < samples
    {
      SampleCellInside(p, m, a / 16, a % 16);
    }
    forall a, b | 0 <= a < b < |cells|
      ensures cells[a] != cells[b]
    {
      if cells[a] == cells[b] {
        SampleCellUnique(p, m, m, a / 16, b / 16, a % 16, b % 16);
      }
    }
  }

  lemma BoundedReady(job: Job, packed: nat, low: nat, samples: nat)
    requires BoundedJob(job, packed, low, samples)
    ensures IsPermutation(job.table) && ValidPlane(job.plane)
    ensures forall g :: 0 <= g < |job.macroblocks| ==> Ready(job.macroblocks[g], job.plane, packed)
    ensures LowEnd(job.plane) <= low && SampleEnd(job.plane) <= samples
  {
    hide BoundingWindow, TileGrid, LowEnd, SampleEnd, FirstSchedule, SecondSchedule, Ready, ValidPlane;
  }

  lemma BoundedItems(job: Job, packed: seq<int>, low: seq<int>, samples: nat)
    requires BoundedJob(job, |packed|, |low|, samples)
    ensures AllReady(job, |packed|) && LowEnd(job.plane) <= |low|
    ensures ValidItems(FirstItems(job, packed), |low|) && ValidItems(SecondItems(job, packed, low), samples)
  {
    BoundedReady(job, |packed|, |low|, samples);
    hide BoundedJob, IsPermutation, FirstItem, SecondItem, ValidItem, LowEnd, SampleEnd, Ready;
    forall g | 0 <= g < |job.macroblocks|
      ensures ValidItem(FirstItem(job, packed, job.macroblocks[g]), |low|)
      ensures ValidItem(SecondItem(job, packed, low, job.macroblocks[g]), samples)
    {
      FirstItemValid(job, packed, job.macroblocks[g], |low|);
      SecondItemValid(job, packed, low, job.macroblocks[g], samples);
    }
  }

  /** The schedules of both passes are well formed and stay in the plane's ranges. */
  lemma BoundedPasses(job: Job, packed: nat, low: nat, samples: nat)
    requires BoundedJob(job, packed, low, samples)
    ensures ValidSchedule(FirstWork(job), low) && ValidSchedule(SecondWork(job), samples)
    ensures PassInside(SecondWork(job), job.plane.sampleOffset, SampleEnd(job.plane)) && SampleEnd(job.plane) <= samples
  {
    hide BoundingWindow, AllReady, LowEnd, SampleEnd, PassInside, FirstSchedule, SecondSchedule, ValidSchedule;
    var p := job.plane;
    NothingPasses(p.sampleOffset, SampleEnd(p), low, samples);
    if job.overlap.Two? {
      FirstPassInside(p, job.hard, job.tileColumns, job.tileRows);
      InsideValid(FirstWork(job), p.lowOffset, LowEnd(p), low);
    }
    if !job.overlap.NoOverlap? {
      SecondPassInside(p, job.hard, job.tileColumns, job.tileRows);
      InsideValid(SecondWork(job), p.sampleOffset, SampleEnd(p), samples);
    }
  }

  lemma NothingPasses(from: nat, end: nat, low: nat, samples: nat)
    ensures PassInside(Schedule([], [], []), from, end)
    ensures ValidSchedule(Schedule([], [], []), low) && ValidSchedule(Schedule([], [], []), samples)
  {}

  /** Transforms and overlap passes in turn, the items of each stage in list order. */
  ghost function BoundedReconstruct(job: Job, packed: seq<int>, low: seq<int>, samples: seq<int>): (after: Option<seq<int>>)
    requires BoundedJob(job, |packed|, |low|, |samples|)
    ensures after.Some? ==> |after.value| == |samples|
  {
    BoundedItems(job, packed, low, |samples|);
    BoundedPasses(job, |packed|, |low|, |samples|);
    var transformed :- Run(FirstItems(job, packed), low);
    var filtered :- RunPass(FirstWork(job), FilterFits, transformed);
    BoundedItems(job, packed, filtered, |samples|);
    var output :- Run(SecondItems(job, packed, filtered), samples);
    RunPass(SecondWork(job), FilterFits, output)
  }

  /** A filled window makes it the reconstruction of a valid job. */
  lemma FilledIsReconstruct(job: Job, packed: seq<int>, low: seq<int>, samples: seq<int>)
    requires BoundedJob(job, |packed|, |low|, |samples|) && NoRepeat(CodedX(job.macroblocks), CodedY(job.macroblocks))
    ensures ValidJob(job, |packed|, |low|, |samples|)
    ensures BoundedReconstruct(job, packed, low, samples) == Reconstruct(job, packed, low, samples)
  {
    hide NoRepeat, BoundingWindow, TileGrid, LowEnd, SampleEnd, FirstSchedule, SecondSchedule, AllReady, FillsWindow;
    AcceptedFills(job.macroblocks, job.plane);
    hide Run, RunPass, ValidSchedule, FirstItems, SecondItems, Independent, ValidItems, PassInside, ValidJob, BoundedJob;
    FilledStages(job, packed, low, samples);
  }

  lemma FilledStages(job: Job, packed: seq<int>, low: seq<int>, samples: seq<int>)
    requires ValidJob(job, |packed|, |low|, |samples|) && BoundedJob(job, |packed|, |low|, |samples|)
    ensures BoundedReconstruct(job, packed, low, samples) == Reconstruct(job, packed, low, samples)
  {
    hide BoundingWindow, TileGrid, LowEnd, SampleEnd, FirstSchedule, SecondSchedule, AllReady, FillsWindow, Run, RunPass,
         ValidSchedule, FirstItems, SecondItems, Independent, ValidItems, PassInside;
    var transformed := FirstStage(job, packed, low, |samples|);
    if transformed.Some? {
      NothingRuns(transformed.value);
      var filtered := FirstOverlap(job, transformed.value, |packed|, |samples|);
      if filtered.Some? {
        var output := SecondStage(job, packed, filtered.value, samples);
        if output.Some? {
          NothingRuns(output.value);
        }
      }
    }
  }

  /** Two outcomes: both an overflow, or the same samples of the plane. */
  ghost predicate SameOutcome(one: Option<seq<int>>, two: Option<seq<int>>, p: Plane) {
    (one.Some? <==> two.Some?) && (one.Some? ==> SameRange(one.value, two.value, p.sampleOffset, SampleEnd(p)))
  }

  /** The outcome does not depend on what the scratch buffers held. */
  ghost predicate ScratchFree(job: Job, packed: seq<int>, low: nat, samples: nat)
    requires BoundedJob(job, |packed|, low, samples)
  {
    forall a: seq<int>, b: seq<int>, one: seq<int>, two: seq<int> :: |a| == |b| == low && |one| == |two| == samples ==>
      SameOutcome(BoundedReconstruct(job, packed, a, one), BoundedReconstruct(job, packed, b, two), job.plane)
  }

  lemma FilledScratchFree(job: Job, packed: seq<int>, low: nat, samples: nat)
    requires BoundedJob(job, |packed|, low, samples) && NoRepeat(CodedX(job.macroblocks), CodedY(job.macroblocks))
    ensures ScratchFree(job, packed, low, samples)
  {
    hide BoundedJob, NoRepeat, BoundedReconstruct, SampleEnd, SameRange, ValidJob, Reconstruct;
    forall a: seq<int>, b: seq<int>, one: seq<int>, two: seq<int> | |a| == |b| == low && |one| == |two| == samples
      ensures SameOutcome(BoundedReconstruct(job, packed, a, one), BoundedReconstruct(job, packed, b, two), job.plane)
    {
      FilledIsReconstruct(job, packed, a, one);
      FilledIsReconstruct(job, packed, b, two);
      if Reconstruct(job, packed, a, one).Some? {
        NoStaleScratch(job, packed, a, b, one, two);
      }
      if Reconstruct(job, packed, b, two).Some? {
        NoStaleScratch(job, packed, b, a, two, one);
      }
    }
  }

  // ---- A sample that no macroblock stores ----

  /** With a repeated coordinate some cell of the window stays empty, and its first sample is stored by no macroblock. */
  lemma EmptyCell(job: Job, packed: nat, low: nat, samples: nat) returns (c: nat)
    requires BoundedJob(job, packed, low, samples) && !NoRepeat(CodedX(job.macroblocks), CodedY(job.macroblocks))
    ensures job.plane.sampleOffset <= c < SampleEnd(job.plane) <= samples
    ensures forall g :: 0 <= g < |job.macroblocks| ==>
      Ready(job.macroblocks[g], job.plane, packed) && c !in GroupCells(job.plane, job.macroblocks[g])
  {
    var p, ms := job.plane, job.macroblocks;
    BoundedReady(job, packed, low, samples);
    WindowBijection(CodedX(ms), CodedY(ms), p.blockColumns, p.blockRows, WindowOf(p));
    hide BoundedJob, NoRepeat, BoundingWindow, LowEnd, SampleEnd, SampleCell, IsPermutation;
    var x: nat, y: nat :| x < p.macroblocksX && y < p.macroblocksY && !Occupied(CodedX(ms), CodedY(ms), WindowOf(p), x, y);
    var m := Macroblock(p.originX + x, p.originY + y, 0, 0, 0, 0, 0, 0);
    SampleCellInside(p, m, 0, 0);
    c := SampleCell(p, m, 0, 0);
    forall g | 0 <= g < |ms|
      ensures c !in GroupCells(p, ms[g])
    {
      NotStored(p, m, ms[g], c);
    }
  }

  lemma NotStored(p: Plane, m: Macroblock, n: Macroblock, c: nat)
    requires ValidPlane(p) && InWindow(m, p) && InWindow(n, p) && (n.codedX != m.codedX || n.codedY != m.codedY)
    requires c == SampleCell(p, m, 0, 0)
    ensures c !in GroupCells(p, n)
  {
    hide SampleCell;
    var cells := GroupCells(p, n);
    forall i | 0 <= i < |cells|
      ensures cells[i] != c
    {
      if SampleCell(p, n, i / 16, i % 16) == c {
        SampleCellUnique(p, m, n, 0, i / 16, 0, i % 16);
      }
    }
  }

  /** Items that load nothing and do not store to a cell leave it, and do the same from any other value there. */
  lemma CellKept(items: seq<Item>, memory: seq<int>, c: nat, value: int)
    requires ValidItems(items, |memory|) && c < |memory| && Run(items, memory).Some?
    requires forall k :: 0 <= k < |items| ==> items[k].loads == [] && c !in items[k].stores
    ensures Run(items, memory).value[c] == memory[c]
    ensures Run(items, memory[c := value]).Some? && Run(items, memory[c := value]).value[c] == value
  {
    var only: L.Part := cell => cell == c;
    var others: L.Part := cell => cell != c;
    hide Run, ValidItem;
    L.RunFrame(items, memory, only);
    assert L.Agree(memory, memory[c := value], others);
    RunSame(items, memory, memory[c := value], others);
    L.RunFrame(items, memory[c := value], only);
  }

  /** Then the value that sample held decides the outcome. */
  lemma RepeatedMatters(job: Job, packed: seq<int>, low: seq<int>, samples: seq<int>)
    requires BoundedJob(job, |packed|, |low|, |samples|) && !NoRepeat(CodedX(job.macroblocks), CodedY(job.macroblocks))
    requires BoundedReconstruct(job, packed, low, samples).Some?
    ensures !ScratchFree(job, packed, |low|, |samples|)
  {
    var c := EmptyCell(job, |packed|, |low|, |samples|);
    var other := samples[c := samples[c] + 1];
    CellMatters(job, packed, low, samples, c);
    hide BoundedJob, NoRepeat, BoundedReconstruct, SampleEnd, SameOutcome;
    assert !SameOutcome(BoundedReconstruct(job, packed, low, samples), BoundedReconstruct(job, packed, low, other), job.plane);
  }

  lemma CellMatters(job: Job, packed: seq<int>, low: seq<int>, samples: seq<int>, c: nat)
    requires BoundedJob(job, |packed|, |low|, |samples|) && BoundedReconstruct(job, packed, low, samples).Some?
    requires job.plane.sampleOffset <= c < SampleEnd(job.plane) <= |samples|
    requires forall g :: 0 <= g < |job.macroblocks| ==>
      Ready(job.macroblocks[g], job.plane, |packed|) && c !in GroupCells(job.plane, job.macroblocks[g])
    ensures !SameOutcome(BoundedReconstruct(job, packed, low, samples),
                         BoundedReconstruct(job, packed, low, samples[c := samples[c] + 1]), job.plane)
  {
    BoundedItems(job, packed, low, |samples|);
    BoundedPasses(job, |packed|, |low|, |samples|);
    hide BoundedJob, Run, RunPass, ValidSchedule, FirstItems, ValidItems, PassInside, SampleEnd, LowEnd, SameRange,
         FirstWork, SecondWork, GroupCells, Ready;
    var filtered := RunPass(FirstWork(job), FilterFits, Run(FirstItems(job, packed), low).value).value;
    BoundedItems(job, packed, filtered, |samples|);
    var items := SecondItems(job, packed, filtered);
    forall k | 0 <= k < |items|
      ensures items[k].loads == [] && c !in items[k].stores
    {
      SecondItemShape(job, packed, filtered, job.macroblocks[k]);
    }
    CellKept(items, samples, c, samples[c] + 1);
    var one, two := Run(items, samples).value, Run(items, samples[c := samples[c] + 1]).value;
    if RunPass(SecondWork(job), FilterFits, two).Some?
       && SameRange(RunPass(SecondWork(job), FilterFits, one).value, RunPass(SecondWork(job), FilterFits, two).value,
                    job.plane.sampleOffset, SampleEnd(job.plane)) {
      RunPassInjective(SecondWork(job), FilterFits, one, two, job.plane.sampleOffset, SampleEnd(job.plane));
      SameAt(one, two, job.plane.sampleOffset, SampleEnd(job.plane), c);
      assert false;
    }
  }

  lemma SameAt(one: seq<int>, two: seq<int>, low: nat, high: nat, c: nat)
    requires SameRange(one, two, low, high) && low <= c < high && c < |one|
    ensures one[c] == two[c]
  {}

  /**
   In a window that has as many cells as macroblocks, a plane that reconstructs without overflow does so to samples free
   of what the scratch buffers held exactly when no coordinate repeats. The Metal plan accepts other windows too.
   */
  lemma ScratchFreeExactly(job: Job, packed: seq<int>, low: seq<int>, samples: seq<int>)
    requires BoundedJob(job, |packed|, |low|, |samples|) && BoundedReconstruct(job, packed, low, samples).Some?
    ensures ScratchFree(job, packed, |low|, |samples|) <==> NoRepeat(CodedX(job.macroblocks), CodedY(job.macroblocks))
  {
    hide BoundedJob, NoRepeat, BoundedReconstruct, ScratchFree;
    if NoRepeat(CodedX(job.macroblocks), CodedY(job.macroblocks)) {
      FilledScratchFree(job, packed, |low|, |samples|);
    } else {
      RepeatedMatters(job, packed, low, samples);
    }
  }
}
