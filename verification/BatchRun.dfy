/**
 A whole batch: the transforms and overlap passes of every plane of every image, launched together phase by
 phase, with a status word per image. Every image comes out as the reconstructions of its own planes leave it.
 */
module BatchRun {
  import opened Wrappers
  import opened Phases
  import opened Overlap
  import opened Regions
  import opened Passes
  import opened ExactTiling
  import opened OverlapPass
  import opened PlanePasses
  import opened PhaseOrder
  import opened Window
  import opened Rebasing
  import opened ScheduleCache
  import opened Kernels
  import opened CellGrid
  import opened Reconstruction
  import opened Lossless
  import opened Lanes
  import opened Device
  import opened Batch
  import opened Isolation
  import opened Launches
  import opened Dispatches
  import L = Locality

  // ---- The planes of a batch ----

  /** The planes of all images, image by image, on shared buffers that hold them side by side. */
  ghost predicate ValidBatch(jobs: seq<Job>, packed: nat, low: nat, samples: nat) {
    && (forall k :: 0 <= k < |jobs| ==> ValidJob(jobs[k], packed, low, samples))
    && forall j, k :: 0 <= j < |jobs| && 0 <= k < |jobs| && j != k ==> PlanesApart(jobs[j].plane, jobs[k].plane)
  }

  ghost predicate PlanesApart(p: Plane, q: Plane) {
    && (LowEnd(p) <= q.lowOffset || LowEnd(q) <= p.lowOffset)
    && (SampleEnd(p) <= q.sampleOffset || SampleEnd(q) <= p.sampleOffset)
  }

  ghost function LowPlacement(job: Job, packed: nat, low: nat, samples: nat): Placement
    requires ValidJob(job, packed, low, samples)
  {
    Placement(FirstWork(job), job.plane.lowOffset, LowEnd(job.plane))
  }

  ghost function SamplePlacement(job: Job, packed: nat, low: nat, samples: nat): Placement
    requires ValidJob(job, packed, low, samples)
  {
    Placement(SecondWork(job), job.plane.sampleOffset, SampleEnd(job.plane))
  }

  lemma NothingFitted(low: nat, high: nat, size: nat)
    requires high <= size
    ensures Fitted(Placement(Schedule([], [], []), low, high), size)
  {}

  lemma LowFitted(job: Job, packed: nat, low: nat, samples: nat)
    requires ValidJob(job, packed, low, samples)
    ensures Fitted(LowPlacement(job, packed, low, samples), low)
  {
    hide LowEnd, SampleEnd, PassInside, FirstSchedule, SecondSchedule, ValidSchedule, FillsWindow, AllReady, AllKinds;
    var p := job.plane;
    if job.overlap.Two? {
      FirstPassInside(p, job.hard, job.tileColumns, job.tileRows);
      InsideValid(FirstWork(job), p.lowOffset, LowEnd(p), low);
      PlannedKinds(Request(First, p, job.hard, job.tileColumns, job.tileRows));
    } else {
      NothingFitted(p.lowOffset, LowEnd(p), low);
    }
  }

  lemma SampleFitted(job: Job, packed: nat, low: nat, samples: nat)
    requires ValidJob(job, packed, low, samples)
    ensures Fitted(SamplePlacement(job, packed, low, samples), samples)
  {
    hide LowEnd, SampleEnd, PassInside, FirstSchedule, SecondSchedule, ValidSchedule, FillsWindow, AllReady, AllKinds;
    var p := job.plane;
    if !job.overlap.NoOverlap? {
      SecondPassInside(p, job.hard, job.tileColumns, job.tileRows);
      InsideValid(SecondWork(job), p.sampleOffset, SampleEnd(p), samples);
      PlannedKinds(Request(Second, p, job.hard, job.tileColumns, job.tileRows));
    } else {
      NothingFitted(p.sampleOffset, SampleEnd(p), samples);
    }
  }

  lemma WritersOwn(items: seq<Item>, p: Placement, size: nat)
    requires ValidItems(items, size) && Writers(items, p.low, p.high) && forall k :: 0 <= k < |items| ==> items[k].stores != []
    ensures Own(items, p, size)
  {}

  lemma FirstOwn(job: Job, packed: seq<int>, low: nat, samples: nat)
    requires ValidJob(job, |packed|, low, samples)
    ensures Own(FirstItems(job, packed), LowPlacement(job, |packed|, low, samples), low)
  {
    hide LowEnd, FillsWindow, TileGrid, LowCells, FirstItem, Writers, ValidItems;
    FirstItemsSound(job, packed, low, samples);
    FirstItemsWrite(job, packed, low, samples);
    var items := FirstItems(job, packed);
    forall k | 0 <= k < |items|
      ensures items[k].stores != []
    {
      FirstItemShape(job, packed, job.macroblocks[k]);
    }
    WritersOwn(items, LowPlacement(job, |packed|, low, samples), low);
  }

  lemma BlocksOwn(job: Job, packed: seq<int>, low: seq<int>, samples: nat)
    requires ValidJob(job, |packed|, |low|, samples)
    ensures Own(BlockItems(job, packed, low), SamplePlacement(job, |packed|, |low|, samples), samples)
  {
    hide LowEnd, SampleEnd, FillsWindow, TileGrid, SampleCells, BlockItems, SecondWork, AllReady;
    BlockItemsSound(job, packed, low, samples);
    var p, items := SamplePlacement(job, |packed|, |low|, samples), BlockItems(job, packed, low);
    hide ValidItems, ValidItem, Independent;
    forall j | 0 <= j < |items|
      ensures L.StaysIn(items[j], Range(p.low, p.high)) && items[j].stores != []
    {
      BlockStays(job, packed, low, samples, j);
    }
  }

  lemma BlockStays(job: Job, packed: seq<int>, low: seq<int>, samples: nat, j: nat)
    requires ValidJob(job, |packed|, |low|, samples) && j < |BlockItems(job, packed, low)|
    ensures var item := BlockItems(job, packed, low)[j];
      L.StaysIn(item, Range(job.plane.sampleOffset, SampleEnd(job.plane))) && item.stores != []
  {
    hide LowEnd, SampleEnd, FillsWindow, TileGrid, SampleCell, LowPlaneHolds, HighFits, SecondFits, SecondExact,
         HighPredicted, LowCell, BlockCount;
    var m, block := job.macroblocks[MacroblockOf(job, j)], j % BlockCount(job.plane);
    var item := BlockItems(job, packed, low)[j];
    LowHeld(job.plane, m, |low|);
    assert item.loads == [] && item.stores == SampleCells(job.plane, m, block);
    forall cell: nat | cell in item.stores
      ensures job.plane.sampleOffset <= cell < SampleEnd(job.plane)
    {
      var k :| 0 <= k < 16 && SampleCell(job.plane, m, block, k) == cell;
      SampleCellInside(job.plane, m, block, k);
    }
  }

  // ---- The two halves of one plane's reconstruction ----

  /** First transform and first overlap. */
  ghost function LowHalf(job: Job, packed: seq<int>, low: seq<int>, samples: nat): (after: Option<seq<int>>)
    requires ValidJob(job, |packed|, |low|, samples)
    ensures after.Some? ==> |after.value| == |low|
  {
    var transformed :- FirstStage(job, packed, low, samples);
    FirstOverlap(job, transformed, |packed|, samples)
  }

  /** High-pass prediction with the second transform, and second overlap, from a finished low plane. */
  ghost function SampleHalf(job: Job, packed: seq<int>, low: seq<int>, samples: seq<int>): (after: Option<seq<int>>)
    requires ValidJob(job, |packed|, |low|, |samples|)
    ensures after.Some? ==> |after.value| == |samples|
  {
    var transformed :- SecondStage(job, packed, low, samples);
    SecondOverlap(job, transformed, |packed|, |low|)
  }

  lemma HalvesReconstruct(job: Job, packed: seq<int>, low: seq<int>, samples: seq<int>)
    requires ValidJob(job, |packed|, |low|, |samples|)
    ensures Reconstruct(job, packed, low, samples) ==
      match LowHalf(job, packed, low, |samples|)
      case None => None
      case Some(filtered) => SampleHalf(job, packed, filtered, samples)
  {
    hide FirstStage, FirstOverlap, SecondStage, SecondOverlap, ValidJob;
  }

  /** What one plane runs in one half: a transform, then its own pass. */
  ghost function OwnHalf(list: seq<Item>, p: Placement, fits: Fitting): seq<Item> {
    list + PlaneItems(p.schedule, fits)
  }

  /** A transform and a pass, item by item. */
  lemma HalfRuns(list: seq<Item>, p: Placement, memory: seq<int>)
    requires ValidItems(list, |memory|) && ValidSchedule(p.schedule, |memory|)
    ensures ValidItems(OwnHalf(list, p, FilterFits), |memory|)
    ensures Run(OwnHalf(list, p, FilterFits), memory) ==
      match Run(list, memory)
      case None => None
      case Some(middle) => RunPass(p.schedule, FilterFits, middle)
  {
    hide Run, ValidItems, PlaneItems, RunPass, ValidSchedule;
    PassRuns(p.schedule, FilterFits, memory);
    if Run(list, memory).Some? {
      PassRuns(p.schedule, FilterFits, Run(list, memory).value);
    }
    L.RunConcat(list, PlaneItems(p.schedule, FilterFits), memory);
  }

  lemma LowHalfRuns(job: Job, packed: seq<int>, low: seq<int>, samples: nat)
    requires ValidJob(job, |packed|, |low|, samples)
    ensures var items := OwnHalf(FirstItems(job, packed), LowPlacement(job, |packed|, |low|, samples), FilterFits);
      ValidItems(items, |low|) && Run(items, low) == LowHalf(job, packed, low, samples)
  {
    hide Run, RunPass, ValidItems, FirstSchedule, SecondSchedule, LowEnd, SampleEnd, FillsWindow, AllReady,
         FirstItems, OwnHalf, Independent, ValidSchedule, AllKinds, PassInside;
    FirstItemsSound(job, packed, |low|, samples);
    LowFitted(job, |packed|, |low|, samples);
    HalfRuns(FirstItems(job, packed), LowPlacement(job, |packed|, |low|, samples), low);
    if FirstStage(job, packed, low, samples).Some? {
      NothingRuns(FirstStage(job, packed, low, samples).value);
    }
  }

  lemma SampleHalfRuns(job: Job, packed: seq<int>, low: seq<int>, samples: seq<int>)
    requires ValidJob(job, |packed|, |low|, |samples|)
    ensures var items := OwnHalf(BlockItems(job, packed, low), SamplePlacement(job, |packed|, |low|, |samples|), FilterFits);
      ValidItems(items, |samples|) && Run(items, samples) == SampleHalf(job, packed, low, samples)
  {
    hide Run, RunPass, ValidItems, FirstSchedule, SecondSchedule, LowEnd, SampleEnd, FillsWindow, AllReady,
         BlockItems, OwnHalf, Independent, ValidSchedule, AllKinds, PassInside;
    BlocksAreGroups(job, packed, low, samples);
    SampleFitted(job, |packed|, |low|, |samples|);
    HalfRuns(BlockItems(job, packed, low), SamplePlacement(job, |packed|, |low|, |samples|), samples);
    if SecondStage(job, packed, low, samples).Some? {
      NothingRuns(SecondStage(job, packed, low, samples).value);
    }
  }

  /** The second half sees of the low buffer only its own plane. */
  lemma SampleHalfSame(job: Job, packed: seq<int>, one: seq<int>, two: seq<int>, samples: seq<int>)
    requires ValidJob(job, |packed|, |one|, |samples|) && |one| == |two|
    requires L.Agree(one, two, Range(job.plane.lowOffset, LowEnd(job.plane))) && SampleHalf(job, packed, one, samples).Some?
    ensures SampleHalf(job, packed, two, samples).Some?
    ensures L.Agree(SampleHalf(job, packed, one, samples).value, SampleHalf(job, packed, two, samples).value,
                    Range(job.plane.sampleOffset, SampleEnd(job.plane)))
  {
    hide SecondStage, SecondOverlap, ValidJob, LowEnd, SampleEnd;
    SecondStageSame(job, packed, one, two, samples, samples);
    SecondOverlapSame(job, SecondStage(job, packed, one, samples).value, SecondStage(job, packed, two, samples).value, |packed|, |one|);
  }

  // ---- The launches of a batch ----

  ghost function LowPlacements(jobs: seq<Job>, packed: nat, low: nat, samples: nat): (ps: seq<Placement>)
    requires ValidBatch(jobs, packed, low, samples)
    ensures |ps| == |jobs| && forall k :: 0 <= k < |jobs| ==> ps[k] == LowPlacement(jobs[k], packed, low, samples)
  {
    seq(|jobs|, k requires 0 <= k < |jobs| => LowPlacement(jobs[k], packed, low, samples))
  }

  ghost function SamplePlacements(jobs: seq<Job>, packed: nat, low: nat, samples: nat): (ps: seq<Placement>)
    requires ValidBatch(jobs, packed, low, samples)
    ensures |ps| == |jobs| && forall k :: 0 <= k < |jobs| ==> ps[k] == SamplePlacement(jobs[k], packed, low, samples)
  {
    seq(|jobs|, k requires 0 <= k < |jobs| => SamplePlacement(jobs[k], packed, low, samples))
  }

  ghost function FirstLists(jobs: seq<Job>, packed: seq<int>, low: nat, samples: nat): (lists: seq<seq<Item>>)
    requires ValidBatch(jobs, |packed|, low, samples)
    ensures |lists| == |jobs| && forall k :: 0 <= k < |jobs| ==> lists[k] == FirstItems(jobs[k], packed)
  {
    seq(|jobs|, k requires 0 <= k < |jobs| => FirstItems(jobs[k], packed))
  }

  ghost function BlockLists(jobs: seq<Job>, packed: seq<int>, low: seq<int>, samples: nat): (lists: seq<seq<Item>>)
    requires ValidBatch(jobs, |packed|, |low|, samples)
    ensures |lists| == |jobs| && forall k :: 0 <= k < |jobs| ==> lists[k] == BlockItems(jobs[k], packed, low)
  {
    seq(|jobs|, k requires 0 <= k < |jobs| => BlockItems(jobs[k], packed, low))
  }

  /** A transform of every plane, then the stages of an overlap pass over the planes that run it. */
  ghost function HalfLaunches(lists: seq<seq<Item>>, ps: seq<Placement>, order: seq<nat>): seq<Launch> {
    [Launch(lists, ListOrder(|lists|))] + StageLaunches(ps, order, FilterFits)
  }

  /** The transforms and the passes of all planes are ready to launch on one buffer. */
  ghost predicate HalfReady(lists: seq<seq<Item>>, ps: seq<Placement>, order: seq<nat>, size: nat) {
    AllOwn(lists, ps, size) && AllFitted(ps, size) && Apart(ps) && Listed(order, ps)
  }

  /** First transforms and first overlap passes. */
  ghost function LowLaunches(jobs: seq<Job>, packed: seq<int>, low: nat, samples: nat, order: seq<nat>): seq<Launch>
    requires ValidBatch(jobs, |packed|, low, samples)
  {
    HalfLaunches(FirstLists(jobs, packed, low, samples), LowPlacements(jobs, |packed|, low, samples), order)
  }

  /** High-pass transforms, from what the low buffer holds, and second overlap passes. */
  ghost function SampleLaunches(jobs: seq<Job>, packed: seq<int>, low: seq<int>, samples: nat, order: seq<nat>): seq<Launch>
    requires ValidBatch(jobs, |packed|, |low|, samples)
  {
    HalfLaunches(BlockLists(jobs, packed, low, samples), SamplePlacements(jobs, |packed|, |low|, samples), order)
  }

  lemma HalfValid(lists: seq<seq<Item>>, ps: seq<Placement>, order: seq<nat>, size: nat)
    requires HalfReady(lists, ps, order, size)
    ensures AllValid(HalfLaunches(lists, ps, order), ps, size)
  {
    hide AllOwn, Fitted, Apart, Listed, StageLaunches;
    StagesValid(ps, order, FilterFits, size);
    ListsValid(lists, ps, size);
    var stages := StageLaunches(ps, order, FilterFits);
    forall i | 0 <= i < |HalfLaunches(lists, ps, order)|
      ensures ValidLaunch(HalfLaunches(lists, ps, order)[i], ps, size)
    {
      if i > 0 {
        assert HalfLaunches(lists, ps, order)[i] == stages[i - 1];
      }
    }
  }

  lemma ListsValid(lists: seq<seq<Item>>, ps: seq<Placement>, size: nat)
    requires AllOwn(lists, ps, size)
    ensures ValidLaunch(Launch(lists, ListOrder(|lists|)), ps, size)
  {
    hide Own;
    forall k: nat | k < |ps|
      ensures k in ListOrder(|lists|)
    {
      assert ListOrder(|lists|)[k] == k;
    }
  }

  lemma HalfRun(lists: seq<seq<Item>>, ps: seq<Placement>, order: seq<nat>, memory: seq<int>, k: nat)
    requires HalfReady(lists, ps, order, |memory|) && k < |ps| == |lists|
    ensures AllValid(HalfLaunches(lists, ps, order), ps, |memory|)
    ensures Alone(HalfLaunches(lists, ps, order), ps, memory, k) ==
      (var own := OwnHalf(lists[k], ps[k], FilterFits); if ValidItems(own, |memory|) then Run(own, memory) else None)
  {
    hide AllOwn, Fitted, Apart, Listed, ValidItem, Run, AllValid, PlaneItems;
    HalfValid(lists, ps, order, |memory|);
    var launches, stages := HalfLaunches(lists, ps, order), StageLaunches(ps, order, FilterFits);
    StagesRun(ps, order, FilterFits, k);
    assert launches[1..] == stages;
    assert PlaneRun(launches, k) == OwnHalf(lists[k], ps[k], FilterFits);
    PlaneRunValid(launches, ps, |memory|, k);
  }

  lemma HalfIndependent(lists: seq<seq<Item>>, ps: seq<Placement>, order: seq<nat>, images: seq<nat>, image: nat, size: nat)
    requires HalfReady(lists, ps, order, size) && |images| == |ps| == |lists|
    requires forall k :: 0 <= k < |ps| && images[k] == image ==> Independent(lists[k]) && Sound(ps[k])
    ensures OwnIndependent(HalfLaunches(lists, ps, order), images, image)
  {
    hide AllOwn, Fitted, Apart, Listed, Independent, Sound;
    StagesIndependent(ps, order, FilterFits, images, image, size);
    var launches, stages := HalfLaunches(lists, ps, order), StageLaunches(ps, order, FilterFits);
    forall i, k | 0 <= i < |launches| && 0 <= k < |images| && images[k] == image && k < |launches[i].lists|
      ensures Independent(launches[i].lists[k])
    {
      if i > 0 {
        assert launches[i] == stages[i - 1];
      }
    }
  }

  lemma LowReady(jobs: seq<Job>, packed: seq<int>, low: nat, samples: nat, order: seq<nat>)
    requires ValidBatch(jobs, |packed|, low, samples) && Listed(order, LowPlacements(jobs, |packed|, low, samples))
    ensures HalfReady(FirstLists(jobs, packed, low, samples), LowPlacements(jobs, |packed|, low, samples), order, low)
  {
    hide ValidJob, Own, Fitted, FirstItems, FirstWork, LowEnd, SampleEnd, Listed;
    var ps := LowPlacements(jobs, |packed|, low, samples);
    forall k | 0 <= k < |jobs|
      ensures Own(FirstLists(jobs, packed, low, samples)[k], ps[k], low) && Fitted(ps[k], low)
    {
      FirstOwn(jobs[k], packed, low, samples);
      LowFitted(jobs[k], |packed|, low, samples);
    }
    forall j, k | 0 <= j < |ps| && 0 <= k < |ps| && j != k
      ensures ps[j].high <= ps[k].low || ps[k].high <= ps[j].low
    {
      assert PlanesApart(jobs[j].plane, jobs[k].plane);
    }
  }

  lemma SampleReady(jobs: seq<Job>, packed: seq<int>, low: seq<int>, samples: nat, order: seq<nat>)
    requires ValidBatch(jobs, |packed|, |low|, samples) && Listed(order, SamplePlacements(jobs, |packed|, |low|, samples))
    ensures HalfReady(BlockLists(jobs, packed, low, samples), SamplePlacements(jobs, |packed|, |low|, samples), order, samples)
  {
    hide ValidJob, Own, Fitted, BlockItems, SecondWork, LowEnd, SampleEnd, Listed;
    var ps := SamplePlacements(jobs, |packed|, |low|, samples);
    forall k | 0 <= k < |jobs|
      ensures Own(BlockLists(jobs, packed, low, samples)[k], ps[k], samples) && Fitted(ps[k], samples)
    {
      BlocksOwn(jobs[k], packed, low, samples);
      SampleFitted(jobs[k], |packed|, |low|, samples);
    }
    forall j, k | 0 <= j < |ps| && 0 <= k < |ps| && j != k
      ensures ps[j].high <= ps[k].low || ps[k].high <= ps[j].low
    {
      assert PlanesApart(jobs[j].plane, jobs[k].plane);
    }
  }

  // ---- A device run of a batch ----

  /**
   What passes between the two halves of a run, and how the threads went: the order in which each pass lists the
   planes, and its executions.
   */
  datatype BatchTrace = BatchTrace(lowOrder: seq<nat>, lowRuns: seq<seq<BatchState>>, low: seq<int>, lowRaised: set<nat>,
                                   sampleOrder: seq<nat>, sampleRuns: seq<seq<BatchState>>)

  ghost predicate ListsPlanes(jobs: seq<Job>, packed: nat, low: nat, samples: nat, t: BatchTrace)
    requires ValidBatch(jobs, packed, low, samples)
  {
    Listed(t.lowOrder, LowPlacements(jobs, packed, low, samples)) && Listed(t.sampleOrder, SamplePlacements(jobs, packed, low, samples))
  }

  lemma LowValid(jobs: seq<Job>, packed: seq<int>, low: nat, samples: nat, order: seq<nat>)
    requires ValidBatch(jobs, |packed|, low, samples) && Listed(order, LowPlacements(jobs, |packed|, low, samples))
    ensures AllValid(LowLaunches(jobs, packed, low, samples, order), LowPlacements(jobs, |packed|, low, samples), low)
  {
    hide HalfReady, ValidBatch, Listed, HalfLaunches;
    LowReady(jobs, packed, low, samples, order);
    HalfValid(FirstLists(jobs, packed, low, samples), LowPlacements(jobs, |packed|, low, samples), order, low);
  }

  lemma SampleValid(jobs: seq<Job>, packed: seq<int>, low: seq<int>, samples: nat, order: seq<nat>)
    requires ValidBatch(jobs, |packed|, |low|, samples) && Listed(order, SamplePlacements(jobs, |packed|, |low|, samples))
    ensures AllValid(SampleLaunches(jobs, packed, low, samples, order), SamplePlacements(jobs, |packed|, |low|, samples), samples)
  {
    hide HalfReady, ValidBatch, Listed, HalfLaunches;
    SampleReady(jobs, packed, low, samples, order);
    HalfValid(BlockLists(jobs, packed, low, samples), SamplePlacements(jobs, |packed|, |low|, samples), order, samples);
  }

  /** The first half of a device run, with all status words clear before it. */
  ghost predicate LowRuns(jobs: seq<Job>, images: seq<nat>, packed: seq<int>, low: seq<int>, samples: nat, t: BatchTrace)
    requires ValidBatch(jobs, |packed|, |low|, samples) && |images| == |jobs| && ListsPlanes(jobs, |packed|, |low|, samples, t)
  {
    LowValid(jobs, packed, |low|, samples, t.lowOrder);
    BatchEnds(AllThreads(LowLaunches(jobs, packed, |low|, samples, t.lowOrder),
                         LowPlacements(jobs, |packed|, |low|, samples), images, |low|),
              t.lowRuns, low, {}, t.low, t.lowRaised)
  }

  /** The second half, from the low buffer and the status words the first half left. */
  ghost predicate SampleRuns(jobs: seq<Job>, images: seq<nat>, packed: seq<int>, samples: seq<int>, t: BatchTrace,
                             after: seq<int>, raised: set<nat>)
    requires ValidBatch(jobs, |packed|, |t.low|, |samples|) && |images| == |jobs| && ListsPlanes(jobs, |packed|, |t.low|, |samples|, t)
  {
    SampleValid(jobs, packed, t.low, |samples|, t.sampleOrder);
    BatchEnds(AllThreads(SampleLaunches(jobs, packed, t.low, |samples|, t.sampleOrder),
                         SamplePlacements(jobs, |packed|, |t.low|, |samples|), images, |samples|),
              t.sampleRuns, samples, t.lowRaised, after, raised)
  }

  /** A device run of a batch; plane `k` belongs to image `images[k]`. */
  ghost predicate BatchRuns(jobs: seq<Job>, images: seq<nat>, packed: seq<int>, low: seq<int>, samples: seq<int>, t: BatchTrace,
                            after: seq<int>, raised: set<nat>)
    requires ValidBatch(jobs, |packed|, |low|, |samples|)
  {
    && |images| == |jobs| && |t.low| == |low| && ListsPlanes(jobs, |packed|, |low|, |samples|, t)
    && LowRuns(jobs, images, packed, low, |samples|, t) && SampleRuns(jobs, images, packed, samples, t, after, raised)
  }

  // ---- One image of the batch ----

  /** The plane does not run a first pass whose corner records meet. */
  ghost predicate Unraced(job: Job) {
    job.overlap.Two? && job.plane.blockColumns == 2 ==> WideTiles(job.plane, job.hard, job.tileColumns)
  }

  ghost predicate ImageUnraced(jobs: seq<Job>, images: seq<nat>, image: nat) {
    forall k :: 0 <= k < |jobs| && k < |images| && images[k] == image ==> Unraced(jobs[k])
  }

  lemma LowAlone(jobs: seq<Job>, packed: seq<int>, low: seq<int>, samples: nat, order: seq<nat>, k: nat)
    requires ValidBatch(jobs, |packed|, |low|, samples) && Listed(order, LowPlacements(jobs, |packed|, |low|, samples)) && k < |jobs|
    ensures AllValid(LowLaunches(jobs, packed, |low|, samples, order), LowPlacements(jobs, |packed|, |low|, samples), |low|)
    ensures Alone(LowLaunches(jobs, packed, |low|, samples, order), LowPlacements(jobs, |packed|, |low|, samples), low, k)
      == LowHalf(jobs[k], packed, low, samples)
  {
    hide ValidJob, HalfReady, OwnHalf, Run, LowHalf, PlanesApart, ValidItems, HalfLaunches, AllValid, Listed;
    LowReady(jobs, packed, |low|, samples, order);
    HalfRun(FirstLists(jobs, packed, |low|, samples), LowPlacements(jobs, |packed|, |low|, samples), order, low, k);
    LowHalfRuns(jobs[k], packed, low, samples);
  }

  lemma SampleAlone(jobs: seq<Job>, packed: seq<int>, low: seq<int>, samples: seq<int>, order: seq<nat>, k: nat)
    requires ValidBatch(jobs, |packed|, |low|, |samples|) && Listed(order, SamplePlacements(jobs, |packed|, |low|, |samples|)) && k < |jobs|
    ensures AllValid(SampleLaunches(jobs, packed, low, |samples|, order), SamplePlacements(jobs, |packed|, |low|, |samples|), |samples|)
    ensures Alone(SampleLaunches(jobs, packed, low, |samples|, order), SamplePlacements(jobs, |packed|, |low|, |samples|), samples, k)
      == SampleHalf(jobs[k], packed, low, samples)
  {
    hide ValidJob, HalfReady, OwnHalf, Run, SampleHalf, PlanesApart, ValidItems, HalfLaunches, AllValid, Listed;
    SampleReady(jobs, packed, low, |samples|, order);
    HalfRun(BlockLists(jobs, packed, low, |samples|), SamplePlacements(jobs, |packed|, |low|, |samples|), order, samples, k);
    SampleHalfRuns(jobs[k], packed, low, samples);
  }

  lemma LowIndependent(jobs: seq<Job>, images: seq<nat>, packed: seq<int>, low: nat, samples: nat, order: seq<nat>, image: nat)
    requires ValidBatch(jobs, |packed|, low, samples) && Listed(order, LowPlacements(jobs, |packed|, low, samples))
    requires |images| == |jobs| && ImageUnraced(jobs, images, image)
    ensures OwnIndependent(LowLaunches(jobs, packed, low, samples, order), images, image)
  {
    hide ValidJob, HalfReady, PlanesApart, HalfLaunches, Listed, Independent, SoundSchedule, Unraced, FirstWork,
         FirstItems, LowEnd, SampleEnd, ValidItems, ValidSchedule;
    LowReady(jobs, packed, low, samples, order);
    var lists, ps := FirstLists(jobs, packed, low, samples), LowPlacements(jobs, |packed|, low, samples);
    forall k | 0 <= k < |ps| && images[k] == image
      ensures Independent(lists[k]) && Sound(ps[k])
    {
      FirstItemsSound(jobs[k], packed, low, samples);
      LowSound(jobs[k], |packed|, low, samples);
    }
    HalfIndependent(lists, ps, order, images, image, low);
  }

  lemma LowSound(job: Job, packed: nat, low: nat, samples: nat)
    requires ValidJob(job, packed, low, samples) && Unraced(job)
    ensures Sound(LowPlacement(job, packed, low, samples))
  {
    FirstWorkSound(job, packed, low, samples);
    hide ValidJob, WideTiles, SoundSchedule, FirstWork;
  }

  lemma SampleIndependent(jobs: seq<Job>, images: seq<nat>, packed: seq<int>, low: seq<int>, samples: nat, order: seq<nat>, image: nat)
    requires ValidBatch(jobs, |packed|, |low|, samples) && Listed(order, SamplePlacements(jobs, |packed|, |low|, samples))
    requires |images| == |jobs|
    ensures OwnIndependent(SampleLaunches(jobs, packed, low, samples, order), images, image)
  {
    hide ValidJob, HalfReady, PlanesApart, HalfLaunches, Listed, Independent, SoundSchedule, SecondWork, BlockItems,
         LowEnd, SampleEnd, ValidItems, ValidSchedule;
    SampleReady(jobs, packed, low, samples, order);
    var lists, ps := BlockLists(jobs, packed, low, samples), SamplePlacements(jobs, |packed|, |low|, samples);
    forall k | 0 <= k < |ps| && images[k] == image
      ensures Independent(lists[k]) && Sound(ps[k])
    {
      BlockItemsSound(jobs[k], packed, low, samples);
      SecondWorkSound(jobs[k], |packed|, |low|, samples);
    }
    HalfIndependent(lists, ps, order, images, image, samples);
  }

  /** The image's status word and low planes after the first half. */
  lemma LowImage(jobs: seq<Job>, images: seq<nat>, packed: seq<int>, low: seq<int>, samples: nat, t: BatchTrace, image: nat)
    requires ValidBatch(jobs, |packed|, |low|, samples) && |images| == |jobs| && ListsPlanes(jobs, |packed|, |low|, samples, t)
    requires LowRuns(jobs, images, packed, low, samples, t) && ImageUnraced(jobs, images, image)
    ensures image in t.lowRaised <==> exists k :: 0 <= k < |jobs| && images[k] == image && LowHalf(jobs[k], packed, low, samples).None?
    ensures image !in t.lowRaised ==> forall k :: 0 <= k < |jobs| && images[k] == image ==>
      && LowHalf(jobs[k], packed, low, samples).Some?
      && L.Agree(t.low, LowHalf(jobs[k], packed, low, samples).value, Range(jobs[k].plane.lowOffset, LowEnd(jobs[k].plane)))
  {
    var launches, ps := LowLaunches(jobs, packed, |low|, samples, t.lowOrder), LowPlacements(jobs, |packed|, |low|, samples);
    LowReady(jobs, packed, |low|, samples, t.lowOrder);
    assert Apart(ps);
    hide ValidJob, HalfReady, PlanesApart, LowLaunches, Listed, OwnIndependent, LowHalf, Alone, AllValid, BatchEnds,
         L.Agree, Range, LowEnd, SampleEnd, Apart, ImageUnraced, AllThreads, FirstWork;
    LowValid(jobs, packed, |low|, samples, t.lowOrder);
    LowIndependent(jobs, images, packed, |low|, samples, t.lowOrder, image);
    ImageAlone(launches, ps, images, t.lowRuns, low, {}, t.low, t.lowRaised, image);
    forall k | 0 <= k < |jobs|
      ensures Alone(launches, ps, low, k) == LowHalf(jobs[k], packed, low, samples)
    {
      LowAlone(jobs, packed, low, samples, t.lowOrder, k);
    }
  }

  /** The image's status word and samples after the second half. */
  lemma SampleImage(jobs: seq<Job>, images: seq<nat>, packed: seq<int>, samples: seq<int>, t: BatchTrace,
                    after: seq<int>, raised: set<nat>, image: nat)
    requires ValidBatch(jobs, |packed|, |t.low|, |samples|) && |images| == |jobs| && ListsPlanes(jobs, |packed|, |t.low|, |samples|, t)
    requires SampleRuns(jobs, images, packed, samples, t, after, raised) && image !in t.lowRaised
    ensures image in raised <==> exists k :: 0 <= k < |jobs| && images[k] == image && SampleHalf(jobs[k], packed, t.low, samples).None?
    ensures image !in raised ==> forall k :: 0 <= k < |jobs| && images[k] == image ==>
      && SampleHalf(jobs[k], packed, t.low, samples).Some?
      && L.Agree(after, SampleHalf(jobs[k], packed, t.low, samples).value, Range(jobs[k].plane.sampleOffset, SampleEnd(jobs[k].plane)))
  {
    var launches, ps := SampleLaunches(jobs, packed, t.low, |samples|, t.sampleOrder), SamplePlacements(jobs, |packed|, |t.low|, |samples|);
    SampleReady(jobs, packed, t.low, |samples|, t.sampleOrder);
    assert Apart(ps);
    hide ValidJob, HalfReady, PlanesApart, SampleLaunches, Listed, OwnIndependent, SampleHalf, Alone, AllValid,
         BatchEnds, L.Agree, Range, LowEnd, SampleEnd, Apart, AllThreads, SecondWork;
    SampleValid(jobs, packed, t.low, |samples|, t.sampleOrder);
    SampleIndependent(jobs, images, packed, t.low, |samples|, t.sampleOrder, image);
    ImageAlone(launches, ps, images, t.sampleRuns, samples, t.lowRaised, after, raised, image);
    forall k | 0 <= k < |jobs|
      ensures Alone(launches, ps, samples, k) == SampleHalf(jobs[k], packed, t.low, samples)
    {
      SampleAlone(jobs, packed, t.low, samples, t.sampleOrder, k);
    }
  }

  /** One plane, from a low buffer that holds what its own first half leaves. */
  lemma PlaneReconstructed(job: Job, packed: seq<int>, low: seq<int>, filtered: seq<int>, samples: seq<int>)
    requires ValidJob(job, |packed|, |low|, |samples|) && |filtered| == |low| && LowHalf(job, packed, low, |samples|).Some?
    requires L.Agree(filtered, LowHalf(job, packed, low, |samples|).value, Range(job.plane.lowOffset, LowEnd(job.plane)))
    ensures SampleHalf(job, packed, filtered, samples).None? <==> Reconstruct(job, packed, low, samples).None?
    ensures Reconstruct(job, packed, low, samples).Some? ==>
      L.Agree(SampleHalf(job, packed, filtered, samples).value, Reconstruct(job, packed, low, samples).value,
              Range(job.plane.sampleOffset, SampleEnd(job.plane)))
  {
    hide ValidJob, LowHalf, SampleHalf, Reconstruct, LowEnd, SampleEnd;
    var own := LowHalf(job, packed, low, |samples|).value;
    HalvesReconstruct(job, packed, low, samples);
    if SampleHalf(job, packed, filtered, samples).Some? {
      SampleHalfSame(job, packed, filtered, own, samples);
    }
    if SampleHalf(job, packed, own, samples).Some? {
      SampleHalfSame(job, packed, own, filtered, samples);
    }
  }

  /** Once raised in the first half a status word stays raised. */
  lemma StaysRaised(jobs: seq<Job>, images: seq<nat>, packed: seq<int>, samples: seq<int>, t: BatchTrace,
                    after: seq<int>, raised: set<nat>, image: nat)
    requires ValidBatch(jobs, |packed|, |t.low|, |samples|) && |images| == |jobs| && ListsPlanes(jobs, |packed|, |t.low|, |samples|, t)
    requires SampleRuns(jobs, images, packed, samples, t, after, raised) && image in t.lowRaised
    ensures image in raised
  {
    hide ValidBatch, ListsPlanes, SampleLaunches, AllThreads, BatchEnds;
    SampleValid(jobs, packed, t.low, |samples|, t.sampleOrder) by {
      ListsBoth(jobs, |packed|, |t.low|, |samples|, t);
    }
    RaisedThroughout(AllThreads(SampleLaunches(jobs, packed, t.low, |samples|, t.sampleOrder),
                                SamplePlacements(jobs, |packed|, |t.low|, |samples|), images, |samples|),
                     t.sampleRuns, samples, t.lowRaised, after, raised, image);
  }

  /**
   However the threads of a batch interleave, an image's status word ends raised exactly when one of its planes
   overflows when reconstructed by itself, and otherwise each of its planes holds that reconstruction's samples,
   whichever other images overflow, give up or race. Its own subsampled planes must not run a first pass over a
   tile of one macroblock column.
   */
  lemma ImageReconstructed(jobs: seq<Job>, images: seq<nat>, packed: seq<int>, low: seq<int>, samples: seq<int>, t: BatchTrace,
                           after: seq<int>, raised: set<nat>, image: nat)
    requires ValidBatch(jobs, |packed|, |low|, |samples|) && BatchRuns(jobs, images, packed, low, samples, t, after, raised)
    requires forall k :: 0 <= k < |jobs| && images[k] == image && jobs[k].overlap.Two? && jobs[k].plane.blockColumns == 2 ==>
      WideTiles(jobs[k].plane, jobs[k].hard, jobs[k].tileColumns)
    ensures image in raised <==>
      exists k :: 0 <= k < |jobs| && images[k] == image && Reconstruct(jobs[k], packed, low, samples).None?
    ensures image !in raised ==> forall k :: 0 <= k < |jobs| && images[k] == image ==>
      && Reconstruct(jobs[k], packed, low, samples).Some?
      && L.Agree(after, Reconstruct(jobs[k], packed, low, samples).value,
                 Range(jobs[k].plane.sampleOffset, SampleEnd(jobs[k].plane)))
  {
    assert ImageUnraced(jobs, images, image);
    hide LowRuns, SampleRuns, LowHalf, SampleHalf, Reconstruct, L.Agree, Range, LowEnd, SampleEnd, ValidJob,
         WideTiles, ListsPlanes, PlanesApart, ImageUnraced;
    LowImage(jobs, images, packed, low, |samples|, t, image);
    if image in t.lowRaised {
      var k :| 0 <= k < |jobs| && images[k] == image && LowHalf(jobs[k], packed, low, |samples|).None?;
      HalvesReconstruct(jobs[k], packed, low, samples);
      StaysRaised(jobs, images, packed, samples, t, after, raised, image);
    } else {
      SampleImage(jobs, images, packed, samples, t, after, raised, image);
      forall k | 0 <= k < |jobs| && images[k] == image
        ensures SampleHalf(jobs[k], packed, t.low, samples).None? <==> Reconstruct(jobs[k], packed, low, samples).None?
        ensures image !in raised ==>
          L.Agree(after, Reconstruct(jobs[k], packed, low, samples).value,
                  Range(jobs[k].plane.sampleOffset, SampleEnd(jobs[k].plane)))
      {
        PlaneReconstructed(jobs[k], packed, low, t.low, samples);
        if image !in raised {
          AgreeChain(after, SampleHalf(jobs[k], packed, t.low, samples).value,
                     Reconstruct(jobs[k], packed, low, samples).value, Range(jobs[k].plane.sampleOffset, SampleEnd(jobs[k].plane)));
        }
      }
    }
  }

  lemma ListsBoth(jobs: seq<Job>, packed: nat, low: nat, samples: nat, t: BatchTrace)
    requires ValidBatch(jobs, packed, low, samples) && ListsPlanes(jobs, packed, low, samples, t)
    ensures Listed(t.lowOrder, LowPlacements(jobs, packed, low, samples)) && Listed(t.sampleOrder, SamplePlacements(jobs, packed, low, samples))
  {}
}
