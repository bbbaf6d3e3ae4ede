/**
 Which images of a batch the device decodes deterministically: those none of whose planes runs a first pass over a tile
 of one macroblock column. For every other image there are coefficients from which two runs of the batch, raising no
 status word, leave it different samples.
 */
module BatchRaces {
  import opened Wrappers
  import opened Memory
  import opened Uniform
  import opened Phases
  import opened Overlap
  import opened Regions
  import opened Passes
  import opened ExactTiling
  import opened PlanePasses
  import opened PhaseOrder
  import opened Races
  import opened Window
  import opened Kernels
  import opened Reconstruction
  import opened Lossless
  import opened Device
  import opened SmallPlanes
  import opened EmptyPlanes
  import opened Batch
  import opened Isolation
  import opened Launches
  import opened BatchRun
  import opened BatchLift
  import opened StageRaces
  import C = Corners
  import J = JobRaces
  import L = Locality

  // ---- A batch with one racing plane ----

  /** The geometries of all planes of a batch, side by side. */
  ghost predicate ValidGeometries(geos: seq<Job>) {
    && (forall k :: 0 <= k < |geos| ==> ValidGeometry(geos[k]))
    && forall j, k :: 0 <= j < |geos| && 0 <= k < |geos| && j != k ==> PlanesApart(geos[j].plane, geos[k].plane)
  }

  ghost predicate Holds(geos: seq<Job>, low: nat, samples: nat) {
    forall k :: 0 <= k < |geos| ==> LowEnd(geos[k].plane) <= low && SampleEnd(geos[k].plane) <= samples
  }

  lemma {:induction false} BuffersExist(geos: seq<Job>) returns (low: nat, samples: nat)
    ensures Holds(geos, low, samples)
  {
    hide LowEnd, SampleEnd;
    if geos == [] {
      low, samples := 0, 0;
    } else {
      var last := |geos| - 1;
      low, samples := BuffersExist(geos[..last]);
      assert forall k :: 0 <= k < last ==> geos[..last][k] == geos[k];
      low := if low < LowEnd(geos[last].plane) then LowEnd(geos[last].plane) else low;
      samples := if samples < SampleEnd(geos[last].plane) then SampleEnd(geos[last].plane) else samples;
    }
  }

  /** Where the coefficients of plane `k` end. */
  function CoefficientCount(p: Plane): nat {
    p.macroblocksX * p.macroblocksY * BlockCount(p)
  }

  /** Plane `k` with its own coefficients, and all others empty, from the one coefficient after those. */
  ghost function RacingJobs(geos: seq<Job>, k: nat): (jobs: seq<Job>)
    requires ValidGeometries(geos) && k < |geos|
    ensures |jobs| == |geos|
    ensures forall j :: 0 <= j < |geos| ==> jobs[j] == RacingJob(geos, k, j)
  {
    seq(|geos|, j requires 0 <= j < |geos| => RacingJob(geos, k, j))
  }

  ghost function RacingJob(geos: seq<Job>, k: nat, j: nat): Job
    requires ValidGeometries(geos) && k < |geos| && j < |geos|
  {
    if j == k then GridJob(geos[k].plane, geos[k].hard, geos[k].tileColumns, geos[k].tileRows)
    else EmptyJob(geos[j], CoefficientCount(geos[k].plane))
  }

  /** A plane whose first pass races. */
  ghost predicate Racing(geo: Job) {
    geo.overlap.Two? && geo.plane.blockColumns == 2 && !WideTiles(geo.plane, geo.hard, geo.tileColumns)
  }

  ghost predicate SameGeometry(job: Job, geo: Job) {
    && job.plane == geo.plane && job.overlap == geo.overlap && job.hard == geo.hard
    && job.tileColumns == geo.tileColumns && job.tileRows == geo.tileRows
  }

  ghost predicate SameGeometries(jobs: seq<Job>, geos: seq<Job>) {
    |jobs| == |geos| && forall k :: 0 <= k < |geos| ==> SameGeometry(jobs[k], geos[k])
  }

  lemma RacingJobsSame(geos: seq<Job>, k: nat)
    requires ValidGeometries(geos) && k < |geos| && Racing(geos[k])
    ensures SameGeometries(RacingJobs(geos, k), geos) && RacingJobs(geos, k)[k].plane == geos[k].plane
  {
    hide ValidGeometry, GridRecords, EmptyRecords, PlanesApart, WideTiles;
  }

  lemma RacingJobsValid(geos: seq<Job>, k: nat, low: nat, samples: nat)
    requires ValidGeometries(geos) && k < |geos| && Racing(geos[k]) && Holds(geos, low, samples)
    ensures ValidBatch(RacingJobs(geos, k), CoefficientCount(geos[k].plane) + 1, low, samples)
  {
    hide ValidJob, WideTiles, LowEnd, SampleEnd, GridRecords, EmptyRecords;
    var jobs, at := RacingJobs(geos, k), CoefficientCount(geos[k].plane);
    forall j | 0 <= j < |geos|
      ensures ValidJob(jobs[j], at + 1, low, samples)
    {
      assert ValidGeometry(geos[j]);
      if j == k {
        GridJobValid(geos[k].plane, geos[k].hard, geos[k].tileColumns, geos[k].tileRows, at + 1, low, samples);
      } else {
        EmptyJobValid(geos[j], at, at + 1, low, samples);
      }
    }
    forall j, m | 0 <= j < |jobs| && 0 <= m < |jobs| && j != m
      ensures PlanesApart(jobs[j].plane, jobs[m].plane)
    {
      assert PlanesApart(geos[j].plane, geos[m].plane);
    }
  }

  // ---- The first half ----

  /** The first transforms of all planes make `w` of an empty low buffer. */
  ghost predicate TransformsLeave(jobs: seq<Job>, packed: seq<int>, w: seq<int>, samples: nat)
    requires ValidBatch(jobs, |packed|, |w|, samples)
  {
    var first := Dispatch(FirstLists(jobs, packed, |w|, samples), ListOrder(|jobs|));
    ValidItems(first, |w|) && Run(first, Zeros(|w|)) == Some(w)
  }

  /** The first transforms of such a batch leave the wanted low plane and nothing else. */
  lemma FirstLaunchLeaves(geos: seq<Job>, k: nat, jobs: seq<Job>, packed: seq<int>, w: seq<int>, samples: nat)
    requires ValidGeometries(geos) && k < |geos| && Racing(geos[k]) && jobs == RacingJobs(geos, k)
    requires SmallLow(w, geos[k].plane) && packed == Coefficients(geos[k].plane, w) + [0]
    requires ValidBatch(jobs, |packed|, |w|, samples)
    ensures TransformsLeave(jobs, packed, w, samples)
  {
    var p, lists := geos[k].plane, FirstLists(jobs, packed, |w|, samples);
    hide ValidJob, Coefficients, FirstItems, LowEnd, SampleEnd, GridRecords, EmptyRecords, WideTiles, Idle, ValidItem,
         Dispatch, Run;
    assert Coefficients(p, w) <= packed;
    forall j | 0 <= j < |lists| && j != k
      ensures AllIdle(lists[j], Zeros(|w|)) && AllIdle(lists[j], w)
    {
      assert PlanesApart(geos[j].plane, p);
      EmptyListIdle(jobs[j], geos[j], CoefficientCount(p), packed, Zeros(|w|), samples);
      EmptyListIdle(jobs[j], geos[j], CoefficientCount(p), packed, w, samples);
    }
    FirstStageLeaves(p, w, packed, samples, jobs[k]);
    FirstItemsSound(jobs[k], packed, |w|, samples);
    DispatchOnly(lists, ListOrder(|jobs|), k, Zeros(|w|), w);
    assert ListOrder(|jobs|)[k] == k;
  }

  /** The phases of one half, whoever the items belong to. */
  lemma HalfPhases(lists: seq<seq<Item>>, ps: seq<Placement>, images: seq<nat>, order: seq<nat>, size: nat)
    requires |lists| == |ps| == |images| && Listed(order, ps) && AllValid(HalfLaunches(lists, ps, order), ps, size)
    ensures var phases := AllThreads(HalfLaunches(lists, ps, order), ps, images, size);
      var items := FourPhases(Dispatch(lists, ListOrder(|lists|)), WholePass(ps, order));
      |items| == |phases| && forall i :: 0 <= i < |phases| ==> items[i] == Untagged(phases[i])
  {
    hide Threads, Dispatch, WorkItems, StageWorks, AllValid, Distinct;
    ThreadsUntagged(lists, images, ListOrder(|lists|));
    ThreadsUntagged(StageLists(ps, Prefix, FilterFits), images, order);
    ThreadsUntagged(StageLists(ps, Filters, FilterFits), images, order);
    ThreadsUntagged(StageLists(ps, Suffix, FilterFits), images, order);
    StageItemsAre(ps, order, Prefix, FilterFits);
    StageItemsAre(ps, order, Filters, FilterFits);
    StageItemsAre(ps, order, Suffix, FilterFits);
  }

  /** A run of the first half of a batch, raising nothing, with its planes listed in the given order. */
  ghost predicate QuietLowRun(jobs: seq<Job>, images: seq<nat>, packed: seq<int>, low: seq<int>, samples: nat, order: seq<nat>,
                              runs: seq<seq<BatchState>>, filtered: seq<int>)
    requires ValidBatch(jobs, |packed|, |low|, samples) && |images| == |jobs|
  {
    var ps := LowPlacements(jobs, |packed|, |low|, samples);
    && |filtered| == |low| && Listed(order, ps) && AllValid(LowLaunches(jobs, packed, |low|, samples, order), ps, |low|)
    && BatchEnds(AllThreads(LowLaunches(jobs, packed, |low|, samples, order), ps, images, |low|), runs, low, {}, filtered, {})
  }

  /** A run of the passes of a batch, from what its first transforms leave, is a run of its first half. */
  lemma LowRunExists(jobs: seq<Job>, images: seq<nat>, packed: seq<int>, w: seq<int>, samples: nat, order: seq<nat>,
                     r: seq<seq<State>>, one: seq<int>) returns (runs: seq<seq<BatchState>>)
    requires ValidBatch(jobs, |packed|, |w|, samples) && |images| == |jobs| && |one| == |w|
    requires Listed(order, LowPlacements(jobs, |packed|, |w|, samples))
    requires TransformsLeave(jobs, packed, w, samples)
    requires Ends(PassPhases(WholePass(LowPlacements(jobs, |packed|, |w|, samples), order)), r, w, Some(one))
    ensures QuietLowRun(jobs, images, packed, Zeros(|w|), samples, order, runs, one)
  {
    hide ValidBatch, Distinct, FirstItems, LowEnd, Dispatch, WholePass, AllValid, AllThreads, LowPlacements,
         WorkItems, Ends, BatchEnds, Run, Execution, AllDone, ValidItems;
    LowValid(jobs, packed, |w|, samples, order);
    var lists, ps := FirstLists(jobs, packed, |w|, samples), LowPlacements(jobs, |packed|, |w|, samples);
    HalfPhases(lists, ps, images, order, |w|);
    hide HalfLaunches;
    var s, first := WholePass(ps, order), Dispatch(lists, ListOrder(|jobs|));
    var states := J.ListExecutes(first, Zeros(|w|));
    J.FirstEnds(first, PassPhases(s), states, r, Zeros(|w|), Some(one));
    assert FourPhases(first, s) == [first] + PassPhases(s);
    var phases := AllThreads(HalfLaunches(lists, ps, order), ps, images, |w|);
    runs := EndsLifted(phases, FourPhases(first, s), [states] + r, Zeros(|w|), one);
  }

  // ---- The second half ----

  /** From a low plane of whole quarters, and without high-pass coefficients, the second half of a plane completes. */
  lemma QuietHalf(job: Job, packed: seq<int>, low: seq<int>, samples: nat)
    requires ValidJob(job, |packed|, |low|, samples) && Quarters(low, job.plane)
    requires |job.table| == 16 && job.table[0] == 0 && forall g :: 0 <= g < |job.macroblocks| ==> job.macroblocks[g].bands < 2
    ensures SampleHalf(job, packed, low, Zeros(samples)).Some?
  {
    hide ValidJob, Quarters, SecondStage;
    SecondStageSmall(job, packed, low, samples);
    if !job.overlap.NoOverlap? {
      hide SecondOverlap;
      SecondPassSmall(job, SecondStage(job, packed, low, Zeros(samples)).value, |packed|, |low|);
    }
  }

  /** If every plane's second half completes, the batch has a run of it that raises nothing. */
  lemma SampleRunExists(jobs: seq<Job>, images: seq<nat>, packed: seq<int>, low: seq<int>, samples: seq<int>, order: seq<nat>)
    returns (runs: seq<seq<BatchState>>, after: seq<int>)
    requires ValidBatch(jobs, |packed|, |low|, |samples|) && |images| == |jobs|
    requires Listed(order, SamplePlacements(jobs, |packed|, |low|, |samples|))
    requires forall k :: 0 <= k < |jobs| ==> SampleHalf(jobs[k], packed, low, samples).Some?
    ensures var launches := SampleLaunches(jobs, packed, low, |samples|, order);
      var ps := SamplePlacements(jobs, |packed|, |low|, |samples|);
      && AllValid(launches, ps, |samples|)
      && BatchEnds(AllThreads(launches, ps, images, |samples|), runs, samples, {}, after, {})
  {
    var launches := SampleLaunches(jobs, packed, low, |samples|, order);
    var ps := SamplePlacements(jobs, |packed|, |low|, |samples|);
    SampleReady(jobs, packed, low, |samples|, order);
    assert Apart(ps);
    hide ValidJob, HalfReady, PlanesApart, SampleLaunches, Listed, OwnIndependent, SampleHalf, Alone, AllValid,
         BatchEnds, AllThreads, SecondWork, SampleEnd, OneImage;
    SampleValid(jobs, packed, low, |samples|, order);
    SampleIndependent(jobs, OneImage(|ps|), packed, low, |samples|, order, 0);
    forall k | 0 <= k < |jobs|
      ensures Alone(launches, ps, samples, k) == SampleHalf(jobs[k], packed, low, samples)
    {
      SampleAlone(jobs, packed, low, samples, order, k);
    }
    runs, after := CompletedRuns(launches, ps, images, samples);
  }

  lemma EveryListed(ps: seq<Placement>, order: seq<nat>)
    requires order == ListOrder(|ps|)
    ensures Listed(order, ps)
  {
    forall k: nat | k < |ps|
      ensures k in order
    {
      assert order[k] == k;
    }
  }

  // ---- Two runs ----

  lemma CrossedLarger(s: Schedule, i: nat, small: nat, size: nat)
    requires CrossedPass(s, i, small) && small <= size
    ensures CrossedPass(s, i, size)
  {
    hide Crossed, TouchCount, Addresses;
  }

  lemma RacingCorners(job: Job, packed: nat, low: nat, samples: nat)
    requires ValidJob(job, packed, low, samples)
    ensures CornerStages(FirstWork(job))
  {
    hide SecondSchedule, TileGrid, FillsWindow, LowEnd, SampleEnd, AllReady, TileRegions, SubsampledSchedule;
    var p := job.plane;
    if job.overlap.Two? && p.blockColumns == 2 {
      RegionsLarge(p, job.hard, job.tileColumns, job.tileRows, p.blockColumns, p.blockRows);
      var regions := TileRegions(p, job.hard, job.tileColumns, job.tileRows, p.blockColumns, p.blockRows).value;
      C.SuffixMirrorsPrefix(LowLayout(p), regions);
    }
  }

  /** The first passes of such a batch, the racing plane listed first, are a crossed pass. */
  lemma RacingCrossed(geos: seq<Job>, k: nat, jobs: seq<Job>, packed: seq<int>, low: nat, samples: nat) returns (i: nat)
    requires ValidGeometries(geos) && k < |geos| && Racing(geos[k]) && jobs == RacingJobs(geos, k)
    requires ValidBatch(jobs, |packed|, low, samples)
    ensures Listed(HeadOrder(|jobs|, k), LowPlacements(jobs, |packed|, low, samples))
    ensures var s, p := WholePass(LowPlacements(jobs, |packed|, low, samples), HeadOrder(|jobs|, k)), geos[k].plane;
      && CrossedPass(s, i, low) && p.lowOffset <= s.prefix[i].first < LowEnd(p) && s.prefix[i].first != s.prefix[i].second
  {
    var geo, ps, order := geos[k], LowPlacements(jobs, |packed|, low, samples), HeadOrder(|jobs|, k);
    var s := FirstWork(jobs[k]);
    assert ValidGeometry(geo);
    hide ValidJob, WideTiles, LowEnd, FirstSchedule, SecondSchedule, TileGrid, CrossedPass, GridRecords, EmptyRecords,
         WholePass, CornerStages, Listed;
    i := J.NarrowPair(geo.plane, geo.hard, geo.tileColumns, geo.tileRows, s);
    assert LowEnd(geo.plane) <= low by { JobBounds(jobs[k], |packed|, low, samples); }
    CrossedLarger(s, i, LowEnd(geo.plane), low);
    HeadListed(ps, k);
    LowReady(jobs, packed, low, samples, order);
    forall j | 0 <= j < |ps|
      ensures CornerStages(ps[j].schedule)
    {
      RacingCorners(jobs[j], |packed|, low, samples);
    }
    ListedParts(order, ps);
    hide FirstWork, LowPlacements, Fitted, Own, Apart;
    WholeCrossed(ps, order, low, i);
  }

  lemma JobBounds(job: Job, packed: nat, low: nat, samples: nat)
    requires ValidJob(job, packed, low, samples)
    ensures LowEnd(job.plane) <= low && SampleEnd(job.plane) <= samples
  {}

  lemma ListedParts(order: seq<nat>, ps: seq<Placement>)
    requires Listed(order, ps)
    ensures Within(order, |ps|) && Distinct(order)
  {}

  /** Two runs of the first passes of such a batch, from a buffer that is empty but for a four in plane `k`. */
  lemma PairRuns(geos: seq<Job>, k: nat, jobs: seq<Job>, packed: seq<int>, low: nat, samples: nat)
    returns (a: nat, b: nat, r: seq<seq<State>>, q: seq<seq<State>>)
    requires ValidGeometries(geos) && k < |geos| && Racing(geos[k]) && jobs == RacingJobs(geos, k)
    requires ValidBatch(jobs, |packed|, low, samples)
    ensures geos[k].plane.lowOffset <= a < LowEnd(geos[k].plane) && a != b
    ensures Listed(HeadOrder(|jobs|, k), LowPlacements(jobs, |packed|, low, samples))
    ensures var s := WholePass(LowPlacements(jobs, |packed|, low, samples), HeadOrder(|jobs|, k));
      && Ends(PassPhases(s), r, Pair(low, a, b, (4, 0)), Some(Pair(low, a, b, (0, -4))))
      && Ends(PassPhases(s), q, Pair(low, a, b, (4, 0)), Some(Pair(low, a, b, (4, 0))))
  {
    var i := RacingCrossed(geos, k, jobs, packed, low, samples);
    var s := WholePass(LowPlacements(jobs, |packed|, low, samples), HeadOrder(|jobs|, k));
    hide ValidGeometries, ValidBatch, Racing, RacingJobs, LowEnd, CrossedPass, Pair, WholePass, LowPlacements, Ends,
         PassPhases;
    a, b := s.prefix[i].first, s.prefix[i].second;
    var four := 4;
    r, q := CrossedEnds(s, i, low, four);
  }

  /** A low buffer in which every block of every plane gives a uniform square of samples. */
  ghost predicate AllQuarters(low: seq<int>, geos: seq<Job>) {
    forall j :: 0 <= j < |geos| ==> Quarters(low, geos[j].plane)
  }

  lemma PairAllQuarters(geos: seq<Job>, low: nat, samples: nat, a: nat, b: nat)
    requires Holds(geos, low, samples)
    ensures AllQuarters(Pair(low, a, b, (0, -4)), geos) && AllQuarters(Pair(low, a, b, (4, 0)), geos)
    ensures a < low ==> Pair(low, a, b, (0, -4))[a] != Pair(low, a, b, (4, 0))[a]
  {
    hide LowEnd, SampleEnd, Quarters, Pair;
    forall j | 0 <= j < |geos|
      ensures Quarters(Pair(low, a, b, (0, -4)), geos[j].plane) && Quarters(Pair(low, a, b, (4, 0)), geos[j].plane)
    {
      J.PairQuarters(geos[j].plane, low, a, b);
    }
  }

  /** A run of the first half that raises nothing, into a low buffer of whole quarters, goes on to the end. */
  lemma WholeRun(jobs: seq<Job>, images: seq<nat>, packed: seq<int>, low: seq<int>, samples: nat, order: seq<nat>,
                 lowRuns: seq<seq<BatchState>>, filtered: seq<int>) returns (t: BatchTrace, after: seq<int>)
    requires ValidBatch(jobs, |packed|, |low|, samples) && |images| == |jobs|
    requires QuietLowRun(jobs, images, packed, low, samples, order, lowRuns, filtered)
    requires forall k :: 0 <= k < |jobs| ==> SampleHalf(jobs[k], packed, filtered, Zeros(samples)).Some?
    ensures BatchRuns(jobs, images, packed, low, Zeros(samples), t, after, {}) && t.low == filtered && t.lowRaised == {}
  {
    hide ValidJob, PlanesApart, SampleHalf, BatchEnds, AllThreads, AllValid, LowLaunches, SampleLaunches, SecondWork, LowEnd,
         SampleEnd, FirstWork;
    var all := ListOrder(|jobs|);
    EveryListed(SamplePlacements(jobs, |packed|, |low|, samples), all);
    hide Listed;
    var runs;
    runs, after := SampleRunExists(jobs, images, packed, filtered, Zeros(samples), all);
    t := BatchTrace(order, lowRuns, filtered, {}, all, runs);
  }

  /** Coefficients from which the first transforms leave a four in plane `k` and nothing else. */
  lemma PairCoefficients(geos: seq<Job>, k: nat, jobs: seq<Job>, low: nat, samples: nat, a: nat, b: nat)
    returns (packed: seq<int>)
    requires ValidGeometries(geos) && k < |geos| && Racing(geos[k]) && jobs == RacingJobs(geos, k)
    requires geos[k].plane.lowOffset <= a < LowEnd(geos[k].plane) <= low && a != b
    requires ValidBatch(jobs, CoefficientCount(geos[k].plane) + 1, low, samples)
    ensures |packed| == CoefficientCount(geos[k].plane) + 1
    ensures TransformsLeave(jobs, packed, Pair(low, a, b, (4, 0)), samples)
  {
    var p, w := geos[k].plane, Pair(low, a, b, (4, 0));
    PlaneValid(geos, k);
    J.PairWanted(p, low, a, b);
    hide WideTiles, RacingJobs, LowEnd, Pair, SmallLow, Coefficients, ValidBatch, TransformsLeave, ValidGeometries,
         BlockCount;
    packed := Coefficients(p, w) + [0];
    FirstLaunchLeaves(geos, k, jobs, packed, w, samples);
  }

  /** Two runs of the first half of such a batch, from the same buffers, leave low planes that differ in plane `k`. */
  lemma RacingLowRuns(geos: seq<Job>, k: nat, images: seq<nat>, jobs: seq<Job>, low: nat, samples: nat)
    returns (packed: seq<int>, a: nat, one: seq<int>, two: seq<int>,
             lowOne: seq<seq<BatchState>>, lowTwo: seq<seq<BatchState>>)
    requires ValidGeometries(geos) && k < |geos| == |images| && Racing(geos[k]) && jobs == RacingJobs(geos, k)
    requires Holds(geos, low, samples)
    ensures ValidBatch(jobs, |packed|, low, samples)
    ensures QuietLowRun(jobs, images, packed, Zeros(low), samples, HeadOrder(|jobs|, k), lowOne, one)
    ensures QuietLowRun(jobs, images, packed, Zeros(low), samples, HeadOrder(|jobs|, k), lowTwo, two)
    ensures geos[k].plane.lowOffset <= a < LowEnd(geos[k].plane) <= low == |one| == |two| && one[a] != two[a]
    ensures AllQuarters(one, geos) && AllQuarters(two, geos)
  {
    var p, order := geos[k].plane, HeadOrder(|jobs|, k);
    RacingJobsValid(geos, k, low, samples);
    assert LowEnd(p) <= low;
    hide *;
    var b, r, q;
    a, b, r, q := PairRuns(geos, k, jobs, Zeros(CoefficientCount(p) + 1), low, samples);
    var w := Pair(low, a, b, (4, 0));
    one, two := Pair(low, a, b, (0, -4)), w;
    PairAllQuarters(geos, low, samples, a, b);
    packed := PairCoefficients(geos, k, jobs, low, samples, a, b);
    assert |Zeros(CoefficientCount(p) + 1)| == |packed| && |w| == |one| == low;
    lowOne := LowRunExists(jobs, images, packed, w, samples, order, r, one);
    lowTwo := LowRunExists(jobs, images, packed, w, samples, order, q, two);
  }

  lemma PlaneValid(geos: seq<Job>, k: nat)
    requires ValidGeometries(geos) && k < |geos|
    ensures ValidPlane(geos[k].plane)
  {
    assert ValidGeometry(geos[k]);
  }

  /** Macroblocks with a DC coefficient, or DC and low-pass coefficients, and the decoder's own table. */
  lemma RacingQuiet(geos: seq<Job>, k: nat, j: nat)
    requires ValidGeometries(geos) && k < |geos| && j < |geos|
    ensures var job := RacingJobs(geos, k)[j];
      && |job.table| == 16 && job.table[0] == 0 && (forall m :: m in job.macroblocks ==> Quantized(m) && m.bands < 2)
  {
    PlaneValid(geos, j);
    PlaneValid(geos, k);
    J.GridQuantized(geos[j].plane);
    hide ValidGeometries, GridRecords;
    J.TableStart(RacingJobs(geos, k)[j]);
  }

  // ---- Which images are decoded deterministically ----

  /** The planes of an image hold the same samples. */
  ghost predicate SameImage(geos: seq<Job>, images: seq<nat>, image: nat, one: seq<int>, two: seq<int>) {
    forall k :: 0 <= k < |geos| && k < |images| && images[k] == image ==>
      SameRange(one, two, geos[k].plane.sampleOffset, SampleEnd(geos[k].plane))
  }

  /** Any two device runs of a batch of these geometries, from the same buffers, treat the image alike. */
  ghost predicate ImageDeterministic(geos: seq<Job>, images: seq<nat>, image: nat) {
    forall jobs: seq<Job>, packed: seq<int>, low: seq<int>, samples: seq<int>, t: BatchTrace, u: BatchTrace,
           one: seq<int>, two: seq<int>, raisedOne: set<nat>, raisedTwo: set<nat> ::
      && SameGeometries(jobs, geos) && ValidBatch(jobs, |packed|, |low|, |samples|)
      && BatchRuns(jobs, images, packed, low, samples, t, one, raisedOne)
      && BatchRuns(jobs, images, packed, low, samples, u, two, raisedTwo)
      ==> (image in raisedOne <==> image in raisedTwo) && (image !in raisedOne ==> SameImage(geos, images, image, one, two))
  }

  /** No macroblock has a quantizer of zero. */
  ghost predicate AllQuantized(jobs: seq<Job>) {
    forall k, m :: 0 <= k < |jobs| && m in jobs[k].macroblocks ==> Quantized(m)
  }

  /**
   Some batch of these geometries, with quantizers of at least one, has coefficients from which two device runs leave
   the image different samples although neither raises any status word.
   */
  ghost predicate ImageDiverges(geos: seq<Job>, images: seq<nat>, image: nat) {
    exists jobs: seq<Job>, packed: seq<int>, low: seq<int>, samples: seq<int>, t: BatchTrace, u: BatchTrace,
           one: seq<int>, two: seq<int> ::
      && SameGeometries(jobs, geos) && AllQuantized(jobs)
      && ValidBatch(jobs, |packed|, |low|, |samples|)
      && BatchRuns(jobs, images, packed, low, samples, t, one, {})
      && BatchRuns(jobs, images, packed, low, samples, u, two, {})
      && !SameImage(geos, images, image, one, two)
  }

  lemma DivergesNot(geos: seq<Job>, images: seq<nat>, image: nat)
    requires ImageDiverges(geos, images, image)
    ensures !ImageDeterministic(geos, images, image)
  {
    hide ValidBatch, BatchRuns, SameGeometries, SameImage;
    var jobs: seq<Job>, packed: seq<int>, low: seq<int>, samples: seq<int>, t: BatchTrace, u: BatchTrace,
        one: seq<int>, two: seq<int> :|
      && SameGeometries(jobs, geos) && AllQuantized(jobs)
      && ValidBatch(jobs, |packed|, |low|, |samples|)
      && BatchRuns(jobs, images, packed, low, samples, t, one, {})
      && BatchRuns(jobs, images, packed, low, samples, u, two, {})
      && !SameImage(geos, images, image, one, two);
    var none: set<nat> := {};
    assert BatchRuns(jobs, images, packed, low, samples, t, one, none);
    assert BatchRuns(jobs, images, packed, low, samples, u, two, none);
  }

  /** Two runs of an image none of whose planes races. */
  lemma UnracedAlike(geos: seq<Job>, jobs: seq<Job>, images: seq<nat>, image: nat,
                     packed: seq<int>, low: seq<int>, samples: seq<int>, t: BatchTrace, u: BatchTrace, one: seq<int>, two: seq<int>, raisedOne: set<nat>, raisedTwo: set<nat>)
    requires SameGeometries(jobs, geos) && ValidBatch(jobs, |packed|, |low|, |samples|) && ImageUnraced(geos, images, image)
    requires BatchRuns(jobs, images, packed, low, samples, t, one, raisedOne)
    requires BatchRuns(jobs, images, packed, low, samples, u, two, raisedTwo)
    ensures image in raisedOne <==> image in raisedTwo
    ensures image !in raisedOne ==> SameImage(geos, images, image, one, two)
  {
    assert |images| == |jobs|;
    hide BatchRuns, ValidBatch, ValidJob, WideTiles, Reconstruct, LowEnd, SampleEnd, L.Agree, Range, SameRange;
    ImageReconstructed(jobs, images, packed, low, samples, t, one, raisedOne, image);
    ImageReconstructed(jobs, images, packed, low, samples, u, two, raisedTwo, image);
    if image !in raisedOne {
      forall k | 0 <= k < |geos| && images[k] == image
        ensures SameRange(one, two, geos[k].plane.sampleOffset, SampleEnd(geos[k].plane))
      {
        var p := geos[k].plane;
        AgreeBoth(one, two, Reconstruct(jobs[k], packed, low, samples).value, p.sampleOffset, SampleEnd(p));
      }
    }
  }

  lemma AgreeBoth(one: seq<int>, two: seq<int>, own: seq<int>, low: nat, high: nat)
    requires L.Agree(one, own, Range(low, high)) && L.Agree(two, own, Range(low, high))
    ensures SameRange(one, two, low, high)
  {}

  lemma UnracedDeterministic(geos: seq<Job>, images: seq<nat>, image: nat)
    requires ImageUnraced(geos, images, image)
    ensures ImageDeterministic(geos, images, image)
  {
    hide ValidBatch, BatchRuns, SameGeometries, SameImage, ImageUnraced;
    forall jobs: seq<Job>, packed: seq<int>, low: seq<int>, samples: seq<int>, t: BatchTrace, u: BatchTrace,
           one: seq<int>, two: seq<int>, raisedOne: set<nat>, raisedTwo: set<nat>
      | SameGeometries(jobs, geos) && ValidBatch(jobs, |packed|, |low|, |samples|)
        && BatchRuns(jobs, images, packed, low, samples, t, one, raisedOne)
        && BatchRuns(jobs, images, packed, low, samples, u, two, raisedTwo)
      ensures (image in raisedOne <==> image in raisedTwo) && (image !in raisedOne ==> SameImage(geos, images, image, one, two))
    {
      UnracedAlike(geos, jobs, images, image, packed, low, samples, t, u, one, two, raisedOne, raisedTwo);
    }
  }

  /** The samples that second halves of different low planes leave, differ. */
  lemma HalvesDiffer(job: Job, packed: seq<int>, one: seq<int>, two: seq<int>, samples: seq<int>, a: nat,
                     x: seq<int>, y: seq<int>)
    requires ValidJob(job, |packed|, |one|, |samples|) && |one| == |two|
    requires SampleHalf(job, packed, one, samples).Some? && SampleHalf(job, packed, two, samples).Some?
    requires L.Agree(x, SampleHalf(job, packed, one, samples).value, Range(job.plane.sampleOffset, SampleEnd(job.plane)))
    requires L.Agree(y, SampleHalf(job, packed, two, samples).value, Range(job.plane.sampleOffset, SampleEnd(job.plane)))
    requires job.plane.lowOffset <= a < LowEnd(job.plane) <= |one| && one[a] != two[a]
    ensures !SameRange(x, y, job.plane.sampleOffset, SampleEnd(job.plane))
  {
    hide ValidJob, SecondStage, SecondOverlap, LowEnd, SampleEnd;
    if SameRange(x, y, job.plane.sampleOffset, SampleEnd(job.plane)) {
      J.SamplesDiffer(job, packed, one, two, samples, a);
      assert false;
    }
  }

  /** What a run of such a batch leaves of plane `k`. */
  lemma RunLeaves(jobs: seq<Job>, images: seq<nat>, packed: seq<int>, low: seq<int>, samples: seq<int>, t: BatchTrace,
                  after: seq<int>, k: nat)
    requires ValidBatch(jobs, |packed|, |low|, |samples|) && BatchRuns(jobs, images, packed, low, samples, t, after, {})
    requires t.lowRaised == {} && k < |jobs|
    ensures SampleHalf(jobs[k], packed, t.low, samples).Some?
    ensures L.Agree(after, SampleHalf(jobs[k], packed, t.low, samples).value,
                    Range(jobs[k].plane.sampleOffset, SampleEnd(jobs[k].plane)))
  {
    hide ValidJob, PlanesApart, ListsPlanes, LowRuns, SampleRuns, SampleHalf, LowEnd, SampleEnd, L.Agree, Range;
    SampleImage(jobs, images, packed, samples, t, after, {}, images[k]);
  }

  lemma RacingHalf(geos: seq<Job>, k: nat, jobs: seq<Job>, packed: seq<int>, low: seq<int>, samples: nat, j: nat)
    requires ValidGeometries(geos) && k < |geos| && jobs == RacingJobs(geos, k) && j < |geos|
    requires ValidBatch(jobs, |packed|, |low|, samples) && AllQuarters(low, geos)
    ensures SampleHalf(jobs[j], packed, low, Zeros(samples)).Some?
  {
    assert jobs[j].plane == geos[j].plane by { hide EmptyRecords, GridRecords; }
    RacingQuiet(geos, k, j);
    hide ValidJob, SampleHalf, Quarters, RacingJobs, ValidGeometries, PlanesApart;
    QuietHalf(jobs[j], packed, low, samples);
  }

  /** Two runs of such a batch, from the same buffers, leave plane `k` different samples. */
  lemma RacingRuns(geos: seq<Job>, k: nat, images: seq<nat>, jobs: seq<Job>, low: nat, samples: nat)
    returns (packed: seq<int>, t: BatchTrace, u: BatchTrace, x: seq<int>, y: seq<int>)
    requires ValidGeometries(geos) && k < |geos| == |images| && Racing(geos[k]) && jobs == RacingJobs(geos, k)
    requires Holds(geos, low, samples)
    ensures ValidBatch(jobs, |packed|, low, samples)
    ensures BatchRuns(jobs, images, packed, Zeros(low), Zeros(samples), t, x, {})
    ensures BatchRuns(jobs, images, packed, Zeros(low), Zeros(samples), u, y, {})
    ensures !SameRange(x, y, jobs[k].plane.sampleOffset, SampleEnd(jobs[k].plane))
  {
    hide ValidGeometries, Racing, LowEnd, SampleEnd, AllQuarters, Holds, ValidJob, PlanesApart, QuietLowRun, SampleHalf,
         BatchRuns, L.Agree, Range, Zeros, SameRange, HeadOrder, GridRecords, EmptyRecords;
    assert jobs[k].plane == geos[k].plane;
    hide RacingJobs;
    var a, one, two, lowOne, lowTwo;
    packed, a, one, two, lowOne, lowTwo := RacingLowRuns(geos, k, images, jobs, low, samples);
    forall j | 0 <= j < |jobs|
      ensures SampleHalf(jobs[j], packed, one, Zeros(samples)).Some? && SampleHalf(jobs[j], packed, two, Zeros(samples)).Some?
    {
      RacingHalf(geos, k, jobs, packed, one, samples, j);
      RacingHalf(geos, k, jobs, packed, two, samples, j);
    }
    t, x := WholeRun(jobs, images, packed, Zeros(low), samples, HeadOrder(|jobs|, k), lowOne, one);
    u, y := WholeRun(jobs, images, packed, Zeros(low), samples, HeadOrder(|jobs|, k), lowTwo, two);
    RunLeaves(jobs, images, packed, Zeros(low), Zeros(samples), t, x, k);
    RunLeaves(jobs, images, packed, Zeros(low), Zeros(samples), u, y, k);
    HalvesDiffer(jobs[k], packed, one, two, Zeros(samples), a, x, y);
  }

  lemma RacingQuantized(geos: seq<Job>, k: nat)
    requires ValidGeometries(geos) && k < |geos|
    ensures AllQuantized(RacingJobs(geos, k))
  {
    hide ValidGeometries, RacingJobs, Quantized;
    forall j | 0 <= j < |geos|
      ensures forall m :: m in RacingJobs(geos, k)[j].macroblocks ==> Quantized(m)
    {
      RacingQuiet(geos, k, j);
    }
  }

  /** An image with a racing plane has a batch of whose runs two leave that plane different samples. */
  lemma RacingDiverges(geos: seq<Job>, images: seq<nat>, image: nat, k: nat)
    requires ValidGeometries(geos) && |images| == |geos| && k < |geos| && images[k] == image && Racing(geos[k])
    ensures ImageDiverges(geos, images, image)
  {
    hide ValidGeometries, Racing, RacingJobs, SampleEnd, AllQuantized, Holds, ValidBatch, BatchRuns, Zeros, SameRange,
         SameGeometries;
    var jobs := RacingJobs(geos, k);
    RacingJobsSame(geos, k);
    RacingQuantized(geos, k);
    var low, samples := BuffersExist(geos);
    var packed, t, u, x, y := RacingRuns(geos, k, images, jobs, low, samples);
  }

  /**
   The device decodes an image of a batch deterministically exactly when none of its own planes runs a first pass over a
   tile of one macroblock column, whatever the other images are. Every other image has a batch, with quantizers of one, and
   coefficients from which two device runs leave it different samples, no status word raised.
   */
  lemma ImagesDeterministicExactly(geos: seq<Job>, images: seq<nat>, image: nat)
    requires ValidGeometries(geos) && |images| == |geos|
    ensures ImageDeterministic(geos, images, image) <==> ImageUnraced(geos, images, image)
    ensures ImageDiverges(geos, images, image) <==> !ImageUnraced(geos, images, image)
  {
    hide ImageDeterministic, ImageDiverges, ValidGeometries, WideTiles;
    if ImageUnraced(geos, images, image) {
      UnracedDeterministic(geos, images, image);
      if ImageDiverges(geos, images, image) {
        DivergesNot(geos, images, image);
      }
    } else {
      var k :| 0 <= k < |geos| && images[k] == image && !Unraced(geos[k]);
      RacingDiverges(geos, images, image, k);
      DivergesNot(geos, images, image);
    }
  }
}
