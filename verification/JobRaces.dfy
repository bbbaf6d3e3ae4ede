/**
 What the device makes of whole jobs whose first pass races: from coefficients that a file may transmit, runs that
 raise no error and end with different samples.
 */
module JobRaces {
  import opened Wrappers
  import opened Blocks
  import opened Uniform
  import opened Phases
  import opened Overlap
  import opened Regions
  import opened Passes
  import opened ExactTiling
  import opened OverlapPass
  import opened PhaseOrder
  import opened PlanePasses
  import opened Orders
  import opened Races
  import opened Window
  import opened Kernels
  import opened Reconstruction
  import opened Lossless
  import opened Lanes
  import opened Device
  import opened SmallPlanes

  // ---- Runs of phases that complete ----

  lemma FirstEnds(items: seq<Item>, phases: seq<seq<Item>>, states: seq<State>, runs: seq<seq<State>>,
                  memory: seq<int>, result: Option<seq<int>>)
    requires |states| > 0 && states[0].memory == memory && Execution(items, states, |memory|)
    requires AllDone(Last(states)) && !Last(states).failed && Ends(phases, runs, Last(states).memory, result)
    ensures Ends([items] + phases, [states] + runs, memory, result)
  {
    hide Execution, AllDone;
    assert ([items] + phases)[1..] == phases && ([states] + runs)[1..] == runs;
  }

  /** The items of a phase that completes, taken in list order, are a run of it. */
  lemma ListExecutes(items: seq<Item>, memory: seq<int>) returns (states: seq<State>)
    requires ValidItems(items, |memory|) && Run(items, memory).Some?
    ensures |states| > 0 && states[0].memory == memory && Execution(items, states, |memory|)
    ensures AllDone(Last(states)) && !Last(states).failed && Last(states).memory == Run(items, memory).value
  {
    hide Run, Execution, AllDone, ValidItems, IsOrder, Reordered;
    InListOrder(items);
    states := OrderExecutes(items, ListOrder(|items|), memory);
  }

  lemma {:induction false} RunsExist(phases: seq<seq<Item>>, memory: seq<int>) returns (runs: seq<seq<State>>)
    requires SoundPhases(phases, |memory|) && RunPhases(phases, memory).Some?
    ensures Ends(phases, runs, memory, RunPhases(phases, memory))
  {
    hide Run, Execution, AllDone, ValidItems, Independent;
    if phases == [] {
      runs := [];
    } else {
      var states := ListExecutes(phases[0], memory);
      var rest := RunsExist(phases[1..], Run(phases[0], memory).value);
      runs := [states] + rest;
      FirstEnds(phases[0], phases[1..], states, rest, memory, RunPhases(phases, memory));
      assert [phases[0]] + phases[1..] == phases;
    }
  }

  // ---- The two halves ----

  /** A second half that completes has a run. */
  lemma SampleHalfRuns(job: Job, packed: seq<int>, low: seq<int>, samples: seq<int>) returns (runs: seq<seq<State>>)
    requires ValidJob(job, |packed|, |low|, |samples|) && SecondStage(job, packed, low, samples).Some?
    requires SecondOverlap(job, SecondStage(job, packed, low, samples).value, |packed|, |low|).Some?
    ensures Ends(FourPhases(BlockItems(job, packed, low), SecondWork(job)), runs, samples,
                 SecondOverlap(job, SecondStage(job, packed, low, samples).value, |packed|, |low|))
  {
    hide SoundSchedule, ValidSchedule, RunPass, Run, LowEnd, SampleEnd, Independent, BlockItems, SecondItems,
         ValidItems, FirstSchedule, SecondSchedule, FillsWindow, AllReady, SoundPhases, FourPhases, Ends, RunPhases;
    SecondWorkSound(job, |packed|, |low|, |samples|);
    BlocksAreGroups(job, packed, low, samples);
    FourPhasesRun(BlockItems(job, packed, low), SecondWork(job), samples, job.plane.sampleOffset, SampleEnd(job.plane));
    NothingRuns(SecondStage(job, packed, low, samples).value);
    runs := RunsExist(FourPhases(BlockItems(job, packed, low), SecondWork(job)), samples);
  }

  /** A first half whose transforms leave a plane from which the pass has a run has a run itself. */
  lemma LowHalfRuns(job: Job, packed: seq<int>, low: seq<int>, samples: nat, s: Schedule, runs: seq<seq<State>>,
                    middle: seq<int>, result: Option<seq<int>>) returns (all: seq<seq<State>>)
    requires ValidJob(job, |packed|, |low|, samples) && FirstStage(job, packed, low, samples) == Some(middle)
    requires FirstWork(job) == s && Ends(PassPhases(s), runs, middle, result)
    ensures Ends(FourPhases(FirstItems(job, packed), FirstWork(job)), all, low, result)
  {
    hide Run, LowEnd, SampleEnd, Independent, FirstItems, ValidItems, FirstSchedule, SecondSchedule, FillsWindow,
         AllReady, Ends, FirstWork, WorkItems, Execution, AllDone;
    FirstItemsSound(job, packed, |low|, samples);
    var states := ListExecutes(FirstItems(job, packed), low);
    FirstEnds(FirstItems(job, packed), PassPhases(s), states, runs, low, result);
    assert FourPhases(FirstItems(job, packed), s) == [FirstItems(job, packed)] + PassPhases(s);
    all := [states] + runs;
  }

  // ---- A geometry that races ----

  /** The crossed pair of a narrow geometry's first pass, in the plane's own range. */
  lemma NarrowPair(p: Plane, hard: bool, tileColumns: seq<nat>, tileRows: seq<nat>, s: Schedule) returns (k: nat)
    requires Schedulable(p, hard, tileColumns, tileRows) && p.blockColumns == 2 && !WideTiles(p, hard, tileColumns)
    requires FirstSchedule(p, hard, tileColumns, tileRows) == Some(s)
    ensures CrossedPass(s, k, LowEnd(p)) && p.lowOffset <= s.prefix[k].first < LowEnd(p)
    ensures p.lowOffset <= s.prefix[k].second && s.prefix[k].first != s.prefix[k].second
  {
    hide WideTiles, LowEnd, SampleEnd, ValidSchedule, TileRegions, SubsampledSchedule, WideEnough, SecondSchedule;
    FirstPassInside(p, hard, tileColumns, tileRows);
    InsideValid(s, p.lowOffset, LowEnd(p), LowEnd(p));
    LowSize(p);
    FirstRegions(p, hard, tileColumns, tileRows);
    RegionsWide(p, hard, tileColumns, tileRows);
    var regions := TileRegions(p, hard, tileColumns, tileRows, 2, p.blockRows).value;
    k := NarrowCrossesPass(LowLayout(p), regions, p.macroblocksY * p.blockRows, s, LowEnd(p));
    PairInside(s, k, p.lowOffset, LowEnd(p));
  }

  lemma PairInside(s: Schedule, k: nat, low: nat, high: nat)
    requires CrossedPass(s, k, high) && PassInside(s, low, high)
    ensures low <= s.prefix[k].first < high && low <= s.prefix[k].second && s.prefix[k].first != s.prefix[k].second
  {
    var w := s.prefix[k];
    assert ValidWork(w) && WorkInside(w, low, high);
    assert Addresses(w) == [w.first, w.second];
    assert w.first in Addresses(w) && w.second in Addresses(w);
  }

  /** A plane empty but for a four is small and can be wanted. */
  lemma PairWanted(p: Plane, size: nat, a: nat, b: nat)
    requires ValidPlane(p) && p.lowOffset <= a < LowEnd(p) <= size && a != b
    ensures SmallLow(Pair(size, a, b, (4, 0)), p)
  {
    hide LowEnd;
  }

  /** What the two runs make of it has whole quarters everywhere. */
  lemma PairQuarters(p: Plane, size: nat, a: nat, b: nat)
    requires LowEnd(p) <= size
    ensures Quarters(Pair(size, a, b, (0, -4)), p) && Quarters(Pair(size, a, b, (4, 0)), p)
    ensures a < size ==> Pair(size, a, b, (0, -4))[a] != Pair(size, a, b, (4, 0))[a]
  {
    hide LowEnd;
  }

  /** What a run leaves of the samples: from a low plane of whole quarters it always completes. */
  lemma QuartersComplete(job: Job, packed: seq<int>, low: seq<int>) returns (runs: seq<seq<State>>, after: seq<int>)
    requires ValidJob(job, |packed|, |low|, SampleEnd(job.plane)) && Quarters(low, job.plane) && !job.overlap.NoOverlap?
    requires |job.table| == 16 && job.table[0] == 0 && forall g :: 0 <= g < |job.macroblocks| ==> job.macroblocks[g].bands < 2
    ensures SecondStage(job, packed, low, Zeros(SampleEnd(job.plane))).Some?
    ensures SecondOverlap(job, SecondStage(job, packed, low, Zeros(SampleEnd(job.plane))).value, |packed|, |low|) == Some(after)
    ensures Ends(FourPhases(BlockItems(job, packed, low), SecondWork(job)), runs, Zeros(SampleEnd(job.plane)), Some(after))
  {
    hide ValidJob, Quarters, SecondStage, SecondOverlap, SampleEnd, Ends, BlockItems, SecondWork, FourPhases;
    var samples := Zeros(SampleEnd(job.plane));
    SecondStageSmall(job, packed, low, SampleEnd(job.plane));
    SecondPassSmall(job, SecondStage(job, packed, low, samples).value, |packed|, |low|);
    after := SecondOverlap(job, SecondStage(job, packed, low, samples).value, |packed|, |low|).value;
    runs := SampleHalfRuns(job, packed, low, samples);
  }

  /** Low planes that differ in one of the plane's cells give different samples. */
  lemma SamplesDiffer(job: Job, packed: seq<int>, one: seq<int>, two: seq<int>, samples: seq<int>, a: nat)
    requires ValidJob(job, |packed|, |one|, |samples|) && |one| == |two|
    requires SecondStage(job, packed, one, samples).Some? && SecondStage(job, packed, two, samples).Some?
    requires SecondOverlap(job, SecondStage(job, packed, one, samples).value, |packed|, |one|).Some?
    requires SecondOverlap(job, SecondStage(job, packed, two, samples).value, |packed|, |one|).Some?
    requires SameRange(SecondOverlap(job, SecondStage(job, packed, one, samples).value, |packed|, |one|).value,
                       SecondOverlap(job, SecondStage(job, packed, two, samples).value, |packed|, |one|).value,
                       job.plane.sampleOffset, SampleEnd(job.plane))
    requires job.plane.lowOffset <= a < LowEnd(job.plane)
    ensures a < |one| && one[a] == two[a]
  {
    var p := job.plane;
    var g, k := LowReached(job, |packed|, |one|, |samples|, a);
    assert LowEnd(p) <= |one|;
    hide ValidJob, SecondStage, SecondOverlap, SampleEnd, LowEnd, LowCell;
    SecondOverlapInjective(job, SecondStage(job, packed, one, samples).value, SecondStage(job, packed, two, samples).value, |packed|, |one|);
    SecondStageInjective(job, packed, packed, one, two, samples, samples);
    assert SameSecondInputs(job, packed, packed, one, two, job.macroblocks[g]);
    LowInputSame(job, packed, one, two, job.macroblocks[g], k);
  }

  lemma LowInputSame(job: Job, packed: seq<int>, one: seq<int>, two: seq<int>, m: Macroblock, k: nat)
    requires SameSecondInputs(job, packed, packed, one, two, m) && k < BlockCount(job.plane)
    ensures ValidPlane(job.plane) && InWindow(m, job.plane) && LowCell(job.plane, m, k) < |one| && LowCell(job.plane, m, k) < |two|
    ensures one[LowCell(job.plane, m, k)] == two[LowCell(job.plane, m, k)]
  {}

  /** A job of a geometry with both overlap passes. */
  ghost predicate JobOf(job: Job, p: Plane, hard: bool, tileColumns: seq<nat>, tileRows: seq<nat>) {
    job.plane == p && job.overlap.Two? && job.hard == hard && job.tileColumns == tileColumns && job.tileRows == tileRows
  }

  /** Every device run of such a job, from any coefficients and scratch buffers, ends as every other from the same. */
  ghost predicate JobsDeterministic(p: Plane, hard: bool, tileColumns: seq<nat>, tileRows: seq<nat>) {
    forall job: Job, packed: seq<int>, low: seq<int>, samples: seq<int>, t: Trace, u: Trace, one: Option<seq<int>>, two: Option<seq<int>> ::
      && JobOf(job, p, hard, tileColumns, tileRows) && ValidJob(job, |packed|, |low|, |samples|)
      && DeviceRun(job, packed, low, samples, t, one) && DeviceRun(job, packed, low, samples, u, two)
      ==> one == two
  }

  /**
   Some such job, with quantizers of at least one, has coefficients from which two device runs end with different
   samples although neither raises the status word.
   */
  ghost predicate JobsDiverge(p: Plane, hard: bool, tileColumns: seq<nat>, tileRows: seq<nat>) {
    exists job: Job, packed: seq<int>, low: seq<int>, samples: seq<int>, t: Trace, u: Trace, one: seq<int>, two: seq<int> ::
      JobOf(job, p, hard, tileColumns, tileRows) && (forall m :: m in job.macroblocks ==> Quantized(m))
      && ValidJob(job, |packed|, |low|, |samples|)
      && DeviceRun(job, packed, low, samples, t, Some(one)) && DeviceRun(job, packed, low, samples, u, Some(two)) && one != two
  }

  lemma DivergeNotDeterministic(p: Plane, hard: bool, tileColumns: seq<nat>, tileRows: seq<nat>)
    requires JobsDiverge(p, hard, tileColumns, tileRows)
    ensures !JobsDeterministic(p, hard, tileColumns, tileRows)
  {
    hide ValidJob, DeviceRun, JobOf;
    var job: Job, packed: seq<int>, low: seq<int>, samples: seq<int>, t: Trace, u: Trace, one: seq<int>, two: seq<int> :|
      JobOf(job, p, hard, tileColumns, tileRows) && (forall m :: m in job.macroblocks ==> Quantized(m))
      && ValidJob(job, |packed|, |low|, |samples|)
      && DeviceRun(job, packed, low, samples, t, Some(one)) && DeviceRun(job, packed, low, samples, u, Some(two)) && one != two;
  }

  lemma WideDeterministic(p: Plane, hard: bool, tileColumns: seq<nat>, tileRows: seq<nat>)
    requires p.blockColumns == 2 ==> WideTiles(p, hard, tileColumns)
    ensures JobsDeterministic(p, hard, tileColumns, tileRows)
  {
    hide ValidJob, DeviceRun, WideTiles, Reconstruct;
    forall job: Job, packed: seq<int>, low: seq<int>, samples: seq<int>, t: Trace, u: Trace, one: Option<seq<int>>, two: Option<seq<int>>
      | JobOf(job, p, hard, tileColumns, tileRows) && ValidJob(job, |packed|, |low|, |samples|)
        && DeviceRun(job, packed, low, samples, t, one) && DeviceRun(job, packed, low, samples, u, two)
      ensures one == two
    {
      DeviceReconstructs(job, packed, low, samples, t, one);
      DeviceReconstructs(job, packed, low, samples, u, two);
    }
  }

  lemma GridQuantized(p: Plane)
    requires ValidPlane(p)
    ensures forall m :: m in GridRecords(p) ==> Quantized(m) && m.bands < 2
  {}

  /** The two halves of a run of a job whose first half has a run. */
  lemma WholeRun(job: Job, packed: seq<int>, low: seq<int>, filtered: seq<int>, lowRuns: seq<seq<State>>) returns (t: Trace, after: seq<int>)
    requires ValidJob(job, |packed|, |low|, SampleEnd(job.plane)) && |filtered| == |low| && Quarters(filtered, job.plane)
    requires |job.table| == 16 && job.table[0] == 0 && !job.overlap.NoOverlap?
    requires forall g :: 0 <= g < |job.macroblocks| ==> job.macroblocks[g].bands < 2
    requires Ends(FourPhases(FirstItems(job, packed), FirstWork(job)), lowRuns, low, Some(filtered))
    ensures DeviceRun(job, packed, low, Zeros(SampleEnd(job.plane)), t, Some(after))
    ensures SecondStage(job, packed, filtered, Zeros(SampleEnd(job.plane))).Some?
    ensures SecondOverlap(job, SecondStage(job, packed, filtered, Zeros(SampleEnd(job.plane))).value, |packed|, |low|) == Some(after)
  {
    var runs;
    runs, after := QuartersComplete(job, packed, filtered);
    hide ValidJob, Quarters, SecondStage, SecondOverlap, SampleEnd, Ends, BlockItems, SecondWork, FourPhases,
         FirstItems, FirstWork;
    t := Trace(Some(filtered), lowRuns, runs);
  }

  lemma TableStart(job: Job)
    requires job.table == INVERSE_PERMUTATION
    ensures |job.table| == 16 && job.table[0] == 0
  {}

  /** The grid job's first half, from coefficients for a plane empty but for one sample, has two runs. */
  lemma NarrowLowRuns(p: Plane, hard: bool, tileColumns: seq<nat>, tileRows: seq<nat>, job: Job)
    returns (packed: seq<int>, a: nat, one: seq<int>, two: seq<int>, lowOne: seq<seq<State>>, lowTwo: seq<seq<State>>)
    requires Schedulable(p, hard, tileColumns, tileRows) && p.blockColumns == 2 && !WideTiles(p, hard, tileColumns)
    requires job == GridJob(p, hard, tileColumns, tileRows)
    ensures ValidJob(job, |packed|, LowEnd(p), SampleEnd(p))
    ensures p.lowOffset <= a < LowEnd(p) == |one| == |two| && one[a] != two[a] && Quarters(one, p) && Quarters(two, p)
    ensures Ends(FourPhases(FirstItems(job, packed), FirstWork(job)), lowOne, Zeros(LowEnd(p)), Some(one))
    ensures Ends(FourPhases(FirstItems(job, packed), FirstWork(job)), lowTwo, Zeros(LowEnd(p)), Some(two))
  {
    var s := FirstSchedule(p, hard, tileColumns, tileRows).value;
    var k := NarrowPair(p, hard, tileColumns, tileRows, s);
    a := s.prefix[k].first;
    var b, size := s.prefix[k].second, LowEnd(p);
    var w := Pair(size, a, b, (4, 0));
    one, two := Pair(size, a, b, (0, -4)), Pair(size, a, b, (4, 0));
    PairWanted(p, size, a, b);
    PairQuarters(p, size, a, b);
    var four := 4;
    var r, q := CrossedEnds(s, k, size, four);
    packed := Coefficients(p, w);
    GridJobValid(p, hard, tileColumns, tileRows, |packed|, LowEnd(p), SampleEnd(p));
    hide WideTiles, LowEnd, SampleEnd, FirstSchedule, SecondSchedule, CrossedPass, Pair, SmallLow, Quarters,
         Coefficients, ValidJob, PassPhases, Ends, GridRecords, TileGrid;
    FirstStageLeaves(p, w, packed, SampleEnd(p), job);
    assert FirstWork(job) == s;
    hide FirstStage, FirstWork, FourPhases, FirstItems;
    lowOne := LowHalfRuns(job, packed, Zeros(LowEnd(p)), SampleEnd(p), s, r, w, Some(one));
    lowTwo := LowHalfRuns(job, packed, Zeros(LowEnd(p)), SampleEnd(p), s, q, w, Some(two));
  }

  /** A geometry with a tile of one macroblock column has a job whose device runs disagree without an error. */
  lemma NarrowDiverges(p: Plane, hard: bool, tileColumns: seq<nat>, tileRows: seq<nat>, job: Job)
    requires Schedulable(p, hard, tileColumns, tileRows) && p.blockColumns == 2 && !WideTiles(p, hard, tileColumns)
    requires job == GridJob(p, hard, tileColumns, tileRows)
    ensures JobsDiverge(p, hard, tileColumns, tileRows)
  {
    GridQuantized(p);
    TableStart(job);
    hide WideTiles, LowEnd, SampleEnd, FirstSchedule, SecondSchedule, Quarters, ValidJob, Ends, GridRecords,
         Quantized, TileGrid, SecondStage, SecondOverlap, FirstWork, FourPhases, FirstItems, DeviceRun;
    var packed, a, one, two, lowOne, lowTwo := NarrowLowRuns(p, hard, tileColumns, tileRows, job);
    var low, samples := Zeros(LowEnd(p)), Zeros(SampleEnd(p));
    var t, x := WholeRun(job, packed, low, one, lowOne);
    var u, y := WholeRun(job, packed, low, two, lowTwo);
    if x == y {
      SamplesDiffer(job, packed, one, two, samples, a);
      assert false;
    }
    assert JobOf(job, p, hard, tileColumns, tileRows);
  }

  /**
   Whole jobs with both overlap passes are deterministic on the device exactly when no tile of a subsampled plane
   shows a single macroblock column; every other geometry has a job, with quantizers of one, and coefficients from
   which two device runs end with different samples, neither raising an error.
   */
  lemma JobsDeterministicExactly(p: Plane, hard: bool, tileColumns: seq<nat>, tileRows: seq<nat>)
    requires Schedulable(p, hard, tileColumns, tileRows)
    ensures JobsDeterministic(p, hard, tileColumns, tileRows) <==> (p.blockColumns == 2 ==> WideTiles(p, hard, tileColumns))
    ensures JobsDiverge(p, hard, tileColumns, tileRows) <==> p.blockColumns == 2 && !WideTiles(p, hard, tileColumns)
  {
    hide JobsDeterministic, JobsDiverge, WideTiles, Schedulable;
    if p.blockColumns == 2 ==> WideTiles(p, hard, tileColumns) {
      WideDeterministic(p, hard, tileColumns, tileRows);
      if JobsDiverge(p, hard, tileColumns, tileRows) {
        DivergeNotDeterministic(p, hard, tileColumns, tileRows);
      }
    } else {
      PlaneIsValid(p, hard, tileColumns, tileRows);
      NarrowDiverges(p, hard, tileColumns, tileRows, GridJob(p, hard, tileColumns, tileRows));
      DivergeNotDeterministic(p, hard, tileColumns, tileRows);
    }
  }

  lemma PlaneIsValid(p: Plane, hard: bool, tileColumns: seq<nat>, tileRows: seq<nat>)
    requires Schedulable(p, hard, tileColumns, tileRows)
    ensures ValidPlane(p)
  {}
}
