/**
 A whole reconstruction on the device: eight phases separated by barriers, the threads of each
 interleaving freely. A run ends with the status word raised exactly when the sequential reconstruction
 overflows, and otherwise leaves its samples.
 */
module Device {
  import opened Wrappers
  import opened Phases
  import opened Overlap
  import opened Regions
  import opened Passes
  import opened ExactTiling
  import opened OverlapPass
  import opened PlanePasses
  import opened Corners
  import opened Window
  import opened Kernels
  import opened Reconstruction
  import opened Lanes

  ghost predicate SoundPhases(phases: seq<seq<Item>>, size: nat) {
    forall k :: 0 <= k < |phases| ==> ValidItems(phases[k], size) && Independent(phases[k])
  }

  /** The phases in turn, the items of each in list order; `None` if any item overflows. */
  ghost function RunPhases(phases: seq<seq<Item>>, memory: seq<int>): (after: Option<seq<int>>)
    requires SoundPhases(phases, |memory|)
  {
    if phases == [] then Some(memory)
    else
      var next :- Run(phases[0], memory);
      RunPhases(phases[1..], next)
  }

  /**
   A device run of the phases: each begins on the memory the last one left and ends when all its threads
   have. A raised status word is never cleared, so the run then ends with an error whatever follows.
   */
  ghost predicate Ends(phases: seq<seq<Item>>, runs: seq<seq<State>>, memory: seq<int>, result: Option<seq<int>>) {
    if phases == [] then result == Some(memory)
    else
      && |runs| > 0 && |runs[0]| > 0 && runs[0][0].memory == memory && Execution(phases[0], runs[0], |memory|)
      && var last := runs[0][|runs[0]| - 1];
         && AllDone(last)
         && if last.failed then result.None? else Ends(phases[1..], runs[1..], last.memory, result)
  }

  lemma {:induction false} EndsAsRun(phases: seq<seq<Item>>, runs: seq<seq<State>>, memory: seq<int>, result: Option<seq<int>>)
    requires SoundPhases(phases, |memory|) && Ends(phases, runs, memory, result)
    ensures RunPhases(phases, memory) == result
  {
    hide Execution, AllDone, Independent, ValidItems, Run;
    if phases != [] {
      InterleavingIsRun(phases[0], runs[0]);
      if Run(phases[0], memory).Some? {
        EndsAsRun(phases[1..], runs[1..], Run(phases[0], memory).value, result);
      }
    }
  }

  /** A transform and the three phases of an overlap pass, on one buffer. */
  ghost function FourPhases(items: seq<Item>, s: Schedule): seq<seq<Item>> {
    [items, WorkItems(s.prefix, FilterFits), WorkItems(s.filters, FilterFits), WorkItems(s.suffix, FilterFits)]
  }

  lemma FourPhasesRun(items: seq<Item>, s: Schedule, memory: seq<int>, low: nat, high: nat)
    requires ValidItems(items, |memory|) && Independent(items)
    requires SoundSchedule(s, low, high) && high <= |memory| && ValidSchedule(s, |memory|)
    ensures SoundPhases(FourPhases(items, s), |memory|)
    ensures RunPhases(FourPhases(items, s), memory) ==
      match Run(items, memory)
      case None => None
      case Some(middle) => RunPass(s, FilterFits, middle)
  {
    hide Run, SoundPass, ValidWorks, Independent, ValidItems;
    SoundIndependent(s.prefix, FilterFits, low, high, |memory|);
    SoundIndependent(s.filters, FilterFits, low, high, |memory|);
    SoundIndependent(s.suffix, FilterFits, low, high, |memory|);
    var a, b, c := WorkItems(s.prefix, FilterFits), WorkItems(s.filters, FilterFits), WorkItems(s.suffix, FilterFits);
    assert FourPhases(items, s)[1..] == [a, b, c] && [a, b, c][1..] == [b, c] && [b, c][1..] == [c] && [c][1..] == [];
    if Run(items, memory).Some? {
      ThreePhasesRun(a, b, c, Run(items, memory).value);
    }
  }

  lemma ThreePhasesRun(a: seq<Item>, b: seq<Item>, c: seq<Item>, memory: seq<int>)
    requires ValidItems(a, |memory|) && ValidItems(b, |memory|) && ValidItems(c, |memory|)
    requires Independent(a) && Independent(b) && Independent(c)
    requires [a, b, c][1..] == [b, c] && [b, c][1..] == [c] && [c][1..] == []
    ensures RunPhases([a, b, c], memory) ==
      match Run(a, memory)
      case None => None
      case Some(one) =>
        match Run(b, one)
        case None => None
        case Some(two) => Run(c, two)
  {
    hide Run, ValidItems, Independent;
    if Run(a, memory).Some? && Run(b, Run(a, memory).value).Some? {
      assert RunPhases([c], Run(b, Run(a, memory).value).value) == Run(c, Run(b, Run(a, memory).value).value);
    }
  }

  ghost predicate SoundSchedule(s: Schedule, low: nat, high: nat) {
    SoundPass(s.prefix, low, high) && SoundPass(s.filters, low, high) && SoundPass(s.suffix, low, high)
  }

  /** The schedule of a pass, empty when the overlap mode skips it. */
  ghost function FirstWork(job: Job): Schedule
    requires ValidPlane(job.plane) && (job.overlap.Two? ==> FirstSchedule(job.plane, job.hard, job.tileColumns, job.tileRows).Some?)
  {
    if job.overlap.Two? then FirstSchedule(job.plane, job.hard, job.tileColumns, job.tileRows).value else Schedule([], [], [])
  }

  ghost function SecondWork(job: Job): Schedule
    requires ValidPlane(job.plane) && (!job.overlap.NoOverlap? ==> SecondSchedule(job.plane, job.hard, job.tileColumns, job.tileRows).Some?)
  {
    if job.overlap.NoOverlap? then Schedule([], [], [])
    else SecondSchedule(job.plane, job.hard, job.tileColumns, job.tileRows).value
  }

  /** What passes between the two halves of a run: the low plane, unless the status was raised; and the runs of the phases. */
  datatype Trace = Trace(low: Option<seq<int>>, lowRuns: seq<seq<State>>, sampleRuns: seq<seq<State>>)

  /** A device run of a plane, from the contents of its two scratch buffers. */
  ghost predicate DeviceRun(job: Job, packed: seq<int>, low: seq<int>, samples: seq<int>, t: Trace, result: Option<seq<int>>)
    requires ValidJob(job, |packed|, |low|, |samples|)
  {
    && Ends(FourPhases(FirstItems(job, packed), FirstWork(job)), t.lowRuns, low, t.low)
    && match t.low
       case None => result.None?
       case Some(filtered) =>
         && |filtered| == |low|
         && Ends(FourPhases(BlockItems(job, packed, filtered), SecondWork(job)), t.sampleRuns, samples, result)
  }

  lemma NothingSound(low: nat, high: nat)
    ensures SoundPass([], low, high) && SoundSchedule(Schedule([], [], []), low, high)
  {}

  lemma NothingRuns(memory: seq<int>)
    ensures ValidSchedule(Schedule([], [], []), |memory|) && RunPass(Schedule([], [], []), FilterFits, memory) == Some(memory)
  {
    WorkItemsValid([], FilterFits, |memory|);
  }

  lemma FirstWorkSound(job: Job, packed: nat, low: nat, samples: nat)
    requires ValidJob(job, packed, low, samples)
    requires job.overlap.Two? && job.plane.blockColumns == 2 ==> WideTiles(job.plane, job.hard, job.tileColumns)
    ensures SoundSchedule(FirstWork(job), job.plane.lowOffset, LowEnd(job.plane)) && ValidSchedule(FirstWork(job), low)
  {
    hide SoundPass, WideTiles, FirstSchedule, LowEnd, PassInside, FillsWindow, AllReady, ValidSchedule;
    var p := job.plane;
    if job.overlap.Two? {
      FirstPassInside(p, job.hard, job.tileColumns, job.tileRows);
      InsideValid(FirstWork(job), p.lowOffset, LowEnd(p), low);
      FirstScheduleSound(p, job.hard, job.tileColumns, job.tileRows);
    } else {
      NothingSound(p.lowOffset, LowEnd(p));
      NothingRuns(seq(low, k => 0));
    }
  }

  lemma FirstScheduleSound(p: Plane, hard: bool, tileColumns: seq<nat>, tileRows: seq<nat>)
    requires ValidPlane(p) && TileGrid(tileColumns, tileRows) && FirstSchedule(p, hard, tileColumns, tileRows).Some?
    requires p.blockColumns == 2 ==> WideTiles(p, hard, tileColumns)
    ensures SoundSchedule(FirstSchedule(p, hard, tileColumns, tileRows).value, p.lowOffset, LowEnd(p))
  {
    hide SoundPass, LowEnd, WideTiles, TileRegions, Partition, WideEnough, SubsampledSchedule;
    LowSize(p);
    NothingSound(p.lowOffset, LowEnd(p));
    if p.blockColumns == 4 {
      hide FirstSchedule;
      FirstPassTiling(p, hard, tileColumns, tileRows);
    } else {
      FirstRegions(p, hard, tileColumns, tileRows);
      RegionsWide(p, hard, tileColumns, tileRows);
      var regions := TileRegions(p, hard, tileColumns, tileRows, 2, p.blockRows).value;
      SubsampledSound(LowLayout(p), regions, p.macroblocksY * p.blockRows);
    }
  }

  lemma SecondWorkSound(job: Job, packed: nat, low: nat, samples: nat)
    requires ValidJob(job, packed, low, samples)
    ensures SoundSchedule(SecondWork(job), job.plane.sampleOffset, SampleEnd(job.plane)) && ValidSchedule(SecondWork(job), samples)
  {
    hide SoundPass, SecondSchedule, PassInside, FillsWindow, AllReady, ValidSchedule, LowEnd;
    var p := job.plane;
    NothingSound(p.sampleOffset, SampleEnd(p));
    if !job.overlap.NoOverlap? {
      SecondPassInside(p, job.hard, job.tileColumns, job.tileRows);
      InsideValid(SecondWork(job), p.sampleOffset, SampleEnd(p), samples);
      SecondPassTiling(p, job.hard, job.tileColumns, job.tileRows);
    } else {
      NothingRuns(seq(samples, k => 0));
    }
  }

  /**
   However the threads of each phase interleave, a device run raises the status word exactly when the
   sequential reconstruction overflows, and otherwise leaves its samples. Subsampled planes that run the
   first pass must not show a tile of one macroblock column.
   */
  lemma DeviceReconstructs(job: Job, packed: seq<int>, low: seq<int>, samples: seq<int>, t: Trace, result: Option<seq<int>>)
    requires ValidJob(job, |packed|, |low|, |samples|) && DeviceRun(job, packed, low, samples, t, result)
    requires job.overlap.Two? && job.plane.blockColumns == 2 ==> WideTiles(job.plane, job.hard, job.tileColumns)
    ensures Reconstruct(job, packed, low, samples) == result
  {
    hide WideTiles, SoundSchedule, ValidSchedule, RunPass, Run, LowEnd, SampleEnd, Independent, FirstItems,
         BlockItems, SecondItems, ValidItems, FirstSchedule, SecondSchedule, FillsWindow, AllReady, SoundPhases,
         FourPhases, Ends;
    var p := job.plane;
    FirstWorkSound(job, |packed|, |low|, |samples|);
    SecondWorkSound(job, |packed|, |low|, |samples|);
    FirstItemsSound(job, packed, |low|, |samples|);
    FourPhasesRun(FirstItems(job, packed), FirstWork(job), low, p.lowOffset, LowEnd(p));
    EndsAsRun(FourPhases(FirstItems(job, packed), FirstWork(job)), t.lowRuns, low, t.low);
    if FirstStage(job, packed, low, |samples|).Some? {
      NothingRuns(FirstStage(job, packed, low, |samples|).value);
    }
    if t.low.Some? {
      var filtered := t.low.value;
      BlocksAreGroups(job, packed, filtered, samples);
      FourPhasesRun(BlockItems(job, packed, filtered), SecondWork(job), samples, p.sampleOffset, SampleEnd(p));
      EndsAsRun(FourPhases(BlockItems(job, packed, filtered), SecondWork(job)), t.sampleRuns, samples, result);
      if SecondStage(job, packed, filtered, samples).Some? {
        NothingRuns(SecondStage(job, packed, filtered, samples).value);
      }
    }
  }
}
