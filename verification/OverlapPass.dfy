/**
 Whole overlap passes: prefix, filters and suffix as three device phases. Every pass can be taken back,
 its result does not depend on how the threads interleave, and corner samples keep their distance to
 their neighbours.
 */
module OverlapPass {
  import opened Wrappers
  import opened Phases
  import opened Overlap
  import opened Passes
  import opened ExactTiling

  /** A schedule whose records are well formed for a memory of `size` cells. */
  ghost predicate ValidSchedule(s: Schedule, size: nat) {
    ValidWorks(s.prefix, size) && ValidWorks(s.filters, size) && ValidWorks(s.suffix, size)
  }

  ghost function PhaseRun(works: seq<Work>, fits: Fitting, memory: seq<int>): (after: Option<seq<int>>)
    requires ValidWorks(works, |memory|)
    ensures after.Some? ==> |after.value| == |memory|
  {
    WorkItemsValid(works, fits, |memory|);
    Run(WorkItems(works, fits), memory)
  }

  /** The three phases in order, with a barrier after each; an overflow stops the pass. */
  ghost function RunPass(s: Schedule, fits: Fitting, memory: seq<int>): (after: Option<seq<int>>)
    requires ValidSchedule(s, |memory|)
    ensures after.Some? ==> |after.value| == |memory|
  {
    var one :- PhaseRun(s.prefix, fits, memory);
    var two :- PhaseRun(s.filters, fits, one);
    PhaseRun(s.suffix, fits, two)
  }

  /** The encoder's pass: every record taken back, last first. */
  ghost function UndoPass(s: Schedule, memory: seq<int>): (before: seq<int>)
    requires ValidSchedule(s, |memory|)
    ensures |before| == |memory|
  {
    UndoAll(s.prefix, UndoAll(s.filters, UndoAll(s.suffix, memory)))
  }

  /** A pass that completes is undone by the forward pass. */
  lemma RunPassUndone(s: Schedule, fits: Fitting, memory: seq<int>)
    requires ValidSchedule(s, |memory|) && RunPass(s, fits, memory).Some?
    ensures UndoPass(s, RunPass(s, fits, memory).value) == memory
  {
    hide Run, UndoAll, ValidWorks, ValidItems, WorkItems;
    var one := PhaseRun(s.prefix, fits, memory).value;
    var two := PhaseRun(s.filters, fits, one).value;
    WorkItemsValid(s.prefix, fits, |memory|);
    WorkItemsValid(s.filters, fits, |memory|);
    WorkItemsValid(s.suffix, fits, |memory|);
    PassUndone(s.prefix, fits, memory);
    PassUndone(s.filters, fits, one);
    PassUndone(s.suffix, fits, two);
  }

  /** Over unbounded integers a pass is a bijection on planes, with the forward pass as its inverse. */
  lemma RunPassBijective(s: Schedule, fits: Fitting, memory: seq<int>)
    requires ValidSchedule(s, |memory|) && Always(fits)
    ensures RunPass(s, fits, UndoPass(s, memory)) == Some(memory)
    ensures RunPass(s, fits, memory).Some? && UndoPass(s, RunPass(s, fits, memory).value) == memory
  {
    hide Run, UndoAll, ValidItems, WorkItems;
    var two := UndoAll(s.suffix, memory);
    var one := UndoAll(s.filters, two);
    WorkItemsValid(s.prefix, fits, |memory|);
    WorkItemsValid(s.filters, fits, |memory|);
    WorkItemsValid(s.suffix, fits, |memory|);
    PassRedone(s.suffix, fits, memory);
    PassRedone(s.filters, fits, two);
    PassRedone(s.prefix, fits, one);
    PhaseCompletes(s.prefix, fits, memory);
    var first := PhaseRun(s.prefix, fits, memory).value;
    PhaseCompletes(s.filters, fits, first);
    PhaseCompletes(s.suffix, fits, PhaseRun(s.filters, fits, first).value);
    RunPassUndone(s, fits, memory);
  }

  lemma {:induction false} PhaseCompletes(works: seq<Work>, fits: Fitting, memory: seq<int>)
    requires ValidWorks(works, |memory|) && Always(fits)
    ensures PhaseRun(works, fits, memory).Some?
    decreases |works|
  {
    WorkItemsValid(works, fits, |memory|);
    if works != [] {
      hide Addresses, Filter;
      var init, last := works[..|works| - 1], works[|works| - 1];
      PhaseCompletes(init, fits, memory);
      WorkItemsValid(init, fits, |memory|);
      assert WorkItems(works, fits)[..|init|] == WorkItems(init, fits);
      ApplyWork(last, fits, Run(WorkItems(init, fits), memory).value);
    }
  }

  // ---- The device runs a pass ----

  /** One phase on the device: an interleaving of its threads that ran to the end. */
  ghost predicate DevicePhase(works: seq<Work>, fits: Fitting, states: seq<State>, before: seq<int>)
    requires ValidWorks(works, |before|)
  {
    WorkItemsValid(works, fits, |before|);
    && |states| > 0 && states[0].memory == before
    && Execution(WorkItems(works, fits), states, |before|)
    && AllDone(states[|states| - 1])
  }

  /**
   Whatever the interleaving, a phase of a sound pass ends with the memory of the sequential run, or
   with the status word raised exactly when that run overflows.
   */
  lemma DevicePhaseResult(works: seq<Work>, fits: Fitting, states: seq<State>, before: seq<int>, low: nat, high: nat)
    requires SoundPass(works, low, high) && high <= |before| && ValidWorks(works, |before|)
    requires DevicePhase(works, fits, states, before)
    ensures var last := states[|states| - 1];
      PhaseRun(works, fits, before) == if last.failed then None else Some(last.memory)
  {
    hide Execution, AllDone, Run, SoundPass, Independent;
    SoundIndependent(works, fits, low, high, |before|);
    InterleavingIsRun(WorkItems(works, fits), states);
  }

  /** Three device phases in a row, each begun on the memory the previous one left, compute the pass. */
  lemma DevicePassResult(s: Schedule, fits: Fitting, runs: seq<seq<State>>, before: seq<int>, low: nat, high: nat)
    requires |runs| == 3 && high <= |before| && ValidSchedule(s, |before|)
    requires SoundPass(s.prefix, low, high) && SoundPass(s.filters, low, high) && SoundPass(s.suffix, low, high)
    requires DevicePhase(s.prefix, fits, runs[0], before)
    requires var one := runs[0][|runs[0]| - 1].memory;
      |one| == |before| && DevicePhase(s.filters, fits, runs[1], one)
    requires var two := runs[1][|runs[1]| - 1].memory;
      |two| == |before| && DevicePhase(s.suffix, fits, runs[2], two)
    requires forall k :: 0 <= k < 3 ==> !runs[k][|runs[k]| - 1].failed
    ensures RunPass(s, fits, before) == Some(runs[2][|runs[2]| - 1].memory)
  {
    hide Execution, AllDone, PhaseRun, SoundPass, ValidWorks;
    var one, two := runs[0][|runs[0]| - 1].memory, runs[1][|runs[1]| - 1].memory;
    DevicePhaseResult(s.prefix, fits, runs[0], before, low, high);
    DevicePhaseResult(s.filters, fits, runs[1], one, low, high);
    DevicePhaseResult(s.suffix, fits, runs[2], two, low, high);
  }
}
