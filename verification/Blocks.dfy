/** The exact 4-by-4 operators: sequences of lifting operators on groups of a sixteen-value block. */
module Blocks {
  import opened Memory
  import opened Operators

  /** One operator applied to the block positions `at`. */
  datatype Step = Step(at: seq<nat>, op: Operator)

  ghost predicate ValidStep(step: Step) {
    && |step.at| == step.op.Arity() && Within(step.at, 16) && Distinct(step.at)
    && (step.op.Hadamard? ==> step.op.rounding <= 1)
  }

  ghost predicate ValidSteps(steps: seq<Step>) {
    forall k :: 0 <= k < |steps| ==> ValidStep(steps[k])
  }

  /** The block after one step. */
  ghost function Stepped(step: Step, block: seq<int>): (result: seq<int>)
    requires ValidStep(step) && |block| == 16
    ensures |result| == 16
  {
    Scatter(block, step.at, step.op.Inverse(Gather(block, step.at)))
  }

  /** The block with one step taken back by the encoder's operator. */
  ghost function Unstepped(step: Step, block: seq<int>): (result: seq<int>)
    requires ValidStep(step) && |block| == 16
    ensures |result| == 16
  {
    Scatter(block, step.at, step.op.Forward(Gather(block, step.at)))
  }

  ghost function RunSteps(steps: seq<Step>, block: seq<int>): (result: seq<int>)
    requires ValidSteps(steps) && |block| == 16
    ensures |result| == 16
  {
    if steps == [] then block else Stepped(steps[|steps| - 1], RunSteps(steps[..|steps| - 1], block))
  }

  ghost function UnrunSteps(steps: seq<Step>, block: seq<int>): (result: seq<int>)
    requires ValidSteps(steps) && |block| == 16
    ensures |result| == 16
  {
    if steps == [] then block else UnrunSteps(steps[..|steps| - 1], Unstepped(steps[|steps| - 1], block))
  }

  /** Every intermediate value of a run stays within 32 bits. */
  ghost predicate RunFits(steps: seq<Step>, block: seq<int>)
    requires ValidSteps(steps) && |block| == 16
  {
    if steps == [] then true
    else
      var last := steps[|steps| - 1];
      var init := steps[..|steps| - 1];
      RunFits(init, block) && Fits(last.op, Gather(RunSteps(init, block), last.at))
  }

  lemma StepReversible(step: Step, block: seq<int>)
    requires ValidStep(step) && |block| == 16
    ensures Unstepped(step, Stepped(step, block)) == block
    ensures Stepped(step, Unstepped(step, block)) == block
  {
    var values := Gather(block, step.at);
    GatherScatter(block, step.at, values);
    OperatorReversible(step.op, values);
    GatherScatter(block, step.at, step.op.Inverse(values));
    ScatterTwice(block, step.at, step.op.Inverse(values), values);
    GatherScatter(block, step.at, step.op.Forward(values));
    ScatterTwice(block, step.at, step.op.Forward(values), values);
  }

  lemma {:induction false} StepsUndone(steps: seq<Step>, block: seq<int>)
    requires ValidSteps(steps) && |block| == 16
    ensures UnrunSteps(steps, RunSteps(steps, block)) == block
  {
    if steps != [] {
      var init := steps[..|steps| - 1];
      StepReversible(steps[|steps| - 1], RunSteps(init, block));
      StepsUndone(init, block);
    }
  }

  lemma {:induction false} StepsRedone(steps: seq<Step>, block: seq<int>)
    requires ValidSteps(steps) && |block| == 16
    ensures RunSteps(steps, UnrunSteps(steps, block)) == block
  {
    if steps != [] {
      var last := steps[|steps| - 1];
      StepReversible(last, block);
      StepsRedone(steps[..|steps| - 1], Unstepped(last, block));
    }
  }

  /** Running a list of steps is running its parts one after the other. */
  lemma {:induction false} RunConcat(first: seq<Step>, second: seq<Step>, block: seq<int>)
    requires ValidSteps(first) && ValidSteps(second) && |block| == 16
    ensures RunSteps(first + second, block) == RunSteps(second, RunSteps(first, block))
    ensures RunFits(first + second, block) <==> RunFits(first, block) && RunFits(second, RunSteps(first, block))
  {
    if second == [] {
      assert first + second == first;
    } else {
      var init := second[..|second| - 1];
      assert (first + second)[..|first + second| - 1] == first + init;
      RunConcat(first, init, block);
    }
  }

  // ---- Inverse core transform ----

  /** What the build script accepts as the coefficient permutation. */
  ghost predicate IsPermutation(table: seq<nat>) {
    |table| == 16 && Within(table, 16) && Distinct(table)
  }

  /** The table of the repository's reconstruction ABI file. */
  const INVERSE_PERMUTATION: seq<nat> := [0, 8, 4, 13, 2, 15, 3, 14, 1, 12, 5, 9, 7, 11, 6, 10]

  lemma InversePermutationValid()
    ensures IsPermutation(INVERSE_PERMUTATION)
  {}

  function Permute(table: seq<nat>, block: seq<int>): (result: seq<int>)
    requires |table| == |block| == 16 && Within(table, 16)
    ensures |result| == 16
  {
    Scatter(block, table, block)
  }

  function Unpermute(table: seq<nat>, block: seq<int>): (result: seq<int>)
    requires |table| == |block| == 16 && Within(table, 16)
    ensures |result| == 16
  {
    Gather(block, table)
  }

  lemma PermuteReversible(table: seq<nat>, block: seq<int>)
    requires IsPermutation(table) && |block| == 16
    ensures Unpermute(table, Permute(table, block)) == block
    ensures Permute(table, Unpermute(table, block)) == block
  {
    GatherScatter(block, table, block);
    var rest := Unpermute(table, block);
    ScatterStores(rest, table, rest);
    forall i | 0 <= i < 16
      ensures Permute(table, rest)[i] == block[i]
    {
      AllReached(table, 16, i);
    }
  }

  /** Distinct addresses below their own number reach every address. */
  lemma {:induction false} AllReached(table: seq<nat>, n: nat, i: nat)
    requires |table| == n && Within(table, n) && Distinct(table) && i < n
    ensures i in table
    decreases n
  {
    if i !in table {
      // Dropping the last entry and renaming n - 1 to i leaves one value fewer to reach.
      var last := table[n - 1];
      var renamed := seq(n - 1, k requires 0 <= k < n - 1 => if table[k] == n - 1 then i else table[k]);
      if n - 1 == i {
        AllReached(table[..n - 1], n - 1, last);
      } else if last == n - 1 {
        AllReached(table[..n - 1], n - 1, i);
      } else {
        AllReached(renamed, n - 1, last);
      }
    }
  }

  const CORE_STEPS: seq<Step> := [
    Step([0, 1, 4, 5], Hadamard(1)),
    Step([2, 3, 6, 7], Todd),
    Step([8, 12, 9, 13], Todd),
    Step([10, 11, 14, 15], ToddOdd),
    Step([0, 3, 12, 15], Hadamard(0)),
    Step([5, 6, 9, 10], Hadamard(0)),
    Step([1, 2, 13, 14], Hadamard(0)),
    Step([4, 7, 8, 11], Hadamard(0))
  ]

  lemma CoreStepsValid()
    ensures ValidSteps(CORE_STEPS)
  {}

  ghost function CoreTransform(table: seq<nat>, block: seq<int>): (result: seq<int>)
    requires IsPermutation(table) && |block| == 16
    ensures |result| == 16
  {
    CoreStepsValid();
    RunSteps(CORE_STEPS, Permute(table, block))
  }

  ghost predicate CoreFits(table: seq<nat>, block: seq<int>)
    requires IsPermutation(table) && |block| == 16
  {
    CoreStepsValid();
    RunFits(CORE_STEPS, Permute(table, block))
  }

  ghost function ForwardCore(table: seq<nat>, block: seq<int>): (result: seq<int>)
    requires IsPermutation(table) && |block| == 16
    ensures |result| == 16
  {
    CoreStepsValid();
    Unpermute(table, UnrunSteps(CORE_STEPS, block))
  }

  /** The inverse core transform is a bijection on integer blocks, for every permutation table. */
  lemma CoreReversible(table: seq<nat>, block: seq<int>)
    requires IsPermutation(table) && |block| == 16
    ensures ForwardCore(table, CoreTransform(table, block)) == block
    ensures CoreTransform(table, ForwardCore(table, block)) == block
  {
    hide RunSteps, UnrunSteps, Permute, Unpermute, CORE_STEPS;
    CoreStepsValid();
    PermuteReversible(table, block);
    StepsUndone(CORE_STEPS, Permute(table, block));
    StepsRedone(CORE_STEPS, block);
    PermuteReversible(table, UnrunSteps(CORE_STEPS, block));
  }

  // ---- 4-by-4 overlap postfilter ----

  const GROUPS: seq<seq<nat>> := [[0, 3, 12, 15], [1, 2, 13, 14], [4, 7, 8, 11], [5, 6, 9, 10]]
  const ROTATIONS: seq<seq<nat>> := [[13, 12], [9, 8], [7, 3], [6, 2]]
  const SCALES: seq<seq<nat>> := [[0, 15], [1, 14], [4, 11], [5, 10]]

  function Each(groups: seq<seq<nat>>, op: Operator): seq<Step> {
    seq(|groups|, k requires 0 <= k < |groups| => Step(groups[k], op))
  }

  const OVERLAP_STEPS: seq<Step> :=
    Each(GROUPS, Hadamard(0)) + Each(ROTATIONS, Rotate) + [Step([10, 11, 14, 15], ToddOddPost)]
    + Each(SCALES, Scale) + Each(GROUPS, HadamardPost)

  lemma OverlapStepsValid()
    ensures ValidSteps(OVERLAP_STEPS)
  {
    EachValid(GROUPS, Hadamard(0));
    EachValid(ROTATIONS, Rotate);
    EachValid(SCALES, Scale);
    EachValid(GROUPS, HadamardPost);
    assert ValidStep(Step([10, 11, 14, 15], ToddOddPost));
    hide ValidStep, Each, GROUPS, ROTATIONS, SCALES;
  }

  lemma EachValid(groups: seq<seq<nat>>, op: Operator)
    requires forall k :: 0 <= k < |groups| ==> ValidStep(Step(groups[k], op))
    ensures ValidSteps(Each(groups, op))
  {}

  ghost function Overlap4x4(block: seq<int>): (result: seq<int>)
    requires |block| == 16
    ensures |result| == 16
  {
    OverlapStepsValid();
    RunSteps(OVERLAP_STEPS, block)
  }

  ghost predicate Overlap4x4Fits(block: seq<int>)
    requires |block| == 16
  {
    OverlapStepsValid();
    RunFits(OVERLAP_STEPS, block)
  }

  ghost function ForwardOverlap4x4(block: seq<int>): (result: seq<int>)
    requires |block| == 16
    ensures |result| == 16
  {
    OverlapStepsValid();
    UnrunSteps(OVERLAP_STEPS, block)
  }

  lemma Overlap4x4Reversible(block: seq<int>)
    requires |block| == 16
    ensures ForwardOverlap4x4(Overlap4x4(block)) == block
    ensures Overlap4x4(ForwardOverlap4x4(block)) == block
  {
    hide RunSteps, UnrunSteps, OVERLAP_STEPS;
    OverlapStepsValid();
    StepsUndone(OVERLAP_STEPS, block);
    StepsRedone(OVERLAP_STEPS, block);
  }

  // ---- Subsampled chroma macroblocks ----

  ghost function Chroma420(v: seq<int>): (w: seq<int>)
    requires |v| == 4
    ensures |w| == 4
  {
    var t := T2x2h(v, 0);
    [t[0], t[2], t[1], t[3]]
  }

  ghost function ForwardChroma420(v: seq<int>): (w: seq<int>)
    requires |v| == 4
    ensures |w| == 4
  {
    T2x2h([v[0], v[2], v[1], v[3]], 0)
  }

  ghost function Chroma422(v: seq<int>): (w: seq<int>)
    requires |v| == 8
    ensures |w| == 8
  {
    var pair := InverseT2pt([v[0], v[4]]);
    var first := T2x2h([pair[0], v[1], v[2], v[3]], 0);
    var second := T2x2h([pair[1], v[6], v[5], v[7]], 0);
    [first[0], first[2], first[1], first[3], second[0], second[1], second[2], second[3]]
  }

  ghost predicate Chroma422Fits(v: seq<int>)
    requires |v| == 8
  {
    FitsT2pt([v[0], v[4]]) &&
    var pair := InverseT2pt([v[0], v[4]]);
    FitsT2x2h([pair[0], v[1], v[2], v[3]], 0) && FitsT2x2h([pair[1], v[6], v[5], v[7]], 0)
  }

  ghost function ForwardChroma422(v: seq<int>): (w: seq<int>)
    requires |v| == 8
    ensures |w| == 8
  {
    var first := T2x2h([v[0], v[2], v[1], v[3]], 0);
    var second := T2x2h([v[4], v[5], v[6], v[7]], 0);
    var pair := ForwardT2pt([first[0], second[0]]);
    [pair[0], first[1], first[2], first[3], pair[1], second[2], second[1], second[3]]
  }

  lemma Chroma420Reversible(v: seq<int>)
    requires |v| == 4
    ensures ForwardChroma420(Chroma420(v)) == v
    ensures Chroma420(ForwardChroma420(v)) == v
  {
    hide T2x2h;
    HadamardReversible(v, 0);
    HadamardReversible([v[0], v[2], v[1], v[3]], 0);
    var t := T2x2h(v, 0);
    assert [t[0], t[1], t[2], t[3]] == t;
  }

  lemma Chroma422Undone(v: seq<int>)
    requires |v| == 8
    ensures ForwardChroma422(Chroma422(v)) == v
  {
    hide T2x2h, InverseT2pt, ForwardT2pt;
    T2ptReversible([v[0], v[4]]);
    var pair := InverseT2pt([v[0], v[4]]);
    HadamardReversible([pair[0], v[1], v[2], v[3]], 0);
    HadamardReversible([pair[1], v[6], v[5], v[7]], 0);
    var first := T2x2h([pair[0], v[1], v[2], v[3]], 0);
    var second := T2x2h([pair[1], v[6], v[5], v[7]], 0);
    assert [first[0], first[1], first[2], first[3]] == first;
    assert [second[0], second[1], second[2], second[3]] == second;
    assert [pair[0], pair[1]] == pair;
  }

  lemma Chroma422Redone(v: seq<int>)
    requires |v| == 8
    ensures Chroma422(ForwardChroma422(v)) == v
  {
    hide T2x2h, InverseT2pt, ForwardT2pt;
    HadamardReversible([v[0], v[2], v[1], v[3]], 0);
    HadamardReversible([v[4], v[5], v[6], v[7]], 0);
    var first := T2x2h([v[0], v[2], v[1], v[3]], 0);
    var second := T2x2h([v[4], v[5], v[6], v[7]], 0);
    T2ptReversible([first[0], second[0]]);
    var pair := ForwardT2pt([first[0], second[0]]);
    assert [first[0], first[1], first[2], first[3]] == first;
    assert [second[0], second[1], second[2], second[3]] == second;
    assert [pair[0], pair[1]] == pair;
  }
}
