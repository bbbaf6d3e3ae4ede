/** How far the lifting operators let values grow: 32 bits suffice for bounded inputs. */
module Bounds {
  import opened Arithmetic
  import opened Memory
  import opened Operators
  import opened Blocks

  /** Every value stays within its own bound. */
  ghost predicate Under(v: seq<int>, bounds: seq<nat>) {
    |v| == |bounds| && forall i :: 0 <= i < |v| ==> Small(v[i], bounds[i])
  }

  /** Inputs within `before` complete in 32 bits with a result within `after`. */
  ghost predicate Grows(op: Operator, before: seq<nat>, after: seq<nat>) {
    && |before| == |after| == op.Arity()
    && forall v: seq<int> :: Under(v, before) ==> Fits(op, v) && Under(op.Inverse(v), after)
  }

  // ---- One operator ----

  lemma HadamardGrows(rounding: nat, g: nat)
    requires rounding <= 1 && g <= 0xA00_0000
    ensures Grows(Hadamard(rounding), [g, g, g, g], [5 * g + 1, 5 * g + 1, 5 * g + 1, 5 * g + 1])
  {
    forall v: seq<int> | Under(v, [g, g, g, g])
      ensures FitsT2x2h(v, rounding)
      ensures Under(T2x2h(v, rounding), [5 * g + 1, 5 * g + 1, 5 * g + 1, 5 * g + 1])
    {
      HadamardBound(v, rounding, g);
    }
  }

  lemma HadamardBound(v: seq<int>, rounding: nat, g: nat)
    requires |v| == 4 && Small(v[0], g) && Small(v[1], g) && Small(v[2], g) && Small(v[3], g)
    requires rounding <= 1 && g <= 0xA00_0000
    ensures FitsT2x2h(v, rounding)
    ensures Under(T2x2h(v, rounding), [5 * g + 1, 5 * g + 1, 5 * g + 1, 5 * g + 1])
  {
    var a := v[0] + v[3];
    var b := v[1] - v[2];
    Grow(v[3], a - b, 1, rounding, 1, g, 4 * g, 2 * g + 1);
    Grow(v[2], a - b, 1, rounding, 1, g, 4 * g, 2 * g + 1);
    hide Flip, FlipFits;
  }

  lemma ToddGrows(g: nat)
    requires 16 <= g <= 0x400_0000
    ensures Grows(Todd, [g, g, g, g], [10 * g, 10 * g, 10 * g, 10 * g])
  {
    forall v: seq<int> | Under(v, [g, g, g, g])
      ensures FitsTodd(v) && Under(InverseTodd(v), [10 * g, 10 * g, 10 * g, 10 * g])
    {
      ToddBound(v, g);
    }
  }

  lemma ToddBound(v: seq<int>, g: nat)
    requires |v| == 4 && Small(v[0], g) && Small(v[1], g) && Small(v[2], g) && Small(v[3], g)
    requires 16 <= g <= 0x400_0000
    ensures FitsTodd(v)
    ensures Under(InverseTodd(v), [10 * g, 10 * g, 10 * g, 10 * g])
  {
    hide Shift, ShiftFits, Flip, FlipFits, Lift, LiftFits, Lower, LowerFits;
    var b := v[1] + v[3];
    var a := v[0] - v[2];
    Grow(v[3], b, 1, 0, 1, g, 2 * g, g + 1);
    Grow(v[2], a, 1, 1, 1, g, 2 * g, g + 1);
    var d := Lower(v[3], b, 1, 0, 1);
    var c := Lift(v[2], a, 1, 1, 1);
    Grow(a, b, 3, 4, 3, 2 * g, 2 * g, g);
    var a1 := Lower(a, b, 3, 4, 3);
    Grow(b, a1, 3, 4, 3, 2 * g, 3 * g, 2 * g);
    var b1 := Lift(b, a1, 3, 4, 3);
    Grow(c, d, 3, 4, 3, 2 * g + 1, 2 * g + 1, g);
    var c1 := Lower(c, d, 3, 4, 3);
    Grow(d, c1, 3, 4, 3, 2 * g + 1, 3 * g + 1, 2 * g);
    var d1 := Lift(d, c1, 3, 4, 3);
    Grow(c1, b1, 1, 1, 1, 3 * g + 1, 4 * g, 2 * g + 1);
    Grow(d1, a1, 1, 1, 1, 4 * g + 1, 3 * g, 2 * g);
  }

  lemma ToddOddGrows(g: nat)
    requires 16 <= g <= 0x400_0000
    ensures Grows(ToddOdd, [g, g, g, g], [10 * g, 10 * g, 10 * g, 10 * g])
  {
    forall v: seq<int> | Under(v, [g, g, g, g])
      ensures FitsToddOdd(v) && Under(InverseToddOdd(v), [10 * g, 10 * g, 10 * g, 10 * g])
    {
      ToddOddBound(v, g);
    }
  }

  lemma ToddOddBound(v: seq<int>, g: nat)
    requires |v| == 4 && Small(v[0], g) && Small(v[1], g) && Small(v[2], g) && Small(v[3], g)
    requires 16 <= g <= 0x400_0000
    ensures FitsToddOdd(v)
    ensures Under(InverseToddOdd(v), [10 * g, 10 * g, 10 * g, 10 * g])
  {
    hide Shift, ShiftFits, Lift, LiftFits, Lower, LowerFits;
    var d := v[3] + v[0];
    var c := v[2] - v[1];
    Grow(v[0], d, 1, 0, 1, g, 2 * g, g + 1);
    Grow(v[1], c, 1, 0, 1, g, 2 * g, g + 1);
    var a := Lower(v[0], d, 1, 0, 1);
    var b := Lift(v[1], c, 1, 0, 1);
    Grow(a, b, 3, 3, 3, 2 * g + 1, 2 * g + 1, g);
    var a1 := Lower(a, b, 3, 3, 3);
    Grow(b, a1, 3, 3, 2, 2 * g + 1, 3 * g + 1, 3 * g);
    var b1 := Lift(b, a1, 3, 3, 2);
    Grow(a1, b1, 3, 4, 3, 3 * g + 1, 5 * g + 1, 2 * g);
    var a2 := Lower(a1, b1, 3, 4, 3);
    Grow(b1, c, 1, 0, 1, 5 * g + 1, 2 * g, g + 1);
    var b2 := Lower(b1, c, 1, 0, 1);
    Grow(a2, d, 1, 0, 1, 5 * g + 1, 2 * g, g + 1);
    var a3 := Lift(a2, d, 1, 0, 1);
    assert InverseToddOdd(v) == [a3, -b2, -(c + b2), d - a3];
    hide InverseToddOdd;
  }

  lemma ToddOddPostGrows(g: nat)
    requires 16 <= g <= 0x400_0000
    ensures Grows(ToddOddPost, [g, g, g, g], [10 * g, 10 * g, 10 * g, 10 * g])
  {
    forall v: seq<int> | Under(v, [g, g, g, g])
      ensures FitsToddOddPost(v) && Under(InverseToddOddPost(v), [10 * g, 10 * g, 10 * g, 10 * g])
    {
      ToddOddPostBound(v, g);
    }
  }

  lemma ToddOddPostBound(v: seq<int>, g: nat)
    requires |v| == 4 && Small(v[0], g) && Small(v[1], g) && Small(v[2], g) && Small(v[3], g)
    requires 16 <= g <= 0x400_0000
    ensures FitsToddOddPost(v)
    ensures Under(InverseToddOddPost(v), [10 * g, 10 * g, 10 * g, 10 * g])
  {
    hide Shift, ShiftFits, Lift, LiftFits, Lower, LowerFits;
    var d := v[3] + v[0];
    var c := v[2] - v[1];
    Grow(v[0], d, 1, 0, 1, g, 2 * g, g + 1);
    Grow(v[1], c, 1, 0, 1, g, 2 * g, g + 1);
    var a := Lower(v[0], d, 1, 0, 1);
    var b := Lift(v[1], c, 1, 0, 1);
    Grow(a, b, 3, 6, 3, 2 * g + 1, 2 * g + 1, g);
    var a1 := Lower(a, b, 3, 6, 3);
    Grow(b, a1, 3, 2, 2, 2 * g + 1, 3 * g + 1, 3 * g);
    var b1 := Lift(b, a1, 3, 2, 2);
    Grow(a1, b1, 3, 4, 3, 3 * g + 1, 5 * g + 1, 2 * g);
    var a2 := Lower(a1, b1, 3, 4, 3);
    Grow(b1, c, 1, 0, 1, 5 * g + 1, 2 * g, g + 1);
    var b2 := Lower(b1, c, 1, 0, 1);
    Grow(a2, d, 1, 0, 1, 5 * g + 1, 2 * g, g + 1);
    var a3 := Lift(a2, d, 1, 0, 1);
    assert InverseToddOddPost(v) == [a3, b2, c + b2, d - a3];
    hide InverseToddOddPost;
  }

  lemma RotateGrows(g: nat)
    requires 16 <= g <= 0x400_0000
    ensures Grows(Rotate, [g, g], [3 * g, 3 * g])
  {
    forall v: seq<int> | Under(v, [g, g])
      ensures FitsRotate(v) && Under(InverseRotate(v), [3 * g, 3 * g])
    {
      Grow(v[0], v[1], 1, 1, 1, g, g, g);
      Grow(v[1], Lower(v[0], v[1], 1, 1, 1), 1, 1, 1, g, 2 * g, g + 1);
      hide Lift, LiftFits, Lower, LowerFits;
    }
  }

  lemma ScaleGrows(g: nat)
    requires 16 <= g <= 0x200_0000
    ensures Grows(Scale, [g, 10 * g], [17 * g, 53 * g])
  {
    forall v: seq<int> | Under(v, [g, 10 * g])
      ensures FitsScale(v) && Under(InverseScale(v), [17 * g, 53 * g])
    {
      ScaleBound(v, g);
    }
  }

  lemma ScaleBound(v: seq<int>, g: nat)
    requires |v| == 2 && Small(v[0], g) && Small(v[1], 10 * g) && 16 <= g <= 0x200_0000
    ensures FitsScale(v)
    ensures Under(InverseScale(v), [17 * g, 53 * g])
  {
    hide Shift, ShiftFits, Flip, FlipFits, Lift, LiftFits, Lower, LowerFits;
    var a := v[0] + v[1];
    Grow(v[1], a, 1, 0, 1, 10 * g, 11 * g, 5 * g + g / 2 + 1);
    var b := Flip(v[1], a, 1, 0, 1);
    Grow(a, b, 3, 0, 3, 11 * g, 15 * g + g / 2 + 1, 6 * g);
    var a1 := Lift(a, b, 3, 0, 3);
    Grow(b, a1, 3, 0, 4, 15 * g + g / 2 + 1, 17 * g, 3 * g + g / 4 + 1);
    var b1 := Lift(b, a1, 3, 0, 4);
    Grow(b1, a1, 1, 0, 7, 19 * g, 17 * g, 17 * g);
    var b2 := Lift(b1, a1, 1, 0, 7);
    Grow(b2, a1, 1, 0, 10, 36 * g, 17 * g, 17 * g);
  }

  lemma HadamardPostGrows(g: nat)
    requires 16 <= g <= 0xA0_0000
    ensures Grows(HadamardPost, [17 * g, 3 * g, 3 * g, 53 * g], [64 * g, 64 * g, 64 * g, 64 * g])
  {
    forall v: seq<int> | Under(v, [17 * g, 3 * g, 3 * g, 53 * g])
      ensures FitsHadamardPost(v) && Under(InverseHadamardPost(v), [64 * g, 64 * g, 64 * g, 64 * g])
    {
      HadamardPostBound(v, g);
    }
  }

  lemma HadamardPostBound(v: seq<int>, g: nat)
    requires |v| == 4 && Small(v[0], 17 * g) && Small(v[1], 3 * g) && Small(v[2], 3 * g) && Small(v[3], 53 * g)
    requires 16 <= g <= 0xA0_0000
    ensures FitsHadamardPost(v)
    ensures Under(InverseHadamardPost(v), [64 * g, 64 * g, 64 * g, 64 * g])
  {
    hide Shift, ShiftFits, Flip, FlipFits, Lift, LiftFits, Lower, LowerFits;
    var b := v[1] - v[2];
    Grow(v[0], v[3], 3, 4, 3, 17 * g, 53 * g, 20 * g);
    var a := Lift(v[0], v[3], 3, 4, 3);
    Grow(v[3], b, 1, 0, 1, 53 * g, 6 * g, 3 * g + 1);
    Grow(v[2], a - b, 1, 0, 1, 3 * g, 43 * g, 22 * g);
  }

  // ---- A stage of steps on separate groups ----

  function Pick(bounds: seq<nat>, at: seq<nat>): seq<nat>
    requires Within(at, |bounds|)
  {
    seq(|at|, k requires 0 <= k < |at| => bounds[at[k]])
  }

  ghost predicate Apart(steps: seq<Step>) {
    forall j, k :: 0 <= j < k < |steps| ==> forall i :: i in steps[j].at ==> i !in steps[k].at
  }

  ghost predicate Touched(steps: seq<Step>, i: nat) {
    exists k :: 0 <= k < |steps| && i in steps[k].at
  }

  /** The growth of each step in a stage, and no shrinking elsewhere. */
  ghost predicate StageGrows(steps: seq<Step>, before: seq<nat>, after: seq<nat>) {
    && ValidSteps(steps) && Apart(steps) && |before| == |after| == 16
    && (forall i :: 0 <= i < 16 ==> before[i] <= after[i])
    && forall k :: 0 <= k < |steps| ==> Grows(steps[k].op, Pick(before, steps[k].at), Pick(after, steps[k].at))
  }

  lemma {:induction false} StageBound(steps: seq<Step>, block: seq<int>, before: seq<nat>, after: seq<nat>)
    requires StageGrows(steps, before, after) && |block| == 16 && Under(block, before)
    ensures RunFits(steps, block)
    ensures Under(RunSteps(steps, block), after)
    ensures forall i :: 0 <= i < 16 && !Touched(steps, i) ==> Small(RunSteps(steps, block)[i], before[i])
  {
    hide Grows, Fits, Operator.Inverse;
    if steps != [] {
      var last := steps[|steps| - 1];
      var init := steps[..|steps| - 1];
      StageBound(init, block, before, after);
      var middle := RunSteps(init, block);
      StepBound(last, middle, before, after);
      forall i | 0 <= i < 16 && !Touched(steps, i)
        ensures Small(RunSteps(steps, block)[i], before[i])
      {
        assert !Touched(init, i) && i !in last.at;
      }
    }
  }

  lemma StepBound(step: Step, block: seq<int>, before: seq<nat>, after: seq<nat>)
    requires ValidStep(step) && |block| == |before| == |after| == 16
    requires Grows(step.op, Pick(before, step.at), Pick(after, step.at))
    requires Under(block, after)
    requires forall k :: 0 <= k < |step.at| ==> Small(block[step.at[k]], before[step.at[k]])
    ensures Fits(step.op, Gather(block, step.at))
    ensures Under(Stepped(step, block), after)
    ensures forall i :: 0 <= i < 16 && i !in step.at ==> Stepped(step, block)[i] == block[i]
  {
    hide Fits, Operator.Inverse;
    var values := Gather(block, step.at);
    assert Under(values, Pick(before, step.at));
    ScatterStores(block, step.at, step.op.Inverse(values));
    forall i | 0 <= i < 16
      ensures Small(Stepped(step, block)[i], after[i])
    {
      if i in step.at {
        var k :| 0 <= k < |step.at| && step.at[k] == i;
        assert Small(step.op.Inverse(values)[k], Pick(after, step.at)[k]);
      }
    }
  }

  // ---- The two block operators ----

  function Uniform(bound: nat): seq<nat> {
    seq(16, i => bound)
  }

  lemma CoreFirstStage()
    ensures StageGrows(CORE_STEPS[..4], Uniform(0x100_0000), Uniform(0xA00_0000))
  {
    hide Grows;
    CoreStepsValid();
    ToddGrows(0x100_0000);
    ToddOddGrows(0x100_0000);
    HadamardGrows(1, 0x100_0000);
    GrowsWeaken(Hadamard(1), 0x100_0000, 0x500_0001, 0xA00_0000);
    var steps := CORE_STEPS[..4];
    forall k | 0 <= k < 4
      ensures Grows(steps[k].op, Pick(Uniform(0x100_0000), steps[k].at), Pick(Uniform(0xA00_0000), steps[k].at))
    {
      assert Pick(Uniform(0x100_0000), steps[k].at) == [0x100_0000, 0x100_0000, 0x100_0000, 0x100_0000];
      assert Pick(Uniform(0xA00_0000), steps[k].at) == [0xA00_0000, 0xA00_0000, 0xA00_0000, 0xA00_0000];
    }
  }

  lemma GrowsWeaken(op: Operator, g: nat, bound: nat, weaker: nat)
    requires Grows(op, [g, g, g, g], [bound, bound, bound, bound]) && bound <= weaker
    ensures Grows(op, [g, g, g, g], [weaker, weaker, weaker, weaker])
  {
    hide Fits, Operator.Inverse;
  }

  lemma CoreSecondStage()
    ensures StageGrows(CORE_STEPS[4..], Uniform(0xA00_0000), Uniform(0x3200_0001))
  {
    hide Grows;
    CoreStepsValid();
    HadamardGrows(0, 0xA00_0000);
    var steps := CORE_STEPS[4..];
    forall k | 0 <= k < 4
      ensures Grows(steps[k].op, Pick(Uniform(0xA00_0000), steps[k].at), Pick(Uniform(0x3200_0001), steps[k].at))
    {
      assert Pick(Uniform(0xA00_0000), steps[k].at) == [0xA00_0000, 0xA00_0000, 0xA00_0000, 0xA00_0000];
      assert Pick(Uniform(0x3200_0001), steps[k].at) == [0x3200_0001, 0x3200_0001, 0x3200_0001, 0x3200_0001];
    }
  }

  /** The inverse core transform never overflows on coefficients of magnitude at most 2^24. */
  lemma CoreNeverOverflows(table: seq<nat>, block: seq<int>)
    requires IsPermutation(table) && |block| == 16
    requires forall i :: 0 <= i < 16 ==> Small(block[i], 0x100_0000)
    ensures CoreFits(table, block)
  {
    hide RunFits, RunSteps, StageGrows;
    CoreStepsValid();
    var permuted := Permute(table, block);
    ScatterStores(block, table, block);
    forall i | 0 <= i < 16
      ensures Small(permuted[i], 0x100_0000)
    {
      AllReached(table, 16, i);
    }
    CoreFirstStage();
    StageBound(CORE_STEPS[..4], permuted, Uniform(0x100_0000), Uniform(0xA00_0000));
    CoreSecondStage();
    StageBound(CORE_STEPS[4..], RunSteps(CORE_STEPS[..4], permuted), Uniform(0xA00_0000), Uniform(0x3200_0001));
    RunConcat(CORE_STEPS[..4], CORE_STEPS[4..], permuted);
    assert CORE_STEPS == CORE_STEPS[..4] + CORE_STEPS[4..];
  }

  /** Bounds by position: DC-like corners, rotated positions, and odd-odd positions. */
  function Quadrants(even: nat, mixed: nat, odd: nat): seq<nat> {
    seq(16, i =>
      if i == 0 || i == 1 || i == 4 || i == 5 then even
      else if i == 10 || i == 11 || i == 14 || i == 15 then odd
      else mixed)
  }

  const H: nat := 0x50_0001

  const TURNS: seq<Step> := Each(ROTATIONS, Rotate) + [Step([10, 11, 14, 15], ToddOddPost)]

  lemma OverlapFirstStage()
    ensures StageGrows(Each(GROUPS, Hadamard(0)), Uniform(0x10_0000), Uniform(H))
  {
    hide Grows;
    HadamardGrows(0, 0x10_0000);
    var steps := Each(GROUPS, Hadamard(0));
    forall k | 0 <= k < 4
      ensures Grows(steps[k].op, Pick(Uniform(0x10_0000), steps[k].at), Pick(Uniform(H), steps[k].at))
    {
      assert Pick(Uniform(0x10_0000), steps[k].at) == [0x10_0000, 0x10_0000, 0x10_0000, 0x10_0000];
      assert Pick(Uniform(H), steps[k].at) == [H, H, H, H];
    }
  }

  lemma OverlapSecondStage()
    ensures StageGrows(TURNS, Uniform(H), Quadrants(H, 3 * H, 10 * H))
  {
    hide Grows;
    RotateGrows(H);
    ToddOddPostGrows(H);
    var steps := TURNS;
    forall k | 0 <= k < 5
      ensures Grows(steps[k].op, Pick(Uniform(H), steps[k].at), Pick(Quadrants(H, 3 * H, 10 * H), steps[k].at))
    {
      if k < 4 {
        assert Pick(Uniform(H), steps[k].at) == [H, H];
        assert Pick(Quadrants(H, 3 * H, 10 * H), steps[k].at) == [3 * H, 3 * H];
      } else {
        assert Pick(Uniform(H), steps[k].at) == [H, H, H, H];
        assert Pick(Quadrants(H, 3 * H, 10 * H), steps[k].at) == [10 * H, 10 * H, 10 * H, 10 * H];
      }
    }
  }

  lemma OverlapThirdStage()
    ensures StageGrows(Each(SCALES, Scale), Quadrants(H, 3 * H, 10 * H), Quadrants(17 * H, 3 * H, 53 * H))
  {
    hide Grows;
    ScaleGrows(H);
    var steps := Each(SCALES, Scale);
    forall k | 0 <= k < 4
      ensures Grows(steps[k].op, Pick(Quadrants(H, 3 * H, 10 * H), steps[k].at),
                    Pick(Quadrants(17 * H, 3 * H, 53 * H), steps[k].at))
    {
      assert Pick(Quadrants(H, 3 * H, 10 * H), steps[k].at) == [H, 10 * H];
      assert Pick(Quadrants(17 * H, 3 * H, 53 * H), steps[k].at) == [17 * H, 53 * H];
    }
  }

  lemma OverlapFourthStage()
    ensures StageGrows(Each(GROUPS, HadamardPost), Quadrants(17 * H, 3 * H, 53 * H), Uniform(64 * H))
  {
    hide Grows;
    HadamardPostGrows(H);
    var steps := Each(GROUPS, HadamardPost);
    forall k | 0 <= k < 4
      ensures Grows(steps[k].op, Pick(Quadrants(17 * H, 3 * H, 53 * H), steps[k].at), Pick(Uniform(64 * H), steps[k].at))
    {
      assert Pick(Quadrants(17 * H, 3 * H, 53 * H), steps[k].at) == [17 * H, 3 * H, 3 * H, 53 * H];
      assert Pick(Uniform(64 * H), steps[k].at) == [64 * H, 64 * H, 64 * H, 64 * H];
    }
  }

  /** The 4-by-4 overlap filter never overflows on samples of magnitude at most 2^20. */
  lemma OverlapNeverOverflows(block: seq<int>)
    requires |block| == 16
    requires forall i :: 0 <= i < 16 ==> Small(block[i], 0x10_0000)
    ensures Overlap4x4Fits(block)
  {
    hide RunFits, RunSteps, StageGrows;
    var one := Each(GROUPS, Hadamard(0));
    var two := TURNS;
    var three := Each(SCALES, Scale);
    var four := Each(GROUPS, HadamardPost);
    OverlapFirstStage();
    OverlapSecondStage();
    OverlapThirdStage();
    OverlapFourthStage();
    ValidStages(one, two, three, four);
    StageBound(one, block, Uniform(0x10_0000), Uniform(H));
    StageBound(two, RunSteps(one, block), Uniform(H), Quadrants(H, 3 * H, 10 * H));
    RunConcat(one, two, block);
    var half := RunSteps(one + two, block);
    StageBound(three, half, Quadrants(H, 3 * H, 10 * H), Quadrants(17 * H, 3 * H, 53 * H));
    StageBound(four, RunSteps(three, half), Quadrants(17 * H, 3 * H, 53 * H), Uniform(64 * H));
    RunConcat(one + two, three, block);
    RunConcat(one + two + three, four, block);
    OverlapStepsValid();
    assert OVERLAP_STEPS == one + two + three + four;
  }

  lemma ValidStages(one: seq<Step>, two: seq<Step>, three: seq<Step>, four: seq<Step>)
    requires StageGrows(one, Uniform(0x10_0000), Uniform(H))
    requires StageGrows(two, Uniform(H), Quadrants(H, 3 * H, 10 * H))
    requires StageGrows(three, Quadrants(H, 3 * H, 10 * H), Quadrants(17 * H, 3 * H, 53 * H))
    requires StageGrows(four, Quadrants(17 * H, 3 * H, 53 * H), Uniform(64 * H))
    ensures ValidSteps(one) && ValidSteps(two) && ValidSteps(three) && ValidSteps(four)
  {
    hide Grows, ValidStep;
  }

  // ---- The four-sample filter ----

  lemma ScaledBound(v: seq<int>, g: nat)
    requires |v| == 4 && Under(v, [g, g, g, g]) && 16 <= g <= 0x4_0000
    ensures FitsScaled4(v)
    ensures Under(Scaled4(v), [34 * g, 34 * g, 106 * g, 106 * g])
  {
    hide Shift, ShiftFits, Flip, FlipFits, Lift, LiftFits, Lower, LowerFits, InverseScale, FitsScale;
    var a, b := v[0] + v[3], v[1] + v[2];
    Grow(v[3], a, 1, 1, 1, g, 2 * g, g + 1);
    Grow(v[2], b, 1, 1, 1, g, 2 * g, g + 1);
    ScaleBound([a, Lower(v[3], a, 1, 1, 1)], 2 * g);
    ScaleBound([b, Lower(v[2], b, 1, 1, 1)], 2 * g);
  }

  lemma TurnedBound(v: seq<int>, g: nat)
    requires |v| == 4 && Under(v, [34 * g, 34 * g, 106 * g, 106 * g]) && 16 <= g <= 0x4_0000
    ensures FitsTurned4(v)
  {
    hide Shift, ShiftFits, Flip, FlipFits, Lift, LiftFits, Lower, LowerFits, InverseRotate, FitsRotate;
    Grow(v[0], v[3], 3, 4, 3, 34 * g, 106 * g, 41 * g);
    Grow(v[1], v[2], 3, 4, 3, 34 * g, 106 * g, 41 * g);
    var a, b := Lift(v[0], v[3], 3, 4, 3), Lift(v[1], v[2], 3, 4, 3);
    Grow(v[3], a, 1, 0, 1, 106 * g, 75 * g, 38 * g);
    Grow(v[2], b, 1, 0, 1, 106 * g, 75 * g, 38 * g);
    var d, c := Lower(v[3], a, 1, 0, 1), Lower(v[2], b, 1, 0, 1);
    RotateGrows(144 * g);
    var turned := InverseRotate([-c, -d]);
    assert Under([-c, -d], [144 * g, 144 * g]) && Fits(Rotate, [-c, -d]) && Under(Rotate.Inverse([-c, -d]), [432 * g, 432 * g]);
    Grow(turned[1], a + d, 1, 1, 1, 432 * g, 219 * g, 110 * g);
    Grow(turned[0], b + c, 1, 1, 1, 432 * g, 219 * g, 110 * g);
  }

  /** The four-sample filter cannot overflow on samples below 2^18. */
  lemma Overlap4NeverOverflows(v: seq<int>)
    requires |v| == 4 && forall i :: 0 <= i < 4 ==> -0x4_0000 <= v[i] <= 0x4_0000
    ensures FitsOverlap4(v)
  {
    hide Scaled4, FitsScaled4, FitsTurned4;
    var g := 0x4_0000;
    ScaledBound(v, g);
    TurnedBound(Scaled4(v), g);
  }

  lemma Overlap2Bound(v: seq<int>, g: nat)
    requires |v| == 2 && Under(v, [g, g]) && 16 <= g <= 0x8_0000
    ensures FitsOverlap2(v) && Under(InverseOverlap2(v), [9 * g, 5 * g])
  {
    hide Shift, ShiftFits, Flip, FlipFits, Lift, LiftFits, Lower, LowerFits;
    Grow(v[1], v[0], 1, 2, 2, g, g, g);
    var b := Lift(v[1], v[0], 1, 2, 2);
    Grow(v[0], b, 1, 1, 1, g, 2 * g, 2 * g);
    var a := Lift(v[0], b, 1, 1, 1);
    Grow(a, b, 1, 0, 5, 3 * g, 2 * g, 2 * g);
    var a2 := Lift(a, b, 1, 0, 5);
    Grow(a2, b, 1, 0, 9, 5 * g, 2 * g, 2 * g);
    var a3 := Lift(a2, b, 1, 0, 9);
    Grow(a3, b, 1, 0, 13, 7 * g, 2 * g, 2 * g);
    Grow(b, Lift(a3, b, 1, 0, 13), 1, 2, 2, 2 * g, 9 * g, 3 * g);
  }

  lemma Overlap2x2Bound(v: seq<int>, g: nat)
    requires |v| == 4 && Under(v, [g, g, g, g]) && 16 <= g <= 0x4_0000
    ensures FitsOverlap2x2(v)
  {
    hide Shift, ShiftFits, Flip, FlipFits, Lift, LiftFits, Lower, LowerFits, InverseOverlap2, FitsOverlap2;
    var a, b := v[0] + v[3], v[1] + v[2];
    Grow(v[3], a, 1, 1, 1, g, 2 * g, 2 * g);
    Grow(v[2], b, 1, 1, 1, g, 2 * g, 2 * g);
    var d, c := Lower(v[3], a, 1, 1, 1), Lower(v[2], b, 1, 1, 1);
    Overlap2Bound([a, b], 2 * g);
    var pair := InverseOverlap2([a, b]);
    Grow(d, pair[0], 1, 1, 1, 3 * g, 18 * g, 10 * g);
    Grow(c, pair[1], 1, 1, 1, 3 * g, 10 * g, 6 * g);
  }

  /** Neither can the filters of subsampled planes. */
  lemma ChromaFiltersNeverOverflow(pair: seq<int>, square: seq<int>)
    requires |pair| == 2 && forall i :: 0 <= i < 2 ==> -0x4_0000 <= pair[i] <= 0x4_0000
    requires |square| == 4 && forall i :: 0 <= i < 4 ==> -0x4_0000 <= square[i] <= 0x4_0000
    ensures FitsOverlap2(pair) && FitsOverlap2x2(square)
  {
    hide FitsOverlap2, FitsOverlap2x2;
    var g := 0x4_0000;
    Overlap2Bound(pair, g);
    Overlap2x2Bound(square, g);
  }

  // ---- The chroma transforms ----

  lemma T2ptBound(v: seq<int>, g: nat)
    requires |v| == 2 && Small(v[0], g) && Small(v[1], g) && 16 <= g <= 0x100_0000
    ensures FitsT2pt(v)
    ensures Small(InverseT2pt(v)[0], 3 * g) && Small(InverseT2pt(v)[1], 3 * g)
    ensures Small(ForwardT2pt(v)[0], 3 * g) && Small(ForwardT2pt(v)[1], 3 * g)
  {
    Grow(v[0], v[1], 1, 1, 1, g, g, g);
    Grow(v[0], v[1] - v[0], 1, 1, 1, g, 2 * g, 2 * g);
    hide Lift, LiftFits, Lower, LowerFits;
  }

  /** The encoder's 4:2:0 transform of small values gives small coefficients, and the decoder's completes on them. */
  lemma Chroma420Bound(e: seq<int>)
    requires |e| == 4 && forall i :: 0 <= i < 4 ==> Small(e[i], 16)
    ensures FitsT2x2h(ForwardChroma420(e), 0)
    ensures forall i :: 0 <= i < 4 ==> FitsI32(ForwardChroma420(e)[i])
  {
    hide T2x2h, FitsT2x2h;
    HadamardBound([e[0], e[2], e[1], e[3]], 0, 16);
    HadamardBound(ForwardChroma420(e), 0, 81);
  }

  /** So does the 4:2:2 transform. */
  lemma Chroma422Bound(e: seq<int>)
    requires |e| == 8 && forall i :: 0 <= i < 8 ==> Small(e[i], 16)
    ensures Chroma422Fits(ForwardChroma422(e))
    ensures forall i :: 0 <= i < 8 ==> FitsI32(ForwardChroma422(e)[i])
  {
    hide T2x2h, FitsT2x2h, InverseT2pt, ForwardT2pt, FitsT2pt;
    HadamardBound([e[0], e[2], e[1], e[3]], 0, 16);
    HadamardBound([e[4], e[5], e[6], e[7]], 0, 16);
    var first, second := T2x2h([e[0], e[2], e[1], e[3]], 0), T2x2h([e[4], e[5], e[6], e[7]], 0);
    T2ptBound([first[0], second[0]], 81);
    var v := ForwardChroma422(e);
    T2ptBound([v[0], v[4]], 243);
    var pair := InverseT2pt([v[0], v[4]]);
    HadamardBound([pair[0], v[1], v[2], v[3]], 0, 729);
    HadamardBound([pair[1], v[6], v[5], v[7]], 0, 729);
  }
}
