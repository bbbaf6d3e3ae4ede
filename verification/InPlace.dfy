/**
 The operators as the source runs them: in place, on 32-bit words, giving up at the first overflow.
 Each completes exactly when every intermediate value of the exact operator fits in 32 bits, and then
 leaves the exact result.
 */
module InPlace {
  import opened Arithmetic
  import opened Memory
  import opened Operators
  import opened Blocks

  method T2x2hInPlace(values: array<i32>, rounding: nat) returns (r: Outcome)
    requires values.Length == 4 && rounding <= 1
    modifies values
    ensures r.Done? <==> FitsT2x2h(old(values[..]), rounding)
    ensures r.Done? ==> values[..] == T2x2h(old(values[..]), rounding)
  {
    hide CheckedAdd, CheckedSub, Shift, ShiftFits;
    values[0] :- CheckedAdd(values[0], values[3]);
    values[1] :- CheckedSub(values[1], values[2]);
    var difference :- CheckedSub(values[0], values[1]);
    var first :- CheckedShift(difference, 1, rounding, 1);
    var second := values[2];
    values[2] :- CheckedSub(first, values[3]);
    values[3] :- CheckedSub(first, second);
    values[0] :- CheckedSub(values[0], values[3]);
    values[1] :- CheckedAdd(values[1], values[2]);
    return Done;
  }

  method InverseT2ptInPlace(values: array<i32>) returns (r: Outcome)
    requires values.Length == 2
    modifies values
    ensures r.Done? <==> FitsT2pt(old(values[..]))
    ensures r.Done? ==> values[..] == InverseT2pt(old(values[..]))
  {
    hide CheckedAdd, Lower, LowerFits, CheckedLower;
    values[0] :- CheckedLower(values[0], values[1], 1, 1, 1);
    values[1] :- CheckedAdd(values[1], values[0]);
    return Done;
  }

  method InverseToddInPlace(values: array<i32>) returns (r: Outcome)
    requires values.Length == 4
    modifies values
    ensures r.Done? <==> FitsTodd(old(values[..]))
    ensures r.Done? ==> values[..] == InverseTodd(old(values[..]))
  {
    hide CheckedAdd, CheckedSub, CheckedNeg, Lift, LiftFits, CheckedLift, Lower, LowerFits, CheckedLower, Flip,
         FlipFits, CheckedFlip;
    values[1] :- CheckedAdd(values[1], values[3]);
    values[0] :- CheckedSub(values[0], values[2]);
    values[3] :- CheckedLower(values[3], values[1], 1, 0, 1);
    values[2] :- CheckedLift(values[2], values[0], 1, 1, 1);
    values[0] :- CheckedLower(values[0], values[1], 3, 4, 3);
    values[1] :- CheckedLift(values[1], values[0], 3, 4, 3);
    values[2] :- CheckedLower(values[2], values[3], 3, 4, 3);
    values[3] :- CheckedLift(values[3], values[2], 3, 4, 3);
    values[2] :- CheckedLower(values[2], values[1], 1, 1, 1);
    values[3] :- CheckedFlip(values[3], values[0], 1, 1, 1);
    values[1] :- CheckedAdd(values[1], values[2]);
    values[0] :- CheckedSub(values[0], values[3]);
    return Done;
  }

  method InverseToddOddInPlace(values: array<i32>) returns (r: Outcome)
    requires values.Length == 4
    modifies values
    ensures r.Done? <==> FitsToddOdd(old(values[..]))
    ensures r.Done? ==> values[..] == InverseToddOdd(old(values[..]))
  {
    hide CheckedAdd, CheckedSub, CheckedNeg, Lift, LiftFits, CheckedLift, Lower, LowerFits, CheckedLower;
    values[3] :- CheckedAdd(values[3], values[0]);
    values[2] :- CheckedSub(values[2], values[1]);
    values[0] :- CheckedLower(values[0], values[3], 1, 0, 1);
    values[1] :- CheckedLift(values[1], values[2], 1, 0, 1);
    values[0] :- CheckedLower(values[0], values[1], 3, 3, 3);
    values[1] :- CheckedLift(values[1], values[0], 3, 3, 2);
    values[0] :- CheckedLower(values[0], values[1], 3, 4, 3);
    values[1] :- CheckedLower(values[1], values[2], 1, 0, 1);
    values[0] :- CheckedLift(values[0], values[3], 1, 0, 1);
    values[2] :- CheckedAdd(values[2], values[1]);
    values[3] :- CheckedSub(values[3], values[0]);
    values[1] :- CheckedNeg(values[1]);
    values[2] :- CheckedNeg(values[2]);
    return Done;
  }

  method InverseToddOddPostInPlace(values: array<i32>) returns (r: Outcome)
    requires values.Length == 4
    modifies values
    ensures r.Done? <==> FitsToddOddPost(old(values[..]))
    ensures r.Done? ==> values[..] == InverseToddOddPost(old(values[..]))
  {
    hide CheckedAdd, CheckedSub, CheckedNeg, Lift, LiftFits, CheckedLift, Lower, LowerFits, CheckedLower;
    values[3] :- CheckedAdd(values[3], values[0]);
    values[2] :- CheckedSub(values[2], values[1]);
    values[0] :- CheckedLower(values[0], values[3], 1, 0, 1);
    values[1] :- CheckedLift(values[1], values[2], 1, 0, 1);
    values[0] :- CheckedLower(values[0], values[1], 3, 6, 3);
    values[1] :- CheckedLift(values[1], values[0], 3, 2, 2);
    values[0] :- CheckedLower(values[0], values[1], 3, 4, 3);
    values[1] :- CheckedLower(values[1], values[2], 1, 0, 1);
    values[0] :- CheckedLift(values[0], values[3], 1, 0, 1);
    values[2] :- CheckedAdd(values[2], values[1]);
    values[3] :- CheckedSub(values[3], values[0]);
    return Done;
  }

  method InverseHadamardPostInPlace(values: array<i32>) returns (r: Outcome)
    requires values.Length == 4
    modifies values
    ensures r.Done? <==> FitsHadamardPost(old(values[..]))
    ensures r.Done? ==> values[..] == InverseHadamardPost(old(values[..]))
  {
    hide CheckedAdd, CheckedSub, CheckedNeg, Lift, LiftFits, CheckedLift, Lower, LowerFits, CheckedLower, Flip,
         FlipFits, CheckedFlip;
    values[1] :- CheckedSub(values[1], values[2]);
    values[0] :- CheckedLift(values[0], values[3], 3, 4, 3);
    values[3] :- CheckedLower(values[3], values[1], 1, 0, 1);
    var difference :- CheckedSub(values[0], values[1]);
    values[2] :- CheckedFlip(values[2], difference, 1, 0, 1);
    values[2], values[3] := values[3], values[2];
    values[0] :- CheckedSub(values[0], values[3]);
    values[1] :- CheckedAdd(values[1], values[2]);
    return Done;
  }

  method InverseRotateInPlace(values: array<i32>) returns (r: Outcome)
    requires values.Length == 2
    modifies values
    ensures r.Done? <==> FitsRotate(old(values[..]))
    ensures r.Done? ==> values[..] == InverseRotate(old(values[..]))
  {
    hide CheckedAdd, CheckedSub, CheckedNeg, Lift, LiftFits, CheckedLift, Lower, LowerFits, CheckedLower;
    values[0] :- CheckedLower(values[0], values[1], 1, 1, 1);
    values[1] :- CheckedLift(values[1], values[0], 1, 1, 1);
    return Done;
  }

  method InverseScaleInPlace(values: array<i32>) returns (r: Outcome)
    requires values.Length == 2
    modifies values
    ensures r.Done? <==> FitsScale(old(values[..]))
    ensures r.Done? ==> values[..] == InverseScale(old(values[..]))
  {
    hide CheckedAdd, CheckedSub, CheckedNeg, Lift, LiftFits, CheckedLift, Lower, LowerFits, CheckedLower, Flip,
         FlipFits, CheckedFlip;
    values[0] :- CheckedAdd(values[0], values[1]);
    values[1] :- CheckedFlip(values[1], values[0], 1, 0, 1);
    values[0] :- CheckedLift(values[0], values[1], 3, 0, 3);
    values[1] :- CheckedLift(values[1], values[0], 3, 0, 4);
    values[1] :- CheckedLift(values[1], values[0], 1, 0, 7);
    values[1] :- CheckedLower(values[1], values[0], 1, 0, 10);
    return Done;
  }

  method InverseOverlap2InPlace(values: array<i32>) returns (r: Outcome)
    requires values.Length == 2
    modifies values
    ensures r.Done? <==> FitsOverlap2(old(values[..]))
    ensures r.Done? ==> values[..] == InverseOverlap2(old(values[..]))
  {
    hide CheckedAdd, CheckedSub, CheckedNeg, Lift, LiftFits, CheckedLift;
    values[1] :- CheckedLift(values[1], values[0], 1, 2, 2);
    values[0] :- CheckedLift(values[0], values[1], 1, 1, 1);
    values[0] :- CheckedLift(values[0], values[1], 1, 0, 5);
    values[0] :- CheckedLift(values[0], values[1], 1, 0, 9);
    values[0] :- CheckedLift(values[0], values[1], 1, 0, 13);
    values[1] :- CheckedLift(values[1], values[0], 1, 2, 2);
    return Done;
  }

  method InverseOverlap2x2InPlace(values: array<i32>) returns (r: Outcome)
    requires values.Length == 4
    modifies values
    ensures r.Done? <==> FitsOverlap2x2(old(values[..]))
    ensures r.Done? ==> values[..] == InverseOverlap2x2(old(values[..]))
  {
    hide CheckedAdd, CheckedSub, CheckedNeg, Lift, LiftFits, CheckedLift, Lower, LowerFits, CheckedLower;
    values[0] :- CheckedAdd(values[0], values[3]);
    values[1] :- CheckedAdd(values[1], values[2]);
    values[3] :- CheckedLower(values[3], values[0], 1, 1, 1);
    values[2] :- CheckedLower(values[2], values[1], 1, 1, 1);
    values[1] :- CheckedLift(values[1], values[0], 1, 2, 2);
    values[0] :- CheckedLift(values[0], values[1], 1, 1, 1);
    values[0] :- CheckedLift(values[0], values[1], 1, 0, 5);
    values[0] :- CheckedLift(values[0], values[1], 1, 0, 9);
    values[0] :- CheckedLift(values[0], values[1], 1, 0, 13);
    values[1] :- CheckedLift(values[1], values[0], 1, 2, 2);
    values[3] :- CheckedLift(values[3], values[0], 1, 1, 1);
    values[2] :- CheckedLift(values[2], values[1], 1, 1, 1);
    values[0] :- CheckedSub(values[0], values[3]);
    values[1] :- CheckedSub(values[1], values[2]);
    return Done;
  }

  /** Runs `op` on a pair copied out of `values` and writes the pair back when it completes. */
  method ApplyPair(values: array<i32>, i: nat, j: nat, op: Operator) returns (r: Outcome)
    requires i < values.Length && j < values.Length && i != j
    requires op.Scale? || op.Rotate? || op.HalfSum?
    modifies values
    ensures r.Done? <==> Fits(op, [old(values[i]), old(values[j])])
    ensures r.Done? ==> var w := op.Inverse([old(values[i]), old(values[j])]);
      values[i] == w[0] && values[j] == w[1]
    ensures forall k :: 0 <= k < values.Length && k != i && k != j ==> values[k] == old(values[k])
    ensures r.Overflow? ==> values[..] == old(values[..])
  {
    hide FitsScale, FitsRotate, FitsT2pt, InverseScale, InverseRotate, InverseT2pt;
    var pair := new i32[2] [values[i], values[j]];
    assert pair[..] == [values[i], values[j]];
    if op.Scale? {
      :- InverseScaleInPlace(pair);
    } else if op.HalfSum? {
      :- InverseT2ptInPlace(pair);
    } else {
      :- InverseRotateInPlace(pair);
    }
    values[i], values[j] := pair[0], pair[1];
    return Done;
  }

  method Scaled4InPlace(values: array<i32>) returns (r: Outcome)
    requires values.Length == 4
    modifies values
    ensures r.Done? <==> FitsScaled4(old(values[..]))
    ensures r.Done? ==> values[..] == Scaled4(old(values[..]))
  {
    hide CheckedAdd, CheckedSub, CheckedNeg, Lift, LiftFits, CheckedLift, Lower, LowerFits, CheckedLower, FitsScale,
         InverseScale;
    values[0] :- CheckedAdd(values[0], values[3]);
    values[1] :- CheckedAdd(values[1], values[2]);
    values[3] :- CheckedLower(values[3], values[0], 1, 1, 1);
    values[2] :- CheckedLower(values[2], values[1], 1, 1, 1);
    :- ApplyPair(values, 0, 3, Scale);
    :- ApplyPair(values, 1, 2, Scale);
    return Done;
  }

  method Turned4InPlace(values: array<i32>) returns (r: Outcome)
    requires values.Length == 4
    modifies values
    ensures r.Done? <==> FitsTurned4(old(values[..]))
    ensures r.Done? ==> values[..] == Turned4(old(values[..]))
  {
    hide CheckedAdd, CheckedSub, CheckedNeg, Lift, LiftFits, CheckedLift, Lower, LowerFits, CheckedLower, FitsRotate,
         InverseRotate;
    values[0] :- CheckedLift(values[0], values[3], 3, 4, 3);
    values[1] :- CheckedLift(values[1], values[2], 3, 4, 3);
    values[3] :- CheckedLower(values[3], values[0], 1, 0, 1);
    values[2] :- CheckedLower(values[2], values[1], 1, 0, 1);
    values[0] :- CheckedAdd(values[0], values[3]);
    values[1] :- CheckedAdd(values[1], values[2]);
    values[3] :- CheckedNeg(values[3]);
    values[2] :- CheckedNeg(values[2]);
    :- ApplyPair(values, 2, 3, Rotate);
    values[3] :- CheckedLift(values[3], values[0], 1, 1, 1);
    values[2] :- CheckedLift(values[2], values[1], 1, 1, 1);
    values[0] :- CheckedSub(values[0], values[3]);
    values[1] :- CheckedSub(values[1], values[2]);
    return Done;
  }

  method InverseOverlap4InPlace(values: array<i32>) returns (r: Outcome)
    requires values.Length == 4
    modifies values
    ensures r.Done? <==> FitsOverlap4(old(values[..]))
    ensures r.Done? ==> values[..] == InverseOverlap4(old(values[..]))
  {
    hide Scaled4, FitsScaled4, Turned4, FitsTurned4;
    :- Scaled4InPlace(values);
    :- Turned4InPlace(values);
    return Done;
  }

  // ---- Sixteen-value blocks ----

  /** Runs one operator of a block on a small copy. */
  method RunOperator(op: Operator, values: array<i32>) returns (r: Outcome)
    requires values.Length == op.Arity()
    requires op.Hadamard? ==> op.rounding <= 1
    modifies values
    ensures r.Done? <==> Fits(op, old(values[..]))
    ensures r.Done? ==> values[..] == op.Inverse(old(values[..]))
  {
    match op {
      case Hadamard(rounding) => r := T2x2hInPlace(values, rounding);
      case Todd => r := InverseToddInPlace(values);
      case ToddOdd => r := InverseToddOddInPlace(values);
      case ToddOddPost => r := InverseToddOddPostInPlace(values);
      case HadamardPost => r := InverseHadamardPostInPlace(values);
      case Rotate => r := InverseRotateInPlace(values);
      case Scale => r := InverseScaleInPlace(values);
      case HalfSum => r := InverseT2ptInPlace(values);
      case Overlap4 => r := InverseOverlap4InPlace(values);
      case Overlap2x2 => r := InverseOverlap2x2InPlace(values);
      case Overlap2 => r := InverseOverlap2InPlace(values);
    }
  }

  /** Copies a group out of the block, runs its operator, and writes the group back. */
  method ApplyGroup(block: array<i32>, step: Step) returns (r: Outcome)
    requires block.Length == 16 && ValidStep(step)
    modifies block
    ensures r.Done? <==> Fits(step.op, Gather(old(block[..]), step.at))
    ensures r.Done? ==> block[..] == Stepped(step, old(block[..]))
    ensures r.Overflow? ==> block[..] == old(block[..])
  {
    hide Fits, Operator.Inverse;
    var at := step.at;
    var group := new i32[|at|](k requires 0 <= k < |at| reads block => block[at[k]]);
    ghost var before := block[..];
    assert group[..] == Gather(before, at);
    :- RunOperator(step.op, group);
    ghost var result := group[..];
    for i := 0 to |at|
      invariant group[..] == result
      invariant block[..] == Scatter(before, at[..i], result[..i])
    {
      assert at[..i + 1][..i] == at[..i] && result[..i + 1][..i] == result[..i];
      block[at[i]] := group[i];
    }
    assert at[..|at|] == at && result[..|at|] == result;
    return Done;
  }

  method RunStepsInPlace(block: array<i32>, steps: seq<Step>) returns (r: Outcome)
    requires block.Length == 16 && ValidSteps(steps)
    modifies block
    ensures r.Done? <==> RunFits(steps, old(block[..]))
    ensures r.Done? ==> block[..] == RunSteps(steps, old(block[..]))
  {
    hide Fits, Stepped;
    ghost var before := block[..];
    for k := 0 to |steps|
      invariant RunFits(steps[..k], before)
      invariant block[..] == RunSteps(steps[..k], before)
    {
      assert steps[..k + 1][..k] == steps[..k];
      RunConcat(steps[..k + 1], steps[k + 1..], before);
      assert steps == steps[..k + 1] + steps[k + 1..];
      :- ApplyGroup(block, steps[k]);
    }
    assert steps[..|steps|] == steps;
    return Done;
  }

  method InverseCoreTransform(block: array<i32>, table: seq<nat>) returns (r: Outcome)
    requires block.Length == 16 && IsPermutation(table)
    modifies block
    ensures r.Done? <==> CoreFits(table, old(block[..]))
    ensures r.Done? ==> block[..] == CoreTransform(table, old(block[..]))
  {
    hide RunSteps, RunFits, CORE_STEPS;
    CoreStepsValid();
    var input := new i32[16](i requires 0 <= i < 16 reads block => block[i]);
    ghost var before := block[..];
    assert input[..] == before;
    for i := 0 to 16
      invariant input[..] == before
      invariant block[..] == Scatter(before, table[..i], before[..i])
    {
      assert table[..i + 1][..i] == table[..i] && before[..i + 1][..i] == before[..i];
      block[table[i]] := input[i];
    }
    assert table[..16] == table && before[..16] == before;
    r := RunStepsInPlace(block, CORE_STEPS);
  }

  method InverseOverlapFilter4x4(block: array<i32>) returns (r: Outcome)
    requires block.Length == 16
    modifies block
    ensures r.Done? <==> Overlap4x4Fits(old(block[..]))
    ensures r.Done? ==> block[..] == Overlap4x4(old(block[..]))
  {
    hide RunSteps, RunFits;
    OverlapStepsValid();
    r := RunStepsInPlace(block, OVERLAP_STEPS);
  }

  // ---- Chroma macroblocks ----

  method InverseChroma420(values: array<i32>) returns (r: Outcome)
    requires values.Length == 4
    modifies values
    ensures r.Done? <==> FitsT2x2h(old(values[..]), 0)
    ensures r.Done? ==> values[..] == Chroma420(old(values[..]))
  {
    hide FitsT2x2h, T2x2h;
    :- T2x2hInPlace(values, 0);
    values[1], values[2] := values[2], values[1];
    return Done;
  }

  /** Runs the 2-by-2 Hadamard operator on four values copied out of `values` and writes them back. */
  method ApplyHadamard(values: array<i32>, i: nat, j: nat, k: nat, l: nat) returns (r: Outcome)
    requires i < values.Length && j < values.Length && k < values.Length && l < values.Length
    requires Distinct([i, j, k, l])
    modifies values
    ensures r.Done? <==> FitsT2x2h(old([values[i], values[j], values[k], values[l]]), 0)
    ensures r.Done? ==> var w := T2x2h(old([values[i], values[j], values[k], values[l]]), 0);
      values[i] == w[0] && values[j] == w[1] && values[k] == w[2] && values[l] == w[3]
    ensures forall m :: 0 <= m < values.Length && m !in [i, j, k, l] ==> values[m] == old(values[m])
  {
    hide FitsT2x2h, T2x2h;
    assert i == [i, j, k, l][0] && j == [i, j, k, l][1] && k == [i, j, k, l][2] && l == [i, j, k, l][3];
    var group := new i32[4] [values[i], values[j], values[k], values[l]];
    assert group[..] == [values[i], values[j], values[k], values[l]];
    :- T2x2hInPlace(group, 0);
    values[i], values[j], values[k], values[l] := group[0], group[1], group[2], group[3];
    return Done;
  }

  method InverseChroma422(values: array<i32>) returns (r: Outcome)
    requires values.Length == 8
    modifies values
    ensures r.Done? <==> Chroma422Fits(old(values[..]))
    ensures r.Done? ==> values[..] == Chroma422(old(values[..]))
  {
    hide FitsT2x2h, T2x2h, FitsT2pt, InverseT2pt;
    ghost var v := values[..];
    :- ApplyPair(values, 0, 4, HalfSum);
    ghost var pair := InverseT2pt([v[0], v[4]]);
    assert values[..] == [pair[0], v[1], v[2], v[3], pair[1], v[5], v[6], v[7]];
    :- ApplyHadamard(values, 0, 1, 2, 3);
    values[1], values[2] := values[2], values[1];
    ghost var first := T2x2h([pair[0], v[1], v[2], v[3]], 0);
    assert values[..] == [first[0], first[2], first[1], first[3], pair[1], v[5], v[6], v[7]];
    :- ApplyHadamard(values, 4, 6, 5, 7);
    values[5], values[6] := values[6], values[5];
    return Done;
  }
}
