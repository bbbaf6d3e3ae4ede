/**
 What the inverse core transform computes: every sample lies within three of a fixed linear map of the spectrum, given
 frequency by frequency, and no other linear map stays close.
 */
module CoreMap {
  import opened Memory
  import opened Operators
  import opened Blocks
  import opened LinearLaws

  // ---- Steps on separate groups ----

  /** No two steps share a position. */
  ghost predicate ApartSteps(steps: seq<Step>) {
    forall j, k, p: nat :: 0 <= j < k < |steps| && p in steps[j].at ==> p !in steps[k].at
  }

  lemma {:induction false} UntouchedKept(steps: seq<Step>, block: seq<int>, p: nat)
    requires ValidSteps(steps) && |block| == 16 && p < 16
    requires forall k :: 0 <= k < |steps| ==> p !in steps[k].at
    ensures RunSteps(steps, block)[p] == block[p]
  {
    if steps != [] {
      var init, last := steps[..|steps| - 1], steps[|steps| - 1];
      UntouchedKept(init, block, p);
      var before := RunSteps(init, block);
      ScatterStores(before, last.at, last.op.Inverse(Gather(before, last.at)));
    }
  }

  lemma OwnResult(before: seq<int>, block: seq<int>, step: Step)
    requires ValidStep(step) && |before| == |block| == 16
    requires forall j :: 0 <= j < |step.at| ==> before[step.at[j]] == block[step.at[j]]
    ensures Gather(Stepped(step, before), step.at) == step.op.Inverse(Gather(block, step.at))
  {
    hide Operator.Inverse;
    assert Gather(before, step.at) == Gather(block, step.at);
    GatherScatter(before, step.at, step.op.Inverse(Gather(before, step.at)));
  }

  lemma OtherResult(before: seq<int>, last: Step, at: seq<nat>)
    requires ValidStep(last) && |before| == 16 && Within(at, 16) && forall j :: 0 <= j < |at| ==> at[j] !in last.at
    ensures Gather(Stepped(last, before), at) == Gather(before, at)
  {
    hide Operator.Inverse;
    ScatterStores(before, last.at, last.op.Inverse(Gather(before, last.at)));
  }

  /** Steps on separate groups each leave their operator's result on what the block held before. */
  lemma {:induction false} GroupResult(steps: seq<Step>, block: seq<int>, k: nat)
    requires ValidSteps(steps) && ApartSteps(steps) && |block| == 16 && k < |steps|
    ensures Gather(RunSteps(steps, block), steps[k].at) == steps[k].op.Inverse(Gather(block, steps[k].at))
  {
    var init, last, at := steps[..|steps| - 1], steps[|steps| - 1], steps[k].at;
    var before := RunSteps(init, block);
    hide Operator.Inverse, Stepped;
    forall j | 0 <= j < |at|
      ensures at[j] in at
    {}
    if k == |steps| - 1 {
      forall j | 0 <= j < |at|
        ensures before[at[j]] == block[at[j]]
      {
        UntouchedKept(init, block, at[j]);
      }
      OwnResult(before, block, last);
    } else {
      GroupResult(init, block, k);
      OtherResult(before, last, at);
    }
  }

  /** The four values a step leaves. */
  lemma GroupOfFour(steps: seq<Step>, block: seq<int>, k: nat, v: seq<int>)
    requires ValidSteps(steps) && ApartSteps(steps) && |block| == 16 && k < |steps| && |steps[k].at| == 4
    requires v == [block[steps[k].at[0]], block[steps[k].at[1]], block[steps[k].at[2]], block[steps[k].at[3]]]
    ensures var at, after, w := steps[k].at, RunSteps(steps, block), steps[k].op.Inverse(v);
      after[at[0]] == w[0] && after[at[1]] == w[1] && after[at[2]] == w[2] && after[at[3]] == w[3]
  {
    hide Operator.Inverse, RunSteps;
    var at := steps[k].at;
    GroupResult(steps, block, k);
    assert Gather(block, at) == v;
    var after := Gather(RunSteps(steps, block), at);
    assert after[0] == RunSteps(steps, block)[at[0]];
  }

  // ---- The linear map, by frequency ----

  /** The bases are even or odd about the middle of a block. */
  function Fold(x: nat): nat
    requires x < 4
  {
    if x < 2 then x else 3 - x
  }

  function Sign(x: nat): int {
    if x < 2 then 1 else -1
  }

  /** The even frequencies 0 and 2. */
  function Even(u: nat, x: nat): int
    requires x < 4
  {
    if u == 2 && Fold(x) == 1 then -1 else 1
  }

  /** The odd frequencies 1 and 3, beside the even frequency `other` in the other direction. */
  function Odd(other: nat, u: nat, x: nat): int
    requires x < 4
  {
    var outer := Fold(x) == 0;
    Sign(x) *
    if other == 0 then
      if u == 1 then if outer then 352 else 160
      else if outer then 124 else -316
    else
      if u == 1 then if outer then 316 else 124
      else if outer then 160 else -352
  }

  /** Odd frequencies in both directions. */
  function OddOdd(v: nat, u: nat, row: nat, column: nat): int
    requires row < 4 && column < 4
  {
    var outerRow, outerColumn := Fold(row) == 0, Fold(column) == 0;
    Sign(row) * Sign(column) *
    if v == u then
      var low := v == 1;
      if outerRow != outerColumn then if low then 192 else -192
      else if outerRow == low then 440 else 72
    else
      if outerRow == outerColumn then if outerRow then 165 else -165
      else if outerRow == (u == 3) then -440 else 72
  }

  /** How much of frequency `v` down and `u` across the sample at `row` and `column` holds, in 1024ths. */
  function Weight(row: nat, column: nat, v: nat, u: nat): int
    requires row < 4 && column < 4
  {
    if v % 2 == 0 && u % 2 == 0 then 256 * Even(v, row) * Even(u, column)
    else if v % 2 == 0 then Even(v, row) * Odd(v, u, column)
    else if u % 2 == 0 then Odd(u, v, row) * Even(u, column)
    else OddOdd(v, u, row, column)
  }

  function Band(spectrum: seq<int>, row: nat, column: nat, v: nat): int
    requires |spectrum| == 16 && row < 4 && column < 4 && v < 4
  {
    Weight(row, column, v, 0) * spectrum[4 * v] + Weight(row, column, v, 1) * spectrum[4 * v + 1]
    + Weight(row, column, v, 2) * spectrum[4 * v + 2] + Weight(row, column, v, 3) * spectrum[4 * v + 3]
  }

  /** The sum over all frequencies, in 1024ths. */
  function Synthesis(spectrum: seq<int>, row: nat, column: nat): int
    requires |spectrum| == 16 && row < 4 && column < 4
  {
    Band(spectrum, row, column, 0) + Band(spectrum, row, column, 1)
    + Band(spectrum, row, column, 2) + Band(spectrum, row, column, 3)
  }

  // ---- The two halves of the transform ----

  /** The quadrant of a position, and the number of the four positions that mirror it. */
  function Quadrant(p: nat): nat {
    p / 8 * 2 + p % 4 / 2
  }

  function Mirror(p: nat): nat {
    (if 4 <= p < 12 then 2 else 0) + if p % 4 == 1 || p % 4 == 2 then 1 else 0
  }

  ghost predicate OwnedBy(step: Step, owner: nat -> nat, k: nat) {
    forall j :: 0 <= j < |step.at| ==> owner(step.at[j]) == k
  }

  /** Steps whose positions have different owners share none. */
  lemma OwnersApart(steps: seq<Step>, owner: nat -> nat, names: seq<nat>)
    requires |names| == |steps| && forall j, k :: 0 <= j < k < |names| ==> names[j] != names[k]
    requires forall k :: 0 <= k < |steps| ==> OwnedBy(steps[k], owner, names[k])
    ensures ApartSteps(steps)
  {
    forall j, k, p: nat | 0 <= j < k < |steps| && p in steps[j].at
      ensures p !in steps[k].at
    {
      assert OwnedBy(steps[j], owner, names[j]) && OwnedBy(steps[k], owner, names[k]);
    }
  }

  lemma FourOwned(step: Step, a: nat, b: nat, c: nat, d: nat, owner: nat -> nat, k: nat)
    requires step.at == [a, b, c, d] && owner(a) == owner(b) == owner(c) == owner(d) == k
    ensures OwnedBy(step, owner, k)
  {}

  lemma FirstSteps(steps: seq<Step>)
    requires steps == CORE_STEPS[..4]
    ensures |steps| == 4 && ValidSteps(steps)
    ensures steps[0] == Step([0, 1, 4, 5], Hadamard(1)) && steps[1] == Step([2, 3, 6, 7], Todd)
    ensures steps[2] == Step([8, 12, 9, 13], Todd) && steps[3] == Step([10, 11, 14, 15], ToddOdd)
  {
    CoreStepsValid();
    hide ValidStep;
  }

  lemma FirstApart(steps: seq<Step>)
    requires steps == CORE_STEPS[..4]
    ensures |steps| == 4 && ValidSteps(steps) && ApartSteps(steps)
  {
    FirstSteps(steps);
    hide CORE_STEPS, ApartSteps, ValidStep, OwnedBy;
    FourOwned(steps[0], 0, 1, 4, 5, Quadrant, 0);
    FourOwned(steps[1], 2, 3, 6, 7, Quadrant, 1);
    FourOwned(steps[2], 8, 12, 9, 13, Quadrant, 2);
    FourOwned(steps[3], 10, 11, 14, 15, Quadrant, 3);
    hide Quadrant;
    OwnersApart(steps, Quadrant, [0, 1, 2, 3]);
  }

  lemma LastSteps(steps: seq<Step>)
    requires steps == CORE_STEPS[4..]
    ensures |steps| == 4 && ValidSteps(steps)
    ensures steps[0] == Step([0, 3, 12, 15], Hadamard(0)) && steps[1] == Step([5, 6, 9, 10], Hadamard(0))
    ensures steps[2] == Step([1, 2, 13, 14], Hadamard(0)) && steps[3] == Step([4, 7, 8, 11], Hadamard(0))
  {
    CoreStepsValid();
    hide ValidStep;
  }

  lemma LastApart(steps: seq<Step>)
    requires steps == CORE_STEPS[4..]
    ensures |steps| == 4 && ValidSteps(steps) && ApartSteps(steps)
  {
    LastSteps(steps);
    hide CORE_STEPS, ApartSteps, ValidStep, OwnedBy;
    FourOwned(steps[0], 0, 3, 12, 15, Mirror, 0);
    FourOwned(steps[1], 5, 6, 9, 10, Mirror, 3);
    FourOwned(steps[2], 1, 2, 13, 14, Mirror, 1);
    FourOwned(steps[3], 4, 7, 8, 11, Mirror, 2);
    hide Mirror;
    OwnersApart(steps, Mirror, [0, 3, 1, 2]);
  }

  /** The spectrum of a permuted block: frequency `k` is at `INVERSE_PERMUTATION[k]`. */
  ghost predicate Holds(block: seq<int>, f: seq<int>) {
    |block| == |f| == 16 && forall k :: 0 <= k < 16 ==> f[k] == block[INVERSE_PERMUTATION[k]]
  }

  lemma HoldsAt(block: seq<int>, f: seq<int>)
    requires Holds(block, f)
    ensures block[0] == f[0] && block[1] == f[8] && block[2] == f[4] && block[3] == f[6]
    ensures block[4] == f[2] && block[5] == f[10] && block[6] == f[14] && block[7] == f[12]
    ensures block[8] == f[1] && block[9] == f[11] && block[10] == f[15] && block[11] == f[13]
    ensures block[12] == f[9] && block[13] == f[3] && block[14] == f[7] && block[15] == f[5]
  {
    var p := INVERSE_PERMUTATION;
    assert p[0] == 0 && p[1] == 8 && p[2] == 4 && p[3] == 13 && p[4] == 2 && p[5] == 15 && p[6] == 3 && p[7] == 14;
    assert p[8] == 1 && p[9] == 12 && p[10] == 5 && p[11] == 9 && p[12] == 7 && p[13] == 11 && p[14] == 6 && p[15] == 10;
  }

  /** The first four groups. */
  lemma FirstGroups(block: seq<int>, f: seq<int>, steps: seq<Step>, y: seq<int>)
    requires Holds(block, f) && steps == CORE_STEPS[..4] && ValidSteps(steps) && y == RunSteps(steps, block)
    ensures Hadamards(f, y) && Rotations(f, y) && OddRotation(f, y)
  {
    FirstApart(steps);
    FirstSteps(steps);
    HoldsAt(block, f);
    hide RunSteps, ApartSteps, ValidStep, CORE_STEPS, INVERSE_PERMUTATION, Holds, Hadamards, Rotations, OddRotation;
    FirstHadamard(block, f, steps, y);
    FirstRotations(block, f, steps, y);
    FirstOddRotation(block, f, steps, y);
  }

  lemma FirstHadamard(block: seq<int>, f: seq<int>, steps: seq<Step>, y: seq<int>)
    requires |block| == |f| == 16 && |steps| == 4 && ValidSteps(steps) && ApartSteps(steps) && y == RunSteps(steps, block)
    requires steps[0] == Step([0, 1, 4, 5], Hadamard(1))
    requires block[0] == f[0] && block[1] == f[8] && block[4] == f[2] && block[5] == f[10]
    ensures Hadamards(f, y)
  {
    hide T2x2h, RunSteps, ApartSteps, ValidStep;
    var a := [f[0], f[8], f[2], f[10]];
    GroupOfFour(steps, block, 0, a);
    HadamardLaw(a, 1);
  }

  lemma FirstOddRotation(block: seq<int>, f: seq<int>, steps: seq<Step>, y: seq<int>)
    requires |block| == |f| == 16 && |steps| == 4 && ValidSteps(steps) && ApartSteps(steps) && y == RunSteps(steps, block)
    requires steps[3] == Step([10, 11, 14, 15], ToddOdd)
    requires block[10] == f[15] && block[11] == f[13] && block[14] == f[7] && block[15] == f[5]
    ensures OddRotation(f, y)
  {
    hide InverseToddOdd, RunSteps, ApartSteps, ValidStep;
    var d := [f[15], f[13], f[7], f[5]];
    GroupOfFour(steps, block, 3, d);
    ToddOddLaw(d);
  }

  lemma FirstRotations(block: seq<int>, f: seq<int>, steps: seq<Step>, y: seq<int>)
    requires |block| == |f| == 16 && |steps| == 4 && ValidSteps(steps) && ApartSteps(steps) && y == RunSteps(steps, block)
    requires steps[1] == Step([2, 3, 6, 7], Todd) && steps[2] == Step([8, 12, 9, 13], Todd)
    requires block[2] == f[4] && block[3] == f[6] && block[6] == f[14] && block[7] == f[12]
    requires block[8] == f[1] && block[12] == f[9] && block[9] == f[11] && block[13] == f[3]
    ensures Rotations(f, y)
  {
    hide InverseTodd, RunSteps, ApartSteps, ValidStep;
    var b, c := [f[4], f[6], f[14], f[12]], [f[1], f[9], f[11], f[3]];
    GroupOfFour(steps, block, 1, b);
    GroupOfFour(steps, block, 2, c);
    ToddLaw(b);
    ToddLaw(c);
  }

  ghost predicate Hadamards(f: seq<int>, y: seq<int>)
    requires |f| == |y| == 16
  {
    && Near(y[0], 2, f[0] + f[8] + f[2] + f[10], -1, 0)
    && Near(y[1], 2, f[0] + f[8] - f[2] - f[10], 0, 1)
    && Near(y[4], 2, f[0] - f[8] + f[2] - f[10], 0, 1)
    && Near(y[5], 2, f[0] - f[8] - f[2] + f[10], 0, 1)
  }

  ghost predicate Rotations(f: seq<int>, y: seq<int>)
    requires |f| == |y| == 16
  {
    && Near(y[2], 128, 88 * f[4] - 79 * f[6] - 40 * f[14] + 31 * f[12], -168, 185)
    && Near(y[3], 128, 88 * f[4] + 79 * f[6] + 40 * f[14] + 31 * f[12], -188, 153)
    && Near(y[6], 128, 40 * f[4] - 31 * f[6] + 88 * f[14] - 79 * f[12], -193, 148)
    && Near(y[7], 128, 40 * f[4] + 31 * f[6] - 88 * f[14] - 79 * f[12], -193, 160)
    && Near(y[8], 128, 88 * f[1] - 79 * f[9] - 40 * f[11] + 31 * f[3], -168, 185)
    && Near(y[12], 128, 88 * f[1] + 79 * f[9] + 40 * f[11] + 31 * f[3], -188, 153)
    && Near(y[9], 128, 40 * f[1] - 31 * f[9] + 88 * f[11] - 79 * f[3], -193, 148)
    && Near(y[13], 128, 40 * f[1] + 31 * f[9] - 88 * f[11] - 79 * f[3], -193, 160)
  }

  ghost predicate OddRotation(f: seq<int>, y: seq<int>)
    requires |f| == |y| == 16
  {
    && Near(y[10], 512, 440 * f[15] - 165 * f[13] - 165 * f[7] + 72 * f[5], -794, 725)
    && Near(y[11], 64, -24 * f[15] - 55 * f[13] + 9 * f[7] + 24 * f[5], -128, 41)
    && Near(y[14], 64, -24 * f[15] + 9 * f[13] - 55 * f[7] + 24 * f[5], -128, 41)
    && Near(y[15], 512, 72 * f[15] + 165 * f[13] + 165 * f[7] + 440 * f[5], -725, 794)
  }

  /** A last Hadamard, on four of the values. */
  ghost predicate Closed(y: seq<int>, s: seq<int>, a: nat, b: nat, c: nat, d: nat)
    requires |y| == |s| == 16 && a < 16 && b < 16 && c < 16 && d < 16
  {
    && Near(s[a], 2, y[a] + y[b] + y[c] + y[d], 0, 1)
    && Near(s[b], 2, y[a] + y[b] - y[c] - y[d], -1, 0)
    && Near(s[c], 2, y[a] - y[b] + y[c] - y[d], -1, 0)
    && Near(s[d], 2, y[a] - y[b] - y[c] + y[d], -1, 0)
  }

  lemma LastGroup(steps: seq<Step>, y: seq<int>, s: seq<int>, k: nat, a: nat, b: nat, c: nat, d: nat)
    requires |y| == 16 && ValidSteps(steps) && ApartSteps(steps) && s == RunSteps(steps, y)
    requires a < 16 && b < 16 && c < 16 && d < 16 && k < |steps| && steps[k] == Step([a, b, c, d], Hadamard(0))
    ensures Closed(y, s, a, b, c, d)
  {
    hide T2x2h, RunSteps, ApartSteps, ValidStep;
    var v := [y[a], y[b], y[c], y[d]];
    GroupOfFour(steps, y, k, v);
    HadamardLaw(v, 0);
  }

  lemma LastGroups(y: seq<int>, s: seq<int>, steps: seq<Step>)
    requires |y| == 16 && steps == CORE_STEPS[4..] && ValidSteps(steps) && s == RunSteps(steps, y)
    ensures Closed(y, s, 0, 3, 12, 15) && Closed(y, s, 5, 6, 9, 10) && Closed(y, s, 1, 2, 13, 14) && Closed(y, s, 4, 7, 8, 11)
  {
    LastApart(steps);
    LastSteps(steps);
    hide RunSteps, ApartSteps, ValidStep, CORE_STEPS, Closed;
    LastGroup(steps, y, s, 0, 0, 3, 12, 15);
    LastGroup(steps, y, s, 1, 5, 6, 9, 10);
    LastGroup(steps, y, s, 2, 1, 2, 13, 14);
    LastGroup(steps, y, s, 3, 4, 7, 8, 11);
  }

  // ---- The law ----

  /** The linear part of what the first groups leave at position `p`, in 512ths. */
  function First(f: seq<int>, p: nat): int
    requires |f| == 16
  {
    if p == 0 then 256 * (f[0] + f[8] + f[2] + f[10])
    else if p == 1 then 256 * (f[0] + f[8] - f[2] - f[10])
    else if p == 2 then 4 * (88 * f[4] - 79 * f[6] - 40 * f[14] + 31 * f[12])
    else if p == 3 then 4 * (88 * f[4] + 79 * f[6] + 40 * f[14] + 31 * f[12])
    else if p == 4 then 256 * (f[0] - f[8] + f[2] - f[10])
    else if p == 5 then 256 * (f[0] - f[8] - f[2] + f[10])
    else if p == 6 then 4 * (40 * f[4] - 31 * f[6] + 88 * f[14] - 79 * f[12])
    else if p == 7 then 4 * (40 * f[4] + 31 * f[6] - 88 * f[14] - 79 * f[12])
    else if p == 8 then 4 * (88 * f[1] - 79 * f[9] - 40 * f[11] + 31 * f[3])
    else if p == 9 then 4 * (40 * f[1] - 31 * f[9] + 88 * f[11] - 79 * f[3])
    else if p == 10 then 440 * f[15] - 165 * f[13] - 165 * f[7] + 72 * f[5]
    else if p == 11 then 8 * (-24 * f[15] - 55 * f[13] + 9 * f[7] + 24 * f[5])
    else if p == 12 then 4 * (88 * f[1] + 79 * f[9] + 40 * f[11] + 31 * f[3])
    else if p == 13 then 4 * (40 * f[1] + 31 * f[9] - 88 * f[11] - 79 * f[3])
    else if p == 14 then 8 * (-24 * f[15] + 9 * f[13] - 55 * f[7] + 24 * f[5])
    else 72 * f[15] + 165 * f[13] + 165 * f[7] + 440 * f[5]
  }

  lemma Sample00(f: seq<int>)
    requires |f| == 16
    ensures Synthesis(f, 0, 0) == First(f, 0) + First(f, 3) + First(f, 12) + First(f, 15)
  {}

  lemma Sample01(f: seq<int>)
    requires |f| == 16
    ensures Synthesis(f, 0, 1) == First(f, 1) + First(f, 2) + First(f, 13) + First(f, 14)
  {}

  lemma Sample02(f: seq<int>)
    requires |f| == 16
    ensures Synthesis(f, 0, 2) == First(f, 1) + First(f, 2) - First(f, 13) - First(f, 14)
  {}

  lemma Sample03(f: seq<int>)
    requires |f| == 16
    ensures Synthesis(f, 0, 3) == First(f, 0) + First(f, 3) - First(f, 12) - First(f, 15)
  {}

  lemma Sample10(f: seq<int>)
    requires |f| == 16
    ensures Synthesis(f, 1, 0) == First(f, 4) + First(f, 7) + First(f, 8) + First(f, 11)
  {}

  lemma Sample11(f: seq<int>)
    requires |f| == 16
    ensures Synthesis(f, 1, 1) == First(f, 5) + First(f, 6) + First(f, 9) + First(f, 10)
  {}

  lemma Sample12(f: seq<int>)
    requires |f| == 16
    ensures Synthesis(f, 1, 2) == First(f, 5) + First(f, 6) - First(f, 9) - First(f, 10)
  {}

  lemma Sample13(f: seq<int>)
    requires |f| == 16
    ensures Synthesis(f, 1, 3) == First(f, 4) + First(f, 7) - First(f, 8) - First(f, 11)
  {}

  lemma Sample20(f: seq<int>)
    requires |f| == 16
    ensures Synthesis(f, 2, 0) == First(f, 4) - First(f, 7) + First(f, 8) - First(f, 11)
  {}

  lemma Sample21(f: seq<int>)
    requires |f| == 16
    ensures Synthesis(f, 2, 1) == First(f, 5) - First(f, 6) + First(f, 9) - First(f, 10)
  {}

  lemma Sample22(f: seq<int>)
    requires |f| == 16
    ensures Synthesis(f, 2, 2) == First(f, 5) - First(f, 6) - First(f, 9) + First(f, 10)
  {}

  lemma Sample23(f: seq<int>)
    requires |f| == 16
    ensures Synthesis(f, 2, 3) == First(f, 4) - First(f, 7) - First(f, 8) + First(f, 11)
  {}

  lemma Sample30(f: seq<int>)
    requires |f| == 16
    ensures Synthesis(f, 3, 0) == First(f, 0) - First(f, 3) + First(f, 12) - First(f, 15)
  {}

  lemma Sample31(f: seq<int>)
    requires |f| == 16
    ensures Synthesis(f, 3, 1) == First(f, 1) - First(f, 2) + First(f, 13) - First(f, 14)
  {}

  lemma Sample32(f: seq<int>)
    requires |f| == 16
    ensures Synthesis(f, 3, 2) == First(f, 1) - First(f, 2) - First(f, 13) + First(f, 14)
  {}

  lemma Sample33(f: seq<int>)
    requires |f| == 16
    ensures Synthesis(f, 3, 3) == First(f, 0) - First(f, 3) - First(f, 12) + First(f, 15)
  {}

  /** The first groups leave their linear parts, but for the roundings. */
  ghost predicate FirstNear(f: seq<int>, y: seq<int>)
    requires |f| == |y| == 16
  {
    && Near(y[0], 512, First(f, 0), -256, 0) && Near(y[1], 512, First(f, 1), 0, 256)
    && Near(y[4], 512, First(f, 4), 0, 256) && Near(y[5], 512, First(f, 5), 0, 256)
    && Near(y[2], 512, First(f, 2), -672, 740) && Near(y[3], 512, First(f, 3), -752, 612)
    && Near(y[6], 512, First(f, 6), -772, 592) && Near(y[7], 512, First(f, 7), -772, 640)
    && Near(y[8], 512, First(f, 8), -672, 740) && Near(y[12], 512, First(f, 12), -752, 612)
    && Near(y[9], 512, First(f, 9), -772, 592) && Near(y[13], 512, First(f, 13), -772, 640)
    && Near(y[10], 512, First(f, 10), -794, 725) && Near(y[11], 512, First(f, 11), -1024, 328)
    && Near(y[14], 512, First(f, 14), -1024, 328) && Near(y[15], 512, First(f, 15), -725, 794)
  }

  lemma FirstsNear(f: seq<int>, y: seq<int>)
    requires |f| == |y| == 16 && Hadamards(f, y) && Rotations(f, y) && OddRotation(f, y)
    ensures FirstNear(f, y)
  {}

  /** Within three of the synthesis. */
  ghost predicate Follows(s: seq<int>, f: seq<int>, row: nat, column: nat)
    requires |s| == |f| == 16 && row < 4 && column < 4
  {
    Near(s[4 * row + column], 1024, Synthesis(f, row, column), -2926, 2792)
  }

  lemma OuterFollow(f: seq<int>, y: seq<int>, s: seq<int>)
    requires |f| == |y| == |s| == 16 && FirstNear(f, y) && Closed(y, s, 0, 3, 12, 15)
    ensures Follows(s, f, 0, 0) && Follows(s, f, 0, 3) && Follows(s, f, 3, 0) && Follows(s, f, 3, 3)
  {
    hide Synthesis, First;
    Sample00(f);
    Sample03(f);
    Sample30(f);
    Sample33(f);
  }

  lemma InnerFollow(f: seq<int>, y: seq<int>, s: seq<int>)
    requires |f| == |y| == |s| == 16 && FirstNear(f, y) && Closed(y, s, 5, 6, 9, 10)
    ensures Follows(s, f, 1, 1) && Follows(s, f, 1, 2) && Follows(s, f, 2, 1) && Follows(s, f, 2, 2)
  {
    hide Synthesis, First;
    Sample11(f);
    Sample12(f);
    Sample21(f);
    Sample22(f);
  }

  lemma TopFollow(f: seq<int>, y: seq<int>, s: seq<int>)
    requires |f| == |y| == |s| == 16 && FirstNear(f, y) && Closed(y, s, 1, 2, 13, 14)
    ensures Follows(s, f, 0, 1) && Follows(s, f, 0, 2) && Follows(s, f, 3, 1) && Follows(s, f, 3, 2)
  {
    hide Synthesis, First;
    Sample01(f);
    Sample02(f);
    Sample31(f);
    Sample32(f);
  }

  lemma SideFollow(f: seq<int>, y: seq<int>, s: seq<int>)
    requires |f| == |y| == |s| == 16 && FirstNear(f, y) && Closed(y, s, 4, 7, 8, 11)
    ensures Follows(s, f, 1, 0) && Follows(s, f, 1, 3) && Follows(s, f, 2, 0) && Follows(s, f, 2, 3)
  {
    hide Synthesis, First;
    Sample10(f);
    Sample13(f);
    Sample20(f);
    Sample23(f);
  }

  /** The sixteen samples of a block follow a spectrum. */
  ghost predicate AllFollow(s: seq<int>, f: seq<int>) {
    |s| == |f| == 16 && forall row: nat, column: nat :: row < 4 && column < 4 ==> Follows(s, f, row, column)
  }

  lemma GroupsFollow(f: seq<int>, y: seq<int>, s: seq<int>)
    requires |f| == |y| == |s| == 16 && FirstNear(f, y)
    requires Closed(y, s, 0, 3, 12, 15) && Closed(y, s, 5, 6, 9, 10) && Closed(y, s, 1, 2, 13, 14) && Closed(y, s, 4, 7, 8, 11)
    ensures AllFollow(s, f)
  {
    hide FirstNear, Closed, Follows;
    OuterFollow(f, y, s);
    InnerFollow(f, y, s);
    TopFollow(f, y, s);
    SideFollow(f, y, s);
    forall row: nat, column: nat | row < 4 && column < 4
      ensures Follows(s, f, row, column)
    {}
  }

  /** The core transform of a block that has been permuted. */
  lemma StepsFollow(before: seq<int>, f: seq<int>)
    requires Holds(before, f) && ValidSteps(CORE_STEPS)
    ensures AllFollow(RunSteps(CORE_STEPS, before), f)
  {
    hide RunSteps, FirstNear, Closed, Hadamards, Rotations, OddRotation, AllFollow, ApartSteps, ValidStep, INVERSE_PERMUTATION;
    var steps, first, last := CORE_STEPS, CORE_STEPS[..4], CORE_STEPS[4..];
    FirstApart(first);
    LastApart(last);
    assert steps == first + last;
    var y := RunSteps(first, before);
    RunConcat(first, last, before);
    hide CORE_STEPS;
    FirstGroups(before, f, first, y);
    LastGroups(y, RunSteps(last, y), last);
    FirstsNear(f, y);
    GroupsFollow(f, y, RunSteps(last, y));
  }

  /** The frequencies of a block's coefficients, as the table assigns them. */
  ghost predicate Spectrum(table: seq<nat>, block: seq<int>, f: seq<int>) {
    && |table| == |block| == |f| == 16
    && forall m, k :: 0 <= m < 16 && 0 <= k < 16 && table[m] == INVERSE_PERMUTATION[k] ==> f[k] == block[m]
  }

  lemma SpectrumHolds(table: seq<nat>, block: seq<int>, f: seq<int>)
    requires IsPermutation(table) && Spectrum(table, block, f)
    ensures Holds(Permute(table, block), f)
  {
    InversePermutationValid();
    hide INVERSE_PERMUTATION, Scatter;
    forall k | 0 <= k < 16
      ensures f[k] == Permute(table, block)[INVERSE_PERMUTATION[k]]
    {
      AllReached(table, 16, INVERSE_PERMUTATION[k]);
      var m :| 0 <= m < 16 && table[m] == INVERSE_PERMUTATION[k];
      ScatterStores(block, table, block);
    }
  }

  /** Every sample of the core transform lies within three of the synthesis of the block's frequencies. */
  lemma CoreFollows(table: seq<nat>, block: seq<int>, f: seq<int>)
    requires IsPermutation(table) && Spectrum(table, block, f)
    ensures AllFollow(CoreTransform(table, block), f)
  {
    CoreStepsValid();
    SpectrumHolds(table, block, f);
    hide RunSteps, AllFollow, ValidStep, CORE_STEPS, IsPermutation, Spectrum, Holds, Permute;
    StepsFollow(Permute(table, block), f);
  }

  /** With the repository's table the coefficients come frequency by frequency, row by row. */
  lemma ShippedFollows(block: seq<int>)
    requires |block| == 16
    ensures IsPermutation(INVERSE_PERMUTATION) && AllFollow(CoreTransform(INVERSE_PERMUTATION, block), block)
  {
    InversePermutationValid();
    hide INVERSE_PERMUTATION, AllFollow, CoreTransform;
    CoreFollows(INVERSE_PERMUTATION, block, block);
  }
}
