/** Blocks that stay simple: zeros stay zero under every operator, and a DC coefficient alone gives a uniform block. */
module Uniform {
  import opened Arithmetic
  import opened Memory
  import opened Operators
  import opened Blocks

  // ---- Zeros ----

  function Zeros(n: nat): (z: seq<int>)
    ensures |z| == n && forall k :: 0 <= k < n ==> z[k] == 0
  {
    seq(n, _ => 0)
  }

  lemma ZeroSteps(zero: int, multiplier: nat, bias: nat, bits: nat)
    requires zero == 0 && bias < Power2(bits)
    ensures Lift(zero, zero, multiplier, bias, bits) == 0 && Lower(zero, zero, multiplier, bias, bits) == 0
    ensures Flip(zero, zero, multiplier, bias, bits) == 0
  {
    assert zero * multiplier == 0;
    DivisionUnique(bias, Power2(bits), 0, bias);
  }

  lemma ZeroLifts()
    ensures forall m: nat, bias: nat, bits: nat :: bias < Power2(bits) ==> Lift(0, 0, m, bias, bits) == 0
    ensures forall m: nat, bias: nat, bits: nat :: bias < Power2(bits) ==> Lower(0, 0, m, bias, bits) == 0
    ensures forall m: nat, bias: nat, bits: nat :: bias < Power2(bits) ==> Flip(0, 0, m, bias, bits) == 0
  {
    hide Lift, Lower, Flip;
    forall m: nat, bias: nat, bits: nat | bias < Power2(bits)
      ensures Lift(0, 0, m, bias, bits) == 0
    {
      ZeroSteps(0, m, bias, bits);
    }
    forall m: nat, bias: nat, bits: nat | bias < Power2(bits)
      ensures Lower(0, 0, m, bias, bits) == 0
    {
      ZeroSteps(0, m, bias, bits);
    }
    forall m: nat, bias: nat, bits: nat | bias < Power2(bits)
      ensures Flip(0, 0, m, bias, bits) == 0
    {
      ZeroSteps(0, m, bias, bits);
    }
  }

  /** Every operator keeps zeros, without overflow. */
  lemma ZeroKept(op: Operator, v: seq<int>)
    requires (op.Hadamard? ==> op.rounding <= 1) && v == Zeros(op.Arity())
    ensures op.Inverse(v) == v && Fits(op, v)
  {
    hide Lift, Lower, Flip;
    ZeroLifts();
  }

  /** So does every list of operators on groups of a block, and with it the 4-by-4 filter. */
  lemma {:induction false} ZeroRun(steps: seq<Step>, block: seq<int>)
    requires ValidSteps(steps) && block == Zeros(16)
    ensures RunSteps(steps, block) == block && RunFits(steps, block)
  {
    if steps != [] {
      var init, last := steps[..|steps| - 1], steps[|steps| - 1];
      ZeroRun(init, block);
      var v := Gather(block, last.at);
      assert v == Zeros(last.op.Arity());
      ZeroKept(last.op, v);
      GatherScatter(block, last.at, v);
    }
  }

  // ---- Blocks with a DC coefficient only ----

  lemma SmallShifts()
    ensures forall v: int :: ShiftRight(v, 1) == v / 2
    ensures forall v: int :: ShiftRight(v, 2) == v / 4
    ensures forall v: int :: ShiftRight(v, 3) == v / 8
  {
    assert Power2(1) == 2 && Power2(2) == 4 && Power2(3) == 8;
  }

  /** A DC value spread over four places: with rounding the first gets the smaller half, without it the larger. */
  lemma Spread(v: seq<int>)
    requires |v| == 4 && v[1] == 0 && v[2] == 0 && v[3] == 0
    ensures T2x2h(v, 1) == [v[0] / 2, v[0] - v[0] / 2, v[0] - v[0] / 2, v[0] - v[0] / 2]
    ensures T2x2h(v, 0) == [v[0] - v[0] / 2, v[0] / 2, v[0] / 2, v[0] / 2]
  {
    hide ShiftRight;
    SmallShifts();
  }

  lemma PermutedTo(table: seq<nat>, block: seq<int>, after: seq<int>)
    requires IsPermutation(table) && |block| == |after| == 16
    requires forall i :: 0 <= i < 16 ==> after[table[i]] == block[i]
    ensures Permute(table, block) == after
  {
    hide Permute;
    PermuteReversible(table, after);
    assert Unpermute(table, after) == block;
  }

  /** One step on four places, checked place by place. */
  lemma StepLeaves(step: Step, block: seq<int>, after: seq<int>)
    requires ValidStep(step) && |step.at| == 4 && |block| == |after| == 16
    requires step.op.Inverse(Gather(block, step.at)) == Gather(after, step.at)
    requires forall i: nat :: i < 16 && i !in step.at ==> after[i] == block[i]
    ensures Stepped(step, block) == after
  {
    var w := Gather(after, step.at);
    ScatterStores(block, step.at, w);
    forall i: nat | i < 16
      ensures Scatter(block, step.at, w)[i] == after[i]
    {
      if i in step.at {
        var k :| 0 <= k < 4 && step.at[k] == i;
      }
    }
  }

  lemma GroupLeaves(step: Step, block: seq<int>, after: seq<int>, v: seq<int>, w: seq<int>)
    requires ValidStep(step) && |step.at| == |v| == |w| == 4 && |block| == |after| == 16 && step.op.Arity() == 4
    requires forall k :: 0 <= k < 4 ==> block[step.at[k]] == v[k] && after[step.at[k]] == w[k]
    requires step.op.Inverse(v) == w
    requires forall i: nat :: i < 16 && i !in step.at ==> after[i] == block[i]
    ensures Stepped(step, block) == after
  {
    hide Operator.Inverse;
    assert Gather(block, step.at) == v && Gather(after, step.at) == w;
    StepLeaves(step, block, after);
  }

  /** A block whose only coefficient is `d` at the DC position, after `k` operators. */
  function DcStage(k: nat, d: int): (block: seq<int>)
    ensures |block| == 16 && forall i :: 0 <= i < 16 ==> block[i] == DcAt(k, d, i)
  {
    seq(16, i requires 0 <= i < 16 => DcAt(k, d, i))
  }

  /** The first position of the last operator's group that holds position `i`. */
  function Leader(i: nat): nat {
    if i == 0 || i == 3 || i == 12 || i == 15 then 0
    else if i == 5 || i == 6 || i == 9 || i == 10 then 5
    else if i == 1 || i == 2 || i == 13 || i == 14 then 1
    else 4
  }

  /** The number of operators after which the group led by `leader` has its final values. */
  function FinalAfter(leader: nat): nat {
    if leader == 0 then 5 else if leader == 5 then 6 else if leader == 1 then 7 else 8
  }

  /** What the first operator leaves at one of its four positions. */
  function Share(d: int, leader: nat): int {
    if leader == 0 then d / 2 else d - d / 2
  }

  function DcAt(k: nat, d: int, i: nat): int {
    if k == 0 then if i == 0 then d else 0
    else
      var q := Share(d, Leader(i));
      if k < FinalAfter(Leader(i)) then if i == Leader(i) then q else 0
      else if i == Leader(i) then q - q / 2 else q / 2
  }

  lemma DcFirst(d: int)
    ensures ValidStep(CORE_STEPS[0]) && Stepped(CORE_STEPS[0], DcStage(0, d)) == DcStage(1, d)
  {
    CoreStepsValid();
    hide InverseTodd, InverseToddOdd, T2x2h, Scatter, DcStage;
    Spread([d, 0, 0, 0]);
    GroupLeaves(CORE_STEPS[0], DcStage(0, d), DcStage(1, d), [d, 0, 0, 0], [d / 2, d - d / 2, d - d / 2, d - d / 2]);
  }

  lemma DcQuietValues(k: nat, d: int)
    requires 1 <= k < 4
    ensures var at := CORE_STEPS[k].at;
      && |at| == 4 && CORE_STEPS[k].op.Arity() == 4 && !CORE_STEPS[k].op.Hadamard?
      && (forall j :: 0 <= j < 4 ==> DcAt(k, d, at[j]) == 0)
      && forall i: nat :: i < 16 ==> DcAt(k + 1, d, i) == DcAt(k, d, i)
  {
    hide Share;
  }

  /** The rotations find zeros only. */
  lemma DcQuiet(k: nat, d: int)
    requires 1 <= k < 4
    ensures ValidStep(CORE_STEPS[k]) && Stepped(CORE_STEPS[k], DcStage(k, d)) == DcStage(k + 1, d)
  {
    CoreStepsValid();
    DcQuietValues(k, d);
    hide Operator.Inverse, Scatter, DcStage, DcAt, CORE_STEPS;
    ZeroKept(CORE_STEPS[k].op, Zeros(4));
    GroupLeaves(CORE_STEPS[k], DcStage(k, d), DcStage(k + 1, d), Zeros(4), Zeros(4));
  }

  lemma DcLateValues(k: nat, d: int)
    requires 4 <= k < 8
    ensures var at := CORE_STEPS[k].at; var q := Share(d, at[0]);
      && |at| == 4 && CORE_STEPS[k].op == Hadamard(0)
      && (forall j :: 0 <= j < 4 ==> DcAt(k, d, at[j]) == (if j == 0 then q else 0))
      && (forall j :: 0 <= j < 4 ==> DcAt(k + 1, d, at[j]) == (if j == 0 then q - q / 2 else q / 2))
      && forall i: nat :: i < 16 && i !in at ==> DcAt(k + 1, d, i) == DcAt(k, d, i)
  {
    hide Share;
  }

  lemma DcLate(k: nat, d: int)
    requires 4 <= k < 8
    ensures ValidStep(CORE_STEPS[k]) && Stepped(CORE_STEPS[k], DcStage(k, d)) == DcStage(k + 1, d)
  {
    CoreStepsValid();
    DcLateValues(k, d);
    hide T2x2h, Scatter, DcStage, DcAt, CORE_STEPS, Share;
    var q := Share(d, CORE_STEPS[k].at[0]);
    Spread([q, 0, 0, 0]);
    GroupLeaves(CORE_STEPS[k], DcStage(k, d), DcStage(k + 1, d), [q, 0, 0, 0], [q - q / 2, q / 2, q / 2, q / 2]);
  }

  lemma {:induction false} DcReached(steps: seq<Step>, d: int, k: nat)
    requires steps == CORE_STEPS && |steps| == 8 && k <= 8
    ensures ValidSteps(steps[..k]) && RunSteps(steps[..k], DcStage(0, d)) == DcStage(k, d)
  {
    hide CORE_STEPS, ValidStep, Stepped, DcStage;
    CoreStepsValid();
    if k > 0 {
      DcReached(steps, d, k - 1);
      if k == 1 {
        DcFirst(d);
      } else if k <= 4 {
        DcQuiet(k - 1, d);
      } else {
        DcLate(k - 1, d);
      }
      assert steps[..k][..k - 1] == steps[..k - 1];
    }
  }

  lemma DcPermuted(table: seq<nat>, block: seq<int>)
    requires IsPermutation(table) && table[0] == 0 && |block| == 16 && forall i :: 0 < i < 16 ==> block[i] == 0
    ensures Permute(table, block) == block
  {
    PermutedTo(table, block, block);
  }

  ghost predicate Uniform(block: seq<int>) {
    forall i, j :: 0 <= i < |block| && 0 <= j < |block| ==> block[i] == block[j]
  }

  lemma DcShares(d: int)
    ensures Uniform(DcStage(8, d)) <==> d % 4 == 0
    ensures d % 4 == 0 ==> forall i :: 0 <= i < 16 ==> DcStage(8, d)[i] == d / 4
  {
    var block := DcStage(8, d);
    assert block[0] == d / 2 - d / 2 / 2 && block[3] == d / 2 / 2;
    assert block[1] == d - d / 2 - (d - d / 2) / 2;
  }

  /**
   A block with a DC coefficient only is uniform after the core transform exactly when the coefficient is
   divisible by four, and then every sample is its quarter.
   */
  lemma DcUniform(table: seq<nat>, block: seq<int>)
    requires IsPermutation(table) && table[0] == 0
    requires |block| == 16 && forall i :: 0 < i < 16 ==> block[i] == 0
    ensures Uniform(CoreTransform(table, block)) <==> block[0] % 4 == 0
    ensures block[0] % 4 == 0 ==> forall i :: 0 <= i < 16 ==> CoreTransform(table, block)[i] == block[0] / 4
  {
    var d := block[0];
    DcPermuted(table, block);
    assert block == DcStage(0, d);
    DcReached(CORE_STEPS, d, 8);
    assert CORE_STEPS[..8] == CORE_STEPS;
    DcShares(d);
    hide Permute, RunSteps, IsPermutation, Uniform, DcAt;
  }
}
