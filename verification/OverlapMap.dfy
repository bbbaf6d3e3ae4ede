/**
 What the 4-by-4 overlap filter computes: on sums and differences of mirrored samples it lies within a fixed distance of
 a linear map that keeps the four symmetries apart, but for a few millionths.
 */
module OverlapMap {
  import opened Memory
  import opened Operators
  import opened Blocks
  import opened LinearLaws
  import opened CoreMap

  /**
   A sample of the upper left quarter with its mirror images across and down, added or, where `across` or `down` is
   minus one, taken away.
   */
  function Mirrored(v: seq<int>, row: nat, column: nat, down: int, across: int): int
    requires |v| == 16 && row < 2 && column < 2
  {
    v[4 * row + column] + across * v[4 * row + 3 - column]
    + down * (v[4 * (3 - row) + column] + across * v[4 * (3 - row) + 3 - column])
  }

  // ---- The five stages ----

  lemma GroupOfTwo(steps: seq<Step>, block: seq<int>, k: nat, v: seq<int>)
    requires ValidSteps(steps) && ApartSteps(steps) && |block| == 16 && k < |steps| && |steps[k].at| == 2
    requires v == [block[steps[k].at[0]], block[steps[k].at[1]]]
    ensures var at, after, w := steps[k].at, RunSteps(steps, block), steps[k].op.Inverse(v);
      after[at[0]] == w[0] && after[at[1]] == w[1]
  {
    hide Operator.Inverse, RunSteps;
    var at := steps[k].at;
    GroupResult(steps, block, k);
    assert Gather(block, at) == v;
    var after := Gather(RunSteps(steps, block), at);
    assert after[0] == RunSteps(steps, block)[at[0]];
  }

  /** The Hadamard operator on four mirrored samples. */
  ghost predicate Opened(v: seq<int>, a: seq<int>, row: nat, column: nat)
    requires |v| == |a| == 16 && row < 2 && column < 2
  {
    && Near(a[4 * row + column], 2, Mirrored(v, row, column, 1, 1), 0, 1)
    && Near(a[4 * row + 3 - column], 2, Mirrored(v, row, column, -1, 1), -1, 0)
    && Near(a[4 * (3 - row) + column], 2, Mirrored(v, row, column, 1, -1), -1, 0)
    && Near(a[4 * (3 - row) + 3 - column], 2, Mirrored(v, row, column, -1, -1), -1, 0)
  }

  ghost predicate Rotated(a: seq<int>, b: seq<int>, i: nat, j: nat)
    requires |a| == |b| == 16 && i < 16 && j < 16
  {
    Near(b[i], 2, 2 * a[i] - a[j], -1, 0) && Near(b[j], 4, 2 * a[i] + 3 * a[j], -1, 2)
  }

  ghost predicate OddTurned(b: seq<int>, c: seq<int>)
    requires |b| == |c| == 16
  {
    && Near(c[10], 512, 440 * b[10] - 165 * b[11] - 165 * b[14] + 72 * b[15], -884, 635)
    && Near(c[11], 64, 24 * b[10] + 55 * b[11] - 9 * b[14] - 24 * b[15], -75, 94)
    && Near(c[14], 64, 24 * b[10] - 9 * b[11] + 55 * b[14] - 24 * b[15], -75, 94)
    && Near(c[15], 512, 72 * b[10] + 165 * b[11] + 165 * b[14] + 440 * b[15], -635, 884)
  }

  ghost predicate Rescaled(c: seq<int>, d: seq<int>, i: nat, j: nat)
    requires |c| == |d| == 16 && i < 16 && j < 16
  {
    Near(d[i], 16, 19 * c[i] + 13 * c[j], -17, 0) && Near(d[j], 16384, 11973 * c[i] - 5605 * c[j], -43191, 16368)
  }

  ghost predicate Shut(d: seq<int>, w: seq<int>, row: nat, column: nat)
    requires |d| == |w| == 16 && row < 2 && column < 2
  {
    var p, q, r, s := d[4 * row + column], d[4 * row + 3 - column], d[4 * (3 - row) + column], d[4 * (3 - row) + 3 - column];
    && Near(w[4 * row + column], 16, 8 * p + 8 * q + 8 * r + 3 * s, -3, 12)
    && Near(w[4 * row + 3 - column], 2, q - r + 2 * s, 0, 1)
    && Near(w[4 * (3 - row) + column], 2, r - q + 2 * s, 0, 1)
    && Near(w[4 * (3 - row) + 3 - column], 16, 8 * p - 8 * q - 8 * r + 3 * s, -11, 4)
  }

  // ---- The map ----

  /** The antisymmetric parts, turned against each other, in 512ths. */
  function OddPart(v: seq<int>, row: nat, column: nat): int
    requires |v| == 16 && row < 2 && column < 2
  {
    var a, b, c, d := Mirrored(v, 0, 0, -1, -1), Mirrored(v, 0, 1, -1, -1), Mirrored(v, 1, 0, -1, -1), Mirrored(v, 1, 1, -1, -1);
    if row == 0 then if column == 0 then 440 * a + 165 * b + 165 * c + 72 * d else -192 * a + 440 * b - 72 * c + 192 * d
    else if column == 0 then -192 * a - 72 * b + 440 * c + 192 * d else 72 * a - 165 * b - 165 * c + 440 * d
  }

  /** The parts that are odd down or across only, turned: the outer sample gives way to the inner one. */
  function TurnedPart(outer: int, inner: int, isInner: bool): int {
    if isInner then 4 * inner - 2 * outer else 3 * outer + 2 * inner
  }

  /** The part that is even both ways grows by 383135/262144, the odd part shrinks and turns, the mixed parts turn. */
  ghost predicate MirroredLaw(v: seq<int>, w: seq<int>, row: nat, column: nat)
    requires |v| == |w| == 16 && row < 2 && column < 2
  {
    && EvenLaw(v, w, row, column)
    && Near(Mirrored(w, row, column, -1, 1), 4,
            TurnedPart(Mirrored(v, 0, column, -1, 1), Mirrored(v, 1, column, -1, 1), row == 1), -12, 16)
    && Near(Mirrored(w, row, column, 1, -1), 4,
            TurnedPart(Mirrored(v, row, 0, 1, -1), Mirrored(v, row, 1, 1, -1), column == 1), -12, 16)
  }

  ghost predicate EvenLaw(v: seq<int>, w: seq<int>, row: nat, column: nat)
    requires |v| == |w| == 16 && row < 2 && column < 2
  {
    && Near(Mirrored(w, row, column, 1, 1), 0x800_0000, 196165120 * Mirrored(v, row, column, 1, 1) + OddPart(v, row, column),
            -1100373224, 783058152)
    && Near(Mirrored(w, row, column, -1, -1), 0x800_0000,
            179361 * OddPart(v, row, column) - 512 * Mirrored(v, row, column, 1, 1), -1021098984, 1026286568)
  }

  // ---- From stage to stage ----

  /** The odd parts after their rotation. */
  ghost predicate OddNear(v: seq<int>, c: seq<int>)
    requires |v| == |c| == 16
  {
    && Near(c[15], 1024, OddPart(v, 0, 0), -2112, 1768) && Near(c[14], 1024, OddPart(v, 0, 1), -1832, 1768)
    && Near(c[11], 1024, OddPart(v, 1, 0), -1832, 1768) && Near(c[10], 1024, OddPart(v, 1, 1), -2280, 1600)
  }

  lemma OddTurnedNear(v: seq<int>, a: seq<int>, c: seq<int>)
    requires |v| == |a| == |c| == 16 && OddTurned(a, c)
    requires Near(a[15], 2, Mirrored(v, 0, 0, -1, -1), -1, 0) && Near(a[14], 2, Mirrored(v, 0, 1, -1, -1), -1, 0)
    requires Near(a[11], 2, Mirrored(v, 1, 0, -1, -1), -1, 0) && Near(a[10], 2, Mirrored(v, 1, 1, -1, -1), -1, 0)
    ensures OddNear(v, c)
  {
    hide Mirrored;
  }

  /** What the last Hadamard step makes of the four parts. */
  lemma ClosingSums(s: int, x: int, q: int, r: int, w0: int, w1: int, w2: int, w3: int)
    requires Near(w0, 16, 8 * s + 8 * q + 8 * r + 3 * x, -3, 12) && Near(w1, 2, q - r + 2 * x, 0, 1)
    requires Near(w2, 2, r - q + 2 * x, 0, 1) && Near(w3, 16, 8 * s - 8 * q - 8 * r + 3 * x, -11, 4)
    ensures Near(w0 + w1 + (w2 + w3), 16, 16 * s + 38 * x, -14, 32) && Near(w0 - w1 - (w2 - w3), 16, 16 * s - 26 * x, -30, 16)
    ensures Near(w0 + w1 - (w2 + w3), 16, 32 * q, -15, 31) && Near(w0 - w1 + (w2 - w3), 16, 32 * r, -15, 31)
  {}

  /** What the scaling makes of the even and the odd part. */
  lemma ScaledSums(p: int, t: int, e: int, o: int, s: int, x: int)
    requires Near(e, 2, p, 0, 1) && Near(o, 1024, t, -2280, 1768)
    requires Near(s, 16, 19 * e + 13 * o, -17, 0) && Near(x, 16384, 11973 * e - 5605 * o, -43191, 16368)
    ensures Near(16 * s + 38 * x, 0x80_0000, 196165120 * p + t, -982932712, 514622696)
    ensures Near(16 * s - 26 * x, 0x80_0000, 179361 * t - 512 * p, -769440744, 892068840)
  {}

  /** The values that reach the last step in one group of mirrored samples, but for the closing step itself. */
  lemma EvenFollows(v: seq<int>, a: seq<int>, o: int, d: seq<int>, w: seq<int>, row: nat, column: nat)
    requires |v| == |a| == |d| == |w| == 16 && row < 2 && column < 2 && Shut(d, w, row, column)
    requires Near(a[4 * row + column], 2, Mirrored(v, row, column, 1, 1), 0, 1)
    requires Near(o, 1024, OddPart(v, row, column), -2280, 1768)
    requires Near(d[4 * row + column], 16, 19 * a[4 * row + column] + 13 * o, -17, 0)
    requires Near(d[4 * (3 - row) + 3 - column], 16384, 11973 * a[4 * row + column] - 5605 * o, -43191, 16368)
    ensures EvenLaw(v, w, row, column)
  {
    hide OddPart;
    var e, s, x := a[4 * row + column], d[4 * row + column], d[4 * (3 - row) + 3 - column];
    var q, r := d[4 * row + 3 - column], d[4 * (3 - row) + column];
    var p, t := Mirrored(v, row, column, 1, 1), OddPart(v, row, column);
    ScaledSums(p, t, e, o, s, x);
    var w0, w1, w2, w3 := w[4 * row + column], w[4 * row + 3 - column], w[4 * (3 - row) + column], w[4 * (3 - row) + 3 - column];
    ClosingSums(s, x, q, r, w0, w1, w2, w3);
    MirroredIs(w, row, column);
  }

  lemma MirroredIs(w: seq<int>, row: nat, column: nat)
    requires |w| == 16 && row < 2 && column < 2
    ensures var w0, w1, w2, w3 := w[4 * row + column], w[4 * row + 3 - column], w[4 * (3 - row) + column], w[4 * (3 - row) + 3 - column];
      && Mirrored(w, row, column, 1, 1) == w0 + w1 + (w2 + w3) && Mirrored(w, row, column, -1, -1) == w0 - w1 - (w2 - w3)
      && Mirrored(w, row, column, -1, 1) == w0 + w1 - (w2 + w3) && Mirrored(w, row, column, 1, -1) == w0 - w1 + (w2 - w3)
  {}

  /** The parts that are odd one way only. */
  lemma MixedFollows(d: seq<int>, w: seq<int>, row: nat, column: nat, down: int, across: int)
    requires |d| == |w| == 16 && row < 2 && column < 2 && Shut(d, w, row, column)
    requires Near(d[4 * row + 3 - column], 8, down, -8, 8) && Near(d[4 * (3 - row) + column], 8, across, -8, 8)
    ensures Near(Mirrored(w, row, column, -1, 1), 4, down, -12, 16) && Near(Mirrored(w, row, column, 1, -1), 4, across, -12, 16)
  {
    var s, x := d[4 * row + column], d[4 * (3 - row) + 3 - column];
    var q, r := d[4 * row + 3 - column], d[4 * (3 - row) + column];
    var w0, w1, w2, w3 := w[4 * row + column], w[4 * row + 3 - column], w[4 * (3 - row) + column], w[4 * (3 - row) + 3 - column];
    ClosingSums(s, x, q, r, w0, w1, w2, w3);
    MirroredIs(w, row, column);
  }

  /** What a rotation makes of the parts of an outer and an inner sample. */
  lemma RotatedParts(a: seq<int>, b: seq<int>, i: nat, j: nat, inner: int, outer: int)
    requires |a| == |b| == 16 && i < 16 && j < 16 && Rotated(a, b, i, j)
    requires Near(a[i], 2, inner, -1, 0) && Near(a[j], 2, outer, -1, 0)
    ensures Near(b[i], 8, TurnedPart(outer, inner, true), -8, 2) && Near(b[j], 8, TurnedPart(outer, inner, false), -7, 4)
  {}

  // ---- The steps ----

  ghost predicate AllOpened(v: seq<int>, a: seq<int>) {
    && |v| == |a| == 16
    && Opened(v, a, 0, 0) && Opened(v, a, 0, 1) && Opened(v, a, 1, 0) && Opened(v, a, 1, 1)
  }

  ghost predicate AllRotated(a: seq<int>, b: seq<int>) {
    && |a| == |b| == 16
    && Rotated(a, b, 13, 12) && Rotated(a, b, 9, 8) && Rotated(a, b, 7, 3) && Rotated(a, b, 6, 2)
    && b[0] == a[0] && b[1] == a[1] && b[4] == a[4] && b[5] == a[5]
    && b[10] == a[10] && b[11] == a[11] && b[14] == a[14] && b[15] == a[15]
  }

  ghost predicate OddsTurned(b: seq<int>, c: seq<int>) {
    |b| == |c| == 16 && OddTurned(b, c) && c[..10] == b[..10] && c[12] == b[12] && c[13] == b[13]
  }

  ghost predicate AllRescaled(c: seq<int>, d: seq<int>) {
    && |c| == |d| == 16
    && Rescaled(c, d, 0, 15) && Rescaled(c, d, 1, 14) && Rescaled(c, d, 4, 11) && Rescaled(c, d, 5, 10)
    && d[2] == c[2] && d[3] == c[3] && d[6] == c[6] && d[7] == c[7]
    && d[8] == c[8] && d[9] == c[9] && d[12] == c[12] && d[13] == c[13]
  }

  ghost predicate AllShut(d: seq<int>, w: seq<int>) {
    && |d| == |w| == 16
    && Shut(d, w, 0, 0) && Shut(d, w, 0, 1) && Shut(d, w, 1, 0) && Shut(d, w, 1, 1)
  }

  ghost predicate AllMirrored(v: seq<int>, w: seq<int>) {
    && |v| == |w| == 16
    && MirroredLaw(v, w, 0, 0) && MirroredLaw(v, w, 0, 1) && MirroredLaw(v, w, 1, 0) && MirroredLaw(v, w, 1, 1)
  }

  lemma OddsNear(v: seq<int>, a: seq<int>, b: seq<int>, c: seq<int>)
    requires AllOpened(v, a) && AllRotated(a, b) && OddsTurned(b, c)
    ensures OddNear(v, c) && c[0] == a[0] && c[1] == a[1] && c[4] == a[4] && c[5] == a[5]
    ensures c[2] == b[2] && c[3] == b[3] && c[6] == b[6] && c[7] == b[7] && c[8] == b[8] && c[9] == b[9] && c[12] == b[12] && c[13] == b[13]
  {
    hide Mirrored, OddNear, Rotated;
    OddTurnedNear(v, b, c);
    forall i | 0 <= i < 10
      ensures c[i] == b[i]
    {
      assert c[..10][i] == b[..10][i];
    }
  }

  lemma EvensFollow(v: seq<int>, a: seq<int>, b: seq<int>, c: seq<int>, d: seq<int>, w: seq<int>)
    requires AllOpened(v, a) && AllRotated(a, b) && OddsTurned(b, c) && AllRescaled(c, d) && AllShut(d, w)
    ensures EvenLaw(v, w, 0, 0) && EvenLaw(v, w, 0, 1) && EvenLaw(v, w, 1, 0) && EvenLaw(v, w, 1, 1)
  {
    OddsNear(v, a, b, c);
    hide Mirrored, OddPart, Shut, EvenLaw, AllRotated, OddsTurned;
    EvenFollows(v, a, c[15], d, w, 0, 0);
    EvenFollows(v, a, c[14], d, w, 0, 1);
    EvenFollows(v, a, c[11], d, w, 1, 0);
    EvenFollows(v, a, c[10], d, w, 1, 1);
  }

  /** Both mixed parts of a group, as they reach the last step. */
  ghost predicate MixedNear(v: seq<int>, d: seq<int>, row: nat, column: nat)
    requires |v| == |d| == 16 && row < 2 && column < 2
  {
    && Near(d[4 * row + 3 - column], 8,
            TurnedPart(Mirrored(v, 0, column, -1, 1), Mirrored(v, 1, column, -1, 1), row == 1), -8, 8)
    && Near(d[4 * (3 - row) + column], 8,
            TurnedPart(Mirrored(v, row, 0, 1, -1), Mirrored(v, row, 1, 1, -1), column == 1), -8, 8)
  }

  lemma MixedsNear(v: seq<int>, a: seq<int>, b: seq<int>, c: seq<int>, d: seq<int>)
    requires AllOpened(v, a) && AllRotated(a, b) && OddsTurned(b, c) && AllRescaled(c, d)
    ensures MixedNear(v, d, 0, 0) && MixedNear(v, d, 0, 1) && MixedNear(v, d, 1, 0) && MixedNear(v, d, 1, 1)
  {
    OddsNear(v, a, b, c);
    hide Mirrored, Rotated, OddNear, OddsTurned, Rescaled, TurnedPart;
    RotatedParts(a, b, 7, 3, Mirrored(v, 1, 0, -1, 1), Mirrored(v, 0, 0, -1, 1));
    RotatedParts(a, b, 6, 2, Mirrored(v, 1, 1, -1, 1), Mirrored(v, 0, 1, -1, 1));
    RotatedParts(a, b, 13, 12, Mirrored(v, 0, 1, 1, -1), Mirrored(v, 0, 0, 1, -1));
    RotatedParts(a, b, 9, 8, Mirrored(v, 1, 1, 1, -1), Mirrored(v, 1, 0, 1, -1));
  }

  lemma GroupFollows(v: seq<int>, d: seq<int>, w: seq<int>, row: nat, column: nat)
    requires |v| == |d| == |w| == 16 && row < 2 && column < 2
    requires EvenLaw(v, w, row, column) && MixedNear(v, d, row, column) && Shut(d, w, row, column)
    ensures MirroredLaw(v, w, row, column)
  {
    hide Mirrored, EvenLaw, Shut, TurnedPart;
    MixedFollows(d, w, row, column, TurnedPart(Mirrored(v, 0, column, -1, 1), Mirrored(v, 1, column, -1, 1), row == 1),
                 TurnedPart(Mirrored(v, row, 0, 1, -1), Mirrored(v, row, 1, 1, -1), column == 1));
  }

  lemma StagesFollow(v: seq<int>, a: seq<int>, b: seq<int>, c: seq<int>, d: seq<int>, w: seq<int>)
    requires AllOpened(v, a) && AllRotated(a, b) && OddsTurned(b, c) && AllRescaled(c, d) && AllShut(d, w)
    ensures AllMirrored(v, w)
  {
    EvensFollow(v, a, b, c, d, w);
    MixedsNear(v, a, b, c, d);
    hide EvenLaw, MixedNear, Shut, MirroredLaw, AllRotated, OddsTurned, Opened, Rescaled;
    GroupFollows(v, d, w, 0, 0);
    GroupFollows(v, d, w, 0, 1);
    GroupFollows(v, d, w, 1, 0);
    GroupFollows(v, d, w, 1, 1);
  }

  // ---- The filter's own steps ----

  /** Pairs of a row below the middle, and pairs of a column above it. */
  function Pairing(p: nat): nat {
    if p >= 8 then p / 4 else 10 + p % 4
  }

  /** A position and the one it mirrors through the middle of the block. */
  function Opposite(p: nat): nat {
    if p < 8 then p else if p < 16 then 15 - p else p
  }

  lemma TwoOwned(step: Step, a: nat, b: nat, owner: nat -> nat, k: nat)
    requires step.at == [a, b] && owner(a) == owner(b) == k
    ensures OwnedBy(step, owner, k)
  {}

  lemma GroupSteps(op: Operator, steps: seq<Step>)
    requires steps == Each(GROUPS, op)
    ensures |steps| == 4 && steps[0] == Step([0, 3, 12, 15], op) && steps[1] == Step([1, 2, 13, 14], op)
    ensures steps[2] == Step([4, 7, 8, 11], op) && steps[3] == Step([5, 6, 9, 10], op)
    ensures ApartSteps(steps)
  {
    hide ApartSteps, OwnedBy;
    assert |GROUPS| == 4;
    FourOwned(steps[0], 0, 3, 12, 15, Mirror, 0);
    FourOwned(steps[1], 1, 2, 13, 14, Mirror, 1);
    FourOwned(steps[2], 4, 7, 8, 11, Mirror, 2);
    FourOwned(steps[3], 5, 6, 9, 10, Mirror, 3);
    hide Mirror, Each, GROUPS;
    OwnersApart(steps, Mirror, [0, 1, 2, 3]);
  }

  lemma RotationSteps(steps: seq<Step>)
    requires steps == Each(ROTATIONS, Rotate)
    ensures |steps| == 4 && steps[0] == Step([13, 12], Rotate) && steps[1] == Step([9, 8], Rotate)
    ensures steps[2] == Step([7, 3], Rotate) && steps[3] == Step([6, 2], Rotate)
    ensures ApartSteps(steps)
  {
    hide ApartSteps, OwnedBy;
    assert |ROTATIONS| == 4;
    TwoOwned(steps[0], 13, 12, Pairing, 3);
    TwoOwned(steps[1], 9, 8, Pairing, 2);
    TwoOwned(steps[2], 7, 3, Pairing, 13);
    TwoOwned(steps[3], 6, 2, Pairing, 12);
    hide Pairing, Each, ROTATIONS;
    OwnersApart(steps, Pairing, [3, 2, 13, 12]);
  }

  lemma ScaleSteps(steps: seq<Step>)
    requires steps == Each(SCALES, Scale)
    ensures |steps| == 4 && steps[0] == Step([0, 15], Scale) && steps[1] == Step([1, 14], Scale)
    ensures steps[2] == Step([4, 11], Scale) && steps[3] == Step([5, 10], Scale)
    ensures ApartSteps(steps)
  {
    hide ApartSteps, OwnedBy;
    assert |SCALES| == 4;
    TwoOwned(steps[0], 0, 15, Opposite, 0);
    TwoOwned(steps[1], 1, 14, Opposite, 1);
    TwoOwned(steps[2], 4, 11, Opposite, 4);
    TwoOwned(steps[3], 5, 10, Opposite, 5);
    hide Opposite, Each, SCALES;
    OwnersApart(steps, Opposite, [0, 1, 4, 5]);
  }

  lemma OpenedGroup(steps: seq<Step>, v: seq<int>, k: nat, row: nat, column: nat, i: nat, j: nat, m: nat, n: nat)
    requires ValidSteps(steps) && ApartSteps(steps) && |v| == 16 && k < |steps| && row < 2 && column < 2
    requires i == 4 * row + column && j == 4 * row + 3 - column && m == 4 * (3 - row) + column && n == 4 * (3 - row) + 3 - column
    requires steps[k] == Step([i, j, m, n], Hadamard(0))
    ensures Opened(v, RunSteps(steps, v), row, column)
  {
    hide T2x2h, RunSteps, ApartSteps, ValidStep;
    var x := [v[i], v[j], v[m], v[n]];
    GroupOfFour(steps, v, k, x);
    HadamardLaw(x, 0);
  }

  lemma ShutGroup(steps: seq<Step>, d: seq<int>, k: nat, row: nat, column: nat, i: nat, j: nat, m: nat, n: nat)
    requires ValidSteps(steps) && ApartSteps(steps) && |d| == 16 && k < |steps| && row < 2 && column < 2
    requires i == 4 * row + column && j == 4 * row + 3 - column && m == 4 * (3 - row) + column && n == 4 * (3 - row) + 3 - column
    requires steps[k] == Step([i, j, m, n], HadamardPost)
    ensures Shut(d, RunSteps(steps, d), row, column)
  {
    hide InverseHadamardPost, RunSteps, ApartSteps, ValidStep;
    var x := [d[i], d[j], d[m], d[n]];
    GroupOfFour(steps, d, k, x);
    HadamardPostLaw(x);
  }

  lemma RotatedPair(steps: seq<Step>, a: seq<int>, k: nat, i: nat, j: nat)
    requires ValidSteps(steps) && ApartSteps(steps) && |a| == 16 && k < |steps| && i < 16 && j < 16 && steps[k] == Step([i, j], Rotate)
    ensures Rotated(a, RunSteps(steps, a), i, j)
  {
    hide InverseRotate, RunSteps, ApartSteps, ValidStep;
    GroupOfTwo(steps, a, k, [a[i], a[j]]);
    RotateLaw([a[i], a[j]]);
  }

  lemma RescaledPair(steps: seq<Step>, c: seq<int>, k: nat, i: nat, j: nat)
    requires ValidSteps(steps) && ApartSteps(steps) && |c| == 16 && k < |steps| && i < 16 && j < 16 && steps[k] == Step([i, j], Scale)
    ensures Rescaled(c, RunSteps(steps, c), i, j)
  {
    hide InverseScale, RunSteps, ApartSteps, ValidStep;
    GroupOfTwo(steps, c, k, [c[i], c[j]]);
    ScaleLaw([c[i], c[j]]);
  }

  lemma OpenedAll(steps: seq<Step>, v: seq<int>)
    requires steps == Each(GROUPS, Hadamard(0)) && ValidSteps(steps) && |v| == 16
    ensures AllOpened(v, RunSteps(steps, v))
  {
    GroupSteps(Hadamard(0), steps);
    hide Opened, RunSteps, ApartSteps, ValidStep, Each, GROUPS;
    OpenedGroup(steps, v, 0, 0, 0, 0, 3, 12, 15);
    OpenedGroup(steps, v, 1, 0, 1, 1, 2, 13, 14);
    OpenedGroup(steps, v, 2, 1, 0, 4, 7, 8, 11);
    OpenedGroup(steps, v, 3, 1, 1, 5, 6, 9, 10);
  }

  lemma ShutAll(steps: seq<Step>, d: seq<int>)
    requires steps == Each(GROUPS, HadamardPost) && ValidSteps(steps) && |d| == 16
    ensures AllShut(d, RunSteps(steps, d))
  {
    GroupSteps(HadamardPost, steps);
    hide Shut, RunSteps, ApartSteps, ValidStep, Each, GROUPS;
    ShutGroup(steps, d, 0, 0, 0, 0, 3, 12, 15);
    ShutGroup(steps, d, 1, 0, 1, 1, 2, 13, 14);
    ShutGroup(steps, d, 2, 1, 0, 4, 7, 8, 11);
    ShutGroup(steps, d, 3, 1, 1, 5, 6, 9, 10);
  }

  lemma RotatedAll(steps: seq<Step>, a: seq<int>)
    requires steps == Each(ROTATIONS, Rotate) && ValidSteps(steps) && |a| == 16
    ensures AllRotated(a, RunSteps(steps, a))
  {
    RotationSteps(steps);
    hide Rotated, RunSteps, ApartSteps, ValidStep, Each, ROTATIONS;
    RotatedPair(steps, a, 0, 13, 12);
    RotatedPair(steps, a, 1, 9, 8);
    RotatedPair(steps, a, 2, 7, 3);
    RotatedPair(steps, a, 3, 6, 2);
    RotationsKeep(steps, a, 0);
    RotationsKeep(steps, a, 1);
    RotationsKeep(steps, a, 4);
    RotationsKeep(steps, a, 5);
    RotationsKeep(steps, a, 10);
    RotationsKeep(steps, a, 11);
    RotationsKeep(steps, a, 14);
    RotationsKeep(steps, a, 15);
  }

  lemma RotationsKeep(steps: seq<Step>, a: seq<int>, p: nat)
    requires |steps| == 4 && ValidSteps(steps) && |a| == 16 && p < 16
    requires steps[0].at == [13, 12] && steps[1].at == [9, 8] && steps[2].at == [7, 3] && steps[3].at == [6, 2]
    requires p != 13 && p != 12 && p != 9 && p != 8 && p != 7 && p != 3 && p != 6 && p != 2
    ensures RunSteps(steps, a)[p] == a[p]
  {
    hide RunSteps, ValidStep;
    UntouchedKept(steps, a, p);
  }

  lemma RescaledAll(steps: seq<Step>, c: seq<int>)
    requires steps == Each(SCALES, Scale) && ValidSteps(steps) && |c| == 16
    ensures AllRescaled(c, RunSteps(steps, c))
  {
    ScaleSteps(steps);
    hide Rescaled, RunSteps, ApartSteps, ValidStep, Each, SCALES;
    RescaledPair(steps, c, 0, 0, 15);
    RescaledPair(steps, c, 1, 1, 14);
    RescaledPair(steps, c, 2, 4, 11);
    RescaledPair(steps, c, 3, 5, 10);
    ScalesKeep(steps, c, 2);
    ScalesKeep(steps, c, 3);
    ScalesKeep(steps, c, 6);
    ScalesKeep(steps, c, 7);
    ScalesKeep(steps, c, 8);
    ScalesKeep(steps, c, 9);
    ScalesKeep(steps, c, 12);
    ScalesKeep(steps, c, 13);
  }

  lemma ScalesKeep(steps: seq<Step>, c: seq<int>, p: nat)
    requires |steps| == 4 && ValidSteps(steps) && |c| == 16 && p < 16
    requires steps[0].at == [0, 15] && steps[1].at == [1, 14] && steps[2].at == [4, 11] && steps[3].at == [5, 10]
    requires p != 0 && p != 15 && p != 1 && p != 14 && p != 4 && p != 11 && p != 5 && p != 10
    ensures RunSteps(steps, c)[p] == c[p]
  {
    hide RunSteps, ValidStep;
    UntouchedKept(steps, c, p);
  }

  lemma TurnedAll(steps: seq<Step>, b: seq<int>)
    requires steps == [Step([10, 11, 14, 15], ToddOddPost)] && ValidSteps(steps) && |b| == 16
    ensures OddsTurned(b, RunSteps(steps, b))
  {
    hide RunSteps, ValidStep, InverseToddOddPost;
    var x := [b[10], b[11], b[14], b[15]];
    GroupOfFour(steps, b, 0, x);
    ToddOddPostLaw(x);
    var c := RunSteps(steps, b);
    forall p: nat | p < 10 || p == 12 || p == 13
      ensures c[p] == b[p]
    {
      UntouchedKept(steps, b, p);
    }
  }

  /**
   The 4-by-4 overlap filter on mirrored sums of samples: within nine of a linear map that grows the even part, shrinks
   and turns the odd part, and turns the parts that are odd one way only.
   */
  lemma OverlapFollows(v: seq<int>)
    requires |v| == 16
    ensures AllMirrored(v, Overlap4x4(v))
  {
    OverlapStepsValid();
    hide AllMirrored, RunSteps, ValidStep, AllOpened, AllRotated, OddsTurned, AllRescaled, AllShut, Each, GROUPS, ROTATIONS, SCALES;
    var open, turn, odd, scale, shut := Each(GROUPS, Hadamard(0)), Each(ROTATIONS, Rotate), [Step([10, 11, 14, 15], ToddOddPost)],
      Each(SCALES, Scale), Each(GROUPS, HadamardPost);
    assert OVERLAP_STEPS == open + turn + odd + scale + shut;
    hide OVERLAP_STEPS;
    StagesRun(open, turn, odd, scale, shut, v);
    var a := RunSteps(open, v);
    var b := RunSteps(turn, a);
    var c := RunSteps(odd, b);
    var d := RunSteps(scale, c);
    OpenedAll(open, v);
    RotatedAll(turn, a);
    TurnedAll(odd, b);
    RescaledAll(scale, c);
    ShutAll(shut, d);
    StagesFollow(v, a, b, c, d, RunSteps(shut, d));
  }

  lemma PrefixValid(a: seq<Step>, b: seq<Step>)
    requires ValidSteps(a + b)
    ensures ValidSteps(a) && ValidSteps(b)
  {
    hide ValidStep;
    forall k | 0 <= k < |a|
      ensures ValidStep(a[k])
    {
      assert a[k] == (a + b)[k];
    }
    forall k | 0 <= k < |b|
      ensures ValidStep(b[k])
    {
      assert b[k] == (a + b)[|a| + k];
    }
  }

  lemma StagesRun(a: seq<Step>, b: seq<Step>, c: seq<Step>, d: seq<Step>, e: seq<Step>, v: seq<int>)
    requires ValidSteps(a + b + c + d + e) && |v| == 16
    ensures ValidSteps(a) && ValidSteps(b) && ValidSteps(c) && ValidSteps(d) && ValidSteps(e)
    ensures RunSteps(a + b + c + d + e, v) == RunSteps(e, RunSteps(d, RunSteps(c, RunSteps(b, RunSteps(a, v)))))
  {
    hide ValidSteps, RunSteps;
    PrefixValid(a + b + c + d, e);
    PrefixValid(a + b + c, d);
    PrefixValid(a + b, c);
    PrefixValid(a, b);
    RunConcat(a + b + c + d, e, v);
    RunConcat(a + b + c, d, v);
    RunConcat(a + b, c, v);
    RunConcat(a, b, v);
  }
}
