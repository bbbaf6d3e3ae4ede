/**
 How close the core transform is to linear maps. It stays within a fixed distance of one linear map only, and that map is
 not separable; from a separable cosine basis it departs by less than a fiftieth of the spectrum's magnitude.
 */
module CoreBasis {
  import opened Blocks
  import opened LinearLaws
  import opened CoreMap

  // ---- A separable basis ----

  /** The four-point cosine basis in 128ths: frequency `u` at position `x`. */
  function Cosine(u: nat, x: nat): int
    requires x < 4
  {
    if u % 2 == 0 then 64 * Even(u, x)
    else Sign(x) * if u == 1 then if Fold(x) == 0 then 84 else 35 else if Fold(x) == 0 then 35 else -84
  }

  lemma OddClose(other: nat, u: nat, x: nat)
    requires x < 4 && (other == 0 || other == 2) && (u == 1 || u == 3)
    ensures -320 <= 16 * Odd(other, u, x) - 64 * Cosine(u, x) <= 320
  {
    if Sign(x) == 1 {
    } else {
    }
  }

  /** The product of two odd basis functions on the outer and inner samples of one quarter. */
  lemma OddOddClose(v: nat, u: nat, row: nat, column: nat)
    requires row < 4 && column < 4 && (v == 1 || v == 3) && (u == 1 || u == 3)
    ensures -320 <= 16 * OddOdd(v, u, row, column) - Cosine(v, row) * Cosine(u, column) <= 320
  {
    if v == 1 {
      if u == 1 {
        OddOddAt(1, 1, row, column);
      } else {
        OddOddAt(1, 3, row, column);
      }
    } else if u == 1 {
      OddOddAt(3, 1, row, column);
    } else {
      OddOddAt(3, 3, row, column);
    }
  }

  lemma OddOddAt(v: nat, u: nat, row: nat, column: nat)
    requires row < 4 && column < 4 && (v == 1 || v == 3) && (u == 1 || u == 3)
    ensures -320 <= 16 * OddOdd(v, u, row, column) - Cosine(v, row) * Cosine(u, column) <= 320
  {
    if Sign(row) == 1 {
      if Sign(column) == 1 {
      } else {
      }
    } else if Sign(column) == 1 {
    } else {
    }
  }

  /** A sign on both sides changes nothing. */
  lemma Signed(sign: int, odd: int, basis: int)
    requires (sign == 1 || sign == -1) && -320 <= 16 * odd - 64 * basis <= 320
    ensures -320 <= 16 * (sign * odd) - 64 * sign * basis <= 320
    ensures -320 <= 16 * (odd * sign) - basis * (64 * sign) <= 320
  {}

  lemma EvenWeights(row: nat, column: nat, v: nat, u: nat)
    requires row < 4 && column < 4 && v < 4 && u < 4 && v % 2 == 0 && u % 2 == 0
    ensures 16 * Weight(row, column, v, u) == Cosine(v, row) * Cosine(u, column)
  {
    hide Odd, OddOdd, Even;
    EvenSign(v, row);
    EvenSign(u, column);
  }

  lemma MixedWeights(row: nat, column: nat, v: nat, u: nat)
    requires row < 4 && column < 4 && v < 4 && u < 4 && v % 2 != u % 2
    ensures -320 <= 16 * Weight(row, column, v, u) - Cosine(v, row) * Cosine(u, column) <= 320
  {
    hide Odd, OddOdd, Even;
    if v % 2 == 0 {
      OddClose(v, u, column);
      EvenSign(v, row);
      assert Cosine(v, row) == 64 * Even(v, row);
      hide Cosine;
      Signed(Even(v, row), Odd(v, u, column), Cosine(u, column));
    } else {
      OddClose(u, v, row);
      EvenSign(u, column);
      assert Cosine(u, column) == 64 * Even(u, column);
      hide Cosine;
      Signed(Even(u, column), Odd(u, v, row), Cosine(v, row));
    }
  }

  /** The weights of the transform depart from those of the basis by 5/256 at most. */
  lemma WeightsSeparable(row: nat, column: nat, v: nat, u: nat)
    requires row < 4 && column < 4 && v < 4 && u < 4
    ensures -320 <= 16 * Weight(row, column, v, u) - Cosine(v, row) * Cosine(u, column) <= 320
  {
    if v % 2 == 0 && u % 2 == 0 {
      EvenWeights(row, column, v, u);
    } else if v % 2 != u % 2 {
      MixedWeights(row, column, v, u);
    } else {
      OddOddClose(v, u, row, column);
    }
    hide Cosine, Odd, OddOdd, Even;
  }

  lemma EvenSign(u: nat, x: nat)
    requires x < 4
    ensures Even(u, x) == 1 || Even(u, x) == -1
  {}

  function Magnitude(x: int): nat {
    if x < 0 then -x else x
  }

  function Total(f: seq<int>): nat {
    if f == [] then 0 else Total(f[..|f| - 1]) + Magnitude(f[|f| - 1])
  }

  /** A linear map: how much of frequency `k` sample `i` holds. */
  type Linear = (nat, nat) -> int

  function Applied(m: Linear, i: nat, f: seq<int>): int {
    if f == [] then 0 else Applied(m, i, f[..|f| - 1]) + m(i, |f| - 1) * f[|f| - 1]
  }

  /** The map of the synthesis, in 1024ths. */
  function Weights(i: nat, k: nat): int {
    if i < 16 && k < 16 then Weight(i / 4, i % 4, k / 4, k % 4) else 0
  }

  /** The separable map of the cosine basis, in 16384ths. */
  function Cosines(i: nat, k: nat): int {
    if i < 16 && k < 16 then Cosine(k / 4, i / 4) * Cosine(k % 4, i % 4) else 0
  }

  lemma Between(d: int, bound: nat, x: nat)
    requires -(bound as int) <= d <= bound
    ensures -(bound * x) <= d * x <= bound * x
  {
    var up, down := bound - d, bound + d;
    assert up * x >= 0 && down * x >= 0;
    assert up * x == bound * x - d * x && down * x == bound * x + d * x;
  }

  lemma Bounded(d: int, x: int)
    requires -320 <= d <= 320
    ensures Magnitude(d * x) <= 320 * Magnitude(x)
  {
    Between(d, 320, Magnitude(x));
    if x < 0 {
      Negated(d, -x);
    }
  }

  lemma Negated(d: int, y: int)
    ensures d * -y == -(d * y)
  {}

  lemma Distributed(w: int, b: int, x: int)
    ensures (16 * w - b) * x == 16 * (w * x) - b * x
  {}

  lemma {:induction false} TermsClose(i: nat, f: seq<int>)
    requires |f| <= 16 && i < 16
    ensures Magnitude(16 * Applied(Weights, i, f) - Applied(Cosines, i, f)) <= 320 * Total(f)
  {
    if f != [] {
      var k := |f| - 1;
      WeightsSeparable(i / 4, i % 4, k / 4, k % 4);
      assert -320 <= 16 * Weights(i, k) - Cosines(i, k) <= 320;
      hide Weights, Cosines;
      TermsClose(i, f[..k]);
      Bounded(16 * Weights(i, k) - Cosines(i, k), f[k]);
      Distributed(Weights(i, k), Cosines(i, k), f[k]);
    }
  }

  lemma AppliedNext(m: Linear, i: nat, f: seq<int>, k: nat)
    requires k < |f|
    ensures Applied(m, i, f[..k + 1]) == Applied(m, i, f[..k]) + m(i, k) * f[k]
  {
    assert f[..k + 1][..k] == f[..k];
  }

  lemma BandNext(i: nat, f: seq<int>, v: nat)
    requires |f| == 16 && i < 16 && v < 4
    ensures Applied(Weights, i, f[..4 * v + 4]) == Applied(Weights, i, f[..4 * v]) + Band(f, i / 4, i % 4, v)
  {
    hide Applied, Weight;
    AppliedNext(Weights, i, f, 4 * v);
    AppliedNext(Weights, i, f, 4 * v + 1);
    AppliedNext(Weights, i, f, 4 * v + 2);
    AppliedNext(Weights, i, f, 4 * v + 3);
  }

  lemma SynthesisApplied(i: nat, f: seq<int>)
    requires |f| == 16 && i < 16
    ensures Applied(Weights, i, f) == Synthesis(f, i / 4, i % 4)
  {
    assert f[..0] == [] && f[..16] == f;
    assert Applied(Weights, i, f[..0]) == 0;
    hide Applied, Band;
    BandNext(i, f, 0);
    BandNext(i, f, 1);
    BandNext(i, f, 2);
    BandNext(i, f, 3);
  }

  /** Every sample of the transform is within three of the map. */
  lemma CoreApplied(block: seq<int>, i: nat)
    requires |block| == 16 && i < 16 && IsPermutation(INVERSE_PERMUTATION)
    ensures Near(CoreTransform(INVERSE_PERMUTATION, block)[i], 1024, Applied(Weights, i, block), -2926, 2792)
  {
    hide CoreTransform, IsPermutation, INVERSE_PERMUTATION, Synthesis;
    ShippedFollows(block);
    assert Follows(CoreTransform(INVERSE_PERMUTATION, block), block, i / 4, i % 4);
    assert 4 * (i / 4) + i % 4 == i;
    SynthesisApplied(i, block);
  }

  /**
   Every sample lies within three of the separable synthesis in the cosine basis, but for a fiftieth of the sum of the
   coefficients' magnitudes.
   */
  lemma CoreNearCosines(block: seq<int>, i: nat)
    requires |block| == 16 && i < 16 && IsPermutation(INVERSE_PERMUTATION)
    ensures Magnitude(16384 * CoreTransform(INVERSE_PERMUTATION, block)[i] - Applied(Cosines, i, block))
      <= 16384 * 3 + 320 * Total(block)
  {
    hide CoreTransform, IsPermutation, INVERSE_PERMUTATION, Applied, Total;
    CoreApplied(block, i);
    TermsClose(i, block);
  }

  // ---- No other linear map ----

  /** On all blocks the transform stays within `bound / scale` of the map in `scale`ths. */
  ghost predicate Close(m: Linear, scale: nat, bound: nat)
    requires IsPermutation(INVERSE_PERMUTATION)
  {
    forall block: seq<int>, i: nat :: |block| == 16 && i < 16 ==>
      Magnitude(scale * CoreTransform(INVERSE_PERMUTATION, block)[i] - Applied(m, i, block)) <= bound
  }

  ghost predicate Stays(m: Linear, scale: nat)
    requires IsPermutation(INVERSE_PERMUTATION)
  {
    exists bound: nat :: Close(m, scale, bound)
  }

  /** The map is that of the synthesis. */
  ghost predicate IsSynthesis(m: Linear, scale: nat) {
    forall i: nat, k: nat :: i < 16 && k < 16 ==> 1024 * m(i, k) == scale * Weights(i, k)
  }

  lemma Product(m: int, scale: int, w: int, x: int)
    requires 1024 * m == scale * w
    ensures 1024 * (m * x) == scale * (w * x)
  {
    assert 1024 * (m * x) == 1024 * m * x == scale * w * x;
  }

  lemma {:induction false} AppliedAlike(m: Linear, scale: nat, i: nat, f: seq<int>)
    requires IsSynthesis(m, scale) && i < 16 && |f| <= 16
    ensures 1024 * Applied(m, i, f) == scale * Applied(Weights, i, f)
  {
    if f != [] {
      hide Weights;
      var k := |f| - 1;
      AppliedAlike(m, scale, i, f[..k]);
      Product(m(i, k), scale, Weights(i, k), f[k]);
      Together(scale, Applied(Weights, i, f[..k]), Weights(i, k) * f[k]);
    }
  }

  lemma Together(scale: int, a: int, b: int)
    ensures scale * (a + b) == scale * a + scale * b
  {}

  lemma ScaledNear(s: int, scale: nat, w: int, a: int)
    requires Near(s, 1024, w, -2926, 2792) && 1024 * a == scale * w
    ensures Magnitude(scale * s - a) <= 3 * scale
  {
    var e := 1024 * s - w;
    Between(e, 3072, scale);
    ErrorScaled(s, scale, w, e);
  }

  lemma ErrorScaled(s: int, scale: int, w: int, e: int)
    requires e == 1024 * s - w
    ensures e * scale == 1024 * (scale * s) - scale * w
  {}

  lemma SynthesisStays(m: Linear, scale: nat)
    requires IsSynthesis(m, scale) && IsPermutation(INVERSE_PERMUTATION)
    ensures Close(m, scale, 3 * scale)
  {
    hide CoreTransform, IsPermutation, INVERSE_PERMUTATION, IsSynthesis, Magnitude, Applied;
    forall block: seq<int>, i: nat | |block| == 16 && i < 16
      ensures Magnitude(scale * CoreTransform(INVERSE_PERMUTATION, block)[i] - Applied(m, i, block)) <= 3 * scale
    {
      CoreApplied(block, i);
      AppliedAlike(m, scale, i, block);
      ScaledNear(CoreTransform(INVERSE_PERMUTATION, block)[i], scale, Applied(Weights, i, block), Applied(m, i, block));
    }
  }

  /** A block with one coefficient. */
  function Single(k: nat, x: int): (block: seq<int>)
    ensures |block| == 16 && forall j :: 0 <= j < 16 ==> block[j] == if j == k then x else 0
  {
    seq(16, j => if j == k then x else 0)
  }

  lemma {:induction false} SingleApplied(m: Linear, i: nat, k: nat, x: int, n: nat)
    requires n <= 16
    ensures Applied(m, i, Single(k, x)[..n]) == if k < n then m(i, k) * x else 0
  {
    if n > 0 {
      SingleApplied(m, i, k, x, n - 1);
      AppliedNext(m, i, Single(k, x), n - 1);
    }
  }

  /** A multiple of anything but zero outgrows every bound. */
  lemma Outgrows(d: int, bound: nat)
    requires d != 0
    ensures Magnitude(d * (bound + 1)) > bound
  {
    if d >= 1 {
      Between(1, d, bound + 1);
    } else {
      Between(1, -d, bound + 1);
      Negated(bound + 1, -d);
    }
  }

  lemma Difference(s: int, scale: nat, w: int, m: int, x: int, bound: nat)
    requires Near(s, 1024, w * x, -2926, 2792) && Magnitude(scale * s - m * x) <= bound
    ensures Magnitude((scale * w - 1024 * m) * x) <= 1024 * bound + 3072 * scale
  {
    var e := 1024 * s - w * x;
    Between(e, 3072, scale);
    ErrorScaled(s, scale, w * x, e);
    Expanded(scale, w, m, x);
  }

  lemma Expanded(scale: int, w: int, m: int, x: int)
    ensures (scale * w - 1024 * m) * x == scale * (w * x) - 1024 * (m * x)
  {}

  lemma StaysSynthesis(m: Linear, scale: nat, bound: nat, i: nat, k: nat)
    requires IsPermutation(INVERSE_PERMUTATION) && Close(m, scale, bound) && i < 16 && k < 16
    ensures 1024 * m(i, k) == scale * Weights(i, k)
  {
    hide CoreTransform, IsPermutation, INVERSE_PERMUTATION, Applied, Weights, Single, Magnitude;
    var limit := 1024 * bound + 3072 * scale;
    var block := Single(k, limit + 1);
    assert block[..16] == block;
    CoreApplied(block, i);
    SingleApplied(m, i, k, limit + 1, 16);
    SingleApplied(Weights, i, k, limit + 1, 16);
    Difference(CoreTransform(INVERSE_PERMUTATION, block)[i], scale, Weights(i, k), m(i, k), limit + 1, bound);
    if scale * Weights(i, k) - 1024 * m(i, k) != 0 {
      Outgrows(scale * Weights(i, k) - 1024 * m(i, k), limit);
      assert false;
    }
  }

  /** A linear map stays within a fixed distance of the transform if and only if it is that of the synthesis. */
  lemma OnlySynthesis(m: Linear, scale: nat)
    requires IsPermutation(INVERSE_PERMUTATION)
    ensures Stays(m, scale) <==> IsSynthesis(m, scale)
  {
    hide Close, IsPermutation, INVERSE_PERMUTATION;
    if IsSynthesis(m, scale) {
      SynthesisStays(m, scale);
    }
    if Stays(m, scale) {
      var bound: nat :| Close(m, scale, bound);
      forall i: nat, k: nat | i < 16 && k < 16
        ensures 1024 * m(i, k) == scale * Weights(i, k)
      {
        StaysSynthesis(m, scale, bound, i, k);
      }
    }
  }

  /** A map that treats rows and columns alike and one after the other. */
  ghost predicate Separable(m: Linear, basis: Linear) {
    forall i: nat, k: nat :: i < 16 && k < 16 ==> m(i, k) == basis(k / 4, i / 4) * basis(k % 4, i % 4)
  }

  lemma Squares(a: int, b: int)
    ensures (a * b) * (a * b) == (a * a) * (b * b)
  {}

  lemma ScaledProduct(p: int, q: int, m: int, n: int, scale: int)
    requires 1024 * p == m * scale && 1024 * q == n * scale
    ensures 0x10_0000 * (p * q) == m * n * (scale * scale)
  {
    assert (1024 * p) * (1024 * q) == (m * scale) * (n * scale);
  }

  /** Three weights of which the middle one is not the geometric mean. */
  lemma NotSquares(p: int, q: int, r: int, scale: nat)
    requires scale > 0 && 1024 * p == 256 * scale && 1024 * q == 352 * scale && 1024 * r == 440 * scale
    ensures q * q != p * r
  {
    ScaledProduct(q, q, 352, 352, scale);
    ScaledProduct(p, r, 256, 440, scale);
    assert scale * scale > 0;
  }

  /** No separable map stays within a fixed distance of the transform on all blocks. */
  lemma NeverSeparable(m: Linear, basis: Linear, scale: nat)
    requires IsPermutation(INVERSE_PERMUTATION) && scale > 0 && Separable(m, basis)
    ensures !Stays(m, scale)
  {
    OnlySynthesis(m, scale);
    if Stays(m, scale) {
      assert Weights(0, 0) == 256 && Weights(0, 1) == 352 && Weights(0, 5) == 440;
      assert m(0, 0) == basis(0, 0) * basis(0, 0) && m(0, 1) == basis(0, 0) * basis(1, 0) && m(0, 5) == basis(1, 0) * basis(1, 0);
      hide Stays, Separable, IsPermutation, INVERSE_PERMUTATION;
      Squares(basis(0, 0), basis(1, 0));
      NotSquares(m(0, 0), m(0, 1), m(0, 5), scale);
      assert false;
    }
  }
}
