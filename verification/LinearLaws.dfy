/**
 What the lifting operators compute: every output of an operator lies within a fixed distance, that of its
 roundings, of a row of a rational matrix.
 */
module LinearLaws {
  import opened Arithmetic
  import opened Operators

  /** `scale` times a value differs from the image under a row with denominator `scale` by `low` to `high`. */
  predicate Near(value: int, scale: nat, image: int, low: int, high: int) {
    low <= scale * value - image <= high
  }

  /** A shift rounds towards negative infinity. */
  lemma Floor(y: int, multiplier: nat, bias: int, bits: nat, divisor: nat)
    requires divisor == Power2(bits)
    ensures divisor * Shift(y, multiplier, bias, bits) <= y * multiplier + bias < divisor * Shift(y, multiplier, bias, bits) + divisor
  {
    FloorDivision(y * multiplier + bias, divisor);
  }

  lemma Lifted(x: int, y: int, multiplier: nat, bias: nat, bits: nat, divisor: nat)
    requires divisor == Power2(bits)
    ensures var amount := Lift(x, y, multiplier, bias, bits) - x;
      divisor * amount <= y * multiplier + bias < divisor * amount + divisor
  {
    hide Shift;
    Floor(y, multiplier, bias, bits, divisor);
  }

  lemma Lowered(x: int, y: int, multiplier: nat, bias: nat, bits: nat, divisor: nat)
    requires divisor == Power2(bits)
    ensures var amount := x - Lower(x, y, multiplier, bias, bits);
      divisor * amount <= y * multiplier + bias < divisor * amount + divisor
  {
    hide Shift;
    Floor(y, multiplier, bias, bits, divisor);
  }

  lemma Flipped(x: int, y: int, multiplier: nat, bias: nat, bits: nat, divisor: nat)
    requires divisor == Power2(bits)
    ensures var amount := Flip(x, y, multiplier, bias, bits) + x;
      divisor * amount <= y * multiplier + bias < divisor * amount + divisor
  {
    hide Shift;
    Floor(y, multiplier, bias, bits, divisor);
  }

  // ---- The operators one by one ----

  /** The Hadamard operator, rounding up what it keeps of the sum or of the differences. */
  lemma HadamardLaw(v: seq<int>, rounding: nat)
    requires |v| == 4 && rounding <= 1
    ensures var w := T2x2h(v, rounding);
      && Near(w[0], 2, v[0] + v[1] + v[2] + v[3], -(rounding as int), 1 - rounding)
      && Near(w[1], 2, v[0] + v[1] - v[2] - v[3], rounding - 1, rounding)
      && Near(w[2], 2, v[0] - v[1] + v[2] - v[3], rounding - 1, rounding)
      && Near(w[3], 2, v[0] - v[1] - v[2] + v[3], rounding - 1, rounding)
  {
    var a, b := v[0] + v[3], v[1] - v[2];
    hide Flip;
    Flipped(v[3], a - b, 1, rounding, 1, 2);
    Flipped(v[2], a - b, 1, rounding, 1, 2);
  }

  /** The odd-even rotation. */
  lemma ToddLaw(v: seq<int>)
    requires |v| == 4
    ensures var w := InverseTodd(v);
      && Near(w[0], 128, 88 * v[0] - 79 * v[1] - 40 * v[2] + 31 * v[3], -168, 185)
      && Near(w[1], 128, 88 * v[0] + 79 * v[1] + 40 * v[2] + 31 * v[3], -188, 153)
      && Near(w[2], 128, 40 * v[0] - 31 * v[1] + 88 * v[2] - 79 * v[3], -193, 148)
      && Near(w[3], 128, 40 * v[0] + 31 * v[1] - 88 * v[2] - 79 * v[3], -193, 160)
  {
    hide Lift, Lower, Flip;
    var b := v[1] + v[3];
    var a := v[0] - v[2];
    Lowered(v[3], b, 1, 0, 1, 2);
    var d := Lower(v[3], b, 1, 0, 1);
    Lifted(v[2], a, 1, 1, 1, 2);
    var c := Lift(v[2], a, 1, 1, 1);
    Lowered(a, b, 3, 4, 3, 8);
    var a1 := Lower(a, b, 3, 4, 3);
    Lifted(b, a1, 3, 4, 3, 8);
    var b1 := Lift(b, a1, 3, 4, 3);
    Lowered(c, d, 3, 4, 3, 8);
    var c1 := Lower(c, d, 3, 4, 3);
    Lifted(d, c1, 3, 4, 3, 8);
    var d1 := Lift(d, c1, 3, 4, 3);
    Lowered(c1, b1, 1, 1, 1, 2);
    var c2 := Lower(c1, b1, 1, 1, 1);
    Flipped(d1, a1, 1, 1, 1, 2);
    var d2 := Flip(d1, a1, 1, 1, 1);
    assert InverseTodd(v) == [a1 - d2, b1 + c2, c2, d2];
  }

  /** The odd-odd rotation. */
  lemma ToddOddLaw(v: seq<int>)
    requires |v| == 4
    ensures var w := InverseToddOdd(v);
      && Near(w[0], 512, 440 * v[0] - 165 * v[1] - 165 * v[2] + 72 * v[3], -794, 725)
      && Near(w[1], 64, -24 * v[0] - 55 * v[1] + 9 * v[2] + 24 * v[3], -128, 41)
      && Near(w[2], 64, -24 * v[0] + 9 * v[1] - 55 * v[2] + 24 * v[3], -128, 41)
      && Near(w[3], 512, 72 * v[0] + 165 * v[1] + 165 * v[2] + 440 * v[3], -725, 794)
  {
    hide Lift, Lower, Flip;
    var d := v[3] + v[0];
    var c := v[2] - v[1];
    Lowered(v[0], d, 1, 0, 1, 2);
    var a := Lower(v[0], d, 1, 0, 1);
    Lifted(v[1], c, 1, 0, 1, 2);
    var b := Lift(v[1], c, 1, 0, 1);
    Lowered(a, b, 3, 3, 3, 8);
    var a1 := Lower(a, b, 3, 3, 3);
    Lifted(b, a1, 3, 3, 2, 4);
    var b1 := Lift(b, a1, 3, 3, 2);
    Lowered(a1, b1, 3, 4, 3, 8);
    var a2 := Lower(a1, b1, 3, 4, 3);
    Lowered(b1, c, 1, 0, 1, 2);
    var b2 := Lower(b1, c, 1, 0, 1);
    Lifted(a2, d, 1, 0, 1, 2);
    var a3 := Lift(a2, d, 1, 0, 1);
    assert InverseToddOdd(v) == [a3, -b2, -(c + b2), d - a3];
  }

  /** The odd-odd rotation of the postfilter. */
  lemma ToddOddPostLaw(v: seq<int>)
    requires |v| == 4
    ensures var w := InverseToddOddPost(v);
      && Near(w[0], 512, 440 * v[0] - 165 * v[1] - 165 * v[2] + 72 * v[3], -884, 635)
      && Near(w[1], 64, 24 * v[0] + 55 * v[1] - 9 * v[2] - 24 * v[3], -75, 94)
      && Near(w[2], 64, 24 * v[0] - 9 * v[1] + 55 * v[2] - 24 * v[3], -75, 94)
      && Near(w[3], 512, 72 * v[0] + 165 * v[1] + 165 * v[2] + 440 * v[3], -635, 884)
  {
    hide Lift, Lower, Flip;
    var d := v[3] + v[0];
    var c := v[2] - v[1];
    Lowered(v[0], d, 1, 0, 1, 2);
    var a := Lower(v[0], d, 1, 0, 1);
    Lifted(v[1], c, 1, 0, 1, 2);
    var b := Lift(v[1], c, 1, 0, 1);
    Lowered(a, b, 3, 6, 3, 8);
    var a1 := Lower(a, b, 3, 6, 3);
    Lifted(b, a1, 3, 2, 2, 4);
    var b1 := Lift(b, a1, 3, 2, 2);
    Lowered(a1, b1, 3, 4, 3, 8);
    var a2 := Lower(a1, b1, 3, 4, 3);
    Lowered(b1, c, 1, 0, 1, 2);
    var b2 := Lower(b1, c, 1, 0, 1);
    Lifted(a2, d, 1, 0, 1, 2);
    var a3 := Lift(a2, d, 1, 0, 1);
    assert InverseToddOddPost(v) == [a3, b2, c + b2, d - a3];
  }

  /** The two-point transform of 4:2:2 chroma. */
  lemma T2ptLaw(v: seq<int>)
    requires |v| == 2
    ensures var w := InverseT2pt(v);
      && Near(w[0], 2, 2 * v[0] - v[1], -1, 0)
      && Near(w[1], 2, 2 * v[0] + v[1], -1, 0)
  {
    hide Lift, Lower, Flip;
    Lowered(v[0], v[1], 1, 1, 1, 2);
    var a := Lower(v[0], v[1], 1, 1, 1);
    assert InverseT2pt(v) == [a, v[1] + a];
  }

  /** The rotation of the postfilter. */
  lemma RotateLaw(v: seq<int>)
    requires |v| == 2
    ensures var w := InverseRotate(v);
      && Near(w[0], 2, 2 * v[0] - v[1], -1, 0)
      && Near(w[1], 4, 2 * v[0] + 3 * v[1], -1, 2)
  {
    hide Lift, Lower, Flip;
    Lowered(v[0], v[1], 1, 1, 1, 2);
    var a := Lower(v[0], v[1], 1, 1, 1);
    Lifted(v[1], a, 1, 1, 1, 2);
    assert InverseRotate(v) == [a, Lift(v[1], a, 1, 1, 1)];
  }

  /** The scaling of the postfilter. */
  lemma ScaleLaw(v: seq<int>)
    requires |v| == 2
    ensures var w := InverseScale(v);
      && Near(w[0], 16, 19 * v[0] + 13 * v[1], -17, 0)
      && Near(w[1], 16384, 11973 * v[0] - 5605 * v[1], -43191, 16368)
  {
    hide Lift, Lower, Flip;
    var a := v[0] + v[1];
    Flipped(v[1], a, 1, 0, 1, 2);
    var b := Flip(v[1], a, 1, 0, 1);
    Lifted(a, b, 3, 0, 3, 8);
    var a1 := Lift(a, b, 3, 0, 3);
    Lifted(b, a1, 3, 0, 4, 16);
    var b1 := Lift(b, a1, 3, 0, 4);
    Lifted(b1, a1, 1, 0, 7, 128);
    var b2 := Lift(b1, a1, 1, 0, 7);
    Lowered(b2, a1, 1, 0, 10, 1024);
    assert InverseScale(v) == [a1, Lower(b2, a1, 1, 0, 10)];
  }

  /** The Hadamard step that closes the 4-by-4 postfilter. */
  lemma HadamardPostLaw(v: seq<int>)
    requires |v| == 4
    ensures var w := InverseHadamardPost(v);
      && Near(w[0], 16, 8 * v[0] + 8 * v[1] + 8 * v[2] + 3 * v[3], -3, 12)
      && Near(w[1], 2, v[1] - v[2] + 2 * v[3], 0, 1)
      && Near(w[2], 2, -v[1] + v[2] + 2 * v[3], 0, 1)
      && Near(w[3], 16, 8 * v[0] - 8 * v[1] - 8 * v[2] + 3 * v[3], -11, 4)
  {
    hide Lift, Lower, Flip;
    var b := v[1] - v[2];
    Lifted(v[0], v[3], 3, 4, 3, 8);
    var a := Lift(v[0], v[3], 3, 4, 3);
    Lowered(v[3], b, 1, 0, 1, 2);
    var d := Lower(v[3], b, 1, 0, 1);
    Flipped(v[2], a - b, 1, 0, 1, 2);
    var c := Flip(v[2], a - b, 1, 0, 1);
    assert InverseHadamardPost(v) == [a - c, b + d, d, c];
  }

  /** The two-sample filter of subsampled chroma. */
  lemma Overlap2Law(v: seq<int>)
    requires |v| == 2
    ensures var w := InverseOverlap2(v);
      && Near(w[0], 32768, 37137 * v[0] + 17476 * v[1], -101581, 25122)
      && Near(w[1], 131072, 69905 * v[0] + 148548 * v[1], -167117, 156194)
  {
    hide Lift, Lower, Flip;
    Lifted(v[1], v[0], 1, 2, 2, 4);
    var b := Lift(v[1], v[0], 1, 2, 2);
    Lifted(v[0], b, 1, 1, 1, 2);
    var a := Lift(v[0], b, 1, 1, 1);
    Lifted(a, b, 1, 0, 5, 32);
    var a1 := Lift(a, b, 1, 0, 5);
    Lifted(a1, b, 1, 0, 9, 512);
    var a2 := Lift(a1, b, 1, 0, 9);
    Lifted(a2, b, 1, 0, 13, 8192);
    var a3 := Lift(a2, b, 1, 0, 13);
    Lifted(b, a3, 1, 2, 2, 4);
    assert InverseOverlap2(v) == [a3, Lift(b, a3, 1, 2, 2)];
  }

  lemma Scaled4Law(v: seq<int>)
    requires |v| == 4
    ensures var w := Scaled4(v);
      && Near(w[0], 32, 25 * v[0] + 51 * v[3], -47, 0)
      && Near(w[1], 32, 25 * v[1] + 51 * v[2], -47, 0)
      && Near(w[2], 32768, 29551 * v[1] + 18341 * v[2], -86382, 38341)
      && Near(w[3], 32768, 29551 * v[0] + 18341 * v[3], -86382, 38341)
  {
    hide Lower, InverseScale;
    var a, b := v[0] + v[3], v[1] + v[2];
    Lowered(v[3], a, 1, 1, 1, 2);
    Lowered(v[2], b, 1, 1, 1, 2);
    ScaleLaw([a, Lower(v[3], a, 1, 1, 1)]);
    ScaleLaw([b, Lower(v[2], b, 1, 1, 1)]);
  }

  lemma Turned4Law(v: seq<int>)
    requires |v| == 4
    ensures var w := Turned4(v);
      && Near(w[0], 64, -8 * v[0] - 16 * v[1] + 26 * v[2] + 77 * v[3], -76, 81)
      && Near(w[1], 32, 8 * v[0] - 8 * v[1] + 45 * v[2] - 13 * v[3], -31, 47)
      && Near(w[2], 32, -8 * v[0] + 24 * v[1] - 7 * v[2] + 13 * v[3], -37, 39)
      && Near(w[3], 64, 40 * v[0] + 16 * v[1] - 26 * v[2] - v[3], -61, 92)
  {
    hide Lift, Lower, InverseRotate;
    Lifted(v[0], v[3], 3, 4, 3, 8);
    Lifted(v[1], v[2], 3, 4, 3, 8);
    var a, b := Lift(v[0], v[3], 3, 4, 3), Lift(v[1], v[2], 3, 4, 3);
    Lowered(v[3], a, 1, 0, 1, 2);
    Lowered(v[2], b, 1, 0, 1, 2);
    var d, c := Lower(v[3], a, 1, 0, 1), Lower(v[2], b, 1, 0, 1);
    RotateLaw([-c, -d]);
    var turned := InverseRotate([-c, -d]);
    Lifted(turned[1], a + d, 1, 1, 1, 2);
    Lifted(turned[0], b + c, 1, 1, 1, 2);
  }

  /**
   The four-sample filter, on mirrored sums and differences: sums grow by 383135/262144, differences turn, and
   hardly anything passes from one to the other.
   */
  lemma Overlap4Law(v: seq<int>)
    requires |v| == 4
    ensures var w := InverseOverlap4(v); var s, t, e, d := v[0] + v[3], v[1] + v[2], v[1] - v[2], v[0] - v[3];
      && Near(w[0] + w[3], 524288, 766270 * s - d, -3148586, 2145695)
      && Near(w[1] + w[2], 524288, 766270 * t - e, -3140394, 2137503)
      && Near(w[1] - w[2], 524288, -2 * s + 4 * t + 358722 * e - 179361 * d, -4276269, 4266136)
      && Near(w[0] - w[3], 1048576, 6 * s + 4 * t + 358722 * e + 538083 * d, -8367342, 6743813)
  {
    hide Scaled4, Turned4;
    Scaled4Law(v);
    Turned4Law(Scaled4(v));
  }

  /** The 2-by-2 filter of subsampled chroma, which is the two-sample filter in both directions. */
  lemma Overlap2x2Law(v: seq<int>)
    requires |v| == 4
    ensures var w := InverseOverlap2x2(v);
      && Near(w[0], 65536, 69905 * v[0] + 17476 * v[1] + 17476 * v[2] + 4369 * v[3], -134349, 57890)
      && Near(w[1], 262144, 69905 * v[0] + 279620 * v[1] + 17476 * v[2] + 69905 * v[3], -298189, 287266)
      && Near(w[2], 262144, 69905 * v[0] + 17476 * v[1] + 279620 * v[2] + 69905 * v[3], -298189, 287266)
      && Near(w[3], 65536, 4369 * v[0] + 17476 * v[1] + 17476 * v[2] + 69905 * v[3], -134349, 57890)
  {
    hide Lift, Lower, InverseOverlap2;
    var a, b := v[0] + v[3], v[1] + v[2];
    Lowered(v[3], a, 1, 1, 1, 2);
    Lowered(v[2], b, 1, 1, 1, 2);
    Overlap2Law([a, b]);
    var pair := InverseOverlap2([a, b]);
    Lifted(Lower(v[3], a, 1, 1, 1), pair[0], 1, 1, 1, 2);
    Lifted(Lower(v[2], b, 1, 1, 1), pair[1], 1, 1, 1, 2);
  }
}
