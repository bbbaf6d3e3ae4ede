/**
 The exact lifting operators of JPEG XR sample reconstruction over unbounded integers, each with the
 forward (encoder-side) operator that undoes it. `Shift` is the arithmetic right shift of the source.
 */
module Operators {
  import opened Arithmetic

  /** The operators that act on two or four values. */
  datatype Operator =
    | Hadamard(rounding: nat)
    | Todd
    | ToddOdd
    | ToddOddPost
    | HadamardPost
    | Rotate
    | Scale
    | HalfSum
    | Overlap4
    | Overlap2x2
    | Overlap2
  {
    function Arity(): nat {
      if Rotate? || Scale? || HalfSum? || Overlap2? then 2 else 4
    }

    /** The decoder's inverse operator. */
    function Inverse(v: seq<int>): (w: seq<int>)
      requires |v| == Arity()
      ensures |w| == |v|
    {
      match this
      case Hadamard(rounding) => T2x2h(v, rounding)
      case Todd => InverseTodd(v)
      case ToddOdd => InverseToddOdd(v)
      case ToddOddPost => InverseToddOddPost(v)
      case HadamardPost => InverseHadamardPost(v)
      case Rotate => InverseRotate(v)
      case Scale => InverseScale(v)
      case HalfSum => InverseT2pt(v)
      case Overlap4 => InverseOverlap4(v)
      case Overlap2x2 => InverseOverlap2x2(v)
      case Overlap2 => InverseOverlap2(v)
    }

    /** The encoder's forward operator. */
    function Forward(v: seq<int>): (w: seq<int>)
      requires |v| == Arity()
      ensures |w| == |v|
    {
      match this
      case Hadamard(rounding) => T2x2h(v, rounding)
      case Todd => ForwardTodd(v)
      case ToddOdd => ForwardToddOdd(v)
      case ToddOddPost => ForwardToddOddPost(v)
      case HadamardPost => ForwardHadamardPost(v)
      case Rotate => ForwardRotate(v)
      case Scale => ForwardScale(v)
      case HalfSum => ForwardT2pt(v)
      case Overlap4 => ForwardOverlap4(v)
      case Overlap2x2 => ForwardOverlap2x2(v)
      case Overlap2 => ForwardOverlap2(v)
    }
  }

  // ---- Core-transform operators ----

  function T2x2h(v: seq<int>, rounding: nat): (w: seq<int>)
    requires |v| == 4
    ensures |w| == 4
  {
    var a := v[0] + v[3];
    var b := v[1] - v[2];
    var c := Flip(v[3], a - b, 1, rounding, 1);
    var d := Flip(v[2], a - b, 1, rounding, 1);
    [a - d, b + c, c, d]
  }

  function InverseT2pt(v: seq<int>): (w: seq<int>)
    requires |v| == 2
    ensures |w| == 2
  {
    var a := Lower(v[0], v[1], 1, 1, 1);
    [a, v[1] + a]
  }

  function ForwardT2pt(v: seq<int>): (w: seq<int>)
    requires |v| == 2
    ensures |w| == 2
  {
    var b := v[1] - v[0];
    [Lift(v[0], b, 1, 1, 1), b]
  }

  function InverseTodd(v: seq<int>): (w: seq<int>)
    requires |v| == 4
    ensures |w| == 4
  {
    var b := v[1] + v[3];
    var a := v[0] - v[2];
    var d := Lower(v[3], b, 1, 0, 1);
    var c := Lift(v[2], a, 1, 1, 1);
    var a := Lower(a, b, 3, 4, 3);
    var b := Lift(b, a, 3, 4, 3);
    var c := Lower(c, d, 3, 4, 3);
    var d := Lift(d, c, 3, 4, 3);
    var c := Lower(c, b, 1, 1, 1);
    var d := Flip(d, a, 1, 1, 1);
    [a - d, b + c, c, d]
  }

  function ForwardTodd(v: seq<int>): (w: seq<int>)
    requires |v| == 4
    ensures |w| == 4
  {
    var b := v[1] - v[2];
    var a := v[0] + v[3];
    var c := Lift(v[2], b, 1, 1, 1);
    var d := Flip(v[3], a, 1, 1, 1);
    var d := Lower(d, c, 3, 4, 3);
    var c := Lift(c, d, 3, 4, 3);
    var b := Lower(b, a, 3, 4, 3);
    var a := Lift(a, b, 3, 4, 3);
    var d := Lift(d, b, 1, 0, 1);
    var c := Lower(c, a, 1, 1, 1);
    [a + c, b - d, c, d]
  }

  function InverseToddOdd(v: seq<int>): (w: seq<int>)
    requires |v| == 4
    ensures |w| == 4
  {
    var d := v[3] + v[0];
    var c := v[2] - v[1];
    var a := Lower(v[0], d, 1, 0, 1);
    var b := Lift(v[1], c, 1, 0, 1);
    var a := Lower(a, b, 3, 3, 3);
    var b := Lift(b, a, 3, 3, 2);
    var a := Lower(a, b, 3, 4, 3);
    var b := Lower(b, c, 1, 0, 1);
    var a := Lift(a, d, 1, 0, 1);
    [a, -b, -(c + b), d - a]
  }

  function ForwardToddOdd(v: seq<int>): (w: seq<int>)
    requires |v| == 4
    ensures |w| == 4
  {
    var b := -v[1];
    var c := -v[2] - b;
    var d := v[3] + v[0];
    var a := Lower(v[0], d, 1, 0, 1);
    var b := Lift(b, c, 1, 0, 1);
    var a := Lift(a, b, 3, 4, 3);
    var b := Lower(b, a, 3, 3, 2);
    var a := Lift(a, b, 3, 3, 3);
    var b := Lower(b, c, 1, 0, 1);
    var a := Lift(a, d, 1, 0, 1);
    [a, b, c + b, d - a]
  }

  // ---- Overlap-postfilter operators ----

  function InverseRotate(v: seq<int>): (w: seq<int>)
    requires |v| == 2
    ensures |w| == 2
  {
    var a := Lower(v[0], v[1], 1, 1, 1);
    [a, Lift(v[1], a, 1, 1, 1)]
  }

  function ForwardRotate(v: seq<int>): (w: seq<int>)
    requires |v| == 2
    ensures |w| == 2
  {
    var b := Lower(v[1], v[0], 1, 1, 1);
    [Lift(v[0], b, 1, 1, 1), b]
  }

  function InverseScale(v: seq<int>): (w: seq<int>)
    requires |v| == 2
    ensures |w| == 2
  {
    var a := v[0] + v[1];
    var b := Flip(v[1], a, 1, 0, 1);
    var a := Lift(a, b, 3, 0, 3);
    var b := Lift(b, a, 3, 0, 4);
    var b := Lift(b, a, 1, 0, 7);
    [a, Lower(b, a, 1, 0, 10)]
  }

  function ForwardScale(v: seq<int>): (w: seq<int>)
    requires |v| == 2
    ensures |w| == 2
  {
    var b := Lift(v[1], v[0], 1, 0, 10);
    var b := Lower(b, v[0], 1, 0, 7);
    var b := Lower(b, v[0], 3, 0, 4);
    var a := Lower(v[0], b, 3, 0, 3);
    var b := Flip(b, a, 1, 0, 1);
    [a - b, b]
  }

  function InverseHadamardPost(v: seq<int>): (w: seq<int>)
    requires |v| == 4
    ensures |w| == 4
  {
    var b := v[1] - v[2];
    var a := Lift(v[0], v[3], 3, 4, 3);
    var d := Lower(v[3], b, 1, 0, 1);
    var c := Flip(v[2], a - b, 1, 0, 1);
    [a - c, b + d, d, c]
  }

  function ForwardHadamardPost(v: seq<int>): (w: seq<int>)
    requires |v| == 4
    ensures |w| == 4
  {
    var b := v[1] - v[2];
    var a := v[0] + v[3];
    var c := Flip(v[3], a - b, 1, 0, 1);
    var d := Lift(v[2], b, 1, 0, 1);
    [Lower(a, d, 3, 4, 3), b + c, c, d]
  }

  function InverseToddOddPost(v: seq<int>): (w: seq<int>)
    requires |v| == 4
    ensures |w| == 4
  {
    var d := v[3] + v[0];
    var c := v[2] - v[1];
    var a := Lower(v[0], d, 1, 0, 1);
    var b := Lift(v[1], c, 1, 0, 1);
    var a := Lower(a, b, 3, 6, 3);
    var b := Lift(b, a, 3, 2, 2);
    var a := Lower(a, b, 3, 4, 3);
    var b := Lower(b, c, 1, 0, 1);
    var a := Lift(a, d, 1, 0, 1);
    [a, b, c + b, d - a]
  }

  function ForwardToddOddPost(v: seq<int>): (w: seq<int>)
    requires |v| == 4
    ensures |w| == 4
  {
    var d := v[3] + v[0];
    var c := v[2] - v[1];
    var a := Lower(v[0], d, 1, 0, 1);
    var b := Lift(v[1], c, 1, 0, 1);
    var a := Lift(a, b, 3, 4, 3);
    var b := Lower(b, a, 3, 2, 2);
    var a := Lift(a, b, 3, 6, 3);
    var b := Lower(b, c, 1, 0, 1);
    var a := Lift(a, d, 1, 0, 1);
    [a, b, c + b, d - a]
  }

  /** The butterflies and scalings that open the four-sample filter. */
  function Scaled4(v: seq<int>): (w: seq<int>)
    requires |v| == 4
    ensures |w| == 4
  {
    var a := v[0] + v[3];
    var b := v[1] + v[2];
    var outer := InverseScale([a, Lower(v[3], a, 1, 1, 1)]);
    var inner := InverseScale([b, Lower(v[2], b, 1, 1, 1)]);
    [outer[0], inner[0], inner[1], outer[1]]
  }

  /** The lifting, rotation and butterflies that close it. */
  function Turned4(v: seq<int>): (w: seq<int>)
    requires |v| == 4
    ensures |w| == 4
  {
    var a := Lift(v[0], v[3], 3, 4, 3);
    var b := Lift(v[1], v[2], 3, 4, 3);
    var d := Lower(v[3], a, 1, 0, 1);
    var c := Lower(v[2], b, 1, 0, 1);
    var a := a + d;
    var b := b + c;
    var turned := InverseRotate([-c, -d]);
    var d := Lift(turned[1], a, 1, 1, 1);
    var c := Lift(turned[0], b, 1, 1, 1);
    [a - d, b - c, c, d]
  }

  function InverseOverlap4(v: seq<int>): (w: seq<int>)
    requires |v| == 4
    ensures |w| == 4
  {
    Turned4(Scaled4(v))
  }

  function ForwardOverlap4(v: seq<int>): (w: seq<int>)
    requires |v| == 4
    ensures |w| == 4
  {
    var a := v[0] + v[3];
    var b := v[1] + v[2];
    var turned := ForwardRotate([Lower(v[2], b, 1, 1, 1), Lower(v[3], a, 1, 1, 1)]);
    var c := -turned[0];
    var d := -turned[1];
    var a := a - d;
    var b := b - c;
    var d := Lift(d, a, 1, 0, 1);
    var c := Lift(c, b, 1, 0, 1);
    var outer := ForwardScale([Lower(a, d, 3, 4, 3), d]);
    var inner := ForwardScale([Lower(b, c, 3, 4, 3), c]);
    var d := Lift(outer[1], outer[0], 1, 1, 1);
    var c := Lift(inner[1], inner[0], 1, 1, 1);
    [outer[0] - d, inner[0] - c, c, d]
  }

  function InverseOverlap2(v: seq<int>): (w: seq<int>)
    requires |v| == 2
    ensures |w| == 2
  {
    var b := Lift(v[1], v[0], 1, 2, 2);
    var a := Lift(v[0], b, 1, 1, 1);
    var a := Lift(a, b, 1, 0, 5);
    var a := Lift(a, b, 1, 0, 9);
    var a := Lift(a, b, 1, 0, 13);
    [a, Lift(b, a, 1, 2, 2)]
  }

  function ForwardOverlap2(v: seq<int>): (w: seq<int>)
    requires |v| == 2
    ensures |w| == 2
  {
    var b := Lower(v[1], v[0], 1, 2, 2);
    var a := Lower(v[0], b, 1, 0, 13);
    var a := Lower(a, b, 1, 0, 9);
    var a := Lower(a, b, 1, 0, 5);
    var a := Lower(a, b, 1, 1, 1);
    [a, Lower(b, a, 1, 2, 2)]
  }

  function InverseOverlap2x2(v: seq<int>): (w: seq<int>)
    requires |v| == 4
    ensures |w| == 4
  {
    var a := v[0] + v[3];
    var b := v[1] + v[2];
    var d := Lower(v[3], a, 1, 1, 1);
    var c := Lower(v[2], b, 1, 1, 1);
    var pair := InverseOverlap2([a, b]);
    var d := Lift(d, pair[0], 1, 1, 1);
    var c := Lift(c, pair[1], 1, 1, 1);
    [pair[0] - d, pair[1] - c, c, d]
  }

  function ForwardOverlap2x2(v: seq<int>): (w: seq<int>)
    requires |v| == 4
    ensures |w| == 4
  {
    var a := v[0] + v[3];
    var b := v[1] + v[2];
    var d := Lower(v[3], a, 1, 1, 1);
    var c := Lower(v[2], b, 1, 1, 1);
    var pair := ForwardOverlap2([a, b]);
    var d := Lift(d, pair[0], 1, 1, 1);
    var c := Lift(c, pair[1], 1, 1, 1);
    [pair[0] - d, pair[1] - c, c, d]
  }

  // ---- Reversibility ----

  lemma HadamardReversible(v: seq<int>, rounding: nat)
    requires |v| == 4
    ensures T2x2h(T2x2h(v, rounding), rounding) == v
  {
    hide Shift;
  }

  lemma ToddReversible(v: seq<int>)
    requires |v| == 4
    ensures ForwardTodd(InverseTodd(v)) == v
    ensures InverseTodd(ForwardTodd(v)) == v
  {
    hide Shift;
  }

  lemma ToddOddReversible(v: seq<int>)
    requires |v| == 4
    ensures ForwardToddOdd(InverseToddOdd(v)) == v
    ensures InverseToddOdd(ForwardToddOdd(v)) == v
  {
    hide Shift;
  }

  lemma ToddOddPostReversible(v: seq<int>)
    requires |v| == 4
    ensures ForwardToddOddPost(InverseToddOddPost(v)) == v
    ensures InverseToddOddPost(ForwardToddOddPost(v)) == v
  {
    hide Shift;
  }

  lemma HadamardPostReversible(v: seq<int>)
    requires |v| == 4
    ensures ForwardHadamardPost(InverseHadamardPost(v)) == v
    ensures InverseHadamardPost(ForwardHadamardPost(v)) == v
  {
    hide Shift;
  }

  lemma RotateReversible(v: seq<int>)
    requires |v| == 2
    ensures ForwardRotate(InverseRotate(v)) == v
    ensures InverseRotate(ForwardRotate(v)) == v
  {
    hide Shift;
  }

  lemma ScaleReversible(v: seq<int>)
    requires |v| == 2
    ensures ForwardScale(InverseScale(v)) == v
    ensures InverseScale(ForwardScale(v)) == v
  {
    hide Shift;
  }

  lemma T2ptReversible(v: seq<int>)
    requires |v| == 2
    ensures ForwardT2pt(InverseT2pt(v)) == v
    ensures InverseT2pt(ForwardT2pt(v)) == v
  {
    hide Shift;
  }

  lemma Overlap2Reversible(v: seq<int>)
    requires |v| == 2
    ensures ForwardOverlap2(InverseOverlap2(v)) == v
    ensures InverseOverlap2(ForwardOverlap2(v)) == v
  {
    hide Shift;
  }

  lemma Overlap2x2Reversible(v: seq<int>)
    requires |v| == 4
    ensures ForwardOverlap2x2(InverseOverlap2x2(v)) == v
    ensures InverseOverlap2x2(ForwardOverlap2x2(v)) == v
  {
    hide Shift;
  }

  lemma Overlap4Undone(v: seq<int>)
    requires |v| == 4
    ensures ForwardOverlap4(InverseOverlap4(v)) == v
  {
    hide Shift;
  }

  lemma Overlap4Redone(v: seq<int>)
    requires |v| == 4
    ensures InverseOverlap4(ForwardOverlap4(v)) == v
  {
    hide Shift;
  }

  /** Every operator of the decoder is a bijection on integer vectors, with `Forward` as its two-sided inverse. */
  lemma OperatorReversible(op: Operator, v: seq<int>)
    requires |v| == op.Arity()
    ensures op.Forward(op.Inverse(v)) == v
    ensures op.Inverse(op.Forward(v)) == v
  {
    match op
    case Hadamard(rounding) => HadamardReversible(v, rounding);
    case Todd => ToddReversible(v);
    case ToddOdd => ToddOddReversible(v);
    case ToddOddPost => ToddOddPostReversible(v);
    case HadamardPost => HadamardPostReversible(v);
    case Rotate => RotateReversible(v);
    case Scale => ScaleReversible(v);
    case HalfSum => T2ptReversible(v);
    case Overlap4 => Overlap4Undone(v); Overlap4Redone(v);
    case Overlap2x2 => Overlap2x2Reversible(v);
    case Overlap2 => Overlap2Reversible(v);
  }

  // ---- When the 32-bit operator completes ----

  predicate FitsT2x2h(v: seq<int>, rounding: nat)
    requires |v| == 4
  {
    var a := v[0] + v[3];
    var b := v[1] - v[2];
    && FitsI32(a) && FitsI32(b) && FitsI32(a - b)
    && FlipFits(v[3], a - b, 1, rounding, 1)
    && FlipFits(v[2], a - b, 1, rounding, 1)
    && FitsI32(a - Flip(v[2], a - b, 1, rounding, 1))
    && FitsI32(b + Flip(v[3], a - b, 1, rounding, 1))
  }

  predicate FitsT2pt(v: seq<int>)
    requires |v| == 2
  {
    && LowerFits(v[0], v[1], 1, 1, 1)
    && FitsI32(v[1] + Lower(v[0], v[1], 1, 1, 1))
  }

  predicate FitsTodd(v: seq<int>)
    requires |v| == 4
  {
    var b := v[1] + v[3];
    var a := v[0] - v[2];
    FitsI32(b) && FitsI32(a) &&
    LowerFits(v[3], b, 1, 0, 1) &&
    var d := Lower(v[3], b, 1, 0, 1);
    LiftFits(v[2], a, 1, 1, 1) &&
    var c := Lift(v[2], a, 1, 1, 1);
    LowerFits(a, b, 3, 4, 3) &&
    var a := Lower(a, b, 3, 4, 3);
    LiftFits(b, a, 3, 4, 3) &&
    var b := Lift(b, a, 3, 4, 3);
    LowerFits(c, d, 3, 4, 3) &&
    var c := Lower(c, d, 3, 4, 3);
    LiftFits(d, c, 3, 4, 3) &&
    var d := Lift(d, c, 3, 4, 3);
    LowerFits(c, b, 1, 1, 1) &&
    var c := Lower(c, b, 1, 1, 1);
    FlipFits(d, a, 1, 1, 1) &&
    var d := Flip(d, a, 1, 1, 1);
    FitsI32(b + c) && FitsI32(a - d)
  }

  predicate FitsToddOdd(v: seq<int>)
    requires |v| == 4
  {
    var d := v[3] + v[0];
    var c := v[2] - v[1];
    FitsI32(d) && FitsI32(c) &&
    LowerFits(v[0], d, 1, 0, 1) &&
    var a := Lower(v[0], d, 1, 0, 1);
    LiftFits(v[1], c, 1, 0, 1) &&
    var b := Lift(v[1], c, 1, 0, 1);
    LowerFits(a, b, 3, 3, 3) &&
    var a := Lower(a, b, 3, 3, 3);
    LiftFits(b, a, 3, 3, 2) &&
    var b := Lift(b, a, 3, 3, 2);
    LowerFits(a, b, 3, 4, 3) &&
    var a := Lower(a, b, 3, 4, 3);
    LowerFits(b, c, 1, 0, 1) &&
    var b := Lower(b, c, 1, 0, 1);
    LiftFits(a, d, 1, 0, 1) &&
    var a := Lift(a, d, 1, 0, 1);
    FitsI32(c + b) && FitsI32(d - a) && FitsI32(-b) && FitsI32(-(c + b))
  }

  predicate FitsToddOddPost(v: seq<int>)
    requires |v| == 4
  {
    var d := v[3] + v[0];
    var c := v[2] - v[1];
    FitsI32(d) && FitsI32(c) &&
    LowerFits(v[0], d, 1, 0, 1) &&
    var a := Lower(v[0], d, 1, 0, 1);
    LiftFits(v[1], c, 1, 0, 1) &&
    var b := Lift(v[1], c, 1, 0, 1);
    LowerFits(a, b, 3, 6, 3) &&
    var a := Lower(a, b, 3, 6, 3);
    LiftFits(b, a, 3, 2, 2) &&
    var b := Lift(b, a, 3, 2, 2);
    LowerFits(a, b, 3, 4, 3) &&
    var a := Lower(a, b, 3, 4, 3);
    LowerFits(b, c, 1, 0, 1) &&
    var b := Lower(b, c, 1, 0, 1);
    LiftFits(a, d, 1, 0, 1) &&
    var a := Lift(a, d, 1, 0, 1);
    FitsI32(c + b) && FitsI32(d - a)
  }

  predicate FitsRotate(v: seq<int>)
    requires |v| == 2
  {
    LowerFits(v[0], v[1], 1, 1, 1) && LiftFits(v[1], Lower(v[0], v[1], 1, 1, 1), 1, 1, 1)
  }

  predicate FitsScale(v: seq<int>)
    requires |v| == 2
  {
    var a := v[0] + v[1];
    FitsI32(a) && FlipFits(v[1], a, 1, 0, 1) &&
    var b := Flip(v[1], a, 1, 0, 1);
    LiftFits(a, b, 3, 0, 3) &&
    var a := Lift(a, b, 3, 0, 3);
    LiftFits(b, a, 3, 0, 4) &&
    var b := Lift(b, a, 3, 0, 4);
    LiftFits(b, a, 1, 0, 7) &&
    var b := Lift(b, a, 1, 0, 7);
    LowerFits(b, a, 1, 0, 10)
  }

  predicate FitsHadamardPost(v: seq<int>)
    requires |v| == 4
  {
    var b := v[1] - v[2];
    FitsI32(b) && LiftFits(v[0], v[3], 3, 4, 3) &&
    var a := Lift(v[0], v[3], 3, 4, 3);
    LowerFits(v[3], b, 1, 0, 1) &&
    var d := Lower(v[3], b, 1, 0, 1);
    FitsI32(a - b) && FlipFits(v[2], a - b, 1, 0, 1) &&
    var c := Flip(v[2], a - b, 1, 0, 1);
    FitsI32(a - c) && FitsI32(b + d)
  }

  predicate FitsOverlap2(v: seq<int>)
    requires |v| == 2
  {
    LiftFits(v[1], v[0], 1, 2, 2) &&
    var b := Lift(v[1], v[0], 1, 2, 2);
    LiftFits(v[0], b, 1, 1, 1) &&
    var a := Lift(v[0], b, 1, 1, 1);
    LiftFits(a, b, 1, 0, 5) &&
    var a := Lift(a, b, 1, 0, 5);
    LiftFits(a, b, 1, 0, 9) &&
    var a := Lift(a, b, 1, 0, 9);
    LiftFits(a, b, 1, 0, 13) &&
    var a := Lift(a, b, 1, 0, 13);
    LiftFits(b, a, 1, 2, 2)
  }

  predicate FitsOverlap2x2(v: seq<int>)
    requires |v| == 4
  {
    var a := v[0] + v[3];
    var b := v[1] + v[2];
    FitsI32(a) && FitsI32(b) &&
    LowerFits(v[3], a, 1, 1, 1) &&
    var d := Lower(v[3], a, 1, 1, 1);
    LowerFits(v[2], b, 1, 1, 1) &&
    var c := Lower(v[2], b, 1, 1, 1);
    FitsOverlap2([a, b]) &&
    var pair := InverseOverlap2([a, b]);
    LiftFits(d, pair[0], 1, 1, 1) &&
    var d := Lift(d, pair[0], 1, 1, 1);
    LiftFits(c, pair[1], 1, 1, 1) &&
    var c := Lift(c, pair[1], 1, 1, 1);
    FitsI32(pair[0] - d) && FitsI32(pair[1] - c)
  }

  predicate FitsScaled4(v: seq<int>)
    requires |v| == 4
  {
    var a := v[0] + v[3];
    var b := v[1] + v[2];
    && FitsI32(a) && FitsI32(b)
    && LowerFits(v[3], a, 1, 1, 1)
    && LowerFits(v[2], b, 1, 1, 1)
    && FitsScale([a, Lower(v[3], a, 1, 1, 1)])
    && FitsScale([b, Lower(v[2], b, 1, 1, 1)])
  }

  predicate FitsTurned4(v: seq<int>)
    requires |v| == 4
  {
    LiftFits(v[0], v[3], 3, 4, 3) &&
    var a := Lift(v[0], v[3], 3, 4, 3);
    LiftFits(v[1], v[2], 3, 4, 3) &&
    var b := Lift(v[1], v[2], 3, 4, 3);
    LowerFits(v[3], a, 1, 0, 1) &&
    var d := Lower(v[3], a, 1, 0, 1);
    LowerFits(v[2], b, 1, 0, 1) &&
    var c := Lower(v[2], b, 1, 0, 1);
    var a := a + d;
    var b := b + c;
    FitsI32(a) && FitsI32(b) && FitsI32(-d) && FitsI32(-c) &&
    FitsRotate([-c, -d]) &&
    var turned := InverseRotate([-c, -d]);
    LiftFits(turned[1], a, 1, 1, 1) &&
    var d := Lift(turned[1], a, 1, 1, 1);
    LiftFits(turned[0], b, 1, 1, 1) &&
    var c := Lift(turned[0], b, 1, 1, 1);
    FitsI32(a - d) && FitsI32(b - c)
  }

  predicate FitsOverlap4(v: seq<int>)
    requires |v| == 4
  {
    FitsScaled4(v) && FitsTurned4(Scaled4(v))
  }

  predicate Fits(op: Operator, v: seq<int>)
    requires |v| == op.Arity()
  {
    match op
    case Hadamard(rounding) => FitsT2x2h(v, rounding)
    case Todd => FitsTodd(v)
    case ToddOdd => FitsToddOdd(v)
    case ToddOddPost => FitsToddOddPost(v)
    case HadamardPost => FitsHadamardPost(v)
    case Rotate => FitsRotate(v)
    case Scale => FitsScale(v)
    case HalfSum => FitsT2pt(v)
    case Overlap4 => FitsOverlap4(v)
    case Overlap2x2 => FitsOverlap2x2(v)
    case Overlap2 => FitsOverlap2(v)
  }

  /**
   The Hadamard operator undoes itself in 32 bits too: where it completes on words, it completes on
   its own result, which it takes back to the words it started from.
   */
  lemma CheckedHadamardInvolutive(v: seq<i32>, rounding: nat)
    requires |v| == 4 && FitsT2x2h(v, rounding)
    ensures FitsT2x2h(T2x2h(v, rounding), rounding)
    ensures T2x2h(T2x2h(v, rounding), rounding) == v
  {
    hide ShiftRight;
  }
}
