/** Checked 32-bit arithmetic with the overflow behaviour of the source. */
module Arithmetic {
  const I32_MIN := -0x8000_0000
  const I32_MAX := 0x7FFF_FFFF

  type i32 = x: int | I32_MIN <= x <= I32_MAX

  predicate FitsI32(value: int) {
    -0x8000_0000 <= value <= 0x7FFF_FFFF
  }

  /** Whether an in-place operator completed. */
  datatype Outcome = Done | Overflow {
    predicate IsFailure() {
      Overflow?
    }

    function PropagateFailure(): Outcome
      requires IsFailure()
    {
      Overflow
    }
  }

  /** The result of one checked operation. */
  datatype Checked = Value(value: i32) | Overflowed {
    predicate IsFailure() {
      Overflowed?
    }

    function PropagateFailure(): Outcome
      requires IsFailure()
    {
      Overflow
    }

    function Extract(): i32
      requires Value?
    {
      value
    }
  }

  function CheckedI32(exact: int): Checked {
    if FitsI32(exact) then Value(exact) else Overflowed
  }

  function CheckedAdd(left: i32, right: i32): (r: Checked)
    ensures r.Value? <==> FitsI32(left + right)
    ensures r.Value? ==> r.value == left + right
  {
    CheckedI32(left + right)
  }

  function CheckedSub(left: i32, right: i32): (r: Checked)
    ensures r.Value? <==> FitsI32(left - right)
    ensures r.Value? ==> r.value == left - right
  {
    CheckedI32(left - right)
  }

  function CheckedMul(left: i32, right: i32): (r: Checked)
    ensures r.Value? <==> FitsI32(left * right)
    ensures r.Value? ==> r.value == left * right
  {
    CheckedI32(left * right)
  }

  function CheckedNeg(value: i32): (r: Checked)
    ensures r.Value? <==> FitsI32(-(value as int))
    ensures r.Value? ==> r.value == -(value as int)
  {
    CheckedI32(-(value as int))
  }

  function Power2(bits: nat): (p: nat)
    ensures p > 0
  {
    if bits == 0 then 1 else 2 * Power2(bits - 1)
  }

  /** Arithmetic right shift: division by a power of two, rounded toward negative infinity. */
  function ShiftRight(value: int, bits: nat): int {
    value / Power2(bits)
  }

  /** The shifted multiple `(y * multiplier + bias) >> bits` of a lifting step. */
  function Shift(y: int, multiplier: nat, bias: int, bits: nat): int {
    ShiftRight(y * multiplier + bias, bits)
  }

  lemma {:induction false} ShiftRange(value: int, bits: nat)
    ensures var r := ShiftRight(value, bits); if value < 0 then value <= r < 0 else 0 <= r <= value
    decreases bits
  {
    if bits != 0 {
      ShiftRange(value, bits - 1);
      ShiftOnce(value, Power2(bits - 1));
    }
  }

  lemma ShiftOnce(value: int, p: nat)
    requires p > 0
    ensures value / (2 * p) == value / p / 2
  {
    var q := value / p;
    var r := value % p;
    DivisionUnique(value, 2 * p, q / 2, r + p * (q % 2));
  }

  lemma DivisionUnique(value: int, divisor: nat, quotient: int, rest: nat)
    requires rest < divisor
    requires value == divisor * quotient + rest
    ensures value / divisor == quotient
  {
    var k := value / divisor - quotient;
    assert divisor * k == rest - value % divisor;
    MultipleAtLeast(divisor, k);
  }

  lemma MultipleAtLeast(divisor: nat, k: int)
    ensures k >= 1 ==> divisor * k >= divisor
    ensures k <= -1 ==> divisor * k + divisor <= 0
  {
    if k >= 1 {
      assert divisor * k == divisor + divisor * (k - 1);
    } else if k <= -1 {
      assert divisor * k == divisor * (k + 1) - divisor;
    }
  }

  /** What a shift by few bits does to the magnitude. */
  predicate Quotient(value: int, shifted: int, bits: nat) {
    && (bits == 1 ==> 2 * shifted <= value < 2 * shifted + 2)
    && (bits == 2 ==> 4 * shifted <= value < 4 * shifted + 4)
    && (bits == 3 ==> 8 * shifted <= value < 8 * shifted + 8)
    && (bits == 4 ==> 16 * shifted <= value < 16 * shifted + 16)
    && if value < 0 then value <= shifted < 0 else 0 <= shifted <= value
  }

  lemma ShiftQuotient(value: int, bits: nat)
    ensures Quotient(value, ShiftRight(value, bits), bits)
  {
    ShiftRange(value, bits);
    if 1 <= bits <= 4 {
      FloorDivision(value, Power2(bits));
      assert Power2(1) == 2 && Power2(2) == 4 && Power2(3) == 8 && Power2(4) == 16;
    }
  }

  lemma FloorDivision(value: int, divisor: nat)
    requires divisor > 0
    ensures divisor * (value / divisor) <= value < divisor * (value / divisor) + divisor
  {}

  function CheckedShift(y: i32, multiplier: nat, bias: nat, bits: nat): (r: Checked)
    requires multiplier <= I32_MAX && bias <= I32_MAX
    ensures r.Value? <==> ShiftFits(y, multiplier, bias)
    ensures r.Value? ==> r.value == Shift(y, multiplier, bias, bits)
  {
    match CheckedMul(y, multiplier)
    case Overflowed => Overflowed
    case Value(product) =>
      match CheckedAdd(product, bias)
      case Overflowed => Overflowed
      case Value(sum) =>
        ShiftRange(sum, bits);
        Value(ShiftRight(sum, bits))
  }

  predicate ShiftFits(y: int, multiplier: nat, bias: nat) {
    FitsI32(y * multiplier) && FitsI32(y * multiplier + bias)
  }

  // ---- Lifting steps ----

  /** Adds the shifted multiple of `y` to `x`. */
  function Lift(x: int, y: int, multiplier: nat, bias: nat, bits: nat): int {
    x + Shift(y, multiplier, bias, bits)
  }

  predicate LiftFits(x: int, y: int, multiplier: nat, bias: nat, bits: nat) {
    ShiftFits(y, multiplier, bias) && FitsI32(Lift(x, y, multiplier, bias, bits))
  }

  function CheckedLift(x: i32, y: i32, multiplier: nat, bias: nat, bits: nat): (r: Checked)
    requires multiplier <= I32_MAX && bias <= I32_MAX
    ensures r.Value? <==> LiftFits(x, y, multiplier, bias, bits)
    ensures r.Value? ==> r.value == Lift(x, y, multiplier, bias, bits)
  {
    match CheckedShift(y, multiplier, bias, bits)
    case Overflowed => Overflowed
    case Value(amount) => CheckedAdd(x, amount)
  }

  /** Takes the shifted multiple of `y` away from `x`. */
  function Lower(x: int, y: int, multiplier: nat, bias: nat, bits: nat): int {
    x - Shift(y, multiplier, bias, bits)
  }

  predicate LowerFits(x: int, y: int, multiplier: nat, bias: nat, bits: nat) {
    ShiftFits(y, multiplier, bias) && FitsI32(Lower(x, y, multiplier, bias, bits))
  }

  function CheckedLower(x: i32, y: i32, multiplier: nat, bias: nat, bits: nat): (r: Checked)
    requires multiplier <= I32_MAX && bias <= I32_MAX
    ensures r.Value? <==> LowerFits(x, y, multiplier, bias, bits)
    ensures r.Value? ==> r.value == Lower(x, y, multiplier, bias, bits)
  {
    match CheckedShift(y, multiplier, bias, bits)
    case Overflowed => Overflowed
    case Value(amount) => CheckedSub(x, amount)
  }

  /** Takes `x` away from the shifted multiple of `y`. */
  function Flip(x: int, y: int, multiplier: nat, bias: nat, bits: nat): int {
    Shift(y, multiplier, bias, bits) - x
  }

  predicate FlipFits(x: int, y: int, multiplier: nat, bias: nat, bits: nat) {
    ShiftFits(y, multiplier, bias) && FitsI32(Flip(x, y, multiplier, bias, bits))
  }

  function CheckedFlip(x: i32, y: i32, multiplier: nat, bias: nat, bits: nat): (r: Checked)
    requires multiplier <= I32_MAX && bias <= I32_MAX
    ensures r.Value? <==> FlipFits(x, y, multiplier, bias, bits)
    ensures r.Value? ==> r.value == Flip(x, y, multiplier, bias, bits)
  {
    match CheckedShift(y, multiplier, bias, bits)
    case Overflowed => Overflowed
    case Value(amount) => CheckedSub(amount, x)
  }

  // ---- Magnitudes ----

  predicate Small(value: int, bound: nat) {
    -(bound as int) <= value <= bound
  }

  lemma ShiftSmall(y: int, multiplier: nat, bias: nat, bits: nat, boundY: nat, bound: nat)
    requires Small(y, boundY) && multiplier <= 3 && bias <= 6
    requires bits < 1 || bits > 4 ==> bound >= boundY * multiplier + bias
    requires bits == 1 ==> 2 * bound >= boundY * multiplier + bias + 1
    requires bits == 2 ==> 4 * bound >= boundY * multiplier + bias + 3
    requires bits == 3 ==> 8 * bound >= boundY * multiplier + bias + 7
    requires bits == 4 ==> 16 * bound >= boundY * multiplier + bias + 15
    ensures Small(Shift(y, multiplier, bias, bits), bound)
    ensures boundY * 3 + 6 <= I32_MAX ==> ShiftFits(y, multiplier, bias)
  {
    assert Small(y * multiplier, boundY * multiplier) && y * multiplier + bias <= boundY * 3 + 6;
    ShiftQuotient(y * multiplier + bias, bits);
  }

  /** A lifting step grows its operand by the shifted multiple, rounded up. */
  lemma Grow(x: int, y: int, multiplier: nat, bias: nat, bits: nat, boundX: nat, boundY: nat, growth: nat)
    requires Small(x, boundX) && Small(y, boundY) && multiplier <= 3 && bias <= 6
    requires boundY * 3 + 6 <= I32_MAX && boundX + growth <= I32_MAX
    requires bits < 1 || bits > 4 ==> growth >= boundY * multiplier + bias
    requires bits == 1 ==> 2 * growth >= boundY * multiplier + bias + 1
    requires bits == 2 ==> 4 * growth >= boundY * multiplier + bias + 3
    requires bits == 3 ==> 8 * growth >= boundY * multiplier + bias + 7
    requires bits == 4 ==> 16 * growth >= boundY * multiplier + bias + 15
    ensures LiftFits(x, y, multiplier, bias, bits)
    ensures LowerFits(x, y, multiplier, bias, bits)
    ensures FlipFits(x, y, multiplier, bias, bits)
    ensures Small(Lift(x, y, multiplier, bias, bits), boundX + growth)
    ensures Small(Lower(x, y, multiplier, bias, bits), boundX + growth)
    ensures Small(Flip(x, y, multiplier, bias, bits), boundX + growth)
  {
    ShiftSmall(y, multiplier, bias, bits, boundY, growth);
    hide Shift;
  }
}
