/** Output of BD32F samples: a sign-magnitude number with its own exponent width and bias becomes a binary32 word. */
module Binary32 {
  import opened Wrappers
  import opened Arithmetic

  const EXPONENT_UNIT: nat := 0x80_0000
  const SIGN_UNIT: nat := 0x8000_0000

  /** Two to an integer power. */
  function Pow2(x: int): (p: real)
    ensures p > 0.0
    decreases if x < 0 then -x else x
  {
    if x == 0 then 1.0
    else if x > 0 then 2.0 * Pow2(x - 1)
    else Pow2(x + 1) / 2.0
  }

  lemma Pow2Next(x: int)
    ensures Pow2(x + 1) == 2.0 * Pow2(x)
  {}

  lemma {:induction false} Pow2Add(x: int, n: nat)
    ensures Pow2(x + n) == Power2(n) as real * Pow2(x)
    decreases n
  {
    if n > 0 {
      Pow2Add(x, n - 1);
      Pow2Next(x + n - 1);
      assert x + n - 1 + 1 == x + n && x + (n - 1) == x + n - 1;
      hide Pow2;
      Scaling(Power2(n - 1), Pow2(x));
    }
  }

  lemma Scaling(a: nat, b: real)
    ensures (2 * a) as real * b == 2.0 * (a as real * b)
  {}

  lemma {:induction false} Pow2Monotone(x: int, y: int)
    requires x <= y
    ensures Pow2(x) <= Pow2(y)
    decreases y - x
  {
    if x < y {
      Pow2Next(y - 1);
      Pow2Monotone(x, y - 1);
    }
  }

  // ---- What the words denote ----

  /** The magnitude of a BD32F sample: `length` fraction bits below an exponent of the given bias. */
  function SourceMagnitude(magnitude: nat, length: nat, bias: int): real {
    var exponent, fraction := magnitude / Power2(length), magnitude % Power2(length);
    if exponent == 0 then fraction as real * Pow2(1 - bias - length)
    else (Power2(length) + fraction) as real * Pow2(exponent - bias - length)
  }

  function ExponentField(bits: nat): nat {
    bits / EXPONENT_UNIT % 256
  }

  function FractionField(bits: nat): nat {
    bits % EXPONENT_UNIT
  }

  predicate SignField(bits: nat) {
    bits >= SIGN_UNIT
  }

  /** The magnitude of a finite binary32 word, subnormal when its exponent field is zero. */
  function WordMagnitude(bits: nat): real
    requires ExponentField(bits) <= 254
  {
    if ExponentField(bits) == 0 then FractionField(bits) as real * Pow2(-149)
    else (EXPONENT_UNIT + FractionField(bits)) as real * Pow2(ExponentField(bits) - 150)
  }

  // ---- The conversion ----

  /** A mantissa below `2 * Power2(length)` with its exponent, biased as in binary32. */
  function Scaled(mantissa: nat, exponent: int, length: nat): real {
    mantissa as real * Pow2(exponent - 127 - length)
  }

  lemma Doubled(mantissa: nat, exponent: int, length: nat)
    ensures Scaled(mantissa * 2, exponent - 1, length) == Scaled(mantissa, exponent, length)
  {
    Pow2Next(exponent - 1 - 127 - length);
  }

  /** A mantissa moved up to 23 fraction bits. */
  lemma Widened(mantissa: nat, exponent: int, length: nat)
    requires length <= 23
    ensures (mantissa * Power2(23 - length)) as real * Pow2(exponent - 150) == Scaled(mantissa, exponent, length)
  {
    hide Pow2, Power2;
    Pow2Add(exponent - 150, 23 - length);
    assert exponent - 150 + (23 - length) == exponent - 127 - length;
    Regroup(mantissa, Power2(23 - length), Pow2(exponent - 150));
  }

  lemma Regroup(a: nat, b: nat, c: real)
    ensures (a * b) as real * c == a as real * (b as real * c)
  {}

  lemma {:induction false} Power2Split(a: nat, b: nat)
    ensures Power2(a + b) == Power2(a) * Power2(b)
    decreases a
  {
    if a > 0 {
      Power2Split(a - 1, b);
    }
  }

  /** Splits a magnitude and removes the bias, as the loop begins. */
  lemma StartValue(magnitude: nat, length: nat, bias: int)
    ensures var e, m := magnitude / Power2(length), magnitude % Power2(length);
      SourceMagnitude(magnitude, length, bias) ==
        if e == 0 then Scaled(m, 1 - bias + 127, length) else Scaled(Power2(length) + m, e - bias + 127, length)
  {
    hide Pow2, Power2;
    var e := magnitude / Power2(length);
    assert 1 - bias + 127 - 127 - length == 1 - bias - length;
    assert e - bias + 127 - 127 - length == e - bias - length;
  }

  /** A mantissa with its leading bit: the value lies in the binade of its exponent. */
  lemma NormalRange(mantissa: nat, exponent: int, length: nat, bound: int)
    requires Power2(length) <= mantissa < 2 * Power2(length)
    ensures Scaled(mantissa, exponent, length) < Pow2(bound) <==> exponent - 126 <= bound
  {
    var unit := Pow2(exponent - 127 - length);
    Pow2Add(exponent - 127 - length, length);
    Pow2Next(exponent - 127);
    hide Pow2, Power2;
    assert exponent - 127 - length + length == exponent - 127 && exponent - 127 + 1 == exponent - 126;
    assert Power2(length) as real * unit == Pow2(exponent - 127);
    assert 2.0 * (Power2(length) as real * unit) == Pow2(exponent - 126);
    Between(mantissa, Power2(length), unit);
    if exponent - 126 <= bound {
      Pow2Monotone(exponent - 126, bound);
      assert mantissa as real * unit < Pow2(bound);
    } else {
      Pow2Monotone(bound, exponent - 127);
      assert mantissa as real * unit >= Pow2(bound);
    }
  }

  lemma Between(m: nat, p: nat, unit: real)
    requires p <= m < 2 * p && unit > 0.0
    ensures p as real * unit <= m as real * unit < 2.0 * (p as real * unit)
  {
    assert (2 * p) as real * unit == 2.0 * (p as real * unit);
    assert (2 * p - m) as real * unit > 0.0;
    assert (m - p) as real * unit >= 0.0;
  }

  /** For a sample with a non-zero exponent a range is a bound on its rebiased exponent. */
  lemma RangeByExponent(magnitude: nat, length: nat, bias: int, bound: int)
    requires magnitude >= Power2(length)
    ensures SourceMagnitude(magnitude, length, bias) < Pow2(bound) <==> magnitude / Power2(length) - bias + 1 <= bound
  {
    hide Pow2, Power2, Scaled, SourceMagnitude;
    StartValue(magnitude, length, bias);
    assert magnitude / Power2(length) >= 1 by { AtLeastOne(magnitude, Power2(length)); }
    NormalRange(Power2(length) + magnitude % Power2(length), magnitude / Power2(length) - bias + 127, length, bound);
  }

  lemma AtLeastOne(a: nat, b: nat)
    requires a >= b > 0
    ensures a / b >= 1
  {
    DivisionUnique(a - b, b, (a - b) / b, (a - b) % b);
    DivisionUnique(a, b, (a - b) / b + 1, (a - b) % b);
  }

  lemma SubnormalRange(mantissa: nat, length: nat)
    requires mantissa < Power2(length)
    ensures Scaled(mantissa, 1, length) < Pow2(128) < Pow2(129)
  {
    hide Pow2, Power2;
    Pow2Add(-126 - length, length);
    assert 1 - 127 - length == -126 - length && -126 - length + length == -126;
    Pow2Monotone(-126, 128);
    Pow2Next(128);
    Below(mantissa, Power2(length), Pow2(-126 - length));
  }

  lemma Below(m: nat, p: nat, unit: real)
    requires m < p && unit > 0.0
    ensures m as real * unit < p as real * unit
  {
    assert (p - m) as real * unit > 0.0;
  }

  lemma ScaledZero(exponent: int, length: nat)
    ensures Scaled(0, exponent, length) == 0.0
  {}

  // ---- The word ----

  function Word(sign: bool, exponent: nat, fraction: nat): nat {
    (if sign then SIGN_UNIT else 0) + exponent * EXPONENT_UNIT + fraction
  }

  lemma Fields(sign: bool, exponent: nat, fraction: nat)
    requires exponent <= 255 && fraction < EXPONENT_UNIT
    ensures var bits := Word(sign, exponent, fraction);
      ExponentField(bits) == exponent && FractionField(bits) == fraction && (SignField(bits) <==> sign)
  {}

  lemma Top23(length: nat)
    requires length <= 23
    ensures Power2(length) * Power2(23 - length) == EXPONENT_UNIT
  {
    Power2Split(length, 23 - length);
    hide Power2;
    assert Power2(23) == EXPONENT_UNIT by { TwentyThree(); }
  }

  lemma TwentyThree()
    ensures Power2(23) == EXPONENT_UNIT
  {
    assert Power2(8) == 256;
    Power2Split(8, 8);
    assert Power2(7) == 128;
    Power2Split(16, 7);
  }

  /** The word of a mantissa with its leading bit. */
  lemma NormalWord(sign: bool, mantissa: nat, exponent: nat, length: nat)
    requires length <= 23 && Power2(length) <= mantissa < 2 * Power2(length) && 1 <= exponent <= 255
    ensures var fraction := (mantissa - Power2(length)) * Power2(23 - length); var bits := Word(sign, exponent, fraction);
      && fraction < EXPONENT_UNIT && ExponentField(bits) == exponent && (SignField(bits) <==> sign)
      && (exponent <= 254 ==> WordMagnitude(bits) == Scaled(mantissa, exponent, length))
  {
    hide Pow2, Power2, Scaled;
    Top23(length);
    var rest, unit := mantissa - Power2(length), Power2(23 - length);
    Distribute(Power2(length), rest, unit);
    ProductBelow(rest, Power2(length), unit);
    Fields(sign, exponent, rest * unit);
    Widened(mantissa, exponent, length);
    hide ExponentField, FractionField, SignField;
  }

  lemma Distribute(a: nat, b: nat, c: nat)
    ensures (a + b) * c == a * c + b * c
  {}

  lemma ProductBelow(a: nat, b: nat, c: nat)
    requires a < b && c > 0
    ensures a * c < b * c
  {}

  /** The word of a mantissa without a leading bit, at the smallest exponent or zero. */
  lemma SmallWord(sign: bool, mantissa: nat, exponent: int, length: nat)
    requires length <= 23 && mantissa < Power2(length) && (exponent == 1 || mantissa == 0)
    ensures var fraction := mantissa * Power2(23 - length); var bits := Word(sign, 0, fraction);
      && fraction < EXPONENT_UNIT && ExponentField(bits) == 0 && (SignField(bits) <==> sign)
      && WordMagnitude(bits) == Scaled(mantissa, exponent, length) < Pow2(128) < Pow2(129)
  {
    hide Pow2, Power2, Scaled;
    Top23(length);
    ProductBelow(mantissa, Power2(length), Power2(23 - length));
    Fields(sign, 0, mantissa * Power2(23 - length));
    Widened(mantissa, 1, length);
    SubnormalRange(mantissa, length);
    ScaledZero(exponent, length);
    ScaledZero(1, length);
    hide ExponentField, FractionField, SignField;
  }

  function Magnitude(sample: i32): nat {
    if sample < 0 then -(sample as int) else sample
  }

  /** The mantissa and unbiased exponent of a sample's fields, as the loop begins. */
  method SplitFields(magnitude: nat, length: nat, bias: int) returns (mantissa: nat, exponent: int)
    requires bias <= 127
    ensures mantissa < 2 * Power2(length) && exponent >= 1
    ensures Scaled(mantissa, exponent, length) == SourceMagnitude(magnitude, length, bias)
  {
    hide Pow2, Power2, Scaled, SourceMagnitude;
    var implicit := Power2(length);
    StartValue(magnitude, length, bias);
    exponent := magnitude / implicit;
    mantissa := magnitude % implicit + implicit;
    if exponent == 0 {
      mantissa := mantissa - implicit;
      exponent := 1;
    }
    exponent := exponent - bias + 127;
  }

  /** Shifts a mantissa without its leading bit up while the exponent allows. */
  method Normalise(start: nat, startExponent: int, length: nat) returns (mantissa: nat, exponent: int)
    requires start < 2 * Power2(length) && startExponent >= 1
    ensures mantissa < 2 * Power2(length) && exponent >= 1
    ensures mantissa < Power2(length) ==> exponent == 1 || mantissa == 0
    ensures Scaled(mantissa, exponent, length) == Scaled(start, startExponent, length)
  {
    hide Pow2, Power2, Scaled;
    mantissa, exponent := start, startExponent;
    while mantissa < Power2(length) && exponent > 1 && mantissa > 0
      invariant 1 <= exponent && mantissa < 2 * Power2(length)
      invariant Scaled(mantissa, exponent, length) == Scaled(start, startExponent, length)
      decreases exponent
    {
      Doubled(mantissa, exponent, length);
      exponent := exponent - 1;
      mantissa := mantissa * 2;
    }
  }

  /** The word of a normalised mantissa; the source's last check on the fraction never fires. */
  method Assemble(sign: bool, mantissa: nat, exponent: int, length: nat) returns (r: Option<nat>)
    requires length <= 23 && mantissa < 2 * Power2(length) && exponent >= 1
    requires mantissa < Power2(length) ==> exponent == 1 || mantissa == 0
    ensures r.Some? <==> Scaled(mantissa, exponent, length) < Pow2(129)
    ensures r.Some? && ExponentField(r.value) <= 254 <==> Scaled(mantissa, exponent, length) < Pow2(128)
    ensures r.Some? ==> ExponentField(r.value) <= 255
    ensures r.Some? && ExponentField(r.value) <= 254 ==>
      WordMagnitude(r.value) == Scaled(mantissa, exponent, length) && (SignField(r.value) <==> sign)
  {
    hide Pow2, Power2, Scaled, WordMagnitude, ExponentField, SignField, Word;
    var fraction, field := mantissa, exponent;
    if mantissa < Power2(length) {
      SmallWord(sign, mantissa, exponent, length);
      field := 0;
    } else {
      NormalRange(mantissa, exponent, length, 128);
      NormalRange(mantissa, exponent, length, 129);
      if exponent <= 255 {
        NormalWord(sign, mantissa, exponent, length);
      }
      fraction := mantissa - Power2(length);
    }
    fraction := fraction * Power2(23 - length);
    if field < 0 || field > 255 || fraction >= EXPONENT_UNIT {
      return None;
    }
    return Some(Word(sign, field, fraction));
  }

  /**
   The word of a sample. It denotes exactly the sample's number whenever that is in the range of binary32.
   A number in the binade above that range gets a word with all exponent bits set, which denotes no number;
   only still larger ones are refused.
   */
  method F32Bits(sample: i32, length: nat, bias: int) returns (r: Option<nat>)
    requires length <= 23 && -128 <= bias <= 127
    ensures r.None? <==> SourceMagnitude(Magnitude(sample), length, bias) >= Pow2(129)
    ensures r.Some? && ExponentField(r.value) <= 254 <==> SourceMagnitude(Magnitude(sample), length, bias) < Pow2(128)
    ensures r.Some? && ExponentField(r.value) <= 254 ==>
      && WordMagnitude(r.value) == SourceMagnitude(Magnitude(sample), length, bias)
      && (SignField(r.value) <==> sample < 0)
    ensures Pow2(128) <= SourceMagnitude(Magnitude(sample), length, bias) < Pow2(129) ==>
      r.Some? && ExponentField(r.value) == 255
  {
    hide Pow2, Power2, Scaled, SourceMagnitude, WordMagnitude, ExponentField, SignField;
    var start, startExponent := SplitFields(Magnitude(sample), length, bias);
    var mantissa, exponent := Normalise(start, startExponent, length);
    r := Assemble(sample < 0, mantissa, exponent, length);
  }

  /** What a caller can tell from a sample's fields: which words are numbers, which are not, and what is refused. */
  lemma OutcomeByExponent(magnitude: nat, length: nat, bias: int)
    requires magnitude >= Power2(length)
    ensures var rebiased, value := magnitude / Power2(length) - bias + 127, SourceMagnitude(magnitude, length, bias);
      && (value < Pow2(128) <==> rebiased <= 254)
      && (Pow2(128) <= value < Pow2(129) <==> rebiased == 255)
      && (value >= Pow2(129) <==> rebiased > 255)
  {
    hide Pow2, Power2, SourceMagnitude;
    RangeByExponent(magnitude, length, bias, 128);
    RangeByExponent(magnitude, length, bias, 129);
  }

  /** With ten fraction bits and no bias the sample 131072 gets a word that is no number. */
  lemma NotRefused()
    ensures Pow2(128) <= SourceMagnitude(131072, 10, 0) < Pow2(129)
  {
    hide Pow2, SourceMagnitude;
    assert Power2(10) == 1024;
    OutcomeByExponent(131072, 10, 0);
  }
}
