/** The exact reference of the single-precision operations: round the exact result once. */
module FpReference {
  import opened Prelude
  import opened Binary32
  import opened PowersOfTwo

  const MIN_NORMAL_EXP := -126
  const FRAC_BITS := 23

  /** Exact value of a finite single. */
  function Value(x: Word): real {
    var mag := if ExponentField(x) == 0
               then Scaled(FractionField(x) as real, MIN_NORMAL_EXP - FRAC_BITS)
               else Scaled((0x80_0000 + FractionField(x)) as real, ExponentField(x) - 127 - FRAC_BITS);
    if Negative(x) then -mag else mag
  }

  /** Rounds a non-negative magnitude to an integer. */
  function RoundInt(q: real, negative: bool, rm: RoundingMode): (n: nat)
    requires q >= 0.0
    ensures q - 1.0 < n as real < q + 1.0
    ensures q == q.Floor as real ==> n == q.Floor
  {
    var floor := q.Floor;
    var rem := q - floor as real;
    if rem == 0.0 then floor
    else match rm
      case RNE => if rem > 0.5 || (rem == 0.5 && floor % 2 == 1) then floor + 1 else floor
      case RTZ => floor
      case RDN => if negative then floor + 1 else floor
      case RUP => if negative then floor else floor + 1
      case RMM => if rem >= 0.5 then floor + 1 else floor
  }

  /** e is floor(log2(mag)). */
  predicate IsExponent(mag: real, e: int) {
    Scaled(1.0, e) <= mag < Scaled(1.0, e + 1)
  }

  lemma {:induction false} ExponentBetween(mag: real, low: int, steps: nat) returns (e: int)
    requires Scaled(1.0, low) <= mag < Scaled(1.0, low + steps)
    ensures IsExponent(mag, e)
    decreases steps
  {
    if mag < Scaled(1.0, low + 1) {
      e := low;
    } else {
      assert low + 0 == low;
      assert low + 1 + (steps - 1) == low + steps;
      e := ExponentBetween(mag, low + 1, steps - 1);
    }
  }

  lemma {:induction false} NaturalBelowPow2(n: nat)
    ensures n < Pow2(n)
  {
    if n > 0 {
      NaturalBelowPow2(n - 1);
    }
  }

  lemma {:induction false} NaturalBelowScaled(n: nat)
    ensures n as real < Scaled(1.0, n)
  {
    NaturalBelowPow2(n);
    ScaledNat(1, n);
    ShlOne(n);
  }

  lemma ExponentExists(mag: real) returns (e: int)
    requires mag > 0.0
    ensures IsExponent(mag, e)
  {
    hide Scaled;
    var up, down := mag.Floor + 1, (1.0 / mag).Floor + 1;
    NaturalBelowScaled(up);
    NaturalBelowScaled(down);
    assert Scaled(1.0, -down) <= mag by {
      ScaledFactor(1.0, mag, down);
      LargerFactor(mag, 1.0 / mag, Scaled(1.0, down), 1.0);
      ScaledTwice(mag, down, -down);
      ScaledZero(mag);
      ScaledOrder(Scaled(mag, down), 1.0, -down);
    }
    assert -down + (up + down) == up;
    e := ExponentBetween(mag, -down, up + down);
  }

  lemma ScaledZero(x: real)
    ensures Scaled(x, 0) == x
  {
  }

  lemma LargerFactor(mag: real, r: real, s: real, p: real)
    requires mag > 0.0 && r * mag == p && s > r
    ensures s * mag > p
  {
    PositiveProduct(s - r, mag);
    Distribute(r, s - r, s, mag);
  }

  lemma Distribute(x: real, y: real, sum: real, z: real)
    requires sum == x + y
    ensures sum * z == x * z + y * z
  {
  }

  lemma PositiveProduct(x: real, y: real)
    requires x > 0.0 && y > 0.0
    ensures x * y > 0.0
  {
  }

  lemma ExponentUnique(mag: real, e: int, e': int)
    requires IsExponent(mag, e) && IsExponent(mag, e')
    ensures e == e'
  {
    hide Scaled;
    if e < e' {
      ScaledMonotone(1.0, e + 1, e');
    } else if e' < e {
      ScaledMonotone(1.0, e' + 1, e);
    }
  }

  /** floor(log2(mag)). */
  ghost function Exponent(mag: real): (e: int)
    requires mag > 0.0
    ensures IsExponent(mag, e)
  {
    assert exists e :: IsExponent(mag, e) by {
      var e := ExponentExists(mag);
    }
    var e :| IsExponent(mag, e);
    e
  }

  /** Rounds a nonzero exact value to a single, with tininess detected after rounding. */
  ghost function RoundToSingle(exact: real, rm: RoundingMode): Rounded
    requires exact != 0.0
  {
    var negative := exact < 0.0;
    var mag := if negative then -exact else exact;
    var e0 := Exponent(mag);
    ScaledOrder(mag, 0.0, FRAC_BITS - e0);
    var m0 := RoundInt(Scaled(mag, FRAC_BITS - e0), negative, rm);
    var carry := m0 == 0x100_0000;
    var m := if carry then m0 / 2 else m0;
    var e := if carry then e0 + 1 else e0;
    if e < MIN_NORMAL_EXP then
      ScaledOrder(mag, 0.0, FRAC_BITS - MIN_NORMAL_EXP);
      var q := Scaled(mag, FRAC_BITS - MIN_NORMAL_EXP);
      var sub := RoundInt(q, negative, rm);
      var inexact := sub as real != q;
      Rounded(SignBits(negative) + sub, Flags(false, false, false, inexact, inexact))
    else if e > 127 then
      var toMax := rm == RTZ || (rm == RDN && !negative) || (rm == RUP && negative);
      Rounded(SignBits(negative) + (if toMax then LARGEST_FINITE else INFINITY), Flags(false, false, true, false, true))
    else
      var inexact := Scaled(m as real, e - FRAC_BITS) != mag;
      Rounded(SignBits(negative) + (e + 127) * 0x80_0000 + m % 0x80_0000, Flags(false, false, false, false, inexact))
  }

  /** Finite singles other than the zeros have nonzero values. */
  lemma ValueNonzero(x: Word)
    requires !IsZero(x)
    ensures Value(x) != 0.0
  {
    if ExponentField(x) == 0 {
      ScaledOrder(FractionField(x) as real, 0.0, MIN_NORMAL_EXP - FRAC_BITS);
    } else {
      ScaledOrder((0x80_0000 + FractionField(x)) as real, 0.0, ExponentField(x) - 127 - FRAC_BITS);
    }
  }

  lemma QuotientNonzero(x: real, y: real)
    requires x != 0.0 && y != 0.0
    ensures x / y != 0.0
  {
    assert x / y * y == x;
  }

  ghost function FpAdd(a: Word, b0: Word, rm: RoundingMode, subtract: bool): Rounded {
    var b := if subtract then Negate(b0) else b0;
    if IsNan(a) || IsNan(b) then
      Rounded(CANONICAL_NAN, if IsSignalingNan(a) || IsSignalingNan(b) then INVALID else NO_FLAGS)
    else if IsInfinite(a) && IsInfinite(b) then
      if Negative(a) != Negative(b) then Rounded(CANONICAL_NAN, INVALID) else Rounded(a, NO_FLAGS)
    else if IsInfinite(a) then Rounded(a, NO_FLAGS)
    else if IsInfinite(b) then Rounded(b, NO_FLAGS)
    else
      var exact := Value(a) + Value(b);
      if exact == 0.0 then
        if Negative(a) == Negative(b) && IsZero(a) && IsZero(b) then Rounded(SignBits(Negative(a)), NO_FLAGS)
        else Rounded(SignBits(rm == RDN), NO_FLAGS)
      else RoundToSingle(exact, rm)
  }

  ghost function FpMul(a: Word, b: Word, rm: RoundingMode): Rounded {
    var sign := SignBits(Negative(a) != Negative(b));
    if IsNan(a) || IsNan(b) then
      Rounded(CANONICAL_NAN, if IsSignalingNan(a) || IsSignalingNan(b) then INVALID else NO_FLAGS)
    else if (IsInfinite(a) && IsZero(b)) || (IsZero(a) && IsInfinite(b)) then Rounded(CANONICAL_NAN, INVALID)
    else if IsInfinite(a) || IsInfinite(b) then Rounded(sign + INFINITY, NO_FLAGS)
    else if IsZero(a) || IsZero(b) then Rounded(sign, NO_FLAGS)
    else
      ValueNonzero(a); ValueNonzero(b);
      RoundToSingle(Value(a) * Value(b), rm)
  }

  ghost function FpDiv(a: Word, b: Word, rm: RoundingMode): Rounded {
    var sign := SignBits(Negative(a) != Negative(b));
    if IsNan(a) || IsNan(b) then
      Rounded(CANONICAL_NAN, if IsSignalingNan(a) || IsSignalingNan(b) then INVALID else NO_FLAGS)
    else if (IsZero(a) && IsZero(b)) || (IsInfinite(a) && IsInfinite(b)) then Rounded(CANONICAL_NAN, INVALID)
    else if IsInfinite(a) then Rounded(sign + INFINITY, NO_FLAGS)
    else if IsZero(b) then Rounded(sign + INFINITY, DIVIDE_BY_ZERO)
    else if IsZero(a) || IsInfinite(b) then Rounded(sign, NO_FLAGS)
    else
      ValueNonzero(a); ValueNonzero(b); QuotientNonzero(Value(a), Value(b));
      RoundToSingle(Value(a) / Value(b), rm)
  }

  /** The reference never leaves the format: rounding gives 32 bits. */
  lemma RoundedFits(exact: real, rm: RoundingMode)
    requires exact != 0.0
    ensures RoundToSingle(exact, rm).bits < 0x1_0000_0000
  {
    hide Scaled, RoundInt, IsExponent, Exponent, Pow2;
    var mag := if exact < 0.0 then -exact else exact;
    var e0 := Exponent(mag);
    SignificandBounds();
    ScaledBelow(mag, e0, FRAC_BITS - e0, 24);
    if e0 < MIN_NORMAL_EXP {
      ScaledBelow(mag, e0, FRAC_BITS - MIN_NORMAL_EXP, 23);
    }
  }

  lemma ScaledBelow(mag: real, e0: int, shift: int, k: nat)
    requires IsExponent(mag, e0) && e0 + 1 + shift <= k && mag > 0.0
    ensures 0.0 <= Scaled(mag, shift) < Pow2(k) as real
  {
    hide Scaled;
    ScaledOrder(mag, 0.0, shift);
    ScaledOrder(mag, Scaled(1.0, e0 + 1), shift);
    ScaledTwice(1.0, e0 + 1, shift);
    ScaledMonotone(1.0, e0 + 1 + shift, k);
    ScaledNat(1, k);
    ShlOne(k);
  }

  lemma SumFits(a: Word, b: Word, rm: RoundingMode, subtract: bool)
    ensures FpAdd(a, b, rm, subtract).bits < 0x1_0000_0000
  {
    hide RoundToSingle, Value;
    var sum := Value(a) + Value(if subtract then Negate(b) else b);
    if sum != 0.0 {
      RoundedFits(sum, rm);
    }
  }

  lemma ProductFits(a: Word, b: Word, rm: RoundingMode)
    ensures FpMul(a, b, rm).bits < 0x1_0000_0000
  {
    hide RoundToSingle, Value;
    if !IsZero(a) && !IsZero(b) {
      ValueNonzero(a);
      ValueNonzero(b);
      FactorsNonzero(Value(a), Value(b));
      RoundedFits(Value(a) * Value(b), rm);
    }
  }

  lemma QuotientFits(a: Word, b: Word, rm: RoundingMode)
    ensures FpDiv(a, b, rm).bits < 0x1_0000_0000
  {
    hide RoundToSingle, Value;
    if !IsZero(a) && !IsZero(b) {
      ValueNonzero(a);
      ValueNonzero(b);
      QuotientNonzero(Value(a), Value(b));
      RoundedFits(Value(a) / Value(b), rm);
    }
  }

  lemma FactorsNonzero(x: real, y: real)
    requires x != 0.0 && y != 0.0
    ensures x * y != 0.0
  {
  }
}
