/** Iterative single-precision divider: one restoring quotient bit per clock. */
module FpDivider {
  import opened Prelude
  import opened Binary32
  import opened PowersOfTwo
  import opened FpReference
  import opened FpRounding
  import opened FpPackage

  datatype Operation = Operation(a: Word, b: Word, rm: RoundingMode)

  datatype State = IDLE | RUN | ROUND | DONE

  const QUOTIENT_BITS := 27

  function Specials(op: Operation): Special {
    var a, b := op.a, op.b;
    var sign := Negative(a) != Negative(b);
    if IsNan(a) || IsNan(b) then
      Decided(Rounded(CANONICAL_NAN, if IsSignalingNan(a) || IsSignalingNan(b) then INVALID else NO_FLAGS))
    else if (IsZero(a) && IsZero(b)) || (IsInfinite(a) && IsInfinite(b)) then Decided(Rounded(CANONICAL_NAN, INVALID))
    else if IsInfinite(a) then Decided(Rounded(SignBits(sign) + INFINITY, NO_FLAGS))
    else if IsZero(b) then Decided(Rounded(SignBits(sign) + INFINITY, DIVIDE_BY_ZERO))
    else if IsZero(a) || IsInfinite(b) then Decided(Rounded(SignBits(sign), NO_FLAGS))
    else Computed
  }

  /** A significand shifted so that its hidden-bit position is set. */
  predicate IsNormalized(sig: nat, shift: nat, shifted: nat) {
    shifted == Shl(sig, shift) && 0x80_0000 <= shifted < 0x100_0000
  }

  method Normalize(sig: nat) returns (shift: nat, shifted: nat)
    requires 0 < sig < 0x100_0000
    ensures IsNormalized(sig, shift, shifted)
  {
    hide Shl;
    hide Shr;
    Fits64(sig);
    var msb := LeadingOne(sig);
    SignificandBounds();
    ShrBounds(sig, 24);
    if msb >= 24 {
      ShrTwice(sig, 24, msb - 24);
      ShrZero(msb - 24);
    }
    shift := 23 - msb;
    shifted := Shl(sig, shift);
    ShrBounds(sig, msb);
    ShlMonotone(Shl(1, msb), sig, shift);
    ShlMonotone(sig + 1, Shl(2, msb), shift);
    ShlTwice(1, msb, shift);
    ShlTwice(2, msb, shift);
    ShlSum(sig, 1, shift);
    ShlSum(1, 1, 23);
    ShlOne(23);
    ShlOne(shift);
  }

  /** The dividend, shifted left once per finished step, is always twice the divisor times the
      quotient so far plus the remainder, and the remainder stays below twice the divisor. */
  predicate PartialDivision(dividend: nat, steps: nat, divisor: nat, quotient: nat, remainder: nat) {
    Shl(dividend, steps) == 2 * (quotient * divisor) + remainder && remainder < 2 * divisor
  }

  lemma RestoringStep(dividend: nat, steps: nat, divisor: nat, quotient: nat, remainder: nat)
    requires PartialDivision(dividend, steps, divisor, quotient, remainder)
    ensures if remainder >= divisor
            then PartialDivision(dividend, steps + 1, divisor, 2 * quotient + 1, (remainder - divisor) * 2)
            else PartialDivision(dividend, steps + 1, divisor, 2 * quotient, remainder * 2)
  {
    DoubleQuotient(quotient, divisor);
  }

  lemma DoubleQuotient(q: nat, d: nat)
    ensures (2 * q) * d == 2 * (q * d) && (2 * q + 1) * d == 2 * (q * d) + d
  {
  }

  /** The exact quotient, as the hardware quotient plus the fraction its remainder stands for. */
  function Fraction(divisor: nat, remainder: nat): real
    requires divisor > 0
  {
    remainder as real / (2 * divisor) as real
  }

  lemma FinishedQuotient(dividend: nat, divisor: nat, quotient: nat, remainder: nat)
    requires PartialDivision(dividend, 27, divisor, quotient, remainder)
    requires 0x80_0000 <= dividend < 0x100_0000 && 0x80_0000 <= divisor < 0x100_0000
    ensures var theta := Fraction(divisor, remainder);
            0.0 <= theta < 1.0 && (remainder != 0 <==> theta != 0.0) &&
            (quotient as real + theta) * divisor as real == Scaled(dividend as real, 26)
    ensures 0x200_0000 <= quotient < 0x800_0000
  {
    SignificandBounds();
    ShlScale(dividend);
    QuotientBounds(Shl(dividend, 27), divisor, quotient, remainder);
    ScaledNat(dividend, 27);
    ScaledStep(dividend as real, 26);
    hide Scaled;
    hide Shl;
    FractionBounds(divisor, remainder);
    QuotientTimesDivisor(Shl(dividend, 27), divisor, quotient, remainder, Fraction(divisor, remainder), Scaled(dividend as real, 26));
  }

  lemma ShlScale(dividend: nat)
    requires 0x80_0000 <= dividend < 0x100_0000
    ensures 0x4_0000_0000_0000 <= Shl(dividend, 27) < 0x8_0000_0000_0000
  {
    hide Shl;
    ShlMonotone(0x80_0000, dividend, 27);
    ShlMonotone(dividend + 1, 0x100_0000, 27);
    ShlSum(dividend, 1, 27);
    ShlOne(27);
    SignificandBounds();
    ShlOne(23);
    ShlOne(24);
    ShlTwice(1, 23, 27);
    ShlTwice(1, 24, 27);
    assert Pow2(35) == 0x8_0000_0000;
    assert Pow2(43) == 0x800_0000_0000;
    assert Pow2(50) == 0x4_0000_0000_0000;
    ShlOne(50);
    ShlOne(51);
    assert Pow2(51) == 2 * Pow2(50);
  }

  lemma QuotientBounds(d: nat, divisor: nat, quotient: nat, remainder: nat)
    requires 0x4_0000_0000_0000 <= d < 0x8_0000_0000_0000 && 0x80_0000 <= divisor < 0x100_0000
    requires d == 2 * (quotient * divisor) + remainder && remainder < 2 * divisor
    ensures 0x200_0000 <= quotient < 0x800_0000
  {
    assert (quotient + 1) * divisor == quotient * divisor + divisor;
    if quotient < 0x200_0000 {
      MulBound(quotient + 1, 0x200_0000, divisor);
    } else if quotient >= 0x800_0000 {
      MulBound(0x800_0000, quotient, divisor);
    }
  }

  lemma MulBound(x: nat, y: nat, z: nat)
    requires x <= y
    ensures x * z <= y * z
  {
  }

  lemma FractionBounds(divisor: nat, remainder: nat)
    requires divisor > 0 && remainder < 2 * divisor
    ensures var theta := Fraction(divisor, remainder);
            0.0 <= theta < 1.0 && (remainder != 0 <==> theta != 0.0) && theta * (2 * divisor) as real == remainder as real
  {
    var r, n := remainder as real, (2 * divisor) as real;
    TimesBack(r, n);
    RatioInUnit(r / n, n, r);
  }

  lemma RatioInUnit(z: real, n: real, r: real)
    requires n > 0.0 && z * n == r && 0.0 <= r < n
    ensures 0.0 <= z < 1.0 && (z == 0.0 <==> r == 0.0)
  {
  }

  lemma TimesBack(r: real, n: real)
    requires n > 0.0
    ensures r / n * n == r
  {
  }

  lemma QuotientTimesDivisor(d: nat, divisor: nat, quotient: nat, remainder: nat, theta: real, half: real)
    requires d == 2 * (quotient * divisor) + remainder
    requires theta * (2 * divisor) as real == remainder as real && d as real == 2.0 * half
    ensures (quotient as real + theta) * divisor as real == half
  {
    assert (quotient * divisor) as real == quotient as real * divisor as real;
    assert theta * (2 * divisor) as real == 2.0 * (theta * divisor as real);
  }

  /** The scaled quotient of the normalized significands is the exact quotient of the operands. */
  lemma QuotientIsExact(op: Operation, shiftA: nat, shiftB: nat, dividend: nat, divisor: nat, q: real)
    requires Specials(op) == Computed
    requires IsNormalized(UnpackSig(op.a), shiftA, dividend) && IsNormalized(UnpackSig(op.b), shiftB, divisor)
    requires q > 0.0 && q * divisor as real == Scaled(dividend as real, 26)
    ensures var x := Scaled(q, (UnpackExp(op.a) - shiftA) - (UnpackExp(op.b) - shiftB) - 26);
            x > 0.0 && FpDiv(op.a, op.b, op.rm) == RoundToSingle(Signed(Negative(op.a) != Negative(op.b), x), op.rm)
  {
    hide Scaled;
    hide Shl;
    hide Value;
    hide RoundToSingle;
    var ea, eb := UnpackExp(op.a) - 150, UnpackExp(op.b) - 150;
    var fa, fb := ea - shiftA, eb - shiftB;
    var magA, magB := Scaled(dividend as real, fa), Scaled(divisor as real, fb);
    var x := Scaled(q, fa - fb - 26);
    UnpackValue(op.a);
    UnpackValue(op.b);
    ShiftedMagnitude(UnpackSig(op.a), shiftA, dividend, ea);
    ShiftedMagnitude(UnpackSig(op.b), shiftB, divisor, eb);
    ScaledOrder(q, 0.0, fa - fb - 26);
    ScaledOrder(divisor as real, 0.0, fb);
    ScaledDivision(q, divisor as real, dividend as real, fa, fb);
    SignedQuotient(Negative(op.a), Negative(op.b), magA, magB, x);
    ValueNonzero(op.a);
    ValueNonzero(op.b);
    assert FpDiv(op.a, op.b, op.rm) == RoundToSingle(Value(op.a) / Value(op.b), op.rm);
  }

  lemma ScaledDivision(q: real, d: real, n: real, fa: int, fb: int)
    requires q * d == Scaled(n, 26)
    ensures Scaled(q, fa - fb - 26) * Scaled(d, fb) == Scaled(n, fa)
  {
    hide Scaled;
    ScaledFactor(q, Scaled(d, fb), fa - fb - 26);
    ScaledFactor(d, q, fb);
    Swap(q, Scaled(d, fb));
    Swap(q, d);
    assert q * Scaled(d, fb) == Scaled(Scaled(n, 26), fb);
    ScaledTwice(Scaled(n, 26), fb, fa - fb - 26);
    ScaledTwice(n, 26, fa - 26);
  }

  lemma Swap(x: real, y: real)
    ensures x * y == y * x
  {
  }

  lemma ShiftedMagnitude(sig: nat, shift: nat, shifted: nat, e: int)
    requires shifted == Shl(sig, shift)
    ensures Scaled(sig as real, e) == Scaled(shifted as real, e - shift)
  {
    hide Scaled;
    ScaledNat(sig, shift);
    ScaledTwice(sig as real, shift, e - shift);
  }

  lemma SignedQuotient(s: bool, t: bool, x: real, y: real, q: real)
    requires y > 0.0 && q * y == x
    ensures Signed(t, y) != 0.0 && Signed(s, x) / Signed(t, y) == Signed(s != t, q)
  {
    assert Signed(s != t, q) * Signed(t, y) == Signed(s, x);
    DivideBack(Signed(s != t, q), Signed(t, y), Signed(s, x));
  }

  lemma DivideBack(q: real, y: real, x: real)
    requires y != 0.0 && q * y == x
    ensures x / y == q
  {
  }

  class Divider {
    var state: State
    var rm: RoundingMode
    var sign: bool
    var exp: int
    var remainder: nat
    var divisor: nat
    var quotient: nat
    var count: int
    var special: Special
    var rounded: Rounded

    // The operation in progress, the normalized dividend, and the two normalizing shifts.
    ghost var op: Option<Operation>
    ghost var dividend: nat
    ghost var shiftA: nat
    ghost var shiftB: nat

    /** The result port: a special result, or the rounded quotient. */
    function Result(): Rounded
      reads this
    {
      if special.Decided? then special.result else rounded
    }

    /** Clock edges from here to a result, in the absence of a reset. */
    function EdgesLeft(): int
      reads this
    {
      if state == RUN then count + 1 else if state == ROUND then 1 else 0
    }

    ghost predicate Running(steps: int)
      reads this
    {
      && op.Some? && special == Computed && Specials(op.value) == Computed
      && rm == op.value.rm && sign == (Negative(op.value.a) != Negative(op.value.b))
      && IsNormalized(UnpackSig(op.value.a), shiftA, dividend)
      && IsNormalized(UnpackSig(op.value.b), shiftB, divisor)
      && exp == (UnpackExp(op.value.a) - shiftA) - (UnpackExp(op.value.b) - shiftB) + 127
      && 0 <= steps <= QUOTIENT_BITS && PartialDivision(dividend, steps, divisor, quotient, remainder)
    }

    /** While it runs, the unit keeps the division equation; when it is done, its result is the
        correctly rounded quotient with its flags. */
    ghost predicate Valid()
      reads this
    {
      match state
      case IDLE => true
      case RUN => 1 <= count <= QUOTIENT_BITS && Running(QUOTIENT_BITS - count)
      case ROUND => Running(QUOTIENT_BITS)
      case DONE => op.Some? && Result() == FpDiv(op.value.a, op.value.b, op.value.rm)
    }

    constructor ()
      ensures Valid() && state == IDLE
    {
      state, special, quotient, remainder := IDLE, Computed, 0, 0;
      rm, sign, exp, divisor, count, rounded := RNE, false, 0, 0, 0, Rounded(0, NO_FLAGS);
    }

    /** One clock edge. An accepted operation finishes after at most 28 further edges, and its result
        stays until it is acknowledged. */
    method Clock(reset: bool, inValid: bool, next: Operation, ack: bool)
      requires Valid()
      modifies this
      ensures Valid()
      ensures reset ==> state == IDLE
      ensures !reset && old(state) == IDLE && inValid ==>
                op == Some(next) && state in {RUN, DONE} && EdgesLeft() == (if state == RUN then 28 else 0)
      ensures !reset && old(state) == IDLE && !inValid ==> state == IDLE
      ensures !reset && old(state) in {RUN, ROUND} ==>
                op == old(op) && EdgesLeft() == old(EdgesLeft()) - 1 && (state == DONE <==> EdgesLeft() == 0)
      ensures !reset && old(state) == DONE ==>
                op == old(op) && Result() == old(Result()) && state == (if ack then IDLE else DONE)
      ensures state == DONE ==> op.Some? && Result() == FpDiv(op.value.a, op.value.b, op.value.rm)
    {
      hide FpDiv;
      if reset {
        state, special, quotient, remainder := IDLE, Computed, 0, 0;
        return;
      }
      match state {
        case IDLE =>
          if inValid {
            Start(next);
          }
        case RUN =>
          RestoringStep(dividend, QUOTIENT_BITS - count, divisor, quotient, remainder);
          if remainder >= divisor {
            quotient, remainder := 2 * quotient + 1, (remainder - divisor) * 2;
          } else {
            quotient, remainder := 2 * quotient, remainder * 2;
          }
          if count == 1 {
            state := ROUND;
          }
          count := count - 1;
        case ROUND =>
          rounded := RoundQuotient();
          state := DONE;
        case DONE =>
          if ack {
            state := IDLE;
          }
      }
    }

    method Start(next: Operation)
      requires state == IDLE
      modifies this
      ensures op == Some(next) && Valid()
      ensures state in {RUN, DONE} && (state == RUN ==> count == QUOTIENT_BITS)
    {
      hide FpDiv, PartialDivision, IsNormalized, Specials;
      if Specials(next) == Computed {
        StartDivision(next);
        state := RUN;
      } else {
        SpecialIsReference(next);
        op, special := Some(next), Specials(next);
        state := DONE;
      }
    }

    /** Both significands are normalized, and the exponent difference adjusted by the shifts. */
    method StartDivision(next: Operation)
      requires Specials(next) == Computed
      modifies this
      ensures op == Some(next) && Running(0) && count == QUOTIENT_BITS
    {
      SpecialsExcluded(next);
      var leftA, sigA := Normalize(UnpackSig(next.a));
      var leftB, sigB := Normalize(UnpackSig(next.b));
      op, special := Some(next), Specials(next);
      sign, rm := Negative(next.a) != Negative(next.b), next.rm;
      dividend, shiftA, shiftB := sigA, leftA, leftB;
      exp := (UnpackExp(next.a) - leftA) - (UnpackExp(next.b) - leftB) + 127;
      remainder, divisor, quotient, count := sigA, sigB, 0, QUOTIENT_BITS;
    }

    method RoundQuotient() returns (r: Rounded)
      requires Running(QUOTIENT_BITS)
      ensures r == FpDiv(op.value.a, op.value.b, op.value.rm)
    {
      hide FpDiv;
      hide Scaled;
      hide Jam;
      hide RoundToSingle;
      FinishedQuotient(dividend, divisor, quotient, remainder);
      ghost var theta := Fraction(divisor, remainder);
      Fits64(quotient);
      var msb := LeadingOne(quotient);
      QuotientMsb(quotient, msb);
      var sig := ToSig27(quotient, msb, remainder != 0, theta);
      ghost var m := Scaled(quotient as real + theta, 26 - msb);
      r := RoundPack(sign, exp + msb - 26, sig, rm, m);
      ScaledTwice(quotient as real + theta, 26 - msb, exp + msb - 179);
      QuotientIsExact(op.value, shiftA, shiftB, dividend, divisor, quotient as real + theta);
    }
  }

  lemma QuotientMsb(quotient: nat, msb: nat)
    requires 0x200_0000 <= quotient && Shr(quotient, msb) == 1
    ensures msb >= 25
  {
    SignificandBounds();
    assert Pow2(25) == 2 * Pow2(24);
    ShrBounds(quotient, 25);
    if msb < 25 {
      ShrTwice(quotient, msb, 25 - msb);
      ShrTwice(1, 1, 24 - msb);
      assert Shr(1, 1) == Shr(1, 0) / 2;
      ShrZero(24 - msb);
    }
  }

  lemma SpecialsExcluded(op: Operation)
    requires Specials(op) == Computed
    ensures UnpackSig(op.a) > 0 && UnpackSig(op.b) > 0
  {
    UnpackValue(op.a);
    UnpackValue(op.b);
  }

  lemma SpecialIsReference(op: Operation)
    requires Specials(op).Decided?
    ensures FpDiv(op.a, op.b, op.rm) == Specials(op).result
  {
    hide Value;
    hide RoundToSingle;
  }
}
