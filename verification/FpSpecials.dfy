/** Not-a-numbers, infinities, zeros and their flags. */
module FpSpecials {
  import opened Prelude
  import opened Binary32
  import opened FpReference
  import opened FpNearest

  /** The one not-a-number that results are: quiet, non-negative, with no payload. */
  predicate IsCanonical(x: Word) {
    IsNan(x) && !IsSignalingNan(x) && !Negative(x) && FractionField(x) == 0x40_0000
  }

  /** No flag but perhaps invalid or divide by zero. */
  predicate Raises(f: Flags, invalid: bool, byZero: bool) {
    f.nv == invalid && f.dz == byZero && !f.of && !f.uf && !f.nx
  }

  lemma NegateMeans(x: Word)
    ensures Negative(Negate(x)) != Negative(x) && ExponentField(Negate(x)) == ExponentField(x) && FractionField(Negate(x)) == FractionField(x)
    ensures Value(Negate(x)) == -Value(x)
  {
    hide Value;
    var y := if Negative(x) then x - SIGN_BIT else x;
    assert x == SignBits(Negative(x)) + y && Negate(x) == SignBits(!Negative(x)) + y;
    FieldsOf(Negative(x), y);
    FieldsOf(!Negative(x), y);
    NegatedValue(x);
  }

  /** The sign bit is no part of the other fields. */
  lemma FieldsOf(negative: bool, y: Word)
    requires y < SIGN_BIT
    ensures var x: Word := SignBits(negative) + y;
            && Negative(x) == negative && ExponentField(x) == y / 0x80_0000 && FractionField(x) == y % 0x80_0000 && (IsZero(x) <==> y == 0)
  {
    assert SIGN_BIT == 256 * 0x80_0000;
  }

  lemma NegatedValue(x: Word)
    requires ExponentField(Negate(x)) == ExponentField(x) && FractionField(Negate(x)) == FractionField(x) && Negative(Negate(x)) != Negative(x)
    ensures Value(Negate(x)) == -Value(x)
  {
    hide Negate;
  }

  lemma ConstantsMean()
    ensures IsCanonical(CANONICAL_NAN)
    ensures forall negative :: var x: Word := SignBits(negative) + INFINITY; IsInfinite(x) && Negative(x) == negative
    ensures forall negative :: var x: Word := SignBits(negative); IsZero(x) && Negative(x) == negative && !IsNan(x)
    ensures !IsNan(0) && IsZero(0)
  {
    forall negative: bool
      ensures var x: Word := SignBits(negative) + INFINITY; IsInfinite(x) && Negative(x) == negative
      ensures var x: Word := SignBits(negative); IsZero(x) && Negative(x) == negative && !IsNan(x)
    {
      FieldsOf(negative, INFINITY);
      FieldsOf(negative, 0);
    }
  }

  /** Rounding never makes a not-a-number. */
  lemma RoundedIsNumber(exact: real, rm: RoundingMode)
    requires exact != 0.0
    ensures RoundToSingle(exact, rm).bits < 0x1_0000_0000 && !IsNan(RoundToSingle(exact, rm).bits)
    ensures !RoundToSingle(exact, rm).flags.nv && !RoundToSingle(exact, rm).flags.dz
  {
    hide RoundToSingle, Value;
    RoundsToLevel(exact, rm);
    RoundedFlags(exact, rm);
    ConstantsMean();
    LargestFinite(exact < 0.0, 0);
  }

  /** The adder's and subtracter's special cases; c is the second operand, negated to subtract. */
  lemma SumSpecials(a: Word, b: Word, rm: RoundingMode, subtract: bool)
    ensures FpAdd(a, b, rm, subtract).bits < 0x1_0000_0000
    ensures var c := if subtract then Negate(b) else b;
            var (bits: Word, flags) := (FpAdd(a, b, rm, subtract).bits, FpAdd(a, b, rm, subtract).flags);
            var invalid := IsInfinite(a) && IsInfinite(c) && Negative(a) != Negative(c);
            && (IsNan(bits) <==> IsNan(a) || IsNan(b) || invalid)
            && (IsNan(bits) ==> IsCanonical(bits) && Raises(flags, IsSignalingNan(a) || IsSignalingNan(b) || invalid, false))
            && (!IsNan(bits) && (IsInfinite(a) || IsInfinite(c)) ==>
                  IsInfinite(bits) && Negative(bits) == (if IsInfinite(a) then Negative(a) else Negative(c)) && Raises(flags, false, false))
            && (Finite(a) && Finite(c) && Value(a) + Value(c) == 0.0 ==>
                  IsZero(bits) && Negative(bits) == (if Negative(a) == Negative(c) && IsZero(a) && IsZero(c) then Negative(a) else rm == RDN) && Raises(flags, false, false))
            && (Finite(a) && Finite(c) && Value(a) + Value(c) != 0.0 ==> FpAdd(a, b, rm, subtract) == RoundToSingle(Value(a) + Value(c), rm))
  {
    hide RoundToSingle, Value, Negate;
    SumFits(a, b, rm, subtract);
    NegateMeans(b);
    ConstantsMean();
    var exact := Value(a) + Value(if subtract then Negate(b) else b);
    if exact != 0.0 {
      RoundedIsNumber(exact, rm);
    }
  }

  lemma ProductSpecials(a: Word, b: Word, rm: RoundingMode)
    ensures FpMul(a, b, rm).bits < 0x1_0000_0000
    ensures var (bits: Word, flags, sign) := (FpMul(a, b, rm).bits, FpMul(a, b, rm).flags, Negative(a) != Negative(b));
            var invalid := (IsInfinite(a) && IsZero(b)) || (IsZero(a) && IsInfinite(b));
            && (IsNan(bits) <==> IsNan(a) || IsNan(b) || invalid)
            && (IsNan(bits) ==> IsCanonical(bits) && Raises(flags, IsSignalingNan(a) || IsSignalingNan(b) || invalid, false))
            && (!IsNan(bits) && (IsInfinite(a) || IsInfinite(b)) ==> IsInfinite(bits) && Negative(bits) == sign && Raises(flags, false, false))
            && (Finite(a) && Finite(b) && (IsZero(a) || IsZero(b)) ==> IsZero(bits) && Negative(bits) == sign && Raises(flags, false, false))
            && (Finite(a) && Finite(b) && !IsZero(a) && !IsZero(b) ==>
                  Value(a) * Value(b) != 0.0 && FpMul(a, b, rm) == RoundToSingle(Value(a) * Value(b), rm))
  {
    hide RoundToSingle, Value;
    ProductFits(a, b, rm);
    ConstantsMean();
    if Finite(a) && Finite(b) && !IsZero(a) && !IsZero(b) {
      ValueNonzero(a);
      ValueNonzero(b);
      FactorsNonzero(Value(a), Value(b));
      RoundedIsNumber(Value(a) * Value(b), rm);
    }
  }

  lemma QuotientSpecials(a: Word, b: Word, rm: RoundingMode)
    ensures FpDiv(a, b, rm).bits < 0x1_0000_0000
    ensures var (bits: Word, flags, sign) := (FpDiv(a, b, rm).bits, FpDiv(a, b, rm).flags, Negative(a) != Negative(b));
            var invalid := (IsZero(a) && IsZero(b)) || (IsInfinite(a) && IsInfinite(b));
            && (IsNan(bits) <==> IsNan(a) || IsNan(b) || invalid)
            && (IsNan(bits) ==> IsCanonical(bits) && Raises(flags, IsSignalingNan(a) || IsSignalingNan(b) || invalid, false))
            && (!IsNan(bits) && (IsInfinite(a) || IsZero(b)) ==> IsInfinite(bits) && Negative(bits) == sign && Raises(flags, false, Finite(a)))
            && (!IsNan(bits) && (IsZero(a) || IsInfinite(b)) ==> IsZero(bits) && Negative(bits) == sign && Raises(flags, false, false))
            && (Finite(a) && Finite(b) && !IsZero(a) && !IsZero(b) ==>
                  Value(b) != 0.0 && Value(a) / Value(b) != 0.0 && FpDiv(a, b, rm) == RoundToSingle(Value(a) / Value(b), rm))
  {
    hide RoundToSingle, Value;
    QuotientFits(a, b, rm);
    ConstantsMean();
    if Finite(a) && Finite(b) && !IsZero(a) && !IsZero(b) {
      ValueNonzero(a);
      ValueNonzero(b);
      QuotientNonzero(Value(a), Value(b));
      RoundedIsNumber(Value(a) / Value(b), rm);
    }
  }
}
