/** Pipelined single-precision adder and subtractor. */
module FpAdder {
  import opened Prelude
  import opened Binary32
  import opened PowersOfTwo
  import opened FpReference
  import opened FpRounding
  import opened FpPackage

  datatype Operation = Operation(a: Word, b: Word, rm: RoundingMode, subtract: bool)
  {
    /** The second operand after the sign flip of a subtraction. */
    function Addend(): Word {
      if subtract then Negate(b) else b
    }

    /** Operands ordered by magnitude: exponent field, then fraction. */
    function Big(): Word {
      if a % SIGN_BIT >= Addend() % SIGN_BIT then a else Addend()
    }

    function Small(): Word {
      if a % SIGN_BIT >= Addend() % SIGN_BIT then Addend() else a
    }
  }

  const WIDE := 55

  datatype Aligned = Aligned(valid: bool, rm: RoundingMode, special: Special, signBig: bool, signSmall: bool,
                             effectiveSub: bool, expBig: int, bigSig: nat, smallSig: nat)

  datatype Summed = Summed(valid: bool, rm: RoundingMode, special: Special, zero: bool, zeroSign: bool,
                           sign: bool, exp: int, sig: nat)

  const RESET_ALIGNED := Aligned(false, RNE, Computed, false, false, false, 0, 0, 0)
  const RESET_SUMMED := Summed(false, RNE, Computed, false, false, false, 0, 0)

  function Specials(op: Operation): Special {
    var a, b := op.a, op.Addend();
    if IsNan(a) || IsNan(b) then
      Decided(Rounded(CANONICAL_NAN, if IsSignalingNan(op.a) || IsSignalingNan(op.b) then INVALID else NO_FLAGS))
    else if IsInfinite(a) && IsInfinite(b) && Negative(a) != Negative(b) then Decided(Rounded(CANONICAL_NAN, INVALID))
    else if IsInfinite(a) || IsInfinite(b) then Decided(Rounded(if IsInfinite(a) then a else b, NO_FLAGS))
    else Computed
  }

  /** How far the smaller operand is shifted right. */
  function Distance(op: Operation): (d: nat)
  {
    OperandOrder(op);
    UnpackExp(op.Big()) - UnpackExp(op.Small())
  }

  /** The smaller significand, exactly, on the scale of the aligned bigger one. */
  function ExactSmall(op: Operation): (r: real) {
    Scaled(Shl(UnpackSig(op.Small()), 31) as real, 0 - Distance(op))
  }

  lemma OperandOrder(op: Operation)
    ensures UnpackExp(op.Big()) >= UnpackExp(op.Small())
    ensures UnpackExp(op.Big()) == UnpackExp(op.Small()) ==> UnpackSig(op.Big()) >= UnpackSig(op.Small())
    ensures UnpackExp(op.Big()) > UnpackExp(op.Small()) ==> UnpackSig(op.Big()) >= 0x80_0000
  {
    assert op.Big() % SIGN_BIT >= op.Small() % SIGN_BIT;
    MagnitudeFields(op.Big());
    MagnitudeFields(op.Small());
    hide ExponentField;
    hide FractionField;
  }

  lemma MagnitudeFields(x: Word)
    ensures x % SIGN_BIT == ExponentField(x) * 0x80_0000 + FractionField(x)
  {
  }

  ghost predicate IsAligned(n: Aligned, op: Operation) {
    && n.rm == op.rm && n.special == Specials(op)
    && n.signBig == Negative(op.Big()) && n.signSmall == Negative(op.Small())
    && n.effectiveSub == (n.signBig != n.signSmall)
    && n.expBig == UnpackExp(op.Big())
    && n.bigSig == Shl(UnpackSig(op.Big()), 31)
    && ExactSmall(op) >= 0.0
    && n.smallSig == Jam(ExactSmall(op))
  }

  /** First stage: special cases, ordering, and alignment with a sticky bit. */
  method Align(op: Operation, valid: bool) returns (n: Aligned)
    ensures n.valid == valid && IsAligned(n, op)
  {
    var big, small := op.Big(), op.Small();
    OperandOrder(op);
    var sigSmall := UnpackSig(small);
    var smallFull := Shl(sigSmall, 31);
    var distance := UnpackExp(big) - UnpackExp(small);
    var smallSig;
    if distance >= WIDE {
      smallSig := Or1(0, sigSmall != 0);
      ShiftedOut(sigSmall, distance);
    } else {
      smallSig := FoldSticky(smallFull, distance, Shr(smallFull, distance), WIDE);
    }
    JamTwice(smallFull as real, distance);
    n := Aligned(valid, op.rm, Specials(op), Negative(big), Negative(small),
                 Negative(big) != Negative(small), UnpackExp(big), Shl(UnpackSig(big), 31), smallSig);
  }

  lemma ShiftedOut(sig: nat, distance: nat)
    requires sig < 0x100_0000 && distance >= WIDE
    ensures Or1(0, sig != 0) == Or1(Shr(Shl(sig, 31), distance), AnyBelow(Shl(sig, 31), distance))
  {
    hide Shl;
    hide Shr;
    hide AnyBelow;
    ShlThenShr(sig, 31);
    ShrTwice(Shl(sig, 31), 31, distance - 31);
    SignificandBounds();
    ShrBounds(sig, 24);
    ShrTwice(sig, 24, distance - 31 - 24);
    ShrZero(distance - 31 - 24);
    if !AnyBelow(sig, distance - 31) {
      NoBits(sig, distance - 31);
    } else if sig == 0 {
      NoBitsOfZero(distance - 31);
    }
  }

  lemma {:induction false} NoBitsOfZero(k: nat)
    ensures !AnyBelow(0, k)
  {
    if k > 0 {
      NoBitsOfZero(k - 1);
      ShrZero(k - 1);
    }
  }

  /** The exact magnitude of the sum on the aligned scale. */
  function ExactSum(op: Operation): real {
    var big := Shl(UnpackSig(op.Big()), 31) as real;
    if Negative(op.Big()) != Negative(op.Small()) then big - ExactSmall(op) else big + ExactSmall(op)
  }

  lemma SmallAtMostBig(op: Operation)
    ensures 0.0 <= ExactSmall(op) <= Shl(UnpackSig(op.Big()), 31) as real
    ensures Distance(op) >= 2 ==> ExactSmall(op) <= 9007199254740992.0 && Shl(UnpackSig(op.Big()), 31) >= 0x40_0000_0000_0000
  {
    OperandOrder(op);
    AlignedBounds();
    var d: int := Distance(op);
    var x := Shl(UnpackSig(op.Small()), 31) as real;
    assert Scaled(x, -1) == Scaled(x, 0) / 2.0 && Scaled(x, -2) == Scaled(x, -1) / 2.0;
    hide Scaled;
    hide Shl;
    ScaledOrder(x, 0.0, 0 - d);
    ShlMonotone(UnpackSig(op.Small()), 0x100_0000, 31);
    if d == 0 {
      ScaledZero(x);
      ShlMonotone(UnpackSig(op.Small()), UnpackSig(op.Big()), 31);
    } else {
      ShlMonotone(0x80_0000, UnpackSig(op.Big()), 31);
      ScaledMonotone(x, 0 - d, -1);
      if d >= 2 {
        ScaledMonotone(x, 0 - d, -2);
      }
    }
  }

  /** The hardware sum of the aligned significands is the exact sum, jammed. */
  lemma SumIsJammed(op: Operation, n: Aligned)
    requires IsAligned(n, op)
    ensures ExactSum(op) >= 0.0 && n.smallSig <= n.bigSig
    ensures (if n.effectiveSub then n.bigSig - n.smallSig else n.bigSig + n.smallSig) == Jam(ExactSum(op))
  {
    SmallAtMostBig(op);
    EvenShift(UnpackSig(op.Big()));
    hide ExactSmall;
    hide Shl;
    JamOfSum(n.bigSig, ExactSmall(op));
  }

  lemma EvenShift(x: nat)
    ensures Shl(x, 31) % 2 == 0
  {
  }

  /** A nonzero sum reaches bit 26: close operands are aligned exactly, far ones cannot cancel. */
  lemma SumReachesBit26(op: Operation, n: Aligned, sum: nat)
    requires IsAligned(n, op)
    requires sum == if n.effectiveSub then n.bigSig - n.smallSig else n.bigSig + n.smallSig
    requires sum != 0
    ensures 0x400_0000 <= sum < 0x1_0000_0000_0000_0000
  {
    var sb, ss := UnpackSig(op.Big()), UnpackSig(op.Small());
    SmallAtMostBig(op);
    AlignedBounds();
    ShlMonotone(sb, 0x100_0000, 31);
    SumIsJammed(op, n);
    if Distance(op) <= 1 {
      var y := if Distance(op) == 0 then 2 * ss else ss;
      ShlOfDouble(sb, 30);
      ShlOfDouble(ss, 30);
      assert n.smallSig == Shl(y, 30) by {
        var x := Shl(ss, 31) as real;
        assert Scaled(x, -1) == Scaled(x, 0) / 2.0;
        assert ExactSmall(op) == Shl(y, 30) as real;
      }
      var k := MultipleOf30(2 * sb, y, n.effectiveSub, sum);
      ShlMonotone(1, k, 30);
      ShlOne(30);
    }
  }

  lemma MultipleOf30(x: nat, y: nat, sub: bool, sum: nat) returns (k: nat)
    requires sum == if sub then Shl(x, 30) - Shl(y, 30) else Shl(x, 30) + Shl(y, 30)
    requires sum != 0
    ensures k >= 1 && sum == Shl(k, 30)
  {
    hide Shl;
    if sub {
      if x < y {
        ShlMonotone(x, y, 30);
      }
      k := x - y;
      ShlSum(k, y, 30);
    } else {
      k := x + y;
      ShlSum(x, y, 30);
    }
    ShlOne(30);
  }

  ghost predicate IsSummed(s: Summed, op: Operation) {
    && s.rm == op.rm && s.special == Specials(op)
    && ExactSum(op) >= 0.0
    && (s.zero <==> ExactSum(op) == 0.0)
    && (s.zero ==> s.zeroSign == if Negative(op.Big()) == Negative(op.Small()) then Negative(op.Big()) else op.rm == RDN)
    && (!s.zero ==>
          && s.sign == Negative(op.Big())
          && var m := Scaled(ExactSum(op), UnpackExp(op.Big()) - 28 - s.exp);
             67108864.0 <= m < 134217728.0 && s.sig == Jam(m))
  }

  /** Second stage: add or subtract, and normalize. */
  method AddAndNormalize(n: Aligned, ghost op: Operation) returns (s: Summed)
    requires IsAligned(n, op)
    ensures s.valid == n.valid && IsSummed(s, op)
  {
    hide Scaled;
    hide Jam;
    SumIsJammed(op, n);
    s := Summed(n.valid, n.rm, n.special, false, false, n.signBig, 0, 0);
    var sum := if n.effectiveSub then n.bigSig - n.smallSig else n.bigSig + n.smallSig;
    JamZero(ExactSum(op));
    if sum == 0 {
      s := s.(zero := true, zeroSign := if n.signBig == n.signSmall then n.signBig else n.rm == RDN);
    } else {
      SumReachesBit26(op, n, sum);
      Fits64(sum);
      var msb := LeadingOne(sum);
      LeadingOneAbove(sum, msb);
      var sig := ToSig27(sum, msb, false, 0.0);
      NormalizedSum(ExactSum(op), sum, msb, sig);
      s := s.(sig := sig, exp := n.expBig + msb - (WIDE - 1));
    }
  }

  lemma JamZero(m: real)
    requires m >= 0.0
    ensures Jam(m) == 0 <==> m == 0.0
  {
  }

  lemma LeadingOneAbove(sum: nat, msb: nat)
    requires 0x400_0000 <= sum && Shr(sum, msb) == 1
    ensures msb >= 26
  {
    SignificandBounds();
    ShrBounds(sum, 26);
    if msb < 26 {
      ShrTwice(sum, msb, 26 - msb);
      ShrTwice(1, 1, 25 - msb);
      assert Shr(1, 1) == Shr(1, 0) / 2;
      ShrZero(25 - msb);
    }
  }

  /** Normalizing the jammed sum gives the jammed normalized exact sum. */
  lemma NormalizedSum(exact: real, sum: nat, msb: nat, sig: nat)
    requires exact >= 0.0 && sum == Jam(exact) && msb >= 26
    requires var m := Scaled(sum as real + 0.0, 26 - msb); 67108864.0 <= m < 134217728.0 && sig == Jam(m)
    ensures var m := Scaled(exact, 26 - msb); 67108864.0 <= m < 134217728.0 && sig == Jam(m)
  {
    hide Scaled;
    JamTwice(exact, msb - 26);
    JamTwice(sum as real, msb - 26);
    JamOfNatural(sum);
    assert sum as real + 0.0 == sum as real;
    JamRangeBack(Scaled(exact, 26 - msb), Scaled(sum as real, 26 - msb));
  }

  lemma JamOfNatural(n: nat)
    ensures Jam(n as real) == n
  {
  }

  lemma JamRangeBack(x: real, y: real)
    requires x >= 0.0 && 67108864.0 <= y < 134217728.0 && Jam(x) == Jam(y)
    ensures 67108864.0 <= x < 134217728.0
  {
  }

  /** Third stage: round. */
  method Round(s: Summed, ghost op: Operation) returns (r: Rounded)
    requires IsSummed(s, op)
    ensures r == FpAdd(op.a, op.b, op.rm, op.subtract)
  {
    hide Scaled;
    hide Jam;
    hide RoundToSingle;
    hide FpAdd;
    match s.special {
      case Decided(result) =>
        r := result;
      case Computed =>
        if s.zero {
          r := Rounded(SignBits(s.zeroSign), NO_FLAGS);
        } else {
          ghost var m := Scaled(ExactSum(op), UnpackExp(op.Big()) - 28 - s.exp);
          r := RoundPack(s.sign, s.exp, s.sig, s.rm, m);
          ScaledTwice(ExactSum(op), UnpackExp(op.Big()) - 28 - s.exp, s.exp - 153);
        }
    }
    AdderIsReference(op, if s.zero then s.zeroSign else s.sign);
  }

  /** The exact sum of the operand values, on the aligned scale. */
  lemma ExactSumValue(op: Operation)
    ensures Value(op.a) + Value(op.Addend()) == Signed(Negative(op.Big()), Scaled(ExactSum(op), UnpackExp(op.Big()) - 181))
  {
    hide Scaled;
    hide Value;
    hide Shl;
    var big, small := op.Big(), op.Small();
    var e := UnpackExp(big) - 181;
    UnpackValue(big);
    UnpackValue(small);
    ScaledNat(UnpackSig(big), 31);
    ScaledNat(UnpackSig(small), 31);
    ScaledTwice(UnpackSig(big) as real, 31, e);
    ScaledTwice(UnpackSig(small) as real, 31, UnpackExp(small) - 181);
    ScaledTwice(Shl(UnpackSig(small), 31) as real, 0 - Distance(op), e);
    ScaledSum(Shl(UnpackSig(big), 31) as real, ExactSmall(op), e);
    ScaledSum(Shl(UnpackSig(big), 31) as real, -ExactSmall(op), e);
    ScaledSum(ExactSmall(op), 0.0, e);
  }

  /** The reference's verdict, from the special cases, the zero test, and the exact sum. */
  lemma AdderIsReference(op: Operation, sign: bool)
    requires ExactSum(op) >= 0.0
    requires ExactSum(op) == 0.0 ==> sign == if Negative(op.Big()) == Negative(op.Small()) then Negative(op.Big()) else op.rm == RDN
    requires ExactSum(op) != 0.0 ==> sign == Negative(op.Big())
    ensures match Specials(op)
            case Decided(r) => FpAdd(op.a, op.b, op.rm, op.subtract) == r
            case Computed =>
              var mag := Scaled(ExactSum(op), UnpackExp(op.Big()) - 181);
              if ExactSum(op) == 0.0 then FpAdd(op.a, op.b, op.rm, op.subtract) == Rounded(SignBits(sign), NO_FLAGS)
              else mag > 0.0 && FpAdd(op.a, op.b, op.rm, op.subtract) == RoundToSingle(Signed(sign, mag), op.rm)
  {
    hide Scaled;
    hide Value;
    hide RoundToSingle;
    hide ExactSum;
    hide ExponentField;
    hide FractionField;
    NegateKeepsMagnitude(op.b);
    if Specials(op) == Computed {
      ExactSumValue(op);
      ScaledOrder(ExactSum(op), 0.0, UnpackExp(op.Big()) - 181);
      if ExactSum(op) == 0.0 && Negative(op.Big()) == Negative(op.Small()) {
        ZeroSumOfLikeSigns(op);
      }
    }
  }

  lemma NegateKeepsMagnitude(x: Word)
    ensures ExponentField(Negate(x)) == ExponentField(x) && FractionField(Negate(x)) == FractionField(x)
    ensures Negate(x) % SIGN_BIT == x % SIGN_BIT
  {
  }

  lemma ZeroSumOfLikeSigns(op: Operation)
    requires ExactSum(op) == 0.0 && Negative(op.Big()) == Negative(op.Small())
    ensures IsZero(op.a) && IsZero(op.Addend())
  {
    hide Scaled;
    SmallAtMostBig(op);
    UnpackValue(op.Big());
    UnpackValue(op.Small());
    ScaledOrder(Shl(UnpackSig(op.Small()), 31) as real, 0.0, 0 - Distance(op));
    ShlOfZero(UnpackSig(op.Big()), 31);
    ShlOfZero(UnpackSig(op.Small()), 31);
  }

  lemma {:induction false} ShlOfZero(x: nat, k: nat)
    ensures Shl(x, k) == 0 <==> x == 0
  {
    if k > 0 {
      ShlOfZero(x, k - 1);
    }
  }

  class Adder {
    var s1: Aligned
    var s2: Summed
    var outValid: bool
    var out: Rounded

    // The operation in each stage.
    ghost var op1: Option<Operation>
    ghost var op2: Option<Operation>
    ghost var op3: Option<Operation>

    /** Every stage holds the partial result of its operation; the last one holds the correctly
        rounded sum or difference and its flags. */
    ghost predicate Valid()
      reads this
    {
      && (s1.valid <==> op1.Some?) && (op1.Some? ==> IsAligned(s1, op1.value))
      && (s2.valid <==> op2.Some?) && (op2.Some? ==> IsSummed(s2, op2.value))
      && (outValid <==> op3.Some?)
      && (op3.Some? ==> out == FpAdd(op3.value.a, op3.value.b, op3.value.rm, op3.value.subtract))
    }

    constructor ()
      ensures Valid() && op1 == None && op2 == None && op3 == None
    {
      s1, s2, outValid, out := RESET_ALIGNED, RESET_SUMMED, false, Rounded(0, NO_FLAGS);
      op1, op2, op3 := None, None, None;
    }

    /** One clock edge. Operations move one stage per advancing edge, so a result appears three
        advancing edges after its operation was presented, whatever the stalls in between. */
    method Clock(reset: bool, advance: bool, inValid: bool, op: Operation)
      requires Valid()
      modifies this
      ensures Valid()
      ensures reset ==> op1 == None && op2 == None && op3 == None
      ensures !reset && advance ==> op1 == (if inValid then Some(op) else None) && op2 == old(op1) && op3 == old(op2)
      ensures !reset && !advance ==> unchanged(this)
      ensures outValid <==> op3.Some?
      ensures op3.Some? ==> out == FpAdd(op3.value.a, op3.value.b, op3.value.rm, op3.value.subtract)
    {
      hide IsAligned;
      hide IsSummed;
      hide FpAdd;
      if reset {
        s1, s2, outValid, out := RESET_ALIGNED, RESET_SUMMED, false, Rounded(0, NO_FLAGS);
        op1, op2, op3 := None, None, None;
      } else if advance {
        if s2.valid {
          out := Round(s2, op2.value);
        }
        outValid := s2.valid;
        if s1.valid {
          s2 := AddAndNormalize(s1, op1.value);
        } else {
          s2 := s2.(valid := false);
        }
        s1 := Align(op, inValid);
        op1, op2, op3 := if inValid then Some(op) else None, op1, op2;
      }
    }
  }
}
