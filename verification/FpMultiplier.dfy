/** Pipelined single-precision multiplier. */
module FpMultiplier {
  import opened Prelude
  import opened Binary32
  import opened PowersOfTwo
  import opened FpReference
  import opened FpPackage

  datatype Operation = Operation(a: Word, b: Word, rm: RoundingMode)

  datatype Unpacked = Unpacked(valid: bool, rm: RoundingMode, special: Special, sign: bool, exp: int, sigA: nat, sigB: nat)
  datatype Multiplied = Multiplied(valid: bool, rm: RoundingMode, special: Special, sign: bool, exp: int, product: nat)

  function Unpack(op: Operation, valid: bool): Unpacked {
    var a, b := op.a, op.b;
    var sign := Negative(a) != Negative(b);
    var special :=
      if IsNan(a) || IsNan(b) then
        Decided(Rounded(CANONICAL_NAN, if IsSignalingNan(a) || IsSignalingNan(b) then INVALID else NO_FLAGS))
      else if (IsInfinite(a) && IsZero(b)) || (IsZero(a) && IsInfinite(b)) then Decided(Rounded(CANONICAL_NAN, INVALID))
      else if IsInfinite(a) || IsInfinite(b) then Decided(Rounded(SignBits(sign) + INFINITY, NO_FLAGS))
      else if IsZero(a) || IsZero(b) then Decided(Rounded(SignBits(sign), NO_FLAGS))
      else Computed;
    Unpacked(valid, op.rm, special, sign, UnpackExp(a) + UnpackExp(b) - 127, UnpackSig(a), UnpackSig(b))
  }

  function Multiply(s: Unpacked): Multiplied {
    Multiplied(s.valid, s.rm, s.special, s.sign, s.exp, s.sigA * s.sigB)
  }

  const RESET_UNPACKED := Unpacked(false, RNE, Computed, false, 0, 0, 0)
  const RESET_MULTIPLIED := Multiplied(false, RNE, Computed, false, 0, 0)

  /** The exact product, as a power-of-two multiple of the product of the significands. */
  lemma ExactProduct(a: Word, b: Word)
    ensures Value(a) * Value(b)
            == Signed(Negative(a) != Negative(b),
                      Scaled((UnpackSig(a) * UnpackSig(b)) as real, UnpackExp(a) + UnpackExp(b) - 300))
  {
    hide Scaled;
    hide Value;
    UnpackValue(a);
    UnpackValue(b);
    ScaledProduct(UnpackSig(a), UnpackSig(b), UnpackExp(a) - 150, UnpackExp(b) - 150);
    SignedProduct(Negative(a), Negative(b), Scaled(UnpackSig(a) as real, UnpackExp(a) - 150),
                  Scaled(UnpackSig(b) as real, UnpackExp(b) - 150));
  }

  lemma ScaledProduct(m: nat, n: nat, ea: int, eb: int)
    ensures Scaled(m as real, ea) * Scaled(n as real, eb) == Scaled((m * n) as real, ea + eb)
  {
    hide Scaled;
    var x, y, z := m as real, n as real, Scaled(n as real, eb);
    ScaledFactor(x, z, ea);                      // x*2^ea * z == (x*z) * 2^ea
    ScaledFactor(y, x, eb);                      // z * x == (y*x) * 2^eb
    ScaledTwice(y * x, eb, ea);
    Commute(x, z);
    RealOfProduct(m, n, y * x);
    assert x * z == Scaled(y * x, eb);
  }

  lemma RealOfProduct(m: nat, n: nat, p: real)
    requires p == n as real * m as real
    ensures p == (m * n) as real
  {
  }

  lemma Commute(x: real, y: real)
    ensures x * y == y * x
  {
  }

  lemma SignedProduct(s: bool, t: bool, x: real, y: real)
    ensures Signed(s, x) * Signed(t, y) == Signed(s != t, x * y)
  {
  }

  /** Normalizing and rounding the product of the significands. */
  method NormalizeAndRound(s: Multiplied) returns (r: Rounded)
    requires s.special == Computed ==> 0 < s.product < 0x1_0000_0000_0000
    ensures s.special.Decided? ==> r == s.special.result
    ensures s.special == Computed ==>
              Scaled(s.product as real, s.exp - 173) > 0.0 &&
              r == RoundToSingle(Signed(s.sign, Scaled(s.product as real, s.exp - 173)), s.rm)
  {
    if s.special.Decided? {
      return s.special.result;
    }
    Fits64(s.product);
    var msb := LeadingOne(s.product);
    var sig := ToSig27(s.product, msb, false, 0.0);
    ghost var m := Scaled(s.product as real + 0.0, 26 - msb);
    r := RoundPack(s.sign, s.exp + msb - 46, sig, s.rm, m);
    ScaledTwice(s.product as real, 26 - msb, s.exp + msb - 199);
  }

  class Multiplier {
    var s1: Unpacked
    var s2: Multiplied
    var outValid: bool
    var out: Rounded

    // The operation in each stage.
    ghost var op1: Option<Operation>
    ghost var op2: Option<Operation>
    ghost var op3: Option<Operation>

    /** Every stage holds the partial result of its operation; the last one holds the correctly
        rounded product and its flags. */
    ghost predicate Valid()
      reads this
    {
      && (s1.valid <==> op1.Some?) && (op1.Some? ==> s1 == Unpack(op1.value, true))
      && (s2.valid <==> op2.Some?) && (op2.Some? ==> s2 == Multiply(Unpack(op2.value, true)))
      && (outValid <==> op3.Some?) && (op3.Some? ==> out == FpMul(op3.value.a, op3.value.b, op3.value.rm))
    }

    constructor ()
      ensures Valid() && op1 == None && op2 == None && op3 == None
    {
      s1, s2, outValid, out := RESET_UNPACKED, RESET_MULTIPLIED, false, Rounded(0, NO_FLAGS);
      op1, op2, op3 := None, None, None;
    }

    /** One clock edge. Operations move one stage per advancing edge, so a result appears three
        advancing edges after its operation was presented, whatever the stalls in between. */
    method Clock(reset: bool, advance: bool, inValid: bool, op: Operation)
      requires Valid()
      modifies this
      ensures Valid()
      ensures reset ==> op1 == None && op2 == None && op3 == None
      ensures !reset && advance ==> op1 == (if inValid then Some(op) else None) && op2 == old(op1) && op3 == old(op2)
      ensures !reset && !advance ==> unchanged(this)
      ensures outValid <==> op3.Some?
      ensures op3.Some? ==> out == FpMul(op3.value.a, op3.value.b, op3.value.rm)
    {
      if reset {
        s1, s2, outValid, out := RESET_UNPACKED, RESET_MULTIPLIED, false, Rounded(0, NO_FLAGS);
        op1, op2, op3 := None, None, None;
      } else if advance {
        if s2.valid {
          StageThreeInput(op2.value);
          out := NormalizeAndRound(s2);
          ProductIsReference(op2.value);
        }
        outValid := s2.valid;
        s2 := Multiply(s1);
        s1 := Unpack(op, inValid);
        op1, op2, op3 := if inValid then Some(op) else None, op1, op2;
      }
    }
  }

  lemma StageThreeInput(op: Operation)
    ensures var s := Multiply(Unpack(op, true));
            s.special == Computed ==> 0 < s.product < 0x1_0000_0000_0000
  {
    var x, y := UnpackSig(op.a), UnpackSig(op.b);
    assert Unpack(op, true).special == Computed ==> x > 0 && y > 0;
    ProductBounds(x, y);
  }

  lemma ProductBounds(x: nat, y: nat)
    requires x < 0x100_0000 && y < 0x100_0000
    ensures x * y < 0x1_0000_0000_0000 && (x > 0 && y > 0 ==> x * y > 0)
  {
    MulMonotone(x, 0xff_ffff, y);
  }

  lemma MulMonotone(x: nat, x': nat, y: nat)
    requires x <= x'
    ensures x * y <= x' * y
  {
  }

  lemma NonzeroProduct(x: real, y: real)
    requires x != 0.0 && y != 0.0
    ensures x * y != 0.0
  {
  }

  lemma FiniteProduct(a: Word, b: Word, rm: RoundingMode, exact: real)
    requires !IsNan(a) && !IsNan(b) && !IsZero(a) && !IsZero(b) && !IsInfinite(a) && !IsInfinite(b)
    requires exact == Value(a) * Value(b)
    ensures exact != 0.0 && FpMul(a, b, rm) == RoundToSingle(exact, rm)
  {
    hide RoundToSingle, Value, Scaled;
    ValueNonzero(a);
    ValueNonzero(b);
    NonzeroProduct(Value(a), Value(b));
  }

  lemma DecidedProduct(op: Operation)
    ensures var s := Multiply(Unpack(op, true)); s.special.Decided? ==> FpMul(op.a, op.b, op.rm) == s.special.result
  {
    hide RoundToSingle, Value, Scaled;
  }

  /** The multiplier's sign, exponent and product denote the exact product of the operands. */
  lemma ProductIsReference(op: Operation)
    ensures var s := Multiply(Unpack(op, true));
            match s.special
            case Decided(r) => FpMul(op.a, op.b, op.rm) == r
            case Computed =>
              Scaled(s.product as real, s.exp - 173) > 0.0 ==>
              FpMul(op.a, op.b, op.rm) == RoundToSingle(Signed(s.sign, Scaled(s.product as real, s.exp - 173)), op.rm)
  {
    hide Scaled, RoundToSingle, Value, FpMul;
    ExactProduct(op.a, op.b);
    DecidedProduct(op);
    var s := Multiply(Unpack(op, true));
    if s.special == Computed {
      FiniteProduct(op.a, op.b, op.rm, Signed(s.sign, Scaled(s.product as real, s.exp - 173)));
    }
  }
}
