/** Helpers shared by the floating-point units: leading one, normalization, and round-and-pack. */
module FpPackage {
  import opened Prelude
  import opened Binary32
  import opened PowersOfTwo
  import opened FpReference
  import opened FpRounding

  /** A result decided by special operands alone, or one that needs arithmetic. */
  datatype Special = Decided(result: Rounded) | Computed

  /** Significand with the hidden bit for normals. */
  function UnpackSig(x: Word): (s: nat)
    ensures s < 0x100_0000
    ensures s >= 0x80_0000 <==> ExponentField(x) != 0
  {
    (if ExponentField(x) != 0 then 0x80_0000 else 0) + FractionField(x)
  }

  /** Subnormals share exponent 1 with the smallest normals. */
  function UnpackExp(x: Word): (e: int)
    ensures 1 <= e <= 255
  {
    if ExponentField(x) == 0 then 1 else ExponentField(x)
  }

  function Signed(negative: bool, mag: real): real {
    if negative then -mag else mag
  }

  /** A single is its significand scaled by its exponent. */
  lemma UnpackValue(x: Word)
    ensures Value(x) == Signed(Negative(x), Scaled(UnpackSig(x) as real, UnpackExp(x) - 150))
    ensures IsZero(x) <==> UnpackSig(x) == 0
  {
    hide Scaled;
  }

  /** Position of the most significant one among 64 bits, or -1. */
  method LeadingOne(v: nat) returns (msb: int)
    requires Shr(v, 64) == 0
    ensures v == 0 <==> msb == -1
    ensures v != 0 ==> 0 <= msb < 64 && Shr(v, msb) == 1
  {
    msb := -1;
    for i := 0 to 64
      invariant -1 <= msb < i
      invariant msb >= 0 ==> Bit(v, msb)
      invariant forall j: nat :: msb < j < i ==> !Bit(v, j)
    {
      if Bit(v, i) {
        msb := i;
      }
    }
    NothingAbove(v, msb + 1, 64);
    if msb >= 0 {
      ShrZero(msb);
    }
  }

  lemma {:induction false} NothingAbove(v: nat, low: nat, high: nat)
    requires low <= high && Shr(v, high) == 0
    requires forall j: nat :: low <= j < high ==> !Bit(v, j)
    ensures Shr(v, low) == 0
    decreases high - low
  {
    if low < high {
      NothingAbove(v, low + 1, high);
      assert !Bit(v, low);
    }
  }

  /** ORs the bits of v below `below` into bit 0 of `kept`, one bit position at a time. */
  method FoldSticky(v: nat, below: nat, kept: nat, width: nat) returns (s: nat)
    requires below <= width
    ensures s == Or1(kept, AnyBelow(v, below))
  {
    s := kept;
    for i := 0 to width
      invariant s == Or1(kept, AnyBelow(v, if i < below then i else below))
    {
      if i < below && Bit(v, i) {
        s := Or1(s, true);
      }
    }
  }

  /** Moves a nonzero magnitude so that its leading one, at `msb`, lands on bit 26. The exact
      magnitude is v plus a fraction theta that the caller reports as a sticky bit; the result is the
      exact normalized magnitude, jammed, exactly if the fraction still ends below bit 1 after the move:
      whatever the fraction, if there is none or the leading one is at bit 25 or above. */
  method ToSig27(v: nat, msb: int, stickyIn: bool, ghost theta: real) returns (sig: nat)
    requires 0 <= msb < 64 && Shr(v, msb) == 1
    requires 0.0 <= theta < 1.0 && (stickyIn <==> theta != 0.0)
    ensures var m := Scaled(v as real + theta, 26 - msb);
            67108864.0 <= m < 134217728.0 && (sig == Jam(m) <==> msb >= 26 || Scaled(theta, 26 - msb) < 2.0)
    ensures (stickyIn ==> msb >= 25) ==> sig == Jam(Scaled(v as real + theta, 26 - msb))
  {
    hide Scaled;
    NormalizedRange(v, msb, theta);
    if msb >= 26 {
      sig := FoldSticky(v, msb - 26, Shr(v, msb - 26), 64);
      sig := Or1(sig, stickyIn);
      JamRightShift(v, msb - 26, theta);
    } else {
      sig := Or1(Shl(v, 26 - msb), stickyIn);
      JamLeftShift(v, 26 - msb, theta);
      ScaledStep(theta, 0);
      ScaledZero(theta);
      ScaledOrder(theta, 0.0, 26 - msb);
    }
  }

  /** With the leading one any lower, a fraction of one half is lost: the sticky bit stands for too little. */
  lemma StickyNeedsRoom(v: nat, msb: nat)
    requires msb < 25
    ensures Scaled(v as real + 0.5, 26 - msb) >= 0.0
    ensures Or1(Shl(v, 26 - msb), true) != Jam(Scaled(v as real + 0.5, 26 - msb))
  {
    ScaledOrder(v as real + 0.5, 0.0, 26 - msb);
    JamLeftShift(v, 26 - msb, 0.5);
    ScaledZero(0.5);
    ScaledStep(0.5, 0);
    ScaledStep(0.5, 1);
    ScaledMonotone(0.5, 2, 26 - msb);
  }

  lemma NormalizedRange(v: nat, msb: nat, theta: real)
    requires Shr(v, msb) == 1 && 0.0 <= theta < 1.0
    ensures 67108864.0 <= Scaled(v as real + theta, 26 - msb) < 134217728.0
  {
    hide Shl;
    ShrBounds(v, msb);
    ScaledNat(1, msb);
    ScaledNat(2, msb);
    ScaledTwice(1.0, msb, 26 - msb);
    ScaledTwice(2.0, msb, 26 - msb);
    hide Scaled;
    SignificandBounds();
    ScaledOrder(v as real + theta, Scaled(1.0, msb), 26 - msb);
    ScaledOrder(v as real + theta, Scaled(2.0, msb), 26 - msb);
  }

  lemma JamRightShift(v: nat, k: nat, theta: real)
    requires 0.0 <= theta < 1.0
    ensures Scaled(v as real + theta, 0 - k) >= 0.0
    ensures Or1(Or1(Shr(v, k), AnyBelow(v, k)), theta != 0.0) == Jam(Scaled(v as real + theta, 0 - k))
  {
    hide Scaled;
    JamTwice(v as real + theta, k);
    assert Jam(v as real + theta) == Or1(v, theta != 0.0);
    if k >= 1 {
      Or1Cut(v, theta != 0.0, k);
    }
  }

  lemma JamLeftShift(v: nat, k: nat, theta: real)
    requires 0.0 <= theta < 1.0 && k >= 1
    ensures Scaled(v as real + theta, k) >= 0.0
    ensures Or1(Shl(v, k), theta != 0.0) == Jam(Scaled(v as real + theta, k)) <==> Scaled(theta, k) < 2.0
  {
    hide Scaled;
    ScaledSum(v as real, theta, k);
    ScaledNat(v, k);
    ScaledOrder(theta, 0.0, k);
    assert Shl(v, k) == 2 * Shl(v, k - 1);
    JamNear(Shl(v, k), Scaled(theta, k));
  }

  /** Adding a fraction to an even integer jams to the integer or the next odd one exactly if it is below two. */
  lemma JamNear(x: nat, f: real)
    requires x % 2 == 0 && f >= 0.0
    ensures Or1(x, f != 0.0) == Jam(x as real + f) <==> f < 2.0
  {
    FloorOfSum(x, f);
  }

  /** Rounds the magnitude m * 2^(exp - 153), given as its jammed 27-bit significand, and packs it. */
  method RoundPack(negative: bool, exp: int, sig: nat, rm: RoundingMode, ghost m: real) returns (r: Rounded)
    requires 67108864.0 <= m < 134217728.0 && sig == Jam(m)
    ensures Scaled(m, exp - 153) > 0.0
    ensures r == RoundToSingle(Signed(negative, Scaled(m, exp - 153)), rm)
  {
    hide Scaled;
    hide RoundToSingle, Shr, AnyBelow;
    JamRange(m);
    var tiny := false;
    if exp < 0 {
      tiny := true;
    } else if exp == 0 {
      tiny := !(RoundUp(negative, sig / 8 % 2 == 1, sig / 4 % 2 == 1, sig % 4 != 0, rm) && sig / 8 == 0xff_ffff);
    }

    var s, e := sig, exp;
    if exp < 1 {
      var shift := 1 - exp;
      if shift > 26 {
        s := One(sig != 0);
        TinyShift(sig, shift);
      } else {
        s := FoldSticky(sig, shift, Shr(sig, shift), 27);
      }
      e := 0;
    }

    var inexact := s % 8 != 0;
    var rounded := s / 8 + One(RoundUp(negative, s / 8 % 2 == 1, s / 4 % 2 == 1, s % 4 != 0, rm));
    var bits, overflow := 0, false;
    if e == 0 {
      bits := SignBits(negative) + rounded;
    } else {
      if rounded >= 0x100_0000 {
        rounded := rounded / 2;
        e := e + 1;
      }
      if e >= 255 {
        overflow := true;
        if rm == RTZ || (rm == RDN && !negative) || (rm == RUP && negative) {
          bits := SignBits(negative) + LARGEST_FINITE;
        } else {
          bits := SignBits(negative) + INFINITY;
        }
      } else {
        bits := SignBits(negative) + e * 0x80_0000 + rounded % 0x80_0000;
      }
    }
    r := Rounded(bits, Flags(false, false, overflow, tiny && inexact, inexact || overflow));
    ReferenceByRange(negative, exp, m, s, rm);
    if exp == 0 && !tiny {
      CarryIntoNormal(negative, sig, s, rm);
    }
  }

  lemma TinyShift(sig: nat, shift: nat)
    requires 0 < sig < 0x800_0000 && shift >= 27
    ensures One(sig != 0) == Or1(Shr(sig, shift), AnyBelow(sig, shift))
  {
    SignificandBounds();
    ShrBounds(sig, 27);
    ShrTwice(sig, 27, shift - 27);
    ShrZero(shift - 27);
    if !AnyBelow(sig, 27) {
      NoBits(sig, 27);
    }
  }

  lemma {:induction false} ShrZero(k: nat)
    ensures Shr(0, k) == 0
  {
    if k > 0 {
      ShrZero(k - 1);
    }
  }

  /** A number with no bit below k and nothing at or above k is zero. */
  lemma {:induction false} NoBits(x: nat, k: nat)
    requires Shr(x, k) == 0 && !AnyBelow(x, k)
    ensures x == 0
  {
    if k > 0 {
      NoBits(x, k - 1);
    }
  }

  lemma TwoLowBits(x: nat)
    ensures Shr(x, 2) == x / 4 && (AnyBelow(x, 2) <==> x % 4 != 0)
  {
    assert Shr(x, 1) == Shr(x, 0) / 2;
    assert Shr(x, 2) == Shr(x, 1) / 2;
    assert AnyBelow(x, 1) <==> Bit(x, 0);
    assert AnyBelow(x, 2) <==> AnyBelow(x, 1) || Bit(x, 1);
  }

  lemma NormalizedExponent(m: real, exp: int)
    requires 67108864.0 <= m < 134217728.0
    ensures Scaled(m, exp - 153) > 0.0 && Exponent(Scaled(m, exp - 153)) == exp - 127
  {
    hide Scaled;
    SignificandBounds();
    ScaledTwice(1.0, 26, exp - 153);
    ScaledTwice(1.0, 27, exp - 153);
    ScaledOrder(m, Scaled(1.0, 26), exp - 153);
    ScaledOrder(m, Scaled(1.0, 27), exp - 153);
    ScaledOrder(m, 0.0, exp - 153);
    ExponentUnique(Scaled(m, exp - 153), Exponent(Scaled(m, exp - 153)), exp - 127);
  }

  /** What the reference computes before it looks at the exponent range: the exponent, the 24-bit
      rounding, and whether any integer significand k at this exponent would be exact. */
  lemma ReferenceParts(negative: bool, exp: int, m: real, rm: RoundingMode)
    requires 67108864.0 <= m < 134217728.0
    ensures var sig := Jam(m);
            var mag := Scaled(m, exp - 153);
            mag > 0.0 && 0x400_0000 <= sig < 0x800_0000 &&
            Exponent(mag) == exp - 127 && Scaled(mag, 150 - exp) >= 0.0 &&
            RoundInt(Scaled(mag, 150 - exp), negative, rm)
            == sig / 8 + One(RoundUp(negative, sig / 8 % 2 == 1, sig / 4 % 2 == 1, sig % 4 != 0, rm))
    ensures var sig := Jam(m);
            var mag := Scaled(m, exp - 153);
            var k := sig / 8 + One(RoundUp(negative, sig / 8 % 2 == 1, sig / 4 % 2 == 1, sig % 4 != 0, rm));
            (Scaled(k as real, exp - 150) == mag <==> sig % 8 == 0) &&
            (k % 2 == 0 ==> (Scaled((k / 2) as real, exp - 149) == mag <==> sig % 8 == 0))
  {
    hide Scaled;
    hide RoundInt;
    NormalizedExponent(m, exp);
    ScaledTwice(m, exp - 153, 150 - exp);
    RoundJammed(m, 3, negative, rm);
    TwoLowBits(Jam(m));
    var sig := Jam(m);
    var k := sig / 8 + One(RoundUp(negative, sig / 8 % 2 == 1, sig / 4 % 2 == 1, sig % 4 != 0, rm));
    ExactAt(m, exp, k);
    ExactIffWhole(m, negative, rm);
  }

  lemma ExactIffWhole(m: real, negative: bool, rm: RoundingMode)
    requires 67108864.0 <= m
    ensures var q := Scaled(m, -3);
            q >= 0.0 && (RoundInt(q, negative, rm) as real == q <==> Jam(m) % 8 == 0)
  {
    hide Scaled;
    RoundJammed(m, 3, negative, rm);
    TwoLowBits(Jam(m));
  }

  lemma ExactAt(m: real, exp: int, k: nat)
    ensures Scaled(k as real, exp - 150) == Scaled(m, exp - 153) <==> k as real == Scaled(m, -3)
    ensures k % 2 == 0 ==> Scaled((k / 2) as real, exp - 149) == Scaled(k as real, exp - 150)
  {
    ScaledStep((k / 2) as real, exp - 150);
    hide Scaled;
    ScaledTwice(m, -3, exp - 150);
    ScaledOrder(k as real, Scaled(m, -3), exp - 150);
    ScaledSum((k / 2) as real, (k / 2) as real, exp - 150);
  }

  /** In the subnormal range the reference rounds to a fixed quantum, which is a further right shift. */
  lemma ReferenceSubnormal(negative: bool, exp: int, m: real, s: nat, rm: RoundingMode)
    requires 67108864.0 <= m < 134217728.0 && exp < 1
    requires s == Or1(Shr(Jam(m), 1 - exp), AnyBelow(Jam(m), 1 - exp))
    ensures var q := Scaled(Scaled(m, exp - 153), 149);
            q >= 0.0 &&
            RoundInt(q, negative, rm)
            == s / 8 + One(RoundUp(negative, s / 8 % 2 == 1, s / 4 % 2 == 1, s % 4 != 0, rm)) &&
            (RoundInt(q, negative, rm) as real == q <==> s % 8 == 0)
  {
    hide Scaled, Jam, Shr, AnyBelow;
    ScaledTwice(m, exp - 153, 149);
    RoundJammed(m, 4 - exp, negative, rm);
    var sig := Jam(m);
    ShrTwice(sig, 1 - exp, 2);
    Or1Cut(Shr(sig, 1 - exp), AnyBelow(sig, 1 - exp), 2);
    TwoLowBits(s);
  }

  lemma JamRange(m: real)
    requires 67108864.0 <= m < 134217728.0
    ensures 0x400_0000 <= Jam(m) < 0x800_0000
  {
  }

  /** The reference, range by range, in terms of the jammed significand. In the subnormal range, s is
      the significand shifted right with its lost bits jammed. */
  lemma ReferenceByRange(negative: bool, exp: int, m: real, s: nat, rm: RoundingMode)
    requires 67108864.0 <= m < 134217728.0
    requires exp < 1 ==> s == Or1(Shr(Jam(m), 1 - exp), AnyBelow(Jam(m), 1 - exp))
    ensures Scaled(m, exp - 153) > 0.0
    ensures var sig := Jam(m);
            var k := sig / 8 + One(RoundUp(negative, sig / 8 % 2 == 1, sig / 4 % 2 == 1, sig % 4 != 0, rm));
            var e := exp + One(k == 0x100_0000);
            RoundToSingle(Signed(negative, Scaled(m, exp - 153)), rm) ==
            if e < 1 then
              Rounded(SignBits(negative) + s / 8 + One(RoundUp(negative, s / 8 % 2 == 1, s / 4 % 2 == 1, s % 4 != 0, rm)),
                      Flags(false, false, false, s % 8 != 0, s % 8 != 0))
            else if e > 254 then
              Rounded(SignBits(negative) + (if rm == RTZ || (rm == RDN && !negative) || (rm == RUP && negative)
                                            then LARGEST_FINITE else INFINITY),
                      Flags(false, false, true, false, true))
            else
              Rounded(SignBits(negative) + e * 0x80_0000 + (if k == 0x100_0000 then 0 else k % 0x80_0000),
                      Flags(false, false, false, false, sig % 8 != 0))
  {
    hide Scaled;
    hide RoundInt;
    hide Jam;
    hide RoundUp;
    ReferenceParts(negative, exp, m, rm);
    if exp < 1 {
      ReferenceSubnormal(negative, exp, m, s, rm);
    }
  }

  /** At the top of the subnormal range, rounding up to the smallest normal happens at both precisions. */
  lemma CarryIntoNormal(negative: bool, sig: nat, s: nat, rm: RoundingMode)
    requires 0x400_0000 <= sig < 0x800_0000
    requires s == Or1(Shr(sig, 1), AnyBelow(sig, 1))
    requires sig / 8 == 0xff_ffff && RoundUp(negative, true, sig / 4 % 2 == 1, sig % 4 != 0, rm)
    ensures s / 8 + One(RoundUp(negative, s / 8 % 2 == 1, s / 4 % 2 == 1, s % 4 != 0, rm)) == 0x80_0000
    ensures s % 8 != 0
  {
    assert Shr(sig, 1) == Shr(sig, 0) / 2;
    assert AnyBelow(sig, 1) <==> Bit(sig, 0);
  }
}
