/** Powers of two over naturals and reals: shifts, bits and scaling, all defined by doubling and halving so
    that no proof needs general multiplication. */
module PowersOfTwo {

  function Shl(x: nat, k: nat): nat {
    if k == 0 then x else 2 * Shl(x, k - 1)
  }

  function Shr(x: nat, k: nat): nat {
    if k == 0 then x else Shr(x, k - 1) / 2
  }

  function Pow2(k: nat): (p: nat)
    ensures p >= 1
  {
    if k == 0 then 1 else 2 * Pow2(k - 1)
  }

  predicate Bit(x: nat, i: nat) {
    Shr(x, i) % 2 == 1
  }

  /** Some bit of x below position k is set. */
  predicate AnyBelow(x: nat, k: nat) {
    k > 0 && (AnyBelow(x, k - 1) || Bit(x, k - 1))
  }

  /** x * 2^e. */
  function Scaled(x: real, e: int): real
    decreases if e < 0 then -e else e
  {
    if e == 0 then x
    else if e > 0 then 2.0 * Scaled(x, e - 1)
    else Scaled(x, e + 1) / 2.0
  }

  lemma {:induction false} ShrTwice(x: nat, a: nat, b: nat)
    ensures Shr(x, a + b) == Shr(Shr(x, a), b)
    ensures AnyBelow(x, a + b) <==> AnyBelow(x, a) || AnyBelow(Shr(x, a), b)
    decreases b
  {
    if b > 0 {
      ShrTwice(x, a, b - 1);
      assert a + b - 1 == a + (b - 1);
    }
  }

  lemma {:induction false} ShlTwice(x: nat, a: nat, b: nat)
    ensures Shl(x, a + b) == Shl(Shl(x, a), b)
    decreases b
  {
    if b > 0 {
      ShlTwice(x, a, b - 1);
      assert a + b - 1 == a + (b - 1);
    }
  }

  /** Shifting left and then right by the same amount, or by more, cancels. */
  lemma {:induction false} ShlThenShr(x: nat, a: nat)
    ensures Shr(Shl(x, a), a) == x && !AnyBelow(Shl(x, a), a)
  {
    if a > 0 {
      ShlThenShr(x, a - 1);
      ShrTwice(Shl(x, a), 1, a - 1);
      assert Shr(Shl(x, a), 1) == Shl(x, a - 1) by {
        assert Shr(Shl(x, a), 1) == Shr(Shl(x, a), 0) / 2;
      }
      assert AnyBelow(Shl(x, a), 1) <==> Bit(Shl(x, a), 0);
    }
  }

  /** A right shift brackets its operand between two multiples of a power of two. */
  lemma {:induction false} ShrBounds(x: nat, k: nat)
    ensures Shl(Shr(x, k), k) <= x < Shl(Shr(x, k) + 1, k)
    ensures Shr(x, k) == 0 <==> x < Pow2(k)
    decreases k
  {
    if k > 0 {
      ShrBounds(x, k - 1);
      var q := Shr(x, k - 1);
      ShlMonotone(2 * (q / 2), q, k - 1);
      ShlMonotone(q + 1, 2 * (q / 2 + 1), k - 1);
      ShlOfDouble(q / 2, k - 1);
      ShlOfDouble(q / 2 + 1, k - 1);
    }
    ShlOne(k);
    if Shr(x, k) > 0 {
      ShlMonotone(1, Shr(x, k), k);
    }
  }

  lemma {:induction false} ShlMonotone(x: nat, y: nat, k: nat)
    requires x <= y
    ensures Shl(x, k) <= Shl(y, k)
  {
    if k > 0 {
      ShlMonotone(x, y, k - 1);
    }
  }

  lemma {:induction false} ShlOfDouble(x: nat, k: nat)
    ensures Shl(2 * x, k) == Shl(x, k + 1)
  {
    if k > 0 {
      ShlOfDouble(x, k - 1);
    }
  }

  lemma {:induction false} ShlOne(k: nat)
    ensures Shl(1, k) == Pow2(k) && Shl(0, k) == 0
  {
    if k > 0 {
      ShlOne(k - 1);
    }
  }

  lemma ScaledStep(x: real, e: int)
    ensures Scaled(x, e + 1) == 2.0 * Scaled(x, e)
  {
  }

  lemma {:induction false} ScaledSum(x: real, y: real, e: int)
    ensures Scaled(x + y, e) == Scaled(x, e) + Scaled(y, e)
    ensures Scaled(-x, e) == -Scaled(x, e)
    decreases if e < 0 then -e else e
  {
    if e > 0 {
      ScaledSum(x, y, e - 1);
    } else if e < 0 {
      ScaledSum(x, y, e + 1);
    }
  }

  lemma {:induction false} ScaledOrder(x: real, y: real, e: int)
    ensures x < y <==> Scaled(x, e) < Scaled(y, e)
    ensures x == y <==> Scaled(x, e) == Scaled(y, e)
    ensures x < 0.0 <==> Scaled(x, e) < 0.0
    ensures x == 0.0 <==> Scaled(x, e) == 0.0
    decreases if e < 0 then -e else e
  {
    if e > 0 {
      ScaledOrder(x, y, e - 1);
    } else if e < 0 {
      ScaledOrder(x, y, e + 1);
    }
  }

  lemma {:induction false} ScaledTwice(x: real, a: int, b: int)
    ensures Scaled(Scaled(x, a), b) == Scaled(x, a + b)
    decreases if b < 0 then -b else b
  {
    if b > 0 {
      ScaledTwice(x, a, b - 1);
      ScaledStep(x, a + b - 1);
    } else if b < 0 {
      ScaledTwice(x, a, b + 1);
      ScaledStep(x, a + b);
    }
  }

  lemma {:induction false} ScaledNat(x: nat, k: nat)
    ensures Scaled(x as real, k) == Shl(x, k) as real
  {
    if k > 0 {
      ScaledNat(x, k - 1);
    }
  }

  /** Scaling one factor scales the product. */
  lemma {:induction false} ScaledFactor(x: real, w: real, e: int)
    ensures Scaled(x, e) * w == Scaled(x * w, e)
    decreases if e < 0 then -e else e
  {
    if e > 0 {
      ScaledFactor(x, w, e - 1);
      DoubledFactor(Scaled(x, e - 1), w);
    } else if e < 0 {
      ScaledFactor(x, w, e + 1);
      DoubledFactor(Scaled(x, e), w);
    }
  }

  lemma DoubledFactor(s: real, w: real)
    ensures (2.0 * s) * w == 2.0 * (s * w)
  {
  }

  lemma {:induction false} ScaledMonotone(x: real, a: int, b: int)
    requires a <= b && x >= 0.0
    ensures Scaled(x, a) <= Scaled(x, b)
    decreases b - a
  {
    ScaledOrder(x, 0.0, a);
    if a < b {
      ScaledStep(x, a);
      ScaledMonotone(x, a + 1, b);
    }
  }

  /** The floor of a scaled-down magnitude is a right shift of its floor; what is lost is its fraction
      or a bit below the cut. */
  lemma {:induction false} FloorOfScaled(m: real, k: nat)
    requires m >= 0.0
    ensures var y := Scaled(m, 0 - k);
            y >= 0.0 && y.Floor == Shr(m.Floor, k) &&
            (y == y.Floor as real <==> m == m.Floor as real && !AnyBelow(m.Floor, k))
  {
    if k > 0 {
      FloorOfScaled(m, k - 1);
    }
  }

  /** The magnitudes that bound a normalized 27-bit significand. */
  lemma SignificandBounds()
    ensures Pow2(23) == 0x80_0000 && Pow2(24) == 0x100_0000 && Pow2(26) == 0x400_0000 && Pow2(27) == 0x800_0000
    ensures Scaled(1.0, 26) == 67108864.0 && Scaled(2.0, 26) == 134217728.0 && Scaled(1.0, 27) == 134217728.0
  {
    assert Pow2(8) == 0x100;
    assert Pow2(14) == 0x4000;
    assert Pow2(20) == 0x10_0000;
    assert Pow2(23) == 0x80_0000;
    assert Pow2(26) == 0x400_0000;
    ScaledNat(1, 26);
    ShlOne(26);
    ScaledStep(1.0, 26);
    ScaledSum(1.0, 1.0, 26);
  }

  /** A 64-bit value has nothing at or above position 64. */
  lemma Fits64(v: nat)
    requires v < 0x1_0000_0000_0000_0000
    ensures Shr(v, 64) == 0
  {
    SignificandBounds();
    assert Pow2(34) == 0x4_0000_0000;
    assert Pow2(42) == 0x400_0000_0000;
    assert Pow2(50) == 0x4_0000_0000_0000;
    assert Pow2(58) == 0x400_0000_0000_0000;
    assert Pow2(64) == 0x1_0000_0000_0000_0000;
    ShrBounds(v, 64);
  }

  lemma {:induction false} ShlSum(x: nat, y: nat, k: nat)
    ensures Shl(x + y, k) == Shl(x, k) + Shl(y, k)
  {
    if k > 0 {
      ShlSum(x, y, k - 1);
    }
  }

  /** Sizes on the adder's aligned scale. */
  lemma AlignedBounds()
    ensures Pow2(30) == 0x4000_0000 && Shl(0x80_0000, 31) == 0x40_0000_0000_0000 && Shl(0x100_0000, 31) == 0x80_0000_0000_0000
  {
    SignificandBounds();
    assert Pow2(30) == 0x4000_0000;
    assert Pow2(38) == 0x40_0000_0000;
    assert Pow2(46) == 0x4000_0000_0000;
    assert Pow2(54) == 0x40_0000_0000_0000;
    ShlOne(23);
    ShlOne(24);
    ShlTwice(1, 23, 31);
    ShlTwice(1, 24, 31);
    ShlOne(54);
    ShlOne(55);
  }
}
