/** What rounding means: to the nearest single, or to the next one in a direction. */
module FpNearest {
  import opened Prelude
  import opened Binary32
  import opened PowersOfTwo
  import opened FpReference

  function Abs(x: real): real {
    if x < 0.0 then -x else x
  }

  // ---- integers ----

  predicate IsNearest(rm: RoundingMode) {
    rm == RNE || rm == RMM
  }

  /** In the directed modes, whether magnitudes of this sign go up. */
  predicate GoesUp(rm: RoundingMode, negative: bool) {
    (rm == RDN && negative) || (rm == RUP && !negative)
  }

  /** To nearest, ties to even or to the larger; or to the next integer on the side the mode asks for. */
  lemma RoundIntMeans(q: real, negative: bool, rm: RoundingMode)
    requires q >= 0.0
    ensures var (n, d) := (RoundInt(q, negative, rm), RoundInt(q, negative, rm) as real - q);
            && (IsNearest(rm) ==> -0.5 <= d <= 0.5 && (d == 0.5 || d == -0.5 ==> if rm == RNE then n % 2 == 0 else d == 0.5))
            && (!IsNearest(rm) ==> if GoesUp(rm, negative) then 0.0 <= d < 1.0 else -1.0 < d <= 0.0)
  {
  }

  /** No other integer is nearer, and one as near is a tie. */
  lemma NearestInteger(q: real, negative: bool, rm: RoundingMode, k: int)
    requires q >= 0.0 && IsNearest(rm) && k != RoundInt(q, negative, rm)
    ensures var (n, far) := (RoundInt(q, negative, rm), Abs(k as real - q));
            && Abs(n as real - q) <= far
            && (Abs(n as real - q) == far ==> if rm == RNE then n % 2 == 0 else k == n - 1)
  {
    hide RoundInt;
    RoundIntMeans(q, negative, rm);
    var n := RoundInt(q, negative, rm);
    if k < n {
      assert k as real <= n as real - 1.0;
    } else {
      assert k as real >= n as real + 1.0;
    }
  }

  // ---- singles ----

  predicate Finite(x: Word) {
    ExponentField(x) < 255
  }

  /** The exponent of the spacing of the singles around a magnitude with binary exponent e. */
  function Grid(e: int): int {
    (if e < MIN_NORMAL_EXP then MIN_NORMAL_EXP else e) - FRAC_BITS
  }

  lemma DecodeNormal(negative: bool, e: int, m: nat)
    requires -126 <= e <= 127 && 0x80_0000 <= m < 0x100_0000
    ensures var x: Word := SignBits(negative) + (e + 127) * 0x80_0000 + m % 0x80_0000;
            && Finite(x) && Negative(x) == negative && Abs(Value(x)) == Scaled(m as real, e - FRAC_BITS) && x % 2 == m % 2
  {
    hide Scaled;
    var x: Word := SignBits(negative) + (e + 127) * 0x80_0000 + m % 0x80_0000;
    assert m % 0x80_0000 == m - 0x80_0000;
    assert ExponentField(x) == e + 127 && FractionField(x) == m - 0x80_0000;
    ScaledOrder(m as real, 0.0, e - FRAC_BITS);
  }

  lemma DecodeSubnormal(negative: bool, n: nat)
    requires n <= 0x80_0000
    ensures var x: Word := SignBits(negative) + n;
            && Finite(x) && Negative(x) == negative && Abs(Value(x)) == Scaled(n as real, MIN_NORMAL_EXP - FRAC_BITS) && x % 2 == n % 2
  {
    hide Scaled;
    var x: Word := SignBits(negative) + n;
    assert ExponentField(x) == (if n == 0x80_0000 then 1 else 0) && FractionField(x) == n % 0x80_0000;
    ScaledOrder(n as real, 0.0, MIN_NORMAL_EXP - FRAC_BITS);
  }

  // ---- levels ----

  /** A magnitude on its grid, and the grid level it rounds to. */
  ghost function OnGrid(mag: real): (q: real)
    requires mag > 0.0
    ensures q > 0.0
  {
    ScaledOrder(0.0, mag, 0 - Grid(Exponent(mag)));
    Scaled(mag, 0 - Grid(Exponent(mag)))
  }

  ghost function Level(mag: real, negative: bool, rm: RoundingMode): nat
    requires mag > 0.0
  {
    RoundInt(OnGrid(mag), negative, rm)
  }

  lemma SmallPowers()
    ensures Scaled(1.0, 23) == 8388608.0 && Scaled(1.0, 24) == 16777216.0
  {
    SignificandBounds();
    ScaledNat(1, 23);
    ScaledNat(1, 24);
    ShlOne(23);
    ShlOne(24);
  }

  /** Where a magnitude with binary exponent e is on a grid with spacing 2^g. */
  lemma GridBounds(mag: real, e: int, g: int)
    requires IsExponent(mag, e)
    ensures Scaled(1.0, e - g) <= Scaled(mag, 0 - g) < Scaled(1.0, e + 1 - g)
  {
    hide Scaled;
    ScaledOrder(mag, Scaled(1.0, e), 0 - g);
    ScaledOrder(mag, Scaled(1.0, e + 1), 0 - g);
    ScaledTwice(1.0, e, 0 - g);
    ScaledTwice(1.0, e + 1, 0 - g);
  }

  lemma NormalBounds(mag: real, e: int)
    requires IsExponent(mag, e)
    ensures 8388608.0 <= Scaled(mag, FRAC_BITS - e) < 16777216.0
    ensures e < MIN_NORMAL_EXP ==> Scaled(mag, FRAC_BITS - MIN_NORMAL_EXP) < 8388608.0
  {
    hide Scaled;
    GridBounds(mag, e, e - FRAC_BITS);
    GridBounds(mag, e, Grid(e));
    SmallPowers();
    if e < MIN_NORMAL_EXP {
      ScaledMonotone(1.0, e + 1 - Grid(e), 23);
    }
  }

  /** n levels of 2^g against 2^128. */
  lemma LevelAgainst(n: nat, g: int, k: int)
    ensures n >= 0x80_0000 ==> Scaled(n as real, g) >= Scaled(1.0, g + 23)
    ensures n <= 0x100_0000 ==> Scaled(n as real, g) <= Scaled(1.0, g + 24)
    ensures n < 0x100_0000 ==> Scaled(n as real, g) < Scaled(1.0, g + 24)
    ensures n == 0x100_0000 ==> Scaled(n as real, g) == Scaled(1.0, g + 24)
    ensures g + 24 <= k ==> Scaled(1.0, g + 24) <= Scaled(1.0, k)
    ensures g + 23 >= k ==> Scaled(1.0, g + 23) >= Scaled(1.0, k)
  {
    hide Scaled;
    SmallPowers();
    ScaledTwice(1.0, 23, g);
    ScaledTwice(1.0, 24, g);
    ScaledOrder(n as real, Scaled(1.0, 23), g);
    ScaledOrder(n as real, Scaled(1.0, 24), g);
    if g + 24 <= k {
      ScaledMonotone(1.0, g + 24, k);
    }
    if g + 23 >= k {
      ScaledMonotone(1.0, k, g + 23);
    }
  }

  /** Rounding up to the smallest normal on the finer grid that decides tininess, and on the subnormal grid. */
  lemma CarrySame(q: real, negative: bool, rm: RoundingMode)
    requires 0.0 <= q < 8388608.0 && RoundInt(2.0 * q, negative, rm) == 0x100_0000
    ensures RoundInt(q, negative, rm) == 0x80_0000
  {
    hide RoundInt;
    RoundIntMeans(q, negative, rm);
    RoundIntMeans(2.0 * q, negative, rm);
  }

  /** The single r is the level n of spacing 2^g with this sign, or the mode's answer to what is too large. */
  ghost predicate IsLevel(r: Word, n: nat, g: int, negative: bool, rm: RoundingMode) {
    if Scaled(n as real, g) < Scaled(1.0, 128) then
      Finite(r) && Negative(r) == negative && Abs(Value(r)) == Scaled(n as real, g) && r % 2 == n % 2
    else
      r == SignBits(negative) + if IsNearest(rm) || GoesUp(rm, negative) then INFINITY else LARGEST_FINITE
  }

  /** The whole of rounding: the level on the grid. */
  lemma RoundsToLevel(exact: real, rm: RoundingMode)
    requires exact != 0.0
    ensures RoundToSingle(exact, rm).bits < 0x1_0000_0000
    ensures var mag := Abs(exact);
            IsLevel(RoundToSingle(exact, rm).bits, Level(mag, exact < 0.0, rm), Grid(Exponent(mag)), exact < 0.0, rm)
  {
    RoundedFits(exact, rm);
    if Exponent(Abs(exact)) >= MIN_NORMAL_EXP {
      RoundsNormal(exact, rm);
    } else {
      RoundsSubnormal(exact, rm);
    }
  }

  lemma RoundsNormal(exact: real, rm: RoundingMode)
    requires exact != 0.0 && Exponent(Abs(exact)) >= MIN_NORMAL_EXP && RoundToSingle(exact, rm).bits < 0x1_0000_0000
    ensures var mag := Abs(exact);
            IsLevel(RoundToSingle(exact, rm).bits, Level(mag, exact < 0.0, rm), Grid(Exponent(mag)), exact < 0.0, rm)
  {
    hide Scaled, RoundInt, Value, Pow2, IsExponent, Exponent, Finite, Negative;
    var negative, mag := exact < 0.0, Abs(exact);
    var e := Exponent(mag);
    var n := Level(mag, negative, rm);
    NormalBounds(mag, e);
    LevelAgainst(n, e - FRAC_BITS, 128);
    assert 0x80_0000 <= n <= 0x100_0000;
    if n == 0x100_0000 {
      if e >= 127 {
        ScaledMonotone(1.0, 128, e + 1);
      } else {
        DecodeNormal(negative, e + 1, 0x80_0000);
        ScaledStep(8388608.0, e - FRAC_BITS);
        ScaledSum(8388608.0, 8388608.0, e - FRAC_BITS);
        ScaledMonotone(1.0, e + 1, 127);
        ScaledStep(1.0, 127);
        ScaledOrder(0.0, 1.0, 127);
      }
    } else if e <= 127 {
      DecodeNormal(negative, e, n);
    }
  }

  lemma RoundsSubnormal(exact: real, rm: RoundingMode)
    requires exact != 0.0 && Exponent(Abs(exact)) < MIN_NORMAL_EXP && RoundToSingle(exact, rm).bits < 0x1_0000_0000
    ensures var mag := Abs(exact);
            IsLevel(RoundToSingle(exact, rm).bits, Level(mag, exact < 0.0, rm), Grid(Exponent(mag)), exact < 0.0, rm)
  {
    hide Scaled, RoundInt, Value, Pow2, IsExponent, Exponent, Finite, Negative;
    var negative, mag := exact < 0.0, Abs(exact);
    var e := Exponent(mag);
    var n := Level(mag, negative, rm);
    NormalBounds(mag, e);
    LevelAgainst(n, MIN_NORMAL_EXP - FRAC_BITS, 128);
    assert n <= 0x80_0000;
    DecodeSubnormal(negative, n);
    var m0 := RoundInt(Scaled(mag, FRAC_BITS - e), negative, rm);
    if m0 == 0x100_0000 && e == MIN_NORMAL_EXP - 1 {
      ScaledStep(mag, FRAC_BITS - MIN_NORMAL_EXP);
      CarrySame(OnGrid(mag), negative, rm);
    }
  }

  // ---- every single against the grid ----

  lemma ValueSign(x: Word)
    ensures Value(x) == if Negative(x) then -Abs(Value(x)) else Abs(Value(x))
  {
    hide Scaled;
    ScaledOrder(FractionField(x) as real, 0.0, MIN_NORMAL_EXP - FRAC_BITS);
    ScaledOrder((0x80_0000 + FractionField(x)) as real, 0.0, ExponentField(x) - 127 - FRAC_BITS);
  }

  /** A finite single is a significand of 24 bits on a spacing no finer than 2^-149. */
  lemma SignificandOf(x: Word) returns (s: nat, g: int)
    requires Finite(x)
    ensures s < 0x100_0000 && MIN_NORMAL_EXP - FRAC_BITS <= g <= 104 && Abs(Value(x)) == Scaled(s as real, g)
  {
    hide Scaled;
    if ExponentField(x) == 0 {
      s, g := FractionField(x), MIN_NORMAL_EXP - FRAC_BITS;
    } else {
      s, g := 0x80_0000 + FractionField(x), ExponentField(x) - 127 - FRAC_BITS;
    }
    ScaledOrder(s as real, 0.0, g);
  }

  /** On the grid of a magnitude, a finite single is at a whole level, or below every level the magnitude can have. */
  lemma SingleOnGrid(y: Word, mag: real) returns (k: nat)
    requires Finite(y) && mag > 0.0
    ensures var v := Scaled(Abs(Value(y)), 0 - Grid(Exponent(mag)));
            Scaled(v, Grid(Exponent(mag))) == Abs(Value(y)) && v >= 0.0 && (v == k as real || v < 8388608.0 <= OnGrid(mag))
  {
    hide Scaled, Finite, Value;
    var g := Grid(Exponent(mag));
    var s, h := SignificandOf(y);
    NormalBounds(mag, Exponent(mag));
    ScaledTwice(Abs(Value(y)), 0 - g, g);
    ScaledZero(Abs(Value(y)));
    ScaledTwice(s as real, h, 0 - g);
    ScaledOrder(Abs(Value(y)), 0.0, 0 - g);
    k := 0;
    if h >= g {
      ScaledNat(s, h - g);
      k := Shl(s, h - g);
    } else {
      ScaledOrder(s as real, 16777216.0, h - g);
      ScaledMonotone(16777216.0, h - g, -1);
      Half(16777216.0);
    }
  }

  lemma Half(x: real)
    ensures Scaled(x, -1) == x / 2.0
  {
    assert Scaled(x, 0) == x;
  }

  lemma Distance(x: real, q: real, g: int)
    ensures Abs(Scaled(x, g) - Scaled(q, g)) == Scaled(Abs(x - q), g)
    ensures Abs(-Scaled(x, g) - Scaled(q, g)) == Scaled(Abs(-x - q), g)
  {
    hide Scaled;
    ScaledSum(x, -q, g);
    ScaledSum(-x, -q, g);
    ScaledSum(x - q, 0.0, g);
    ScaledSum(x, 0.0, g);
    ScaledSum(q, 0.0, g);
    ScaledSum(-x - q, 0.0, g);
    ScaledOrder(x - q, 0.0, g);
    ScaledOrder(-x - q, 0.0, g);
  }

  lemma OffGrid(mag: real)
    requires mag > 0.0
    ensures Scaled(OnGrid(mag), Grid(Exponent(mag))) == mag
  {
    hide Scaled;
    ScaledTwice(mag, 0 - Grid(Exponent(mag)), Grid(Exponent(mag)));
    ScaledZero(mag);
  }

  /** No single, of either sign, is nearer to the magnitude than the level it rounds to. `t` is the single's
      place on the magnitude's grid, its sign relative to the magnitude's. */
  lemma NearestLevel(mag: real, negative: bool, rm: RoundingMode, t: real, k: int)
    requires mag > 0.0 && IsNearest(rm) && (t == k as real || t < 8388608.0 <= OnGrid(mag)) && t != Level(mag, negative, rm) as real
    ensures var (n, q) := (Level(mag, negative, rm), OnGrid(mag));
            && Abs(n as real - q) <= Abs(t - q)
            && (Abs(n as real - q) == Abs(t - q) ==> if rm == RNE then n % 2 == 0 else t == n as real - 1.0 >= 0.0)
  {
    hide RoundInt, OnGrid;
    var n, q := Level(mag, negative, rm), OnGrid(mag);
    RoundIntMeans(q, negative, rm);
    if t == k as real {
      NearestInteger(q, negative, rm, k);
    } else if n != 0x80_0000 {
      NearestInteger(q, negative, rm, 0x80_0000);
    }
  }

  /** To nearest: no finite single is nearer to the exact value than the result; if another is as near, the result
      is even (ties to even), or the larger one (ties away). */
  lemma NoneNearer(exact: real, rm: RoundingMode, y: Word)
    requires exact != 0.0 && IsNearest(rm) && Finite(y)
    ensures RoundToSingle(exact, rm).bits < 0x1_0000_0000
    ensures var r: Word := RoundToSingle(exact, rm).bits;
            Finite(r) ==>
              && Abs(Value(r) - exact) <= Abs(Value(y) - exact)
              && (Abs(Value(r) - exact) == Abs(Value(y) - exact) && Value(y) != Value(r) ==>
                    if rm == RNE then r % 2 == 0 else Abs(Value(y)) < Abs(Value(r)))
  {
    hide Scaled, Value, RoundToSingle, OnGrid, Level, Finite, Negative, Exponent;
    RoundsToLevel(exact, rm);
    var r: Word := RoundToSingle(exact, rm).bits;
    if Finite(r) {
      NoneNearerFinite(exact, rm, y, r);
    }
  }

  /** How far two values are apart, on a grid; the signs are those of the values, relative to the second's. */
  lemma Apart(x: real, exact: real, v: real, q: real, g: int, opposite: bool)
    requires exact != 0.0 && Abs(x) == Scaled(v, g) && Abs(exact) == Scaled(q, g)
    requires x == (if (exact < 0.0) != opposite then -Abs(x) else Abs(x))
    ensures Abs(x - exact) == Scaled(Abs((if opposite then -v else v) - q), g)
  {
    Distance(v, q, g);
  }

  lemma NoneNearerFinite(exact: real, rm: RoundingMode, y: Word, r: Word)
    requires exact != 0.0 && IsNearest(rm) && Finite(y) && Finite(r)
    requires IsLevel(r, Level(Abs(exact), exact < 0.0, rm), Grid(Exponent(Abs(exact))), exact < 0.0, rm)
    ensures Abs(Value(r) - exact) <= Abs(Value(y) - exact)
    ensures Abs(Value(r) - exact) == Abs(Value(y) - exact) && Value(y) != Value(r) ==>
              if rm == RNE then r % 2 == 0 else Abs(Value(y)) < Abs(Value(r))
  {
    hide Scaled, Value, OnGrid, Level, Negative, Exponent, Grid;
    var mag, g := Abs(exact), Grid(Exponent(Abs(exact)));
    var n, q := Level(mag, exact < 0.0, rm), OnGrid(mag);
    var k := SingleOnGrid(y, mag);
    var v := Scaled(Abs(Value(y)), 0 - g);
    var opposite := Negative(y) != (exact < 0.0);
    var t := if opposite then -v else v;
    OffGrid(mag);
    ValueSign(r);
    ValueSign(y);
    Apart(Value(r), exact, n as real, q, g, false);
    Apart(Value(y), exact, v, q, g, opposite);
    ScaledOrder(Abs(n as real - q), Abs(t - q), g);
    ScaledOrder(v, n as real, g);
    ScaledOrder(n as real, 0.0, g);
    if t != n as real {
      var level: int := k;
      NearestLevel(mag, exact < 0.0, rm, t, if opposite then -level else level);
    }
  }

  // ---- overflow ----

  lemma HugeIsNotFinite(negative: bool)
    ensures !Finite(SignBits(negative) + INFINITY) && Negative(SignBits(negative) + INFINITY) == negative
  {
    var x: Word := SignBits(negative) + INFINITY;
    assert x / 0x80_0000 == if negative then 511 else 255;
  }

  /** The level of a magnitude in the binade of the largest singles. */
  lemma TopBinade(mag: real, negative: bool, rm: RoundingMode)
    requires mag > 0.0 && Exponent(mag) == 127
    ensures Grid(Exponent(mag)) == 104 && 0x80_0000 <= Level(mag, negative, rm) <= 0x100_0000
    ensures Scaled(Level(mag, negative, rm) as real, 104) < Scaled(1.0, 128) <==> Level(mag, negative, rm) < 0x100_0000
    ensures mag >= Scaled(16777215.5, 104) <==> OnGrid(mag) >= 16777215.5
  {
    hide Scaled, RoundInt;
    NormalBounds(mag, 127);
    LevelAgainst(Level(mag, negative, rm), 104, 128);
    OffGrid(mag);
    ScaledOrder(OnGrid(mag), 16777215.5, 104);
  }

  /** To nearest, the result is infinite exactly from half a unit beyond the largest single on: 2^128 - 2^103. */
  lemma OverflowsAt(exact: real, rm: RoundingMode)
    requires exact != 0.0 && IsNearest(rm)
    ensures RoundToSingle(exact, rm).bits < 0x1_0000_0000
    ensures !Finite(RoundToSingle(exact, rm).bits) <==> Abs(exact) >= Scaled(16777215.5, 104)
    ensures Abs(exact) >= Scaled(16777215.5, 104) ==> RoundToSingle(exact, rm).bits == SignBits(exact < 0.0) + INFINITY
  {
    hide Scaled, RoundToSingle, Finite, Value, Negative, RoundInt, OnGrid, Exponent;
    RoundsToLevel(exact, rm);
    var mag, negative := Abs(exact), exact < 0.0;
    var n, e := Level(mag, negative, rm), Exponent(mag);
    HugeIsNotFinite(negative);
    LevelBelow(mag, negative, rm);
    TopBound();
    if e >= 128 {
      ScaledMonotone(1.0, 128, e);
    } else if e <= 126 {
      ScaledMonotone(1.0, e + 1, 127);
    } else {
      TopBinade(mag, negative, rm);
      RoundIntMeans(OnGrid(mag), negative, rm);
    }
  }

  lemma TopBound()
    ensures Scaled(1.0, 127) < Scaled(16777215.5, 104) < Scaled(1.0, 128)
  {
    hide Scaled;
    SmallPowers();
    ScaledTwice(1.0, 23, 104);
    ScaledTwice(1.0, 24, 104);
    ScaledOrder(8388608.0, 16777215.5, 104);
    ScaledOrder(16777215.5, 16777216.0, 104);
  }

  /** A level is within the binade of its magnitude, its upper end included. */
  lemma LevelBelow(mag: real, negative: bool, rm: RoundingMode)
    requires mag > 0.0
    ensures var (s, e) := (Scaled(Level(mag, negative, rm) as real, Grid(Exponent(mag))), Exponent(mag));
            && Scaled(1.0, e) <= mag < Scaled(1.0, e + 1)
            && (e >= MIN_NORMAL_EXP ==> Scaled(1.0, e) <= s <= Scaled(1.0, e + 1))
            && (e >= 128 ==> s >= Scaled(1.0, 128)) && (e <= 126 ==> s < Scaled(1.0, 128))
  {
    hide Scaled, RoundInt;
    var n, e := Level(mag, negative, rm), Exponent(mag);
    NormalBounds(mag, e);
    LevelAgainst(n, Grid(e), 128);
    LevelAgainst(n, Grid(e), 127);
    if e >= 128 {
      ScaledMonotone(1.0, 128, e);
    }
    ScaledStep(1.0, 127);
    ScaledOrder(0.0, 1.0, 127);
  }

  // ---- the directed modes ----

  /** The largest finite single is above every other. */
  lemma LargestFinite(negative: bool, y: Word)
    requires Finite(y)
    ensures var x: Word := SignBits(negative) + LARGEST_FINITE;
            && Finite(x) && Negative(x) == negative && Abs(Value(y)) <= Abs(Value(x)) < Scaled(1.0, 128)
  {
    hide Scaled, Value, Finite, Negative;
    DecodeNormal(negative, 127, 0xff_ffff);
    var s, g := SignificandOf(y);
    ScaledOrder(s as real, 16777215.0, 104);
    ScaledOrder(s as real, 16777215.0, g);
    ScaledOrder(16777215.0, 0.0, g);
    ScaledMonotone(16777215.0, g, 104);
    TopBound();
    ScaledOrder(16777215.0, 16777215.5, 104);
  }

  /** On the grid: the level is the next one on the mode's side, also among the places of singles off the grid. */
  lemma DirectedLevel(q: real, negative: bool, rm: RoundingMode, v: real, k: nat)
    requires q >= 0.0 && !IsNearest(rm) && (v == k as real || v < 8388608.0 <= q)
    ensures var n := RoundInt(q, negative, rm);
            if GoesUp(rm, negative) then q <= n as real && (q <= v ==> n as real <= v)
            else n as real <= q && (v <= q ==> v <= n as real)
  {
    hide RoundInt;
    RoundIntMeans(q, negative, rm);
    var n := RoundInt(q, negative, rm);
    if v != k as real {
      assert n >= 0x80_0000;
    } else if k < n {
      assert k as real <= n as real - 1.0;
    } else if k > n {
      assert k as real >= n as real + 1.0;
    }
  }

  /** The same of magnitudes. */
  lemma DirectedMagnitude(mag: real, negative: bool, rm: RoundingMode, y: Word)
    requires mag > 0.0 && !IsNearest(rm) && Finite(y)
    ensures var s := Scaled(Level(mag, negative, rm) as real, Grid(Exponent(mag)));
            if GoesUp(rm, negative) then mag <= s && (mag <= Abs(Value(y)) ==> s <= Abs(Value(y)))
            else s <= mag && (Abs(Value(y)) <= mag ==> Abs(Value(y)) <= s)
  {
    hide Scaled, Value, OnGrid, Exponent, Grid, Finite, RoundInt;
    var q, g := OnGrid(mag), Grid(Exponent(mag));
    var n := RoundInt(q, negative, rm);
    var k := SingleOnGrid(y, mag);
    var v := Scaled(Abs(Value(y)), 0 - g);
    DirectedLevel(q, negative, rm, v, k);
    OffGrid(mag);
    ScaledOrder(q, n as real, g);
    ScaledOrder(q, v, g);
    ScaledOrder(v, n as real, g);
    ScaledOrder(n as real, q, g);
    ScaledOrder(v, q, g);
    ScaledOrder(n as real, v, g);
  }

  /** Rounding down a magnitude: a finite single, no larger than it, and no other such is larger. */
  lemma DownMagnitude(exact: real, rm: RoundingMode, y: Word)
    requires exact != 0.0 && !IsNearest(rm) && !GoesUp(rm, exact < 0.0) && Finite(y)
    ensures RoundToSingle(exact, rm).bits < 0x1_0000_0000
    ensures var r: Word := RoundToSingle(exact, rm).bits;
            && Finite(r) && Negative(r) == (exact < 0.0) && Abs(Value(r)) <= Abs(exact)
            && (Abs(Value(y)) <= Abs(exact) ==> Abs(Value(y)) <= Abs(Value(r)))
  {
    hide Scaled, Value, RoundToSingle, Level, Negative, Exponent, Grid, Finite;
    RoundsToLevel(exact, rm);
    DirectedMagnitude(Abs(exact), exact < 0.0, rm, y);
    LargestFinite(exact < 0.0, y);
  }

  /** Rounding it up: a single no smaller than it, and no other such is smaller; infinite only if there is none. */
  lemma UpMagnitude(exact: real, rm: RoundingMode, y: Word)
    requires exact != 0.0 && !IsNearest(rm) && GoesUp(rm, exact < 0.0) && Finite(y)
    ensures RoundToSingle(exact, rm).bits < 0x1_0000_0000
    ensures var r: Word := RoundToSingle(exact, rm).bits;
            && Negative(r) == (exact < 0.0)
            && (Finite(r) ==> Abs(Value(r)) >= Abs(exact) && (Abs(Value(y)) >= Abs(exact) ==> Abs(Value(y)) >= Abs(Value(r))))
            && (!Finite(r) ==> r == SignBits(exact < 0.0) + INFINITY && Abs(Value(y)) < Abs(exact))
  {
    hide Scaled, Value, RoundToSingle, Level, Negative, Exponent, Grid, Finite;
    RoundsToLevel(exact, rm);
    DirectedMagnitude(Abs(exact), exact < 0.0, rm, y);
    HugeIsNotFinite(exact < 0.0);
    LargestFinite(exact < 0.0, y);
  }

  /** Toward zero, down, up: the result is the finite single next to the exact value on the side the mode asks for;
      it is infinite only where the mode rounds away from zero and no finite single is on that side. */
  lemma NextOnItsSide(exact: real, rm: RoundingMode, y: Word)
    requires exact != 0.0 && !IsNearest(rm) && Finite(y)
    ensures RoundToSingle(exact, rm).bits < 0x1_0000_0000
    ensures var r: Word := RoundToSingle(exact, rm).bits;
            match rm
            case RTZ => Finite(r) && Abs(Value(r)) <= Abs(exact) && Negative(r) == (exact < 0.0) && (Abs(Value(y)) <= Abs(exact) ==> Abs(Value(y)) <= Abs(Value(r)))
            case RDN => if Finite(r) then Value(r) <= exact && (Value(y) <= exact ==> Value(y) <= Value(r))
                        else r == SIGN_BIT + INFINITY && Value(y) > exact
            case _ => if Finite(r) then Value(r) >= exact && (Value(y) >= exact ==> Value(y) >= Value(r))
                      else r == INFINITY && Value(y) < exact
  {
    hide Value, RoundToSingle, Negative, Finite;
    if GoesUp(rm, exact < 0.0) {
      UpMagnitude(exact, rm, y);
    } else {
      DownMagnitude(exact, rm, y);
    }
    ValueSign(RoundToSingle(exact, rm).bits);
    ValueSign(y);
  }

  // ---- flags ----

  /** Tiny after rounding: below the smallest normal even when rounded with 24 bits and any exponent. */
  predicate IsTiny(mag: real, negative: bool, rm: RoundingMode) {
    if IsNearest(rm) then mag < Scaled(16777215.5, -150)
    else if GoesUp(rm, negative) then mag <= Scaled(16777215.0, -150)
    else mag < Scaled(1.0, -126)
  }

  /** Inexact if the result is not the exact value; overflow if it is infinite, or would be above every finite single
      without the mode's bound; underflow if it is tiny and inexact; nothing else. */
  ghost predicate HasFlags(f: Flags, r: Word, exact: real, rm: RoundingMode) {
    && !f.nv && !f.dz && (f.nx <==> !(Finite(r) && Value(r) == exact))
    && (f.of <==> if IsNearest(rm) || GoesUp(rm, exact < 0.0) then !Finite(r) else Abs(exact) >= Scaled(1.0, 128))
    && (f.uf <==> f.nx && IsTiny(Abs(exact), exact < 0.0, rm))
  }

  lemma RoundedFlags(exact: real, rm: RoundingMode)
    requires exact != 0.0
    ensures RoundToSingle(exact, rm).bits < 0x1_0000_0000
    ensures HasFlags(RoundToSingle(exact, rm).flags, RoundToSingle(exact, rm).bits, exact, rm)
  {
    RoundsToLevel(exact, rm);
    if Exponent(Abs(exact)) >= MIN_NORMAL_EXP {
      FlagsNormal(exact, rm);
    } else {
      FlagsSubnormal(exact, rm);
    }
  }

  /** The result is exact if and only if the level is. */
  lemma ExactLevel(exact: real, rm: RoundingMode, r: Word)
    requires exact != 0.0
    requires IsLevel(r, Level(Abs(exact), exact < 0.0, rm), Grid(Exponent(Abs(exact))), exact < 0.0, rm)
    ensures var (mag, negative) := (Abs(exact), exact < 0.0);
            var s := Scaled(Level(mag, negative, rm) as real, Grid(Exponent(mag)));
            && (Finite(r) && Value(r) == exact <==> s < Scaled(1.0, 128) && s == mag)
            && (s < Scaled(1.0, 128) ==> Finite(r))
            && (s >= Scaled(1.0, 128) ==> (IsNearest(rm) || GoesUp(rm, negative) <==> !Finite(r)))
            && (s == mag <==> Level(mag, negative, rm) as real == OnGrid(mag))
            && (!IsNearest(rm) && !GoesUp(rm, negative) ==> s <= mag)
  {
    hide Scaled, Value, Level, Negative, Exponent, Grid, Finite, OnGrid;
    var mag, negative := Abs(exact), exact < 0.0;
    ValueSign(r);
    HugeIsNotFinite(negative);
    LargestFinite(negative, 0) by { ZeroIsFinite(); }
    OffGrid(mag);
    ScaledOrder(Level(mag, negative, rm) as real, OnGrid(mag), Grid(Exponent(mag)));
    if !IsNearest(rm) && !GoesUp(rm, negative) {
      DirectedMagnitude(mag, negative, rm, 0) by { ZeroIsFinite(); }
    }
  }

  lemma ZeroIsFinite()
    ensures Finite(0)
  {
  }

  lemma FlagsNormal(exact: real, rm: RoundingMode)
    requires exact != 0.0 && Exponent(Abs(exact)) >= MIN_NORMAL_EXP && RoundToSingle(exact, rm).bits < 0x1_0000_0000
    requires IsLevel(RoundToSingle(exact, rm).bits, Level(Abs(exact), exact < 0.0, rm), Grid(Exponent(Abs(exact))), exact < 0.0, rm)
    ensures HasFlags(RoundToSingle(exact, rm).flags, RoundToSingle(exact, rm).bits, exact, rm)
  {
    hide Scaled, Value, RoundInt, Pow2, IsExponent, Exponent, Finite, Negative, IsLevel;
    var mag, negative := Abs(exact), exact < 0.0;
    var e := Exponent(mag);
    var n, g := Level(mag, negative, rm), Grid(e);
    ExactLevel(exact, rm, RoundToSingle(exact, rm).bits);
    NormalBounds(mag, e);
    LevelAgainst(n, g, 128);
    LevelBelow(mag, negative, rm);
    NotTiny(mag, e, negative, rm);
    ScaledStep(8388608.0, g);
    ScaledSum(8388608.0, 8388608.0, g);
    if e >= 127 {
      ScaledMonotone(1.0, 128, e + 1);
    }
  }

  lemma NotTiny(mag: real, e: int, negative: bool, rm: RoundingMode)
    requires mag >= Scaled(1.0, e) && e >= MIN_NORMAL_EXP
    ensures !IsTiny(mag, negative, rm)
  {
    hide Scaled;
    ScaledMonotone(1.0, -126, e);
    SmallPowers();
    ScaledTwice(1.0, 24, -150);
    ScaledOrder(16777215.5, 16777216.0, -150);
    ScaledOrder(16777215.0, 16777216.0, -150);
  }

  lemma FlagsSubnormal(exact: real, rm: RoundingMode)
    requires exact != 0.0 && Exponent(Abs(exact)) < MIN_NORMAL_EXP && RoundToSingle(exact, rm).bits < 0x1_0000_0000
    requires IsLevel(RoundToSingle(exact, rm).bits, Level(Abs(exact), exact < 0.0, rm), Grid(Exponent(Abs(exact))), exact < 0.0, rm)
    ensures HasFlags(RoundToSingle(exact, rm).flags, RoundToSingle(exact, rm).bits, exact, rm)
  {
    hide Scaled, Value, RoundInt, Pow2, IsExponent, Exponent, Finite, Negative, IsLevel, IsTiny;
    var mag, negative := Abs(exact), exact < 0.0;
    var e := Exponent(mag);
    var n := Level(mag, negative, rm);
    ExactLevel(exact, rm, RoundToSingle(exact, rm).bits);
    NormalBounds(mag, e);
    LevelAgainst(n, MIN_NORMAL_EXP - FRAC_BITS, 128);
    LevelBelow(mag, negative, rm);
    ScaledMonotone(1.0, e + 1, 128);
    var m0 := RoundInt(Scaled(mag, FRAC_BITS - e), negative, rm);
    TinyWhen(mag, e, negative, rm);
    if m0 == 0x100_0000 && e == MIN_NORMAL_EXP - 1 {
      ScaledStep(mag, FRAC_BITS - MIN_NORMAL_EXP);
      CarrySame(OnGrid(mag), negative, rm);
    }
  }

  /** Below the normal binades, only what rounds up to the smallest normal is not tiny. */
  lemma TinyWhen(mag: real, e: int, negative: bool, rm: RoundingMode)
    requires mag > 0.0 && IsExponent(mag, e) && e < MIN_NORMAL_EXP
    ensures Scaled(mag, FRAC_BITS - e) > 0.0
    ensures IsTiny(mag, negative, rm) <==> !(e == MIN_NORMAL_EXP - 1 && RoundInt(Scaled(mag, FRAC_BITS - e), negative, rm) == 0x100_0000)
  {
    hide Scaled, RoundInt;
    NormalBounds(mag, e);
    SmallPowers();
    ScaledTwice(1.0, 23, -150);
    ScaledTwice(1.0, 24, -150);
    ScaledOrder(8388608.0, 16777215.0, -150);
    ScaledOrder(16777215.0, 16777215.5, -150);
    ScaledOrder(16777215.5, 16777216.0, -150);
    if e < MIN_NORMAL_EXP - 1 {
      ScaledMonotone(1.0, e + 1, -127);
    } else {
      var q := Scaled(mag, 150);
      ScaledTwice(mag, 150, -150);
      ScaledZero(mag);
      ScaledOrder(q, 16777215.5, -150);
      ScaledOrder(16777215.0, q, -150);
      ScaledOrder(q, 16777216.0, -150);
      RoundIntMeans(q, negative, rm);
    }
  }
}
