/** Why sticky bits are enough: rounding sees only the kept bits, the next bit, and the OR of the rest. */
module FpRounding {
  import opened Binary32
  import opened PowersOfTwo
  import opened FpReference

  /** Whether the kept bits are incremented: `lsb` is the last kept bit, `guard` the next one, and
      `sticky` the OR of everything below. */
  predicate RoundUp(negative: bool, lsb: bool, guard: bool, sticky: bool, rm: RoundingMode) {
    match rm
    case RNE => guard && (sticky || lsb)
    case RTZ => false
    case RDN => negative && (guard || sticky)
    case RUP => !negative && (guard || sticky)
    case RMM => guard
  }

  function One(b: bool): nat {
    if b then 1 else 0
  }

  /** ORs a sticky bit into bit 0. */
  function Or1(x: nat, sticky: bool): nat {
    if sticky && x % 2 == 0 then x + 1 else x
  }

  /** The floor of a magnitude, with a lost fraction folded into bit 0. */
  function Jam(m: real): nat
    requires m >= 0.0
  {
    Or1(m.Floor, m != m.Floor as real)
  }

  /** Rounding by guard and sticky bits is rounding by comparison of the exact remainder. */
  lemma RoundIntByBits(q: real, negative: bool, rm: RoundingMode)
    requires q >= 0.0
    ensures var h := (2.0 * q).Floor;
            RoundInt(q, negative, rm)
            == h / 2 + One(RoundUp(negative, h / 2 % 2 == 1, h % 2 == 1, 2.0 * q != h as real, rm))
  {
    var h := (2.0 * q).Floor;
    assert q.Floor == h / 2;
  }

  /** A sticky bit 0 is invisible above any cut at bit 1 or higher, and counts as a bit below it. */
  lemma {:induction false} Or1Cut(x: nat, sticky: bool, k: nat)
    requires k >= 1
    ensures Shr(Or1(x, sticky), k) == Shr(x, k)
    ensures AnyBelow(Or1(x, sticky), k) <==> AnyBelow(x, k) || sticky
  {
    if k == 1 {
      var y := Or1(x, sticky);
      assert Shr(y, 1) == Shr(y, 0) / 2 && Shr(x, 1) == Shr(x, 0) / 2;
      assert AnyBelow(y, 1) <==> Bit(y, 0);
      assert AnyBelow(x, 1) <==> Bit(x, 0);
    } else {
      Or1Cut(x, sticky, k - 1);
    }
  }

  /** A jammed magnitude and the magnitude it stands for agree on the bits above any cut at bit 1 or
      higher, and on whether anything nonzero lies below the cut. */
  lemma JamCut(m: real, k: nat)
    requires m >= 0.0 && k >= 1
    ensures var y := Scaled(m, 0 - k);
            y >= 0.0 && y.Floor == Shr(Jam(m), k) &&
            (y == y.Floor as real <==> !AnyBelow(Jam(m), k))
  {
    hide Scaled;
    FloorOfScaled(m, k);
    Or1Cut(m.Floor, m != m.Floor as real, k);
  }

  /** Rounding an exact magnitude at a cut k >= 2 reads only the jammed bits. */
  lemma RoundJammed(m: real, k: nat, negative: bool, rm: RoundingMode)
    requires m >= 0.0 && k >= 2
    ensures var q := Scaled(m, 0 - k);
            var h := Shr(Jam(m), k - 1);
            var sticky := AnyBelow(Jam(m), k - 1);
            q >= 0.0 &&
            RoundInt(q, negative, rm)
            == h / 2 + One(RoundUp(negative, h / 2 % 2 == 1, h % 2 == 1, sticky, rm)) &&
            (q == q.Floor as real <==> h % 2 == 0 && !sticky)
  {
    hide RoundInt;
    hide Jam;
    hide RoundUp;
    var q := Scaled(m, 0 - k);
    assert 2.0 * q == Scaled(m, 0 - (k - 1)) by { ScaledStep(m, 0 - k); }
    hide Scaled;
    hide Shr;
    hide AnyBelow;
    JamCut(m, k - 1);
    RoundIntByBits(q, negative, rm);
    HalfIsWhole(q);
  }

  lemma HalfIsWhole(q: real)
    ensures var h := (2.0 * q).Floor; q == q.Floor as real <==> h % 2 == 0 && 2.0 * q == h as real
  {
    var h := (2.0 * q).Floor;
    var n := h / 2;
    assert q.Floor == n;
    if q == n as real {
      assert 2.0 * q == (2 * n) as real;
    }
  }

  /** Jamming what is already jammed loses nothing: normalization by right shifts composes. */
  lemma JamTwice(m: real, k: nat)
    requires m >= 0.0
    ensures Scaled(m, 0 - k) >= 0.0
    ensures Jam(Scaled(m, 0 - k)) == Or1(Shr(Jam(m), k), AnyBelow(Jam(m), k))
  {
    FloorOfScaled(m, k);
    if k > 0 {
      Or1Cut(m.Floor, m != m.Floor as real, k);
    } else {
      assert !AnyBelow(Jam(m), 0);
    }
  }

  /** Adding or subtracting a jammed addend to an even number is jamming the exact sum. */
  lemma JamOfSum(big: nat, small: real)
    requires big % 2 == 0 && small >= 0.0
    ensures Jam(big as real + small) == big + Jam(small)
    ensures small <= big as real ==> Jam(small) <= big && Jam(big as real - small) == big - Jam(small)
  {
    FloorOfSum(big, small);
  }

  lemma FloorOfSum(n: int, x: real)
    ensures (n as real + x).Floor == n + x.Floor
    ensures x != x.Floor as real ==> (n as real - x).Floor == n - x.Floor - 1
    ensures x == x.Floor as real ==> (n as real - x).Floor == n - x.Floor
  {
  }
}
