/** The 32-bit single-precision format and the vocabulary that the reference and the hardware share. */
module Binary32 {
  import opened Prelude

  datatype RoundingMode = RNE | RTZ | RDN | RUP | RMM

  /** fflags: invalid, divide by zero, overflow, underflow, inexact. */
  datatype Flags = Flags(nv: bool, dz: bool, of: bool, uf: bool, nx: bool)

  const NO_FLAGS := Flags(false, false, false, false, false)
  const INVALID := Flags(true, false, false, false, false)
  const DIVIDE_BY_ZERO := Flags(false, true, false, false, false)

  /** Result bits and accrued flags of one operation. */
  datatype Rounded = Rounded(bits: nat, flags: Flags)

  const SIGN_BIT := 0x8000_0000
  const CANONICAL_NAN := 0x7fc0_0000
  const INFINITY := 0x7f80_0000
  const LARGEST_FINITE := 0x7f7f_ffff

  predicate Negative(x: Word) {
    x >= SIGN_BIT
  }

  function ExponentField(x: Word): (e: nat)
    ensures e < 256
  {
    x / 0x80_0000 % 256
  }

  function FractionField(x: Word): (f: nat)
    ensures f < 0x80_0000
  {
    x % 0x80_0000
  }

  predicate IsNan(x: Word) {
    ExponentField(x) == 255 && FractionField(x) != 0
  }

  /** A NaN whose top fraction bit is clear. */
  predicate IsSignalingNan(x: Word) {
    IsNan(x) && FractionField(x) < 0x40_0000
  }

  predicate IsInfinite(x: Word) {
    ExponentField(x) == 255 && FractionField(x) == 0
  }

  predicate IsZero(x: Word) {
    x % SIGN_BIT == 0
  }

  function Negate(x: Word): Word {
    if Negative(x) then x - SIGN_BIT else x + SIGN_BIT
  }

  function SignBits(negative: bool): nat {
    if negative then SIGN_BIT else 0
  }
}
