/** The few general-purpose definitions the modules share. */
module Prelude {
  /** A 32-bit word. */
  type Word = w: nat | w < 0x1_0000_0000

  datatype Option<+T> = None | Some(value: T)

  /** n copies of x. */
  function Repeat<T>(x: T, n: nat): (s: seq<T>)
    ensures |s| == n && forall i :: 0 <= i < n ==> s[i] == x
  {
    if n == 0 then [] else [x] + Repeat(x, n - 1)
  }
}
