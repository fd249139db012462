/** Iterative integer divider for div, divu, rem and remu: 32 restoring steps on the magnitudes. */
module IntDivider {
  import opened Prelude
  import opened PowersOfTwo

  const TWO31 := 0x8000_0000
  const TWO32 := 0x1_0000_0000
  const TWO33 := 0x2_0000_0000

  datatype Op = Div | Divu | Rem | Remu
  {
    predicate IsSigned() { Div? || Rem? }
    predicate WantsRemainder() { Rem? || Remu? }
  }

  datatype Operation = Operation(op: Op, a: Word, b: Word)

  predicate QuotientNegative(op: Operation) {
    op.op.IsSigned() && (op.a >= TWO31) != (op.b >= TWO31)
  }

  predicate RemainderNegative(op: Operation) {
    op.op.IsSigned() && op.a >= TWO31
  }

  datatype State = IDLE | RUN | FIX | DONE

  function ToSigned(w: Word): int {
    if w >= TWO31 then w - TWO32 else w
  }

  /** A mathematical integer reduced to a 32-bit word. */
  function ToWord(x: int): Word {
    x % TWO32
  }

  /** Two's-complement negation. */
  function Negate(w: Word): Word {
    if w == 0 then 0 else TWO32 - w
  }

  /** The magnitude the steps work on. */
  function Magnitude(w: Word, signed: bool): Word {
    if signed && w >= TWO31 then Negate(w) else w
  }

  function Abs(x: int): nat {
    if x < 0 then -x else x
  }

  /** q and r are the quotient rounded toward zero and the remainder with the sign of the dividend. */
  predicate IsTruncatedDivision(x: int, y: int, q: int, r: int) {
    x == y * q + r && Abs(r) < Abs(y) && (r == 0 || (r < 0 <==> x < 0))
  }

  /** The result that section 7.2 of the RISC-V Unprivileged ISA asks for. */
  ghost predicate IsResult(op: Operation, result: Word) {
    if op.b == 0 then result == if op.op.WantsRemainder() then op.a else 0xffff_ffff
    else
      var x := if op.op.IsSigned() then ToSigned(op.a) else op.a;
      var y := if op.op.IsSigned() then ToSigned(op.b) else op.b;
      exists q, r :: IsTruncatedDivision(x, y, q, r) && result == ToWord(if op.op.WantsRemainder() then r else q)
  }

  /** The specification leaves no choice: truncated division is unique. */
  lemma TruncatedDivisionUnique(x: int, y: int, q: int, r: int, q': int, r': int)
    requires IsTruncatedDivision(x, y, q, r) && IsTruncatedDivision(x, y, q', r')
    ensures q == q' && r == r'
  {
    assert y * (q - q') == r' - r;
    OnlyZeroMultiple(y, q - q');
  }

  lemma OnlyZeroMultiple(y: int, k: int)
    requires Abs(y * k) < Abs(y)
    ensures k == 0
  {
  }

  /** Two results of one operation are equal. */
  lemma ResultUnique(op: Operation, result: Word, result': Word)
    requires IsResult(op, result) && IsResult(op, result')
    ensures result == result'
  {
    if op.b != 0 {
      var x := if op.op.IsSigned() then ToSigned(op.a) else op.a;
      var y := if op.op.IsSigned() then ToSigned(op.b) else op.b;
      var q, r :| IsTruncatedDivision(x, y, q, r) && result == ToWord(if op.op.WantsRemainder() then r else q);
      var q', r' :| IsTruncatedDivision(x, y, q', r') && result' == ToWord(if op.op.WantsRemainder() then r' else q');
      TruncatedDivisionUnique(x, y, q, r, q', r');
    }
  }

  /** After 32 - n steps: the top bits of the dividend divide into the quotient so far and the partial
      remainder, which is below the divisor; the n bits not yet used sit above the quotient bits. */
  ghost predicate Progress(dividend: nat, divisor: nat, n: nat, low: nat, quotient: nat, rem: nat, quo: nat) {
    && n <= 32 && divisor > 0
    && low < Pow2(n) && quotient < Pow2(32 - n)
    && dividend == Shl(quotient * divisor + rem, n) + low
    && rem < divisor
    && quo == Shl(low, 32 - n) + quotient
  }

  lemma Step(dividend: nat, divisor: nat, n: nat, low: nat, quotient: nat, rem: nat, quo: nat) returns (low': nat)
    requires Progress(dividend, divisor, n, low, quotient, rem, quo) && n > 0
    ensures quo < TWO32
    ensures var shifted := 2 * rem + quo / TWO31;
            if shifted >= divisor
            then Progress(dividend, divisor, n - 1, low', 2 * quotient + 1, shifted - divisor, quo % TWO31 * 2 + 1)
            else Progress(dividend, divisor, n - 1, low', 2 * quotient, shifted, quo % TWO31 * 2)
  {
    var t;
    t, low' := TakeTopBit(n, low, quotient, quo);
    NextDividendBit(quotient * divisor + rem, t, n, low', low, dividend);
    StepHolds(dividend, divisor, n, low', quotient, rem, t, quotient * divisor + rem);
    hide *;
  }

  lemma TakeTopBit(n: nat, low: nat, quotient: nat, quo: nat) returns (t: nat, low': nat)
    requires 1 <= n <= 32 && low < Pow2(n) && quotient < Pow2(32 - n) && quo == Shl(low, 32 - n) + quotient
    ensures t <= 1 && low' < Pow2(n - 1) && low == (if t == 1 then Pow2(n - 1) else 0) + low'
    ensures quo < TWO32 && quo / TWO31 == t && quo % TWO31 == Shl(low', 32 - n) + quotient
  {
    hide Shl;
    assert Pow2(n) == 2 * Pow2(n - 1);
    hide Pow2;
    t := if low >= Pow2(n - 1) then 1 else 0;
    low' := if t == 1 then low - Pow2(n - 1) else low;
    TopBit(n, t, low', quotient);
  }

  lemma StepHolds(dividend: nat, divisor: nat, n: nat, low': nat, quotient: nat, rem: nat, t: nat, h: nat)
    requires 1 <= n <= 32 && low' < Pow2(n - 1) && quotient < Pow2(32 - n) && t <= 1 && rem < divisor
    requires h == quotient * divisor + rem && dividend == Shl(2 * h + t, n - 1) + low'
    ensures var shifted := 2 * rem + t;
            var quo' := 2 * (Shl(low', 32 - n) + quotient);
            if shifted >= divisor
            then Progress(dividend, divisor, n - 1, low', 2 * quotient + 1, shifted - divisor, quo' + 1)
            else Progress(dividend, divisor, n - 1, low', 2 * quotient, shifted, quo')
  {
    assert Pow2(33 - n) == 2 * Pow2(32 - n);
    ShlDouble(low', 32 - n);
    Distribute(quotient, divisor);
    assert 32 - (n - 1) == 33 - n;
  }

  /** The top unused dividend bit moves into the divided part. */
  lemma NextDividendBit(h: nat, t: nat, n: nat, low': nat, low: nat, dividend: nat)
    requires n > 0 && t <= 1 && low == (if t == 1 then Pow2(n - 1) else 0) + low'
    requires dividend == Shl(h, n) + low
    ensures dividend == Shl(2 * h + t, n - 1) + low'
  {
    hide Shl;
    hide Pow2;
    ShlOfDouble(h, n - 1);
    ShlSum(2 * h, t, n - 1);
    ShlOne(n - 1);
  }

  lemma ShlDouble(x: nat, j: nat)
    ensures Shl(x, j + 1) == 2 * Shl(x, j)
  {
  }

  lemma Distribute(q: nat, d: nat)
    ensures (2 * q) * d == 2 * (q * d) && (2 * q + 1) * d == 2 * (q * d) + d
  {
  }

  /** Bit 31 of the shared register is the top unused dividend bit. */
  lemma TopBit(n: nat, t: nat, low: nat, quotient: nat)
    requires 1 <= n <= 32 && t <= 1 && low < Pow2(n - 1) && quotient < Pow2(32 - n)
    ensures Shl((if t == 1 then Pow2(n - 1) else 0) + low, 32 - n) + quotient == t * TWO31 + (Shl(low, 32 - n) + quotient)
    ensures Shl(low, 32 - n) + quotient < TWO31
  {
    hide Shl;
    hide Pow2;
    var j := 32 - n;
    ShlSum(Pow2(n - 1), low, j);
    ShlOne(j);
    ShlOne(n - 1);
    ShlTwice(1, n - 1, j);
    ShlOne(31);
    Pow31();
    ShlMonotone(low + 1, Pow2(n - 1), j);
    ShlSum(low, 1, j);
  }

  lemma Pow31()
    ensures Pow2(31) == TWO31 && Pow2(32) == TWO32
  {
    SignificandBounds();
    assert Pow2(31) == TWO31;
  }

  /** Subtracting in 33 bits: the sign bit of the difference says whether the divisor fits. */
  function Trial(shifted: nat, divisor: nat): nat {
    (shifted - divisor) % TWO33
  }

  lemma TrialSign(shifted: nat, divisor: Word)
    requires shifted < 2 * divisor
    ensures Trial(shifted, divisor) < TWO32 <==> shifted >= divisor
    ensures shifted >= divisor ==> Trial(shifted, divisor) == shifted - divisor
  {
  }

  /** Putting the signs back on a division of magnitudes. */
  lemma SignFixUp(op: Operation, quotient: nat, rem: nat)
    requires op.b != 0
    requires Magnitude(op.a, op.op.IsSigned()) == quotient * Magnitude(op.b, op.op.IsSigned()) + rem
    requires rem < Magnitude(op.b, op.op.IsSigned())
    requires quotient < TWO32 && rem < TWO32
    ensures IsResult(op, if op.op.WantsRemainder() then (if RemainderNegative(op) then Negate(rem) else rem)
                         else (if QuotientNegative(op) then Negate(quotient) else quotient))
  {
    var x := if op.op.IsSigned() then ToSigned(op.a) else op.a;
    var y := if op.op.IsSigned() then ToSigned(op.b) else op.b;
    var negQuo, negRem := QuotientNegative(op), RemainderNegative(op);
    assert Magnitude(op.a, op.op.IsSigned()) == Abs(x) && Magnitude(op.b, op.op.IsSigned()) == Abs(y);
    var q: int := if negQuo then 0 - quotient else quotient;
    var r: int := if negRem then 0 - rem else rem;
    SignedEquation(x, y, quotient, rem, q, r);
    assert IsTruncatedDivision(x, y, q, r);
    NegateWord(quotient);
    NegateWord(rem);
    assert ToWord(if op.op.WantsRemainder() then r else q)
           == if op.op.WantsRemainder() then (if negRem then Negate(rem) else rem)
              else (if negQuo then Negate(quotient) else quotient);
  }

  lemma SignedEquation(x: int, y: int, quotient: nat, rem: nat, q: int, r: int)
    requires Abs(x) == quotient * Abs(y) + rem
    requires q == if (x < 0) != (y < 0) then 0 - quotient else quotient
    requires r == if x < 0 then 0 - rem else rem
    ensures x == y * q + r
  {
  }

  lemma NegateWord(w: Word)
    ensures ToWord(0 - w) == Negate(w) && ToWord(w) == w
  {
  }

  class Divider {
    var state: State
    var count: nat
    var remQ: nat
    var quoQ: nat
    var divisorQ: nat
    var negQuo: bool
    var negRem: bool
    var wantRem: bool
    var resultQ: Word

    // The operation in progress; the dividend's magnitude, its unused low bits, and the quotient so far.
    ghost var op: Option<Operation>
    ghost var dividend: nat
    ghost var low: nat
    ghost var quotient: nat

    function EdgesLeft(): int
      reads this
    {
      if state == RUN then count + 1 else if state == FIX then 1 else 0
    }

    ghost predicate Running(n: nat)
      reads this
    {
      && op.Some? && op.value.b != 0
      && wantRem == op.value.op.WantsRemainder()
      && negQuo == QuotientNegative(op.value) && negRem == RemainderNegative(op.value)
      && dividend == Magnitude(op.value.a, op.value.op.IsSigned())
      && divisorQ == Magnitude(op.value.b, op.value.op.IsSigned())
      && Progress(dividend, divisorQ, n, low, quotient, remQ, quoQ)
    }

    /** While it runs, the partial remainder is below the divisor and the division equation holds; when
        it is done, the result is the one the instruction set asks for. */
    ghost predicate Valid()
      reads this
    {
      match state
      case IDLE => true
      case RUN => 1 <= count <= 32 && Running(count)
      case FIX => Running(0)
      case DONE => op.Some? && IsResult(op.value, resultQ)
    }

    constructor ()
      ensures Valid() && state == IDLE
    {
      state, count, remQ, quoQ, divisorQ, resultQ := IDLE, 0, 0, 0, 0, 0;
      negQuo, negRem, wantRem := false, false, false;
    }

    /** One clock edge. A division by zero is done at once, any other operation after 33 further edges;
        the result stays until it is acknowledged, and a reset kills whatever is in progress. */
    method Clock(reset: bool, inValid: bool, next: Operation, ack: bool)
      requires Valid()
      modifies this
      ensures Valid()
      ensures reset ==> state == IDLE
      ensures !reset && old(state) == IDLE && inValid ==>
                op == Some(next) && state == (if next.b == 0 then DONE else RUN) && EdgesLeft() == (if next.b == 0 then 0 else 33)
      ensures !reset && old(state) == IDLE && !inValid ==> state == IDLE
      ensures !reset && old(state) in {RUN, FIX} ==>
                op == old(op) && EdgesLeft() == old(EdgesLeft()) - 1 && (state == DONE <==> EdgesLeft() == 0)
      ensures !reset && old(state) == DONE ==>
                op == old(op) && resultQ == old(resultQ) && state == (if ack then IDLE else DONE)
      ensures state == DONE ==> op.Some? && IsResult(op.value, resultQ)
    {
      hide IsResult;
      hide Progress;
      hide Trial;
      if reset {
        state := IDLE;
        return;
      }
      match state {
        case IDLE =>
          if inValid {
            Start(next);
          }
        case RUN =>
          DivisorIsWord();
          low := Step(dividend, divisorQ, count, low, quotient, remQ, quoQ);
          var shifted := 2 * remQ + quoQ / TWO31;
          var trial := Trial(shifted, divisorQ);
          TrialSign(shifted, divisorQ);
          if trial < TWO32 {
            remQ, quoQ := trial, quoQ % TWO31 * 2 + 1;
            quotient := 2 * quotient + 1;
          } else {
            remQ, quoQ := shifted, quoQ % TWO31 * 2;
            quotient := 2 * quotient;
          }
          if count == 1 {
            state := FIX;
          }
          count := count - 1;
        case FIX =>
          FixSigns();
        case DONE =>
          if ack {
            state := IDLE;
          }
      }
    }

    lemma DivisorIsWord()
      requires Valid() && state == RUN
      ensures divisorQ < TWO32 && 2 * remQ + quoQ / TWO31 < 2 * divisorQ
    {
      var _ := Step(dividend, divisorQ, count, low, quotient, remQ, quoQ);
    }

    method Start(next: Operation)
      requires state == IDLE
      modifies this
      ensures op == Some(next)
      ensures if next.b == 0 then state == DONE && IsResult(next, resultQ) else state == RUN && count == 32 && Running(32)
    {
      hide IsResult;
      hide Progress;
      if next.b == 0 {
        op, wantRem := Some(next), next.op.WantsRemainder();
        resultQ := if next.op.WantsRemainder() then next.a else 0xffff_ffff;
        DivisionByZero(next);
        state := DONE;
      } else {
        StartSteps(next);
        state := RUN;
      }
    }

    /** The operation's signs, and what it asks for. */
    method StartSigns(next: Operation)
      modifies `op, `wantRem, `negQuo, `negRem
      ensures op == Some(next) && wantRem == next.op.WantsRemainder()
      ensures negQuo == QuotientNegative(next) && negRem == RemainderNegative(next)
    {
      hide QuotientNegative, RemainderNegative;
      op := Some(next);
      wantRem := next.op.WantsRemainder();
      negQuo := QuotientNegative(next);
      negRem := RemainderNegative(next);
    }

    method StartMagnitudes(a: Word, b: Word)
      modifies `quoQ, `divisorQ, `remQ, `count, `dividend, `low, `quotient
      ensures dividend == low == quoQ == a && divisorQ == b && remQ == quotient == 0 && count == 32
    {
      quoQ := a;
      divisorQ := b;
      remQ := 0;
      count := 32;
      dividend := a;
      low := a;
      quotient := 0;
    }

    method StartSteps(next: Operation)
      requires next.b != 0
      modifies this
      ensures op == Some(next) && count == 32 && Running(32)
    {
      hide Progress, Magnitude, QuotientNegative, RemainderNegative;
      var signed := next.op.IsSigned();
      var a, b := Magnitude(next.a, signed), Magnitude(next.b, signed);
      MagnitudePositive(next.b, signed);
      StartProgress(a, b);
      StartSigns(next);
      StartMagnitudes(a, b);
    }

    method FixSigns()
      requires state == FIX && Valid()
      modifies `resultQ, `state
      ensures state == DONE && Valid()
    {
      FinalProgress(dividend, divisorQ, low, quotient, remQ, quoQ);
      SignFixUp(op.value, quoQ, remQ);
      if wantRem {
        resultQ := if negRem then Negate(remQ) else remQ;
      } else {
        resultQ := if negQuo then Negate(quoQ) else quoQ;
      }
      state := DONE;
    }
  }

  lemma DivisionByZero(op: Operation)
    requires op.b == 0
    ensures IsResult(op, if op.op.WantsRemainder() then op.a else 0xffff_ffff)
  {
  }

  lemma MagnitudePositive(w: Word, signed: bool)
    requires w != 0
    ensures Magnitude(w, signed) > 0
  {
  }

  lemma StartProgress(dividend: nat, divisor: nat)
    requires dividend < TWO32 && divisor > 0
    ensures Progress(dividend, divisor, 32, dividend, 0, 0, dividend)
  {
    Pow31();
    ShlOne(32);
    assert 0 * divisor == 0;
  }

  lemma FinalProgress(dividend: nat, divisor: nat, low: nat, quotient: nat, rem: nat, quo: nat)
    requires Progress(dividend, divisor, 0, low, quotient, rem, quo)
    ensures dividend == quo * divisor + rem && quo < TWO32
  {
    Pow31();
    ShlOne(32);
  }
}
