/** The loop-based integer power of constexpr_test/main.cpp.
    C++ `int` is taken to be 32 bits wide. Signed overflow is undefined
    behaviour in C++, so the model excludes it by a precondition instead of
    giving it a meaning. */
module IntPower {

  /** A C++ `int`: 32-bit two's complement range. */
  newtype int32 = x: int | -0x8000_0000 <= x < 0x8000_0000

  predicate InInt32(v: int) {
    -0x8000_0000 <= v < 0x8000_0000
  }

  /** Mathematical power `b^n`, the reference the loop is proved against. */
  function Power(b: int, n: nat): int {
    if n == 0 then 1 else b * Power(b, n - 1)
  }

  /** The loop performs no overflowing multiplication: either it does not run
      (`exp <= 0`), or the mathematical result fits in an `int`
      (IntermediateFits shows every partial product then fits too). */
  predicate NoOverflow(base: int, exp: int) {
    exp < 0 || InInt32(Power(base, exp))
  }

  /** `pow(base, exp)`: start at 1 and multiply by `base` `exp` times.
      A negative exponent runs the loop zero times and yields 1. */
  method Pow(base: int32, exp: int32) returns (result: int32)
    requires NoOverflow(base as int, exp as int)
    ensures exp <= 0 ==> result == 1
    ensures exp >= 0 ==> result as int == Power(base as int, exp as int)
  {
    result := 1;
    var i: int32 := 0;
    while i < exp
      invariant 0 <= i && (i <= exp || i == 0)
      invariant result as int == Power(base as int, i as int)
    {
      IntermediateFits(base as int, i as int + 1, exp as int);
      result := result * base;
      i := i + 1;
    }
  }

  /** With a base of magnitude at most 1, every power has magnitude at most 1. */
  lemma {:induction false} UnitBasePower(b: int, n: nat)
    requires -1 <= b <= 1
    ensures -1 <= Power(b, n) <= 1
  {
    if n > 0 {
      UnitBasePower(b, n - 1);
      var p := Power(b, n - 1);
      assert b * p == if b == 0 then 0 else if b == 1 then p else -p;
    }
  }

  /** Multiplying by a base of magnitude two or more at least doubles the magnitude. */
  lemma MagnitudeAtLeastDoubles(b: int, p: int)
    requires b <= -2 || 2 <= b
    ensures 2 * Abs(p) <= Abs(b * p)
  {
  }

  function Abs(v: int): nat {
    if v < 0 then -v else v
  }

  /** If `b^n` fits in an `int`, so does every `b^i` with `i <= n`: the
      partial products the loop computes on its way never overflow. */
  lemma {:induction false} IntermediateFits(b: int, i: nat, n: nat)
    requires i <= n && InInt32(Power(b, n))
    ensures InInt32(Power(b, i))
    decreases n - i
  {
    if i < n {
      IntermediateFits(b, i + 1, n);
      if -1 <= b <= 1 {
        UnitBasePower(b, i);
      } else {
        MagnitudeAtLeastDoubles(b, Power(b, i));
      }
    }
  }

  /** One more iteration multiplies the result by `base`, and when the longer
      product fits, the shorter one fits as well. */
  lemma PowStep(base: int, exp: nat)
    requires InInt32(Power(base, exp + 1))
    ensures NoOverflow(base, exp)
    ensures Power(base, exp + 1) == base * Power(base, exp)
  {
    IntermediateFits(base, exp, exp + 1);
  }
}
