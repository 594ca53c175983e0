/** The rate that both bandwidth monitors report from getBytesPerSec():
    bytes per second since the monitor was created, from the byte count and
    the nanoseconds elapsed (which the caller supplies in place of
    System.nanoTime()). The computation is in Java's 64-bit `long`, written
    out here: multiplication wraps around and division truncates toward zero. */
module Bandwidth {
  import opened JavaIO

  const NanosPerSecond: int := 1000000000

  const LongMin: int := -0x8000_0000_0000_0000
  const LongMax: int := 0x7FFF_FFFF_FFFF_FFFF
  const LongModulus: int := 0x1_0000_0000_0000_0000

  predicate IsLong(x: int) {
    LongMin <= x <= LongMax
  }

  function Abs(x: int): (r: nat)
    ensures r == x || r == -x
  {
    if x < 0 then -x else x
  }

  /** The long that Java keeps of the mathematical value `x`: its low 64 bits,
      read as a two's-complement number. */
  function ToLong(x: int): (r: int)
    ensures IsLong(r)
    ensures (x - r) % LongModulus == 0
    ensures IsLong(x) ==> r == x
  {
    var m := x % LongModulus;
    if m > LongMax then m - LongModulus else m
  }

  lemma MulAtLeast(q: nat, b: nat)
    requires b > 0
    ensures q <= q * b
  {
  }

  lemma QuotientBound(a: nat, b: nat)
    requires b > 0
    ensures 0 <= a / b <= a
  {
    var q, m := a / b, a % b;
    assert a == q * b + m && 0 <= m;
    MulAtLeast(q, b);
  }

  /** Java's `a / b` on longs: the quotient rounded toward zero, or an
      ArithmeticException when `b` is 0. */
  function Quotient(a: int, b: int): (r: Result<int, Error>)
    requires IsLong(a) && IsLong(b)
    ensures r.Err? <==> b == 0
    ensures r.Err? ==> r.error == Arithmetic
    ensures r.Ok? ==> IsLong(r.value)
    ensures r.Ok? && b > 0 ==> Abs(r.value) == Abs(a) / b
    ensures r.Ok? && b > 0 ==> (a < 0 ==> r.value <= 0) && (a >= 0 ==> r.value >= 0)
  {
    if b == 0 then Err(Arithmetic)
    else if b > 0 then
      var q := Abs(a) / b;
      QuotientBound(Abs(a), b);
      Ok(if a < 0 then -q else q)
    else
      // only LongMin / -1 leaves the range, and wraps back to LongMin
      var q := Abs(a) / Abs(b);
      Ok(ToLong(if a < 0 then q else -q))
  }

  /** getBytesPerSec() as the source computes it: 0 while nothing was
      counted, otherwise total * 1000000000 / elapsed in long arithmetic.
      The product wraps around once the total exceeds 9223372036 bytes. */
  function BytesPerSecAsWritten(total: int, elapsedNanos: int): (r: Result<int, Error>)
    requires IsLong(total) && IsLong(elapsedNanos)
    ensures total == 0 ==> r == Ok(0)
    ensures r.Err? <==> total != 0 && elapsedNanos == 0
    ensures r.Ok? ==> IsLong(r.value)
  {
    if total == 0 then Ok(0)
    else Quotient(ToLong(total * NanosPerSecond), elapsedNanos)
  }

  /** getBytesPerSec() as evidently intended: 0 while nothing was counted,
      otherwise the whole number of bytes per second, rounded down; a
      division by an elapsed time of 0 still throws. */
  function BytesPerSec(total: nat, elapsedNanos: nat): (r: Result<nat, Error>)
    ensures total == 0 ==> r == Ok(0)
    ensures r.Err? <==> total > 0 && elapsedNanos == 0
    ensures r.Err? ==> r.error == Arithmetic
    ensures r.Ok? && total > 0 ==>
              r.value * elapsedNanos <= total * NanosPerSecond < (r.value + 1) * elapsedNanos
    // positive as long as less than `total` seconds have passed
    ensures r.Ok? && total > 0 && elapsedNanos <= total * NanosPerSecond ==> r.value > 0
  {
    if total == 0 then Ok(0)
    else if elapsedNanos == 0 then Err(Arithmetic)
    else Ok(total * NanosPerSecond / elapsedNanos)
  }

  /** While the product fits in a long, the source's computation is the
      intended rate. */
  lemma AsWrittenAgrees(total: nat, elapsedNanos: nat)
    requires total * NanosPerSecond <= LongMax && elapsedNanos <= LongMax
    ensures IsLong(total) && IsLong(elapsedNanos)
    ensures BytesPerSecAsWritten(total, elapsedNanos) == BytesPerSec(total, elapsedNanos)
  {
  }

  /** Past the overflow threshold (and below twice it) the source's product
      wraps to a negative long, so the reported rate is never positive
      although the intended one is. */
  lemma AsWrittenGoesNegative(total: nat, elapsedNanos: nat)
    requires LongMax < total * NanosPerSecond < LongModulus
    requires 0 < elapsedNanos <= LongMax
    ensures IsLong(total)
    ensures BytesPerSecAsWritten(total, elapsedNanos).Ok? && BytesPerSecAsWritten(total, elapsedNanos).value <= 0
    ensures elapsedNanos <= total * NanosPerSecond ==> BytesPerSec(total, elapsedNanos).value > 0
  {
  }

  /** Ten billion bytes counted over one second: the source reports
      -8446744073 bytes per second instead of 10000000000. */
  lemma RateOverflowExample()
    ensures BytesPerSecAsWritten(10000000000, 1000000000) == Ok(-8446744073)
    ensures BytesPerSec(10000000000, 1000000000) == Ok(10000000000)
  {
  }
}
