/** The C integer semantics the driver relies on: the widths of its fields on the
    32-bit Arduino targets, the modular conversion back into a `long`, and C's
    division, which truncates toward zero (Dafny's `/` does not). */
module CArith {

  const TWO_31: int := 0x8000_0000
  const TWO_32: int := 0x1_0000_0000

  /** An unsigned 8-bit value (`byte`, `uint8_t`). */
  type Byte = x: int | 0 <= x < 0x100

  /** A signed 32-bit value (`long` on the Arduino targets). */
  type Long = x: int | -0x8000_0000 <= x < 0x8000_0000

  predicate InLong(x: int) {
    -TWO_31 <= x < TWO_31
  }

  /** The `long` that holds the same bit pattern as `x` taken modulo 2^32: what
      storing an `unsigned long` sum back into a `long` gives on these targets. */
  function Wrap32(x: int): (r: Long)
    ensures InLong(x) ==> r == x
  {
    var m := x % TWO_32;
    if m < TWO_31 then m else m - TWO_32
  }

  /** The reduced value differs from the exact one by a multiple of 2^32. */
  lemma WrapCongruent(x: int)
    ensures (x - Wrap32(x)) % TWO_32 == 0
  {
  }

  /** Reducing an intermediate sum modulo 2^32 does not change later sums. */
  lemma WrapAdd(a: int, b: int)
    ensures Wrap32(Wrap32(a) + b) == Wrap32(a + b)
  {
    var k := (a - Wrap32(a)) / TWO_32;
    assert a - Wrap32(a) == k * TWO_32;
    assert (Wrap32(a) + b) % TWO_32 == (a + b) % TWO_32 by {
      ModShift(a + b, k);
    }
  }

  lemma ModShift(x: int, k: int)
    ensures (x - k * TWO_32) % TWO_32 == x % TWO_32
  {
  }

  function Abs(x: int): nat {
    if x < 0 then -x else x
  }

  /** C's `a / b` for a positive divisor (the driver only ever divides by a
      sample count): the quotient rounded toward zero, so that the remainder has
      the sign of the dividend and is smaller than the divisor. */
  function CDiv(a: int, b: int): (q: int)
    requires b > 0
    ensures Abs(a - q * b) < b
    ensures a - q * b == 0 || (a - q * b > 0 <==> a > 0)
    ensures Abs(q) <= Abs(a)
  {
    var n := Abs(a);
    var q0 := n / b;
    FloorDivision(n, b);
    if a >= 0 then
      q0
    else
      assert a - (-q0) * b == -(n - q0 * b);
      -q0
  }

  lemma FloorDivision(n: nat, b: int)
    requires b > 0
    ensures n - n / b * b == n % b
    ensures 0 <= n / b <= n
  {
    var q := n / b;
    assert q * b >= q * 1 by {
      MulMonotone(q, b);
    }
  }

  lemma MulMonotone(q: nat, b: int)
    requires b >= 1
    ensures q * b >= q
  {
  }

  /** `--n` on a byte: zero wraps round to 255. */
  function Decrement8(n: Byte): (r: Byte)
    ensures (r + 1) % 0x100 == n
    ensures r == 0 <==> n == 1
  {
    if n == 0 then 0xFF else n - 1
  }
}
