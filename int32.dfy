// C# int arithmetic: 32-bit two's complement values whose + and * wrap
// around (the default unchecked context) and whose / and % truncate toward
// zero.
module Int32 {

  const Min: int := -0x8000_0000
  const Max: int := 0x7FFF_FFFF

  predicate InRange(x: int) { -0x8000_0000 <= x <= 0x7FFF_FFFF }

  type int32 = x: int | -0x8000_0000 <= x <= 0x7FFF_FFFF

  /** The int32 congruent to x modulo 2^32. */
  function Wrap(x: int): (r: int32)
    ensures (r - x) % 0x1_0000_0000 == 0
    ensures InRange(x) ==> r == x
  {
    (x - Min) % 0x1_0000_0000 + Min
  }

  function Add(a: int32, b: int32): (r: int32)
    ensures InRange(a + b) ==> r == a + b
  {
    Wrap(a + b)
  }

  function Sub(a: int32, b: int32): (r: int32)
    ensures InRange(a - b) ==> r == a - b
  {
    Wrap(a - b)
  }

  function Mul(a: int32, b: int32): (r: int32)
    ensures InRange(a * b) ==> r == a * b
  {
    Wrap(a * b)
  }

  /**
   * C# integer division by a positive divisor: the quotient rounded toward
   * zero, so a negative dividend rounds up where Dafny's / rounds down.
   */
  function Div(a: int32, b: int32): (q: int32)
    requires b > 0
    ensures a >= 0 ==> q == a / b
    ensures a < 0 ==> q == -((-(a as int)) / b)
    ensures a >= 0 ==> 0 <= q <= a
    ensures a < 0 ==> a <= q <= 0
  {
    if a >= 0 then
      QuotientBound(a, b);
      a / b
    else
      QuotientBound(-(a as int), b);
      -((-(a as int)) / b)
  }

  /** C# remainder by a positive divisor: it takes the sign of the dividend. */
  function Rem(a: int32, b: int32): (r: int32)
    requires b > 0
    ensures r == a - Div(a, b) * b
    ensures a >= 0 ==> r == a % b
    ensures a >= 0 ==> 0 <= r < b
    ensures a < 0 ==> -b < r <= 0
  {
    if a >= 0 then a % b
    else
      var m := (-(a as int)) % b;
      assert -(a as int) == ((-(a as int)) / b) * b + m;
      -m
  }

  /** 0 <= x / y <= x for x >= 0 and y > 0. */
  lemma QuotientBound(x: int, y: int)
    requires x >= 0 && y > 0
    ensures 0 <= x / y <= x
  {
    var q, r := x / y, x % y;
    assert x == q * y + r && 0 <= r;
    if q < 0 {
      MulMonotone(q, -1, y);
    }
    if q > x {
      MulMonotone(x + 1, q, y);
      MulMonotone(1, y, x + 1);
    }
  }

  /** Euclidean division is unique: a quotient and remainder in range are the ones / and % give. */
  lemma DivModUnique(x: int, n: int, q: int, r: int)
    requires n > 0 && 0 <= r < n && x == q * n + r
    ensures x / n == q && x % n == r
  {
    var q0, r0 := x / n, x % n;
    assert x == q0 * n + r0;
    if q0 < q {
      assert (q0 + 1) * n == q0 * n + n;
      MulMonotone(q0 + 1, q, n);
    } else if q0 > q {
      assert (q + 1) * n == q * n + n;
      MulMonotone(q + 1, q0, n);
    }
  }

  /** Adding the divisor once does not change the remainder. */
  lemma ModShift(x: int, n: int)
    requires n > 0
    ensures (x + n) % n == x % n
  {
    var q, r := x / n, x % n;
    assert x == q * n + r;
    assert (q + 1) * n == q * n + n;
    DivModUnique(x + n, n, q + 1, r);
  }

  lemma MulMonotone(a: int, b: int, c: int)
    requires a <= b && c >= 0
    ensures a * c <= b * c
  {
    assert b * c - a * c == (b - a) * c;
  }
}
