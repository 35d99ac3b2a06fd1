/** Machine integer widths and C integer arithmetic used by the modelled programs.
    Dafny's `int` is unbounded and its `/` and `%` are Euclidean; the C and C++ code
    being modelled uses fixed widths and truncating division, so both are spelled out here. */
module Ints {

  const LLONG_MAX: int := 0x7FFF_FFFF_FFFF_FFFF
  const LLONG_MIN: int := -0x8000_0000_0000_0000
  const TWO_TO_32: int := 0x1_0000_0000
  const TWO_TO_64: int := 0x1_0000_0000_0000_0000
  const UINT64_MAX: int := TWO_TO_64 - 1
  const INT_MAX: int := 0x7FFF_FFFF
  const INT_MIN: int := -0x8000_0000

  /** C `uint8_t` */
  type U8 = x: int | 0 <= x < 256
  /** C++ `long long` */
  type I64 = x: int | LLONG_MIN <= x <= LLONG_MAX
  /** C `int` */
  type I32 = x: int | INT_MIN <= x <= INT_MAX
  /** C `unsigned int` / `UINT32` */
  type U32 = x: int | 0 <= x < TWO_TO_32
  /** C++ `uint64_t` */
  type U64 = x: int | 0 <= x < TWO_TO_64

  /** The implicit conversion of an integer to `uint8_t`: reduction modulo 256, which
      leaves values already in range unchanged. */
  function ToU8(x: int): (r: U8)
    ensures (r - x) % 256 == 0
    ensures 0 <= x < 256 ==> r == x
  {
    x % 256
  }

  function Abs(x: int): (r: nat)
    ensures r == x || r == -x
  {
    if x < 0 then -x else x
  }

  function Min(a: int, b: int): (r: int)
    ensures r <= a && r <= b && (r == a || r == b)
  {
    if a < b then a else b
  }

  function Max(a: int, b: int): (r: int)
    ensures r >= a && r >= b && (r == a || r == b)
  {
    if a > b then a else b
  }

  /** Conversion of a wider integer to a 32-bit `int`, as GCC does it: the value modulo
      2^32, read as two's complement. */
  function ToInt32(x: int): (r: I32)
    ensures (r - x) % TWO_TO_32 == 0
    ensures INT_MIN <= x <= INT_MAX ==> r == x
  {
    (x - INT_MIN) % TWO_TO_32 + INT_MIN
  }

  /** C's `/` by a positive divisor: the quotient is truncated toward zero. */
  function CDiv(a: int, b: int): (q: int)
    requires b > 0
    ensures a >= 0 ==> q == a / b
    ensures a < 0 ==> q == -((-a) / b)
  {
    if a >= 0 then a / b else -((-a) / b)
  }

  /** C's `%` by a positive divisor: the remainder takes the sign of the dividend. */
  function CMod(a: int, b: int): (r: int)
    requires b > 0
    ensures -b < r < b
    ensures a >= 0 ==> 0 <= r
    ensures a < 0 ==> r <= 0
  {
    if a >= 0 then a % b else -((-a) % b)
  }

  /** C guarantees `(a / b) * b + a % b == a`; so does the model. */
  lemma {:induction false} CDivMod(a: int, b: int)
    requires b > 0
    ensures CDiv(a, b) * b + CMod(a, b) == a
  {
    if a < 0 {
      var n := -a;
      assert (n / b) * b + n % b == n;
      assert CDiv(a, b) * b == -((n / b) * b);
    }
  }
}
