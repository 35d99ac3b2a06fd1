/** The Fibonacci numbers, which the load generators compute in fixed-width unsigned
    arithmetic, and the modular-addition facts those computations rest on. */
module Fibonacci {
  import opened Ints

  function Fib(n: nat): nat {
    if n <= 1 then n else Fib(n - 1) + Fib(n - 2)
  }

  lemma AddMod32(x: int, y: int)
    ensures (x % TWO_TO_32 + y % TWO_TO_32) % TWO_TO_32 == (x + y) % TWO_TO_32
  {
  }

  lemma AddMod64(x: int, y: int)
    ensures (x % TWO_TO_64 + y % TWO_TO_64) % TWO_TO_64 == (x + y) % TWO_TO_64
  {
  }
}
