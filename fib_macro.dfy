/** The `FIB_TEST(seqCnt, iterCnt)` load macro shared by the pthread exercise and the
    VxWorks LCM schedule. It works on global 32-bit unsigned registers: the loop counters
    `idx` and `jdx` and the Fibonacci registers `fib0`, `fib1`, `fib`. Because `jdx` is a
    global that nothing resets, the inner sequence loop only runs while `jdx` is still
    below `seqCnt`, that is during the first outer iteration of the first use. */
module FibMacro {
  import opened Ints
  import opened Fibonacci

  /** The three Fibonacci registers. */
  datatype Regs = Regs(fib0: U32, fib1: U32, fib: U32)

  /** `fib = fib0 + fib1`, the first statement of every outer iteration. */
  function Sum(r: Regs): Regs {
    r.(fib := (r.fib0 + r.fib1) % TWO_TO_32)
  }

  /** One pass of the inner loop: shift the registers and add. */
  function Step(r: Regs): Regs {
    Regs(r.fib1, r.fib, (r.fib1 + r.fib) % TWO_TO_32)
  }

  /** The registers after `k` passes of the inner loop. */
  function Steps(r: Regs, k: nat): Regs
    decreases k
  {
    if k == 0 then r else Steps(Step(r), k - 1)
  }

  /** Registers whose `fib` already is `fib0 + fib1`. */
  predicate Summed(r: Regs) {
    r.fib == (r.fib0 + r.fib1) % TWO_TO_32
  }

  lemma {:induction false} StepsLast(r: Regs, k: nat)
    ensures Steps(r, k + 1) == Step(Steps(r, k))
    decreases k
  {
    if k > 0 {
      StepsLast(Step(r), k - 1);
    }
  }

  /** Every pass of the inner loop leaves the registers summed, so the sum at the top of
      any later outer iteration changes nothing. */
  lemma {:induction false} StepsStaySummed(r: Regs, k: nat)
    requires Summed(r)
    ensures Summed(Steps(r, k)) && Sum(Steps(r, k)) == Steps(r, k)
    decreases k
  {
    if k > 0 {
      StepsStaySummed(Step(r), k - 1);
    }
  }

  /** From the initial registers (0, 1, 0) the macro walks the Fibonacci sequence modulo
      2^32: after the sum and `k` inner passes, `fib0`, `fib1` and `fib` hold F(k), F(k+1)
      and F(k+2). */
  lemma {:induction false} StepsWalkFibonacci(k: nat)
    ensures Steps(Sum(Regs(0, 1, 0)), k) ==
      Regs(Fib(k) % TWO_TO_32, Fib(k + 1) % TWO_TO_32, Fib(k + 2) % TWO_TO_32)
  {
    if k > 0 {
      StepsWalkFibonacci(k - 1);
      StepsLast(Sum(Regs(0, 1, 0)), k - 1);
      AddMod32(Fib(k), Fib(k + 1));
    }
  }

  /** The registers after `FIB_TEST(seqCnt, iterCnt)` started from `r` with the global
      `jdx`: unchanged when `iterCnt` is 0; otherwise the sum followed by one inner pass
      for each value of `jdx` below `seqCnt`. */
  function AfterFibTest(r: Regs, jdx: int, seqCnt: int, iterCnt: int): Regs {
    if iterCnt <= 0 then r else Steps(Sum(r), if jdx < seqCnt then seqCnt - jdx else 0)
  }

  /** The first use of the macro from the initial globals (`jdx = 1`) leaves F(seqCnt-1),
      F(seqCnt) and F(seqCnt+1), modulo 2^32, in `fib0`, `fib1` and `fib`. */
  lemma FirstFibTestComputesFibonacci(seqCnt: nat, iterCnt: int)
    requires seqCnt >= 1 && iterCnt > 0
    ensures AfterFibTest(Regs(0, 1, 0), 1, seqCnt, iterCnt) ==
      Regs(Fib(seqCnt - 1) % TWO_TO_32, Fib(seqCnt) % TWO_TO_32, Fib(seqCnt + 1) % TWO_TO_32)
  {
    StepsWalkFibonacci(seqCnt - 1);
  }

  /** Once a use with at least one outer iteration has brought `jdx` up to `seqCnt`, any
      later use with the same `seqCnt` leaves the registers as they are: the load is
      computed only once. */
  lemma LaterFibTestChangesNothing(r: Regs, jdx: int, seqCnt: int, iterCnt: int, laterIterCnt: int)
    requires iterCnt > 0
    ensures AfterFibTest(AfterFibTest(r, jdx, seqCnt, iterCnt), Max(jdx, seqCnt), seqCnt, laterIterCnt) ==
      AfterFibTest(r, jdx, seqCnt, iterCnt)
  {
    StepsStaySummed(Sum(r), if jdx < seqCnt then seqCnt - jdx else 0);
  }

  /** The macro's globals. */
  class FibLoad {
    var idx: U32
    var jdx: U32
    var regs: Regs

    /** The initial values `idx = 0, jdx = 1`, `fib = 0, fib0 = 0, fib1 = 1`. */
    constructor ()
      ensures idx == 0 && jdx == 1 && regs == Regs(0, 1, 0)
    {
      idx, jdx, regs := 0, 1, Regs(0, 1, 0);
    }

    /** `FIB_TEST(seqCnt, iterCnt)`: `idx` ends at `iterCnt`; when there is at least one
        outer iteration `jdx` ends at `seqCnt` if it was below it, and the registers are
        `AfterFibTest` of the old ones. */
    method FibTest(seqCnt: U32, iterCnt: U32)
      modifies this`idx, this`jdx, this`regs
      ensures idx == iterCnt
      ensures jdx == if iterCnt > 0 then Max(old(jdx), seqCnt) else old(jdx)
      ensures regs == AfterFibTest(old(regs), old(jdx), seqCnt, iterCnt)
    {
      ghost var k := if old(jdx) < seqCnt then seqCnt - old(jdx) else 0;
      idx := 0;
      while idx < iterCnt
        invariant 0 <= idx <= iterCnt
        invariant idx == 0 ==> jdx == old(jdx) && regs == old(regs)
        invariant idx > 0 ==> jdx == Max(old(jdx), seqCnt) && regs == Steps(Sum(old(regs)), k) && Summed(regs)
      {
        if idx > 0 {
          StepsStaySummed(Sum(old(regs)), k);
        }
        regs := Sum(regs);
        ghost var start, j0 := regs, jdx;
        while jdx < seqCnt
          modifies this`jdx, this`regs
          invariant j0 <= jdx && (j0 < seqCnt ==> jdx <= seqCnt) && (j0 >= seqCnt ==> jdx == j0)
          invariant regs == Steps(start, jdx - j0) && Summed(regs)
        {
          StepsLast(start, jdx - j0);
          regs := Step(regs);
          jdx := jdx + 1;
        }
        idx := idx + 1;
      }
    }
  }
}
