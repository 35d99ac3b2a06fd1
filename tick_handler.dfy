/** The one-second timer handler of the lock-timeout exercises. Each tick counts itself,
    releases task 1, releases task 2 on every tenth tick, and once more than 180 ticks
    have passed marks the test done and posts both semaphores once more so that blocked
    tasks wake up and see the flag. Semaphore posts are counted; the tasks' waits are not
    part of the handler. */
module TickHandler {
  import opened Ints
  import opened Wrappers

  /** The tick after which the test is over. */
  const TEST_TICKS: int := 180
  /** Task 2 is released on every tenth tick. */
  const T2_DIVIDER: int := 10

  /** Ticks after the end of the test among the first `n`. */
  function Overtime(n: nat): nat {
    if n > TEST_TICKS then n - TEST_TICKS else 0
  }

  /** Posts to task 1's semaphore after `n` ticks: one per tick, and one more per tick
      after the end of the test. */
  function T1Posts(n: nat): nat {
    n + Overtime(n)
  }

  /** Posts to task 2's semaphore after `n` ticks: one per tenth tick, and one more per
      tick after the end of the test. */
  function T2Posts(n: nat): nat {
    n / T2_DIVIDER + Overtime(n)
  }

  /** During the test window of 180 one-second ticks task 1 is released 180 times and
      task 2 18 times, once per second and once per ten seconds. */
  lemma ReleasesOverTestWindow(n: nat)
    requires n <= TEST_TICKS
    ensures T1Posts(n) == n && T2Posts(n) == n / T2_DIVIDER
    ensures n == TEST_TICKS ==> T1Posts(n) == 180 && T2Posts(n) == 18
  {
  }

  /** Task 1 is never released less often than task 2, and at least ten times as often
      during the test window. */
  lemma T1AtLeastTenfoldT2(n: nat)
    requires n <= TEST_TICKS
    ensures T2Posts(n) * T2_DIVIDER <= T1Posts(n)
  {
  }

  /** The handler's static counters, the two semaphores' post counts and the global test
      flag. */
  class Handler {
    var count: int
    var releaseCount: int
    var postsT1: nat
    var postsT2: nat
    var testDone: int

    /** The counters always agree and the posts are those of `count` ticks. */
    ghost predicate Valid()
      reads this
    {
      0 <= count && releaseCount == count &&
      postsT1 == T1Posts(count) && postsT2 == T2Posts(count) &&
      testDone == (if count > TEST_TICKS then 1 else 0)
    }

    constructor ()
      ensures Valid() && count == 0 && postsT1 == 0 && postsT2 == 0 && testDone == 0
    {
      count, releaseCount, postsT1, postsT2, testDone := 0, 0, 0, 0, 0;
    }

    /** `timer_handler`: one tick. */
    method Tick()
      requires Valid()
      modifies this
      ensures Valid()
      ensures count == old(count) + 1 && releaseCount == old(releaseCount) + 1
      ensures postsT1 == old(postsT1) + 1 + (if count > TEST_TICKS then 1 else 0)
      ensures postsT2 == old(postsT2) + (if releaseCount % T2_DIVIDER == 0 then 1 else 0) + (if count > TEST_TICKS then 1 else 0)
      ensures old(testDone) == 1 ==> testDone == 1
      ensures testDone == 1 <==> count > TEST_TICKS
    {
      count := count + 1;
      releaseCount := releaseCount + 1;
      postsT1 := postsT1 + 1;
      if releaseCount % T2_DIVIDER == 0 {
        postsT2 := postsT2 + 1;
      }
      if count > TEST_TICKS {
        testDone := 1;
        postsT1 := postsT1 + 1;
        postsT2 := postsT2 + 1;
      }
    }
  }

  /** The argument check of `main`: the program goes on only with exactly one argument
      whose `atoi` value `parsed` is 0 or 1, the main thread's lock option. */
  function MainLockOption(argc: int, parsed: int): (r: Option<int>)
    ensures r.Some? <==> argc == 2 && (parsed == 0 || parsed == 1)
    ensures r.Some? ==> r.value == parsed
  {
    if argc != 2 then None
    else if parsed != 0 && parsed != 1 then None
    else Some(parsed)
  }
}
