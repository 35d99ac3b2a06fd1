/** The VxWorks LCM schedule: a sequencer task releases service F10 every 20 ms and
    service F20 every 50 ms by giving binary semaphores at fixed `taskDelay` offsets within
    a 100 ms major cycle (the least common multiple of the two periods), starting at a
    critical instant where both are released together. Ticks are counted in clock ticks;
    the sequencer sets the clock to 1000 ticks a second, so one tick is one millisecond.
    Every semaphore give is logged with its tick. */
module LcmSchedule {
  import opened Ints
  import FibMacro

  const CLOCK_RATE: int := 1000
  const MAJOR_CYCLE_TICKS: int := 100
  const F10_PERIOD_TICKS: int := 20
  const F20_PERIOD_TICKS: int := 50
  const FIB_LIMIT_FOR_32_BIT: int := 47
  const FIB10_ITERATIONS: int := 170000
  const FIB20_ITERATIONS: int := 340000

  datatype Service = F10 | F20

  /** A semaphore give for `service` at clock tick `tick`. */
  datatype Release = Release(tick: int, service: Service)

  /** Both services released at once. */
  function CriticalInstant(t: int): seq<Release> {
    [Release(t, F10), Release(t, F20)]
  }

  /** The gives of one pass of the sequencing loop that starts at tick `t`: F10 at +20,
      +40, +60 and +80, F20 at +50, then both at +100, the next critical instant. */
  function PassReleases(t: int): seq<Release> {
    [Release(t + 20, F10), Release(t + 40, F10), Release(t + 50, F20), Release(t + 60, F10),
     Release(t + 80, F10)] + CriticalInstant(t + 100)
  }

  /** All gives of the sequencer started at tick `t0` after `passes` loop passes. */
  function Schedule(t0: int, passes: nat): seq<Release> {
    if passes == 0 then CriticalInstant(t0)
    else Schedule(t0, passes - 1) + PassReleases(t0 + MAJOR_CYCLE_TICKS * (passes - 1))
  }

  /** The tick of `r` if it gives `service`. */
  function Gives(r: Release, service: Service): seq<int> {
    if r.service == service then [r.tick] else []
  }

  /** The ticks at which `service` is given, in order. */
  function ReleaseTicks(log: seq<Release>, service: Service): seq<int> {
    if log == [] then [] else Gives(log[0], service) + ReleaseTicks(log[1..], service)
  }

  lemma {:induction false} ReleaseTicksAppend(a: seq<Release>, b: seq<Release>, service: Service)
    ensures ReleaseTicks(a + b, service) == ReleaseTicks(a, service) + ReleaseTicks(b, service)
  {
    if a != [] {
      assert (a + b)[0] == a[0] && (a + b)[1..] == a[1..] + b;
      ReleaseTicksAppend(a[1..], b, service);
    } else {
      assert a + b == b;
    }
  }

  /** Evenly spaced ticks: `count` of them, `period` apart, from `t0`. */
  function Grid(t0: int, period: int, count: nat): (g: seq<int>)
    ensures |g| == count && forall i :: 0 <= i < count ==> g[i] == t0 + period * i
  {
    seq(count, i => t0 + period * i)
  }

  lemma GridAppend(t0: int, period: int, m: nat, n: nat)
    ensures Grid(t0, period, m + n) == Grid(t0, period, m) + Grid(t0 + period * m, period, n)
  {
    var g, h := Grid(t0, period, m + n), Grid(t0, period, m) + Grid(t0 + period * m, period, n);
    forall i | 0 <= i < m + n
      ensures g[i] == h[i]
    {
      if i >= m {
        assert h[i] == t0 + period * m + period * (i - m);
      }
    }
  }

  /** The seven gives of one pass, one service at a time. */
  lemma PassGives(t: int, service: Service)
    ensures var p := PassReleases(t);
      ReleaseTicks(p, service) ==
        Gives(p[0], service) + Gives(p[1], service) + Gives(p[2], service) + Gives(p[3], service) +
        Gives(p[4], service) + Gives(p[5], service) + Gives(p[6], service)
  {
    var p := PassReleases(t);
    assert p[6..][1..] == [];
    assert ReleaseTicks(p[6..], service) == Gives(p[6], service);
    assert p[5..][1..] == p[6..];
    assert ReleaseTicks(p[5..], service) == Gives(p[5], service) + Gives(p[6], service);
    assert p[4..][1..] == p[5..];
    assert ReleaseTicks(p[4..], service) == Gives(p[4], service) + Gives(p[5], service) + Gives(p[6], service);
    assert p[3..][1..] == p[4..];
    assert ReleaseTicks(p[3..], service) ==
      Gives(p[3], service) + Gives(p[4], service) + Gives(p[5], service) + Gives(p[6], service);
    assert p[2..][1..] == p[3..];
    assert ReleaseTicks(p[2..], service) ==
      Gives(p[2], service) + Gives(p[3], service) + Gives(p[4], service) + Gives(p[5], service) + Gives(p[6], service);
    assert p[1..][1..] == p[2..];
    assert p[0..] == p;
  }

  /** Within one pass F10 is given five times, 20 ticks apart from 20 ticks after the
      pass starts, and F20 twice, 50 ticks apart from 50 ticks after it starts. */
  lemma PassTicks(t: int)
    ensures ReleaseTicks(PassReleases(t), F10) == Grid(t + 20, F10_PERIOD_TICKS, 5)
    ensures ReleaseTicks(PassReleases(t), F20) == Grid(t + 50, F20_PERIOD_TICKS, 2)
  {
    PassGives(t, F10);
    PassGives(t, F20);
    assert ReleaseTicks(PassReleases(t), F10) == [t + 20, t + 40, t + 60, t + 80, t + 100];
    assert ReleaseTicks(PassReleases(t), F20) == [t + 50, t + 100];
  }

  /** F10 is released exactly every 20 ticks from the first critical instant on: after
      `passes` passes it has been given `5 * passes + 1` times. */
  lemma {:induction false} F10IsPeriodic(t0: int, passes: nat)
    ensures ReleaseTicks(Schedule(t0, passes), F10) == Grid(t0, F10_PERIOD_TICKS, 5 * passes + 1)
  {
    if passes == 0 {
      var c := CriticalInstant(t0);
      assert c[1..] == [Release(t0, F20)] && c[1..][1..] == [];
      assert ReleaseTicks(c[1..], F10) == Gives(c[1], F10);
      assert ReleaseTicks(c, F10) == [t0];
    } else {
      var t := t0 + MAJOR_CYCLE_TICKS * (passes - 1);
      var m := 5 * (passes - 1) + 1;
      assert Schedule(t0, passes) == Schedule(t0, passes - 1) + PassReleases(t);
      F10IsPeriodic(t0, passes - 1);
      ReleaseTicksAppend(Schedule(t0, passes - 1), PassReleases(t), F10);
      PassTicks(t);
      assert t0 + F10_PERIOD_TICKS * m == t + 20;
      GridAppend(t0, F10_PERIOD_TICKS, m, 5);
    }
  }

  /** F20 is released exactly every 50 ticks from the first critical instant on: after
      `passes` passes it has been given `2 * passes + 1` times. */
  lemma {:induction false} F20IsPeriodic(t0: int, passes: nat)
    ensures ReleaseTicks(Schedule(t0, passes), F20) == Grid(t0, F20_PERIOD_TICKS, 2 * passes + 1)
  {
    if passes == 0 {
      var c := CriticalInstant(t0);
      assert c[1..] == [Release(t0, F20)] && c[1..][1..] == [];
      assert ReleaseTicks(c[1..], F20) == Gives(c[1], F20);
      assert ReleaseTicks(c, F20) == [t0];
    } else {
      var t := t0 + MAJOR_CYCLE_TICKS * (passes - 1);
      var m := 2 * (passes - 1) + 1;
      assert Schedule(t0, passes) == Schedule(t0, passes - 1) + PassReleases(t);
      F20IsPeriodic(t0, passes - 1);
      ReleaseTicksAppend(Schedule(t0, passes - 1), PassReleases(t), F20);
      PassTicks(t);
      assert t0 + F20_PERIOD_TICKS * m == t + 50;
      GridAppend(t0, F20_PERIOD_TICKS, m, 2);
    }
  }

  /** Milliseconds for a number of clock ticks at a clock rate in ticks per second. */
  function TicksToMs(ticks: int, rate: int): int
    requires rate > 0
  {
    ticks * 1000 / rate
  }

  /** The program's globals: the abort flag, the clock, the two binary semaphores, the
      log of gives, the service counters and the shared `FIB_TEST` registers. */
  class Lcm {
    var abortTest: int
    var clockRate: int
    var tick: int
    var semF10Full: bool
    var semF20Full: bool
    var log: seq<Release>
    var fib10Cnt: U32
    var fib20Cnt: U32
    const load: FibMacro.FibLoad

    /** The globals' initial values; the clock runs at 60 ticks a second until the
        sequencer sets its rate. */
    constructor ()
      ensures abortTest == 0 && fib10Cnt == 0 && fib20Cnt == 0 && log == [] && fresh(load)
    {
      abortTest, clockRate, tick := 0, 60, 0;
      semF10Full, semF20Full, log := false, false, [];
      fib10Cnt, fib20Cnt := 0, 0;
      load := new FibMacro.FibLoad();
    }

    /** `start` clears the abort flag. */
    method Start()
      modifies this`abortTest
      ensures abortTest == 0
    {
      abortTest := 0;
    }

    /** `shutdown` sets the abort flag; the joins and semaphore destruction are not part
        of the model. */
    method Shutdown()
      modifies this`abortTest
      ensures abortTest == 1
    {
      abortTest := 1;
    }

    /** `taskDelay(ticks)`: the clock advances by `ticks`. */
    method TaskDelay(ticks: int)
      modifies this`tick
      ensures tick == old(tick) + ticks
    {
      tick := tick + ticks;
    }

    /** `semGive` on a binary semaphore: it is full afterwards, whether it was or not. */
    method SemGive(service: Service)
      modifies this`semF10Full, this`semF20Full, this`log
      ensures log == old(log) + [Release(tick, service)]
      ensures service == F10 ==> semF10Full && semF20Full == old(semF20Full)
      ensures service == F20 ==> semF20Full && semF10Full == old(semF10Full)
    {
      if service == F10 {
        semF10Full := true;
      } else {
        semF20Full := true;
      }
      log := log + [Release(tick, service)];
    }

    /** One pass of the sequencing loop: delays of 20, 20, 10, 10, 20 and 20 ticks, 100 in
        all, with the gives in between and the next critical instant at the end. */
    method SequencerPass()
      modifies this`tick, this`semF10Full, this`semF20Full, this`log
      ensures tick == old(tick) + MAJOR_CYCLE_TICKS
      ensures log == old(log) + PassReleases(old(tick))
      ensures semF10Full && semF20Full
    {
      var t := tick;
      TaskDelay(20); SemGive(F10);
      TaskDelay(20); SemGive(F10);
      TaskDelay(10); SemGive(F20);
      TaskDelay(10); SemGive(F10);
      TaskDelay(20); SemGive(F10);
      TaskDelay(20);
      SemGive(F10); SemGive(F20);
      assert log == old(log) + PassReleases(t);
    }

    /** The sequencer task: sets the clock to 1000 ticks a second, creates both binary
        semaphores empty, gives both at the critical instant, then runs loop passes while
        the abort flag is clear. `passes` is the number of passes that start before
        `shutdown` sets the flag from another task. */
    method Sequencer(passes: nat)
      modifies this`clockRate, this`tick, this`semF10Full, this`semF20Full, this`log
      ensures clockRate == CLOCK_RATE
      ensures abortTest == 0 ==>
        log == old(log) + Schedule(old(tick), passes) && tick == old(tick) + MAJOR_CYCLE_TICKS * passes
      ensures abortTest != 0 ==> log == old(log) + Schedule(old(tick), 0) && tick == old(tick)
      ensures semF10Full && semF20Full
    {
      clockRate := CLOCK_RATE;
      semF10Full, semF20Full := false, false;
      SemGive(F10); SemGive(F20);
      var done := 0;
      while abortTest == 0 && done < passes
        modifies this`tick, this`semF10Full, this`semF20Full, this`log
        invariant 0 <= done && (abortTest == 0 ==> done <= passes) && (abortTest != 0 ==> done == 0)
        invariant log == old(log) + Schedule(old(tick), done)
        invariant tick == old(tick) + MAJOR_CYCLE_TICKS * done
        invariant semF10Full && semF20Full
      {
        SequencerPass();
        done := done + 1;
      }
    }

    /** One iteration of the F10 service: the semaphore was full (the take returned), it
        is empty afterwards, the load runs and the counter goes up by one, as a 32-bit
        unsigned value. */
    method Fib10Iteration()
      requires semF10Full
      modifies this`semF10Full, this`fib10Cnt, load
      ensures !semF10Full
      ensures fib10Cnt == (old(fib10Cnt) + 1) % TWO_TO_32
      ensures load.regs == FibMacro.AfterFibTest(old(load.regs), old(load.jdx), FIB_LIMIT_FOR_32_BIT, FIB10_ITERATIONS)
    {
      semF10Full := false;
      load.FibTest(FIB_LIMIT_FOR_32_BIT, FIB10_ITERATIONS);
      fib10Cnt := (fib10Cnt + 1) % TWO_TO_32;
    }

    /** One iteration of the F20 service, as for F10 with twice the load. */
    method Fib20Iteration()
      requires semF20Full
      modifies this`semF20Full, this`fib20Cnt, load
      ensures !semF20Full
      ensures fib20Cnt == (old(fib20Cnt) + 1) % TWO_TO_32
      ensures load.regs == FibMacro.AfterFibTest(old(load.regs), old(load.jdx), FIB_LIMIT_FOR_32_BIT, FIB20_ITERATIONS)
    {
      semF20Full := false;
      load.FibTest(FIB_LIMIT_FOR_32_BIT, FIB20_ITERATIONS);
      fib20Cnt := (fib20Cnt + 1) % TWO_TO_32;
    }
  }

  /** One pass of the sequencing loop spans one major cycle, 100 ms at the clock rate
      the sequencer sets: it gives F10 once per F10 period and F20 once per F20 period
      in that cycle, and ends at the next critical instant, one major cycle after the
      one it started from. */
  lemma PassIsOneMajorCycle(t: int)
    ensures |ReleaseTicks(PassReleases(t), F10)| == MAJOR_CYCLE_TICKS / F10_PERIOD_TICKS
    ensures |ReleaseTicks(PassReleases(t), F20)| == MAJOR_CYCLE_TICKS / F20_PERIOD_TICKS
    ensures var p := PassReleases(t); p[|p| - 2..] == CriticalInstant(t + MAJOR_CYCLE_TICKS)
    ensures TicksToMs(MAJOR_CYCLE_TICKS, CLOCK_RATE) == 100
  {
    PassTicks(t);
  }

  /** The major cycle is the least common multiple of the two periods: no shorter
      positive span holds a whole number of both. */
  lemma MajorCycleIsLeastCommonPeriod(m: int)
    requires m > 0 && m % F10_PERIOD_TICKS == 0 && m % F20_PERIOD_TICKS == 0
    ensures m >= MAJOR_CYCLE_TICKS && m % MAJOR_CYCLE_TICKS == 0
  {
    var a := m / F10_PERIOD_TICKS;
    var b := m / F20_PERIOD_TICKS;
    assert 2 * a == 5 * b;
    assert a % 5 == 0;
  }
}
