/** The pthread affinity exercise: the `delta_t` time difference, the triangular sum each
    counter thread computes, and the core and priority each thread is given. */
module RtThread {
  import opened Ints
  import opened TimerSpec

  const NUM_THREADS: int := 4
  const NUM_CPUS: int := 1

  /** A time in nanoseconds. */
  function Nanos(t: Timespec): int {
    t.sec * NSEC_PER_SEC + t.nsec
  }

  /** `delta_t(stop, start, delta)`: the second and nanosecond differences are taken in
      32-bit `int`; a negative nanosecond difference borrows one second. The status is
      always 1. */
  function DeltaT(stop: Timespec, start: Timespec): (r: (Timespec, int))
    ensures r.1 == 1
  {
    var dtSec := ToInt32(stop.sec - start.sec);
    var dtNsec := ToInt32(stop.nsec - start.nsec);
    if dtSec >= 0 then
      if dtNsec >= 0 then (Timespec(dtSec, dtNsec), 1)
      else (Timespec(dtSec - 1, NSEC_PER_SEC + dtNsec), 1)
    else
      if dtNsec >= 0 then (Timespec(dtSec, dtNsec), 1)
      else (Timespec(dtSec - 1, NSEC_PER_SEC + dtNsec), 1)
  }

  /** Reference for `delta_t` without the outer test on the sign of the seconds: borrow
      a second exactly when the nanosecond difference is negative. */
  function Borrow(dtSec: int, dtNsec: int): Timespec {
    if dtNsec >= 0 then Timespec(dtSec, dtNsec) else Timespec(dtSec - 1, NSEC_PER_SEC + dtNsec)
  }

  /** Both outer branches of `delta_t` compute the same thing: the sign of the second
      difference does not matter. */
  lemma DeltaTIgnoresSecondsSign(stop: Timespec, start: Timespec)
    ensures DeltaT(stop, start).0 == Borrow(ToInt32(stop.sec - start.sec), ToInt32(stop.nsec - start.nsec))
  {
  }

  /** When the differences fit in an `int`, the result is the exact difference of the two
      times in nanoseconds. */
  lemma DeltaTIsDifference(stop: Timespec, start: Timespec)
    requires INT_MIN <= stop.sec - start.sec <= INT_MAX
    requires INT_MIN <= stop.nsec - start.nsec <= INT_MAX
    ensures Nanos(DeltaT(stop, start).0) == Nanos(stop) - Nanos(start)
  {
    var d := DeltaT(stop, start).0;
    if stop.nsec - start.nsec < 0 {
      assert d.sec == stop.sec - start.sec - 1 && d.nsec == NSEC_PER_SEC + stop.nsec - start.nsec;
      assert d.sec * NSEC_PER_SEC == (stop.sec - start.sec) * NSEC_PER_SEC - NSEC_PER_SEC;
    }
    assert (stop.sec - start.sec) * NSEC_PER_SEC == stop.sec * NSEC_PER_SEC - start.sec * NSEC_PER_SEC;
  }

  /** Nanosecond parts in [0, 10^9) give a nanosecond part in [0, 10^9). */
  lemma DeltaTNormalises(stop: Timespec, start: Timespec)
    requires 0 <= stop.nsec < NSEC_PER_SEC && 0 <= start.nsec < NSEC_PER_SEC
    ensures 0 <= DeltaT(stop, start).0.nsec < NSEC_PER_SEC
  {
  }

  /** The compute section of `counterThread`: the sum of 1 .. n-1 with
      `n = (threadIdx + 1) * 100`, in `int`; for the four threads it stays far below
      `INT_MAX`. */
  method CounterSum(threadIdx: int) returns (sum: I32)
    requires 0 <= threadIdx < NUM_THREADS
    ensures var n := (threadIdx + 1) * 100; sum * 2 == n * (n - 1)
  {
    var n := (threadIdx + 1) * 100;
    sum := 0;
    var i := 1;
    while i < n
      invariant 1 <= i <= n
      invariant sum * 2 == i * (i - 1)
    {
      sum := sum + i;
      i := i + 1;
    }
  }

  /** The processor count used: the configured count, or `NUM_CPUS` when that is
      smaller. */
  function ProcessorCount(configured: int): (n: int)
    ensures n >= NUM_CPUS && (n == configured || n == NUM_CPUS)
    ensures configured >= NUM_CPUS ==> n == configured
  {
    if configured >= NUM_CPUS then configured else NUM_CPUS
  }

  /** What `main` sets up for one thread. */
  datatype Assignment = Assignment(core: int, priority: int)

  /** The thread set-up loop of `main`: thread `i` runs on core `i % processors` at
      priority `maxPriority - i - 1`. */
  method AssignThreads(configured: int, maxPriority: int) returns (a: seq<Assignment>)
    ensures |a| == NUM_THREADS
    ensures forall i :: 0 <= i < |a| ==>
      a[i].core == i % ProcessorCount(configured) && 0 <= a[i].core < ProcessorCount(configured) &&
      a[i].priority == maxPriority - i - 1
  {
    var processors := ProcessorCount(configured);
    a := [];
    var i := 0;
    while i < NUM_THREADS
      invariant 0 <= i <= NUM_THREADS && |a| == i
      invariant forall j :: 0 <= j < i ==>
        a[j].core == j % processors && 0 <= a[j].core < processors && a[j].priority == maxPriority - j - 1
    {
      a := a + [Assignment(i % processors, maxPriority - i - 1)];
      i := i + 1;
    }
  }

  /** Every thread gets a priority below the maximum, the earlier thread the higher one,
      and with at least as many processors as threads each thread has a core of its own. */
  lemma AssignmentsOrdered(a: seq<Assignment>, configured: int, maxPriority: int)
    requires |a| == NUM_THREADS
    requires forall i :: 0 <= i < |a| ==>
      a[i].core == i % ProcessorCount(configured) && a[i].priority == maxPriority - i - 1
    ensures forall i, j :: 0 <= i < j < |a| ==> maxPriority > a[i].priority > a[j].priority
    ensures configured >= NUM_THREADS ==> forall i, j :: 0 <= i < j < |a| ==> a[i].core != a[j].core
  {
    if configured >= NUM_THREADS {
      forall i | 0 <= i < |a|
        ensures a[i].core == i
      {
        assert i < ProcessorCount(configured);
      }
    }
  }
}
