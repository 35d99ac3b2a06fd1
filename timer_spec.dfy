/** POSIX `timespec`/`itimerspec` values and the millisecond-to-timer conversion that both
    sequencers perform before arming a periodic timer. */
module TimerSpec {
  import opened Ints

  const MS_PER_SEC: int := 1000
  const NSEC_PER_MSEC: int := 1_000_000
  const NSEC_PER_SEC: int := 1_000_000_000

  datatype Timespec = Timespec(sec: int, nsec: int)

  /** First expiry and reload interval of a POSIX interval timer. */
  datatype ITimerSpec = ITimerSpec(value: Timespec, interval: Timespec)

  /** Whole seconds plus a nanosecond part in [0, 10^9): the form the kernel accepts. */
  predicate Normalized(t: Timespec) {
    t.sec >= 0 && 0 <= t.nsec < NSEC_PER_SEC
  }

  /** The periodic timer armed for a period of `ms` milliseconds: seconds from the
      truncating quotient, nanoseconds from the truncating remainder, and a reload interval
      equal to the first expiry. Read back at millisecond resolution it is `ms` again, and
      for a non-negative period it is a normalised timespec. */
  function PeriodicTimer(ms: int): (its: ITimerSpec)
    ensures its.interval == its.value
    ensures its.value.sec * MS_PER_SEC + CDiv(its.value.nsec, NSEC_PER_MSEC) == ms
    ensures its.value.nsec % NSEC_PER_MSEC == 0
    ensures ms >= 0 ==> Normalized(its.value)
    ensures ms < 0 ==> its.value.sec <= 0 && -NSEC_PER_SEC < its.value.nsec <= 0
  {
    var value := Timespec(CDiv(ms, MS_PER_SEC), CMod(ms, MS_PER_SEC) * NSEC_PER_MSEC);
    CDivMod(ms, MS_PER_SEC);
    ITimerSpec(value, value)
  }
}
