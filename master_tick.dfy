/** The master-tick sequencer: one periodic POSIX timer ticks at a fixed interval, and
    on each tick `onAlarm` releases, through their semaphores, the services whose next
    release time has come. Services are scanned from a rotating cursor in period order.

    Clock readings are integer nanoseconds on the steady clock and are passed in as
    parameters. Each release semaphore is a counter of releases not yet taken. The
    vector of `unique_ptr<Service>` is a sequence of `Slot` values, because no service
    is shared. Each slot holds a reference to its own statistics object. */
module MasterTick {
  import opened Ints
  import opened Wrappers
  import opened TimerSpec
  import opened RTStats

  /** One service: configuration, run flag, release semaphore, planned release and
      deadline, and statistics. */
  datatype Slot = Slot(
    name: string,
    priority: int,
    cpuAffinity: int,
    periodMs: int,
    keepRunning: bool,
    releaseSem: nat,
    nextRelease: int,
    nextDeadline: int,
    stats: RTStatistics)

  /** A period in milliseconds, as a steady-clock duration in nanoseconds. */
  function PeriodNs(periodMs: int): int {
    periodMs * NSEC_PER_MSEC
  }

  predicate AllPeriodsPositive(svcs: seq<Slot>) {
    forall j :: 0 <= j < |svcs| ==> svcs[j].periodMs > 0
  }

  /** Non-decreasing period from each service to the next. */
  predicate SortedByPeriod(svcs: seq<Slot>) {
    forall i :: 0 < i < |svcs| ==> svcs[i - 1].periodMs <= svcs[i].periodMs
  }

  /** Sorted from one service to the next means sorted between any two. */
  lemma {:induction false} SortedPairwise(svcs: seq<Slot>)
    requires SortedByPeriod(svcs)
    ensures forall i, j :: 0 <= i < j < |svcs| ==> svcs[i].periodMs <= svcs[j].periodMs
  {
    if |svcs| > 1 {
      var p := svcs[..|svcs| - 1];
      assert SortedByPeriod(p);
      SortedPairwise(p);
      forall i, j | 0 <= i < j < |svcs|
        ensures svcs[i].periodMs <= svcs[j].periodMs
      {
        if j == |svcs| - 1 && i < j - 1 {
          assert svcs[i] == p[i] && svcs[j - 1] == p[j - 1];
        }
      }
    }
  }

  // ---------------------------------------------------------------------------
  // Sorting by period (startServices)
  // ---------------------------------------------------------------------------

  /** Inserts `x` into a list already sorted by period. */
  function InsertByPeriod(x: Slot, s: seq<Slot>): (r: seq<Slot>)
    requires SortedByPeriod(s)
    ensures SortedByPeriod(r) && |r| == |s| + 1
    ensures multiset(r) == multiset(s) + multiset{x}
    ensures r[0] == x || (s != [] && r[0] == s[0])
  {
    if s == [] then [x]
    else if x.periodMs <= s[0].periodMs then [x] + s
    else
      assert s == [s[0]] + s[1..];
      var rest := InsertByPeriod(x, s[1..]);
      assert s[0].periodMs <= rest[0].periodMs;
      [s[0]] + rest
  }

  /** One order the source's `std::sort` may leave the services in: non-decreasing
      period, and the same services as before. The sort is not stable, so services
      with equal periods may come in any order; this function picks one of them. */
  function SortByPeriod(s: seq<Slot>): (r: seq<Slot>)
    ensures SortedByPeriod(r) && |r| == |s|
    ensures multiset(r) == multiset(s)
  {
    if s == [] then []
    else
      assert s == [s[0]] + s[1..];
      InsertByPeriod(s[0], SortByPeriod(s[1..]))
  }

  /** The slot as `startServices` leaves it: released first at `now`, with the first
      deadline one period later. */
  function Scheduled(s: Slot, now: int): (r: Slot)
    ensures r == s.(nextRelease := r.nextRelease, nextDeadline := r.nextDeadline)
    ensures r.nextRelease == now && r.nextDeadline == now + PeriodNs(s.periodMs)
  {
    s.(nextRelease := now, nextDeadline := now + PeriodNs(s.periodMs))
  }

  /** Every slot scheduled at `now`, in the same order. */
  function ScheduleAll(svcs: seq<Slot>, now: int): (r: seq<Slot>)
    ensures |r| == |svcs|
    ensures forall j :: 0 <= j < |r| ==> r[j] == Scheduled(svcs[j], now)
  {
    seq(|svcs|, j requires 0 <= j < |svcs| => Scheduled(svcs[j], now))
  }

  /** After `startServices` the services are in non-decreasing period order, are the
      services there were before, and are all released first at `now` with their first
      deadline one period later. */
  lemma StartedInPeriodOrder(svcs: seq<Slot>, now: int)
    ensures var r := ScheduleAll(SortByPeriod(svcs), now);
      SortedByPeriod(r) &&
      (forall i, j :: 0 <= i < j < |r| ==> r[i].periodMs <= r[j].periodMs) &&
      multiset(SortByPeriod(svcs)) == multiset(svcs) &&
      forall j :: 0 <= j < |r| ==> r[j].nextRelease == now && r[j].nextDeadline == now + PeriodNs(r[j].periodMs)
  {
    var r := ScheduleAll(SortByPeriod(svcs), now);
    assert forall j :: 0 <= j < |r| ==> r[j].periodMs == SortByPeriod(svcs)[j].periodMs;
    SortedPairwise(r);
  }

  // ---------------------------------------------------------------------------
  // One release (onAlarm, for one due service)
  // ---------------------------------------------------------------------------

  predicate Due(s: Slot, now: int) {
    now >= s.nextRelease
  }

  lemma MulLessCancel(a: int, b: int, p: int)
    requires p > 0 && a * p < b * p
    ensures a < b
  {
  }

  /** How many periods the catch-up loop adds to a due release time: the `k >= 1` for
      which `nextRelease + k * period` is the first grid point after `now`. */
  function Periods(nextRelease: int, period: int, now: int): (k: int)
    requires period > 0 && now >= nextRelease
    ensures k >= 1
    ensures nextRelease + (k - 1) * period <= now < nextRelease + k * period
  {
    var q := (now - nextRelease) / period;
    assert (q + 1) * period == q * period + period;
    q + 1
  }

  /** The first release time after `now` on the grid `nextRelease + k * period`: where
      the source's catch-up loop leaves `nextRelease`. */
  function Advance(nextRelease: int, period: int, now: int): (r: int)
    requires period > 0 && now >= nextRelease
    ensures now < r && r - period <= now
    ensures r >= nextRelease + period
  {
    var k := Periods(nextRelease, period, now);
    assert (k - 1) * period == k * period - period;
    nextRelease + k * period
  }

  /** Any grid point after `now` whose predecessor is not after `now` is the one
      `Advance` picks: the catch-up loop stops exactly there. */
  lemma {:induction false} AdvanceUnique(nextRelease: int, period: int, now: int, k: int)
    requires period > 0 && now >= nextRelease
    requires nextRelease + (k - 1) * period <= now < nextRelease + k * period
    ensures nextRelease + k * period == Advance(nextRelease, period, now)
  {
    var q := Periods(nextRelease, period, now);
    MulLessCancel(q - 1, k, period);
    MulLessCancel(k - 1, q, period);
  }

  /** The slot after `onAlarm` released it at `now`: one more release on its semaphore,
      the next release moved past `now`, and the deadline one period after that. */
  function Released(s: Slot, now: int): (r: Slot)
    requires s.periodMs > 0 && Due(s, now)
    ensures r.releaseSem == s.releaseSem + 1
    ensures now < r.nextRelease && r.nextRelease - PeriodNs(s.periodMs) <= now
    ensures r.nextRelease == s.nextRelease + Periods(s.nextRelease, PeriodNs(s.periodMs), now) * PeriodNs(s.periodMs)
    ensures r.nextDeadline == r.nextRelease + PeriodNs(s.periodMs)
    ensures r == s.(releaseSem := r.releaseSem, nextRelease := r.nextRelease, nextDeadline := r.nextDeadline)
  {
    var nr := Advance(s.nextRelease, PeriodNs(s.periodMs), now);
    s.(releaseSem := s.releaseSem + 1, nextRelease := nr, nextDeadline := nr + PeriodNs(s.periodMs))
  }

  // ---------------------------------------------------------------------------
  // The cursor scan (onAlarm)
  // ---------------------------------------------------------------------------

  /** Index visited at step `i` of a scan that starts at cursor `c`: `(c + i) % n`. */
  function Pos(c: nat, i: nat, n: nat): (r: nat)
    requires c < n && i < n
    ensures r < n
  {
    if c + i < n then c + i else c + i - n
  }

  /** The step at which a scan from `c` visits index `j`. */
  function Offset(c: nat, j: nat, n: nat): (r: nat)
    requires c < n && j < n
    ensures r < n && Pos(c, r, n) == j
  {
    if j >= c then j - c else j + n - c
  }

  lemma OffsetOfPos(c: nat, i: nat, n: nat)
    requires c < n && i < n
    ensures Offset(c, Pos(c, i, n), n) == i
  {
  }

  lemma ModWrap(x: nat, n: nat)
    requires 0 < n && x < 2 * n
    ensures x % n == if x < n then x else x - n
  {
    var q, r := x / n, x % n;
    assert x == q * n + r && 0 <= r < n;
    MulLessCancel(q, 2, n);
    MulLessCancel(-1, q, n);
    if q == 1 {
      assert q * n == n;
    } else {
      assert q == 0 && q * n == 0;
    }
  }

  /** Number of consecutive due services a scan from `c` meets, counting from step
      `i`: the scan releases these and stops at the next one. */
  function DueRun(svcs: seq<Slot>, c: nat, now: int, i: nat): (k: nat)
    requires c < |svcs| && i <= |svcs|
    ensures i <= k <= |svcs|
    ensures forall m :: i <= m < k ==> Due(svcs[Pos(c, m, |svcs|)], now)
    ensures k < |svcs| ==> !Due(svcs[Pos(c, k, |svcs|)], now)
    decreases |svcs| - i
  {
    if i == |svcs| then i
    else if Due(svcs[Pos(c, i, |svcs|)], now) then DueRun(svcs, c, now, i + 1)
    else i
  }

  /** The services after the first `i` steps of a scan from `c` released theirs. */
  function ReleasedUpTo(svcs: seq<Slot>, c: nat, now: int, i: nat): (r: seq<Slot>)
    requires c < |svcs| && i <= |svcs| && AllPeriodsPositive(svcs)
    requires forall m :: 0 <= m < i ==> Due(svcs[Pos(c, m, |svcs|)], now)
    ensures |r| == |svcs|
  {
    seq(|svcs|, j requires 0 <= j < |svcs| =>
      if Offset(c, j, |svcs|) < i then Released(svcs[j], now) else svcs[j])
  }

  /** The services after one `onAlarm` at `now` with the cursor at `c`. */
  function AlarmServices(svcs: seq<Slot>, c: nat, now: int): (r: seq<Slot>)
    requires c < |svcs| && AllPeriodsPositive(svcs)
    ensures |r| == |svcs|
  {
    ReleasedUpTo(svcs, c, now, DueRun(svcs, c, now, 0))
  }

  /** The cursor after one `onAlarm`: the first service found not due, or the old
      cursor when every service was due. */
  function AlarmCursor(svcs: seq<Slot>, c: nat, now: int): (r: nat)
    requires c < |svcs|
    ensures r < |svcs|
  {
    var k := DueRun(svcs, c, now, 0);
    if k < |svcs| then Pos(c, k, |svcs|) else c
  }

  /** What one tick does to each service: a service the scan reached while it was due
      gets exactly one release, however many periods it fell behind, with its next
      release moved by a positive whole number of periods to just after `now` and its
      deadline one period after that; every other service is left as it was. */
  lemma AlarmEffect(svcs: seq<Slot>, c: nat, now: int, j: nat)
    requires c < |svcs| && AllPeriodsPositive(svcs) && j < |svcs|
    ensures var s, r := svcs[j], AlarmServices(svcs, c, now)[j];
      (Offset(c, j, |svcs|) < DueRun(svcs, c, now, 0) ==>
        Due(s, now) &&
        r.releaseSem == s.releaseSem + 1 &&
        now < r.nextRelease && r.nextRelease - PeriodNs(s.periodMs) <= now &&
        r.nextRelease == s.nextRelease + Periods(s.nextRelease, PeriodNs(s.periodMs), now) * PeriodNs(s.periodMs) &&
        r.nextDeadline == r.nextRelease + PeriodNs(s.periodMs) &&
        r.keepRunning == s.keepRunning && r.stats == s.stats && r.periodMs == s.periodMs) &&
      (Offset(c, j, |svcs|) >= DueRun(svcs, c, now, 0) ==> r == s)
  {
  }

  /** The scan stops at the first service it finds not due: that service becomes the
      cursor and is left unchanged. When every service was due, all are released and
      the cursor stays. */
  lemma AlarmStopsAtFirstNotDue(svcs: seq<Slot>, c: nat, now: int)
    requires c < |svcs| && AllPeriodsPositive(svcs)
    ensures var c' := AlarmCursor(svcs, c, now);
      (DueRun(svcs, c, now, 0) < |svcs| ==>
        !Due(svcs[c'], now) && AlarmServices(svcs, c, now)[c'] == svcs[c'] &&
        Offset(c, c', |svcs|) == DueRun(svcs, c, now, 0))
    ensures DueRun(svcs, c, now, 0) == |svcs| <==> forall j :: 0 <= j < |svcs| ==> Due(svcs[j], now)
    ensures DueRun(svcs, c, now, 0) == |svcs| ==> AlarmCursor(svcs, c, now) == c
  {
    var k := DueRun(svcs, c, now, 0);
    if k < |svcs| {
      OffsetOfPos(c, k, |svcs|);
    }
    if k == |svcs| {
      forall j | 0 <= j < |svcs|
        ensures Due(svcs[j], now)
      {
        assert Pos(c, Offset(c, j, |svcs|), |svcs|) == j;
      }
    }
  }

  /** A due service the scan reaches only after a service that is not due is not
      released on this tick: with periods 20 ms and 50 ms, at 50 ms the 50 ms service
      is due while the 20 ms one waits for 60 ms, so the scan from index 0 releases
      nothing. */
  lemma DueServiceBehindNotDueIsSkipped(svcs: seq<Slot>, c: nat, now: int, j: nat)
    requires c < |svcs| && AllPeriodsPositive(svcs) && j < |svcs|
    requires !Due(svcs[c], now) && Due(svcs[j], now)
    ensures AlarmServices(svcs, c, now)[j] == svcs[j]
    ensures AlarmCursor(svcs, c, now) == c
  {
    assert Pos(c, 0, |svcs|) == c;
    assert DueRun(svcs, c, now, 0) == 0;
  }

  /** The worker's release-jitter sample: the wake time minus the planned release,
      clamped at zero. */
  function ReleaseJitterSample(releaseTime: int, nextRelease: int): (r: int)
    ensures r >= 0
    ensures r == 0 <==> releaseTime <= nextRelease
    ensures r > 0 ==> r == releaseTime - nextRelease
  {
    if releaseTime - nextRelease < 0 then 0 else releaseTime - nextRelease
  }

  /** The worker reads `nextRelease` after `onAlarm` has already moved it past the tick
      that released it, so a worker woken before that next release records a release
      jitter of zero however late it runs. */
  lemma JitterAfterReleaseIsZero(s: Slot, now: int, wake: int)
    requires s.periodMs > 0 && Due(s, now)
    requires wake <= Released(s, now).nextRelease
    ensures ReleaseJitterSample(wake, Released(s, now).nextRelease) == 0
  {
  }

  /** The slot after a tick at `now` that reaches it: released when due, left as it
      was otherwise. */
  function Ticked(s: Slot, now: int): (r: Slot)
    requires s.periodMs > 0
    ensures Due(s, now) ==> r == Released(s, now)
    ensures !Due(s, now) ==> r == s
  {
    if Due(s, now) then Released(s, now) else s
  }

  /** The worker reads `nextDeadline` only after the service function returns, when
      later ticks may have moved it. After any tick at `t` that reaches the service the
      deadline it would read is more than one period after `t`, and the deadline stays
      one period after the next release. So a job that ends no more than one period after
      the last tick that reached its service is never counted as a miss. */
  lemma {:induction false} CheckedDeadlineIsOnePeriodLate(s: Slot, t: int)
    requires s.periodMs > 0 && s.nextDeadline == s.nextRelease + PeriodNs(s.periodMs)
    ensures Ticked(s, t).nextDeadline > t + PeriodNs(s.periodMs)
    ensures Ticked(s, t).nextDeadline == Ticked(s, t).nextRelease + PeriodNs(s.periodMs)
  {
    if !Due(s, t) {
      assert s.nextRelease > t;
    }
  }

  /** A job of a 20 ms service released by the tick at 0 ms that runs until 45 ms, with
      ticks at 20 ms and 40 ms while it runs: it ended 25 ms after its 20 ms deadline,
      but the deadline the worker reads at the end is 80 ms, so no miss is counted. */
  lemma OverrunJobIsNotCounted(s: Slot)
    requires s.periodMs == 20 && s.nextRelease == 0
    ensures var endTime := 45 * NSEC_PER_MSEC;
      var atWake := Ticked(s, 0);
      var atEnd := Ticked(Ticked(atWake, 20 * NSEC_PER_MSEC), 40 * NSEC_PER_MSEC);
      endTime > s.nextRelease + PeriodNs(s.periodMs) &&
      atEnd.nextDeadline == 80 * NSEC_PER_MSEC && !(endTime > atEnd.nextDeadline) &&
      endTime > atWake.nextRelease
  {
    var p := PeriodNs(20);
    AdvanceUnique(0, p, 0, 1);
    AdvanceUnique(p, p, p, 1);
    AdvanceUnique(2 * p, p, 2 * p, 1);
  }

  /** When the tick that releases a service comes within one period of its planned
      release, the next release it sets is the planned release plus one period: the
      deadline of the job being released, with deadlines equal to periods. */
  lemma JobDeadlineIsNextRelease(s: Slot, now: int)
    requires s.periodMs > 0 && Due(s, now) && now < s.nextRelease + PeriodNs(s.periodMs)
    ensures Released(s, now).nextRelease == s.nextRelease + PeriodNs(s.periodMs)
  {
    AdvanceUnique(s.nextRelease, PeriodNs(s.periodMs), now, 1);
  }

  /** Stopping a service: the run flag cleared and one release to unblock it. */
  function Stopped(s: Slot): (r: Slot)
    ensures !r.keepRunning && r.releaseSem == s.releaseSem + 1
    ensures r == s.(keepRunning := false, releaseSem := r.releaseSem)
  {
    s.(keepRunning := false, releaseSem := s.releaseSem + 1)
  }

  /** What a worker does when woken: `Blocked` when there was no release to take,
      `Exited` when it took one but was told to stop, `Started` when it took one, recorded
      its release jitter and is about to run the service. `jobDeadline` is the next
      release as the worker sees it when it wakes: the deadline of the job it runs, when
      deadlines equal periods (`JobDeadlineIsNextRelease`). */
  datatype Wake = Blocked | Exited | Started(jobDeadline: int)

  class Sequencer {
    var services: seq<Slot>
    var nextServiceIndex: nat
    /** `timerId != nullptr` */
    var timerLive: bool
    /** Number of `timer_delete` calls so far. */
    var timersDeleted: nat
    /** The interval the master timer was armed with, if it was. */
    var armed: Option<ITimerSpec>

    ghost predicate Valid()
      reads this
    {
      (services == [] ==> nextServiceIndex == 0) &&
      (services != [] ==> nextServiceIndex < |services|) &&
      (armed.Some? ==> timerLive)
    }

    constructor ()
      ensures Valid()
      ensures services == [] && nextServiceIndex == 0
      ensures !timerLive && timersDeleted == 0 && armed == None
    {
      services := [];
      nextServiceIndex := 0;
      timerLive := false;
      timersDeleted := 0;
      armed := None;
    }

    /** Appends a service that is running, has no pending release and fresh statistics.
        The worker thread it spawns runs `WorkerWake`, then the service function,
        then `WorkerFinish`. */
    method AddService(name: string, priority: int, cpuAffinity: int, periodMs: int)
      requires Valid()
      modifies this`services
      ensures Valid()
      ensures |services| == |old(services)| + 1 && services[..|old(services)|] == old(services)
      ensures var s := services[|old(services)|];
        s == Slot(name, priority, cpuAffinity, periodMs, true, 0, 0, 0, s.stats) &&
        fresh(s.stats) && s.stats.Valid() &&
        s.stats.execSamples == [] && s.stats.releaseSamples == [] && s.stats.deadlineMissCount == 0
    {
      var stats := new RTStatistics();
      services := services + [Slot(name, priority, cpuAffinity, periodMs, true, 0, 0, 0, stats)];
    }

    /** Sorts the services by period, schedules every one to be released at `now`
        with its first deadline one period later, and arms the master timer.
        `created` and `armedOk` are the outcomes of `timer_create` and `timer_settime`. */
    method StartServices(masterIntervalMs: int, now: int, created: bool, armedOk: bool)
      requires Valid()
      modifies this`services, this`timerLive, this`armed
      ensures Valid()
      ensures services == ScheduleAll(SortByPeriod(old(services)), now)
      ensures timerLive == (old(timerLive) || created)
      ensures armed == if created && armedOk then Some(PeriodicTimer(masterIntervalMs)) else old(armed)
    {
      var sorted := SortByPeriod(services);
      services := sorted;
      var i := 0;
      while i < |services|
        invariant 0 <= i <= |services| == |sorted|
        modifies this`services
        invariant forall j :: 0 <= j < i ==> services[j] == Scheduled(sorted[j], now)
        invariant forall j :: i <= j < |services| ==> services[j] == sorted[j]
      {
        var s := services[i];
        services := services[i := s.(nextRelease := now, nextDeadline := now + PeriodNs(s.periodMs))];
        i := i + 1;
      }
      assert services == ScheduleAll(sorted, now);
      SetupTimer(masterIntervalMs, created, armedOk);
    }

    /** Creates and arms the master timer; a failed `timer_create` returns at once. */
    method SetupTimer(masterIntervalMs: int, created: bool, armedOk: bool)
      modifies this`timerLive, this`armed
      ensures timerLive == (old(timerLive) || created)
      ensures armed == if created && armedOk then Some(PeriodicTimer(masterIntervalMs)) else old(armed)
    {
      if !created {
        return;
      }
      timerLive := true;
      if armedOk {
        armed := Some(PeriodicTimer(masterIntervalMs));
      }
    }

    /** Deletes the timer only when there is one, then forgets it, so a second call
        deletes nothing. */
    method TeardownTimer()
      modifies this`timerLive, this`timersDeleted, this`armed
      ensures !timerLive
      ensures timersDeleted == old(timersDeleted) + (if old(timerLive) then 1 else 0)
      ensures armed == if old(timerLive) then None else old(armed)
    {
      if timerLive {
        timersDeleted := timersDeleted + 1;
        armed := None;
        timerLive := false;
      }
    }

    /** Tears the timer down, then clears every service's run flag and releases its
        semaphore once. Calling it again deletes no timer but releases every
        semaphore again. */
    method StopServices()
      requires Valid()
      modifies this`services, this`timerLive, this`timersDeleted, this`armed
      ensures Valid()
      ensures |services| == |old(services)|
      ensures forall j :: 0 <= j < |services| ==> services[j] == Stopped(old(services)[j])
      ensures !timerLive && armed == None
      ensures timersDeleted == old(timersDeleted) + (if old(timerLive) then 1 else 0)
    {
      TeardownTimer();
      ghost var before := services;
      var i := 0;
      while i < |services|
        invariant 0 <= i <= |services| == |before|
        modifies this`services
        invariant forall j :: 0 <= j < i ==> services[j] == Stopped(before[j])
        invariant forall j :: i <= j < |services| ==> services[j] == before[j]
      {
        services := services[i := services[i].(keepRunning := false, releaseSem := services[i].releaseSem + 1)];
        i := i + 1;
      }
    }

    /** One tick of the master timer at time `now`. */
    method OnAlarm(now: int)
      requires Valid() && AllPeriodsPositive(services)
      modifies this`services, this`nextServiceIndex
      ensures Valid()
      ensures old(services) == [] ==> services == [] && nextServiceIndex == old(nextServiceIndex)
      ensures old(services) != [] ==>
        services == AlarmServices(old(services), old(nextServiceIndex), now) &&
        nextServiceIndex == AlarmCursor(old(services), old(nextServiceIndex), now)
    {
      var count := |services|;
      ghost var before := services;
      ghost var c := nextServiceIndex;
      if count > 0 {
        ScanStarts(before, c, now);
      }
      var i := 0;
      while i < count
        invariant 0 <= i <= count == |services| == |before| && nextServiceIndex == c
        invariant count > 0 ==> Scanned(before, c, now, i, services)
      {
        var idx := (nextServiceIndex + i) % count;
        ScanNext(before, c, now, i, services);
        if now >= services[idx].nextRelease {
          ReleaseService(idx, now);
        } else {
          nextServiceIndex := idx;
          break;
        }
        i := i + 1;
      }
      if count > 0 && i == count {
        ScanEnds(before, c, now, services);
      }
    }

    /** Releases the due service at `idx`: one semaphore release, the next release
        moved past `now` one period at a time, and the deadline one period after it. */
    method ReleaseService(idx: nat, now: int)
      requires idx < |services| && services[idx].periodMs > 0 && Due(services[idx], now)
      modifies this`services
      ensures services == old(services)[idx := Released(old(services)[idx], now)]
    {
      var svc := services[idx];
      var period := PeriodNs(svc.periodMs);
      var nr := CatchUp(svc.nextRelease, period, now);
      services := services[idx := svc.(releaseSem := svc.releaseSem + 1, nextRelease := nr, nextDeadline := nr + period)];
    }

    /** The worker of service `i` woken in `acquire()` at `releaseTime`: it takes a
        release, stops if told to, and otherwise records the release jitter against the
        planned release as it reads it now. */
    method WorkerWake(i: nat, releaseTime: int) returns (w: Wake)
      requires Valid() && i < |services| && services[i].stats.Valid()
      requires LLONG_MIN <= releaseTime - services[i].nextRelease <= LLONG_MAX
      modifies this`services, services[i].stats
      ensures |services| == |old(services)|
      ensures Valid() && services[i].stats.Valid()
      ensures var s := old(services[i]);
        (w == Blocked <==> s.releaseSem == 0) &&
        (w == Exited <==> s.releaseSem > 0 && !s.keepRunning) &&
        (w.Started? ==> w.jobDeadline == s.nextRelease)
      ensures w == Blocked ==> services == old(services)
      ensures w != Blocked ==> services == old(services)[i := old(services[i]).(releaseSem := old(services[i]).releaseSem - 1)]
      ensures !w.Started? ==> unchanged(old(services[i]).stats)
      ensures w.Started? ==> var st := services[i].stats;
        st.releaseSamples == old(st.releaseSamples) + [ReleaseJitterSample(releaseTime, old(services[i]).nextRelease)] &&
        st.execSamples == old(st.execSamples) && st.deadlineMissCount == old(st.deadlineMissCount)
    {
      var s := services[i];
      if s.releaseSem == 0 {
        w := Blocked;
      } else {
        services := services[i := s.(releaseSem := s.releaseSem - 1)];
        if !s.keepRunning {
          w := Exited;
        } else {
          RecordRelease(s.stats, releaseTime, s.nextRelease);
          w := Started(s.nextRelease);
        }
      }
    }

    /** The worker of service `i` after the service function ran from `startTime` to
        `endTime`: it records the execution time and counts a miss when the run ended
        after `nextDeadline` as it reads it now, after any ticks that came while the job
        ran. */
    method WorkerFinish(i: nat, startTime: int, endTime: int) returns (missed: bool)
      requires i < |services| && services[i].stats.Valid()
      requires 0 <= endTime - startTime <= LLONG_MAX
      modifies services[i].stats
      ensures services[i].stats.Valid()
      ensures missed == (endTime > services[i].nextDeadline)
      ensures var st := services[i].stats;
        st.execSamples == old(st.execSamples) + [endTime - startTime] &&
        st.releaseSamples == old(st.releaseSamples) &&
        st.deadlineMissCount == old(st.deadlineMissCount) + (if missed then 1 else 0)
    {
      missed := RecordCompletion(services[i].stats, startTime, endTime, services[i].nextDeadline);
    }

    /** The deadline check as the comments describe it: against the deadline of the job
        that was released, taken when the worker woke (`Wake.jobDeadline`), so that ticks
        during the run do not move it. */
    method WorkerFinishIntended(i: nat, jobDeadline: int, startTime: int, endTime: int) returns (missed: bool)
      requires i < |services| && services[i].stats.Valid()
      requires 0 <= endTime - startTime <= LLONG_MAX
      modifies services[i].stats
      ensures services[i].stats.Valid()
      ensures missed == (endTime > jobDeadline)
      ensures var st := services[i].stats;
        st.execSamples == old(st.execSamples) + [endTime - startTime] &&
        st.releaseSamples == old(st.releaseSamples) &&
        st.deadlineMissCount == old(st.deadlineMissCount) + (if missed then 1 else 0)
    {
      missed := RecordCompletion(services[i].stats, startTime, endTime, jobDeadline);
    }
  }

  /** The worker's release bookkeeping: the release jitter against the planned release,
      clamped at zero. */
  method RecordRelease(stats: RTStatistics, releaseTime: int, nextRelease: int)
    requires stats.Valid()
    requires LLONG_MIN <= releaseTime - nextRelease <= LLONG_MAX
    modifies stats
    ensures stats.Valid()
    ensures stats.releaseSamples == old(stats.releaseSamples) + [ReleaseJitterSample(releaseTime, nextRelease)]
    ensures stats.execSamples == old(stats.execSamples) && stats.deadlineMissCount == old(stats.deadlineMissCount)
  {
    var relJitterNs := releaseTime - nextRelease;
    stats.UpdateReleaseJitter(if relJitterNs < 0 then 0 else relJitterNs);
  }

  /** The worker's completion bookkeeping: the execution time, and a deadline miss when
      the run ended after `deadline`. */
  method RecordCompletion(stats: RTStatistics, startTime: int, endTime: int, deadline: int) returns (missed: bool)
    requires stats.Valid()
    requires 0 <= endTime - startTime <= LLONG_MAX
    modifies stats
    ensures stats.Valid()
    ensures missed == (endTime > deadline)
    ensures stats.execSamples == old(stats.execSamples) + [endTime - startTime]
    ensures stats.releaseSamples == old(stats.releaseSamples)
    ensures stats.deadlineMissCount == old(stats.deadlineMissCount) + (if missed then 1 else 0)
  {
    stats.UpdateExecTime(endTime - startTime);
    missed := endTime > deadline;
    if missed {
      stats.MissDeadline();
    }
  }

  /** The release time after a due one: one period on, then whole periods more until
      it is past `now`. */
  method CatchUp(nextRelease: int, period: int, now: int) returns (nr: int)
    requires period > 0 && now >= nextRelease
    ensures nr == Advance(nextRelease, period, now)
  {
    nr := nextRelease + period;
    ghost var k := 1;
    while now >= nr
      invariant nr == nextRelease + k * period && nr - period <= now
      decreases now - nr
    {
      nr := nr + period;
      k := k + 1;
    }
    AdvanceUnique(nextRelease, period, now, k);
  }

  /** The state of the scan of `onAlarm` from cursor `c` after `i` steps: every
      service visited so far was due and has been released, and the rest are as they
      were. */
  ghost predicate Scanned(before: seq<Slot>, c: nat, now: int, i: nat, svcs: seq<Slot>) {
    c < |before| && i <= |before| && AllPeriodsPositive(before) &&
    (forall m :: 0 <= m < i ==> Due(before[Pos(c, m, |before|)], now)) &&
    DueRun(before, c, now, 0) == DueRun(before, c, now, i) &&
    svcs == ReleasedUpTo(before, c, now, i)
  }

  lemma ScanStarts(before: seq<Slot>, c: nat, now: int)
    requires c < |before| && AllPeriodsPositive(before)
    ensures Scanned(before, c, now, 0, before)
  {
    var r := ReleasedUpTo(before, c, now, 0);
    assert forall j :: 0 <= j < |before| ==> r[j] == before[j];
  }

  /** Step `i` of the scan looks at `(c + i) % n`, a service it has not touched yet.
      If that service is due, releasing it gives the state after step `i + 1`; if it
      is not, the scan has finished. */
  lemma ScanNext(before: seq<Slot>, c: nat, now: int, i: nat, svcs: seq<Slot>)
    requires Scanned(before, c, now, i, svcs) && i < |before|
    ensures var idx := Pos(c, i, |before|);
      idx == (c + i) % |before| && svcs[idx] == before[idx] &&
      (Due(svcs[idx], now) ==>
        Scanned(before, c, now, i + 1, svcs[idx := Released(svcs[idx], now)])) &&
      (!Due(svcs[idx], now) ==>
        svcs == AlarmServices(before, c, now) && idx == AlarmCursor(before, c, now))
  {
    var n := |before|;
    var idx := Pos(c, i, n);
    ModWrap(c + i, n);
    OffsetOfPos(c, i, n);
    if Due(svcs[idx], now) {
      ReleaseStep(before, c, now, i);
    }
  }

  /** A scan that went through every service without stopping is the whole tick. */
  lemma ScanEnds(before: seq<Slot>, c: nat, now: int, svcs: seq<Slot>)
    requires Scanned(before, c, now, |before|, svcs)
    ensures svcs == AlarmServices(before, c, now) && c == AlarmCursor(before, c, now)
  {
  }

  /** Releasing the service at step `i` of the scan extends the released prefix by one. */
  lemma ReleaseStep(svcs: seq<Slot>, c: nat, now: int, i: nat)
    requires c < |svcs| && i < |svcs| && AllPeriodsPositive(svcs)
    requires forall m :: 0 <= m <= i ==> Due(svcs[Pos(c, m, |svcs|)], now)
    ensures var idx := Pos(c, i, |svcs|);
      ReleasedUpTo(svcs, c, now, i + 1) ==
      ReleasedUpTo(svcs, c, now, i)[idx := Released(svcs[idx], now)]
  {
    var idx := Pos(c, i, |svcs|);
    OffsetOfPos(c, i, |svcs|);
    var a, b := ReleasedUpTo(svcs, c, now, i + 1), ReleasedUpTo(svcs, c, now, i)[idx := Released(svcs[idx], now)];
    forall j | 0 <= j < |svcs|
      ensures a[j] == b[j]
    {
      if j != idx {
        assert Offset(c, j, |svcs|) != i;
      }
    }
  }
}
