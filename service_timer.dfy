/** The per-service-timer sequencer: every service owns a POSIX timer with its own
    period, whose expiry releases the service's semaphore, and a worker that records
    start-time jitter, execution time and deadline misses in a `Statistics` record.

    Clock readings are integer microseconds passed in as parameters. The source keeps
    the statistics as `double` milliseconds (a microsecond count divided by 1000.0); the
    model keeps the microsecond count, which orders and compares the same way. */
module ServiceTimer {
  import opened Ints
  import opened Wrappers
  import opened TimerSpec

  const US_PER_MS: int := 1000

  /** `std::numeric_limits<double>::max()` milliseconds, in microseconds: the initial
      minimum of every statistic. */
  const DBL_MAX_US: int := 179769313486231570814527423731704356798070567525844996598917476803157260780028538760589558632766878171540458953514382464234321326889464182768467546703537516986049910576551282076245490090389328944075868508455133942304583236903222948165808559332123348274797826204144723168738177180919299881250404026184124858368000

  /** The `Statistics` struct of a service. Times are microseconds. */
  datatype Statistics = Statistics(
    minExecutionTime: int,
    maxExecutionTime: int,
    totalExecutionTime: int,
    executionCount: nat,
    minStartJitter: int,
    maxStartJitter: int,
    totalStartJitter: int,
    deadlineMisses: nat,
    maxLateness: int,
    firstRelease: int,
    lastExpectedRelease: int,
    firstReleaseSet: bool)

  /** The struct's default member initialisers. */
  const InitialStatistics := Statistics(DBL_MAX_US, 0, 0, 0, DBL_MAX_US, 0, 0, 0, 0, 0, 0, false)

  /** A period in milliseconds, in microseconds. */
  function PeriodUs(periodMs: int): int {
    periodMs * US_PER_MS
  }

  /** The release bookkeeping of the worker at `releaseTime`. The first release anchors
      the expected-release grid; every later one expects the release one period after the
      previous expected release and folds the distance from it into the start-jitter
      minimum, maximum and total. */
  function RecordRelease(st: Statistics, releaseTime: int, periodMs: int): Statistics
  {
    if !st.firstReleaseSet then
      st.(firstRelease := releaseTime, lastExpectedRelease := releaseTime, firstReleaseSet := true)
    else
      var expectedRelease := st.lastExpectedRelease + PeriodUs(periodMs);
      var jitter := Abs(releaseTime - expectedRelease);
      st.(minStartJitter := Min(st.minStartJitter, jitter),
          maxStartJitter := Max(st.maxStartJitter, jitter),
          totalStartJitter := st.totalStartJitter + jitter,
          lastExpectedRelease := expectedRelease)
  }

  /** The execution bookkeeping of the worker for a run from `startTime` to `endTime` of
      a release at `releaseTime`: execution-time minimum, maximum and total; a deadline
      miss with its lateness when the response time exceeds the period; one more
      execution. */
  function RecordExecution(st: Statistics, releaseTime: int, startTime: int, endTime: int, periodMs: int): Statistics
  {
    var executionTime := endTime - startTime;
    var responseTime := endTime - releaseTime;
    var st1 := st.(minExecutionTime := Min(st.minExecutionTime, executionTime),
                   maxExecutionTime := Max(st.maxExecutionTime, executionTime),
                   totalExecutionTime := st.totalExecutionTime + executionTime);
    var st2 := if responseTime > PeriodUs(periodMs) then
                 st1.(deadlineMisses := st1.deadlineMisses + 1,
                      maxLateness := Max(st1.maxLateness, responseTime - PeriodUs(periodMs)))
               else st1;
    st2.(executionCount := st2.executionCount + 1)
  }

  /** One pass of the worker's body: release bookkeeping, then execution bookkeeping. */
  function ServeOnce(st: Statistics, releaseTime: int, startTime: int, endTime: int, periodMs: int): Statistics
  {
    RecordExecution(RecordRelease(st, releaseTime, periodMs), releaseTime, startTime, endTime, periodMs)
  }

  /** The first release sets the first release and the expected release to the release
      time and records no start jitter. */
  lemma FirstReleaseAnchors(st: Statistics, releaseTime: int, periodMs: int)
    requires !st.firstReleaseSet
    ensures var r := RecordRelease(st, releaseTime, periodMs);
      r.firstReleaseSet && r.firstRelease == r.lastExpectedRelease == releaseTime &&
      r == st.(firstRelease := releaseTime, lastExpectedRelease := releaseTime, firstReleaseSet := true)
  {
  }

  /** A later release expects the release one period after the previous expected one,
      folds the distance from it into the jitter statistics, and advances the expected
      release by exactly one period, whenever the release actually came. */
  lemma LaterReleaseMeasuresJitter(st: Statistics, releaseTime: int, periodMs: int)
    requires st.firstReleaseSet
    ensures var r, expected := RecordRelease(st, releaseTime, periodMs), st.lastExpectedRelease + PeriodUs(periodMs);
      var jitter := Abs(releaseTime - expected);
      r.lastExpectedRelease == expected &&
      r.minStartJitter <= jitter && r.minStartJitter <= st.minStartJitter &&
      (r.minStartJitter == jitter || r.minStartJitter == st.minStartJitter) &&
      r.maxStartJitter >= jitter && r.maxStartJitter >= st.maxStartJitter &&
      (r.maxStartJitter == jitter || r.maxStartJitter == st.maxStartJitter) &&
      r.totalStartJitter == st.totalStartJitter + jitter &&
      r.firstReleaseSet && r.firstRelease == st.firstRelease &&
      r.executionCount == st.executionCount && r.deadlineMisses == st.deadlineMisses
  {
  }

  /** The release bookkeeping over a sequence of releases, oldest first. */
  function RecordReleases(st: Statistics, releases: seq<int>, periodMs: int): Statistics
    decreases |releases|
  {
    if releases == [] then st
    else RecordReleases(RecordRelease(st, releases[0], periodMs), releases[1..], periodMs)
  }

  /** The expected releases form a fixed grid anchored at the first release: after `n`
      releases the last expected release is `n - 1` periods after the first, so late
      releases never move the grid. */
  lemma {:induction false} ExpectedReleaseGrid(st: Statistics, releases: seq<int>, periodMs: int)
    requires !st.firstReleaseSet && releases != []
    ensures var r := RecordReleases(st, releases, periodMs);
      r.firstReleaseSet && r.firstRelease == releases[0] &&
      r.lastExpectedRelease == releases[0] + (|releases| - 1) * PeriodUs(periodMs)
  {
    var st1 := RecordRelease(st, releases[0], periodMs);
    GridAdvances(st1, releases[1..], periodMs, releases[0], 0);
  }

  lemma {:induction false} GridAdvances(st: Statistics, releases: seq<int>, periodMs: int, first: int, k: int)
    requires st.firstReleaseSet && st.firstRelease == first
    requires st.lastExpectedRelease == first + k * PeriodUs(periodMs)
    ensures var r := RecordReleases(st, releases, periodMs);
      r.firstReleaseSet && r.firstRelease == first &&
      r.lastExpectedRelease == first + (k + |releases|) * PeriodUs(periodMs)
    decreases |releases|
  {
    if releases != [] {
      var st1 := RecordRelease(st, releases[0], periodMs);
      assert st1.lastExpectedRelease == first + (k + 1) * PeriodUs(periodMs);
      GridAdvances(st1, releases[1..], periodMs, first, k + 1);
    }
  }

  lemma MulLe(a: int, b: int, c: int)
    requires a <= b && c >= 0
    ensures a * c <= b * c
  {
  }

  /** What the statistics of a service always satisfy when every run took a
      non-negative time: nothing recorded before the first execution; the execution-time
      minimum at most the maximum, with the mean between them; at most one deadline miss
      per execution; and a positive maximum lateness exactly when there was a miss. */
  ghost predicate Consistent(st: Statistics) {
    (st.executionCount == 0 ==>
      st.minExecutionTime == DBL_MAX_US && st.maxExecutionTime == 0 && st.totalExecutionTime == 0) &&
    (st.executionCount > 0 ==>
      0 <= st.minExecutionTime <= st.maxExecutionTime &&
      st.minExecutionTime * st.executionCount <= st.totalExecutionTime <= st.maxExecutionTime * st.executionCount) &&
    st.deadlineMisses <= st.executionCount &&
    (st.deadlineMisses == 0 <==> st.maxLateness == 0) && st.maxLateness >= 0
  }

  lemma InitialConsistent()
    ensures Consistent(InitialStatistics)
  {
  }

  /** Release bookkeeping leaves the execution statistics alone. */
  lemma ReleaseKeepsConsistent(st: Statistics, releaseTime: int, periodMs: int)
    requires Consistent(st)
    ensures Consistent(RecordRelease(st, releaseTime, periodMs))
  {
  }

  /** Each execution adds one to the count and its time to the total, lies between
      the new minimum and maximum, and counts a miss, with a lateness the maximum
      lateness covers, exactly when the response time exceeds the period. The
      statistics stay consistent. */
  lemma {:induction false} ExecutionRecorded(st: Statistics, releaseTime: int, startTime: int, endTime: int, periodMs: int)
    requires Consistent(st) && startTime <= endTime && periodMs >= 0
    ensures var r, x, resp := RecordExecution(st, releaseTime, startTime, endTime, periodMs), endTime - startTime, endTime - releaseTime;
      r.executionCount == st.executionCount + 1 &&
      r.totalExecutionTime == st.totalExecutionTime + x &&
      r.minExecutionTime <= x <= r.maxExecutionTime &&
      (r.deadlineMisses == st.deadlineMisses + 1 <==> resp > PeriodUs(periodMs)) &&
      (r.deadlineMisses == st.deadlineMisses <==> resp <= PeriodUs(periodMs)) &&
      (resp > PeriodUs(periodMs) ==> r.maxLateness >= resp - PeriodUs(periodMs)) &&
      Consistent(r)
  {
    var r := RecordExecution(st, releaseTime, startTime, endTime, periodMs);
    var x := endTime - startTime;
    if st.executionCount > 0 {
      TallyGrows(st.minExecutionTime, st.maxExecutionTime, st.totalExecutionTime, st.executionCount, x);
    }
  }

  /** Folding a sample `x` into a minimum, maximum and total over `n > 0` samples keeps
      the total between `n + 1` times the new minimum and `n + 1` times the new maximum. */
  lemma TallyGrows(lo: int, hi: int, total: int, n: nat, x: int)
    requires n > 0 && lo * n <= total <= hi * n
    ensures Min(lo, x) * (n + 1) <= total + x <= Max(hi, x) * (n + 1)
  {
    MulLe(Min(lo, x), lo, n);
    MulLe(hi, Max(hi, x), n);
    assert Min(lo, x) * (n + 1) == Min(lo, x) * n + Min(lo, x);
    assert Max(hi, x) * (n + 1) == Max(hi, x) * n + Max(hi, x);
  }

  /** One pass of the worker keeps the statistics consistent and counts exactly one
      more execution. */
  lemma ServeOnceKeepsConsistent(st: Statistics, releaseTime: int, startTime: int, endTime: int, periodMs: int)
    requires Consistent(st) && startTime <= endTime && periodMs >= 0
    ensures var r := ServeOnce(st, releaseTime, startTime, endTime, periodMs);
      Consistent(r) && r.executionCount == st.executionCount + 1 && r.firstReleaseSet
  {
    var st1 := RecordRelease(st, releaseTime, periodMs);
    ReleaseKeepsConsistent(st, releaseTime, periodMs);
    ExecutionRecorded(st1, releaseTime, startTime, endTime, periodMs);
  }

  /** One run of the service: the release it served, when it started and when it ended. */
  datatype Run = Run(releaseTime: int, startTime: int, endTime: int)

  /** The statistics after serving `runs` in order. */
  function ServeAll(st: Statistics, runs: seq<Run>, periodMs: int): Statistics
    decreases |runs|
  {
    if runs == [] then st
    else ServeAll(ServeOnce(st, runs[0].releaseTime, runs[0].startTime, runs[0].endTime, periodMs), runs[1..], periodMs)
  }

  lemma {:induction false} ServeAllLast(st: Statistics, runs: seq<Run>, r: Run, periodMs: int)
    ensures ServeAll(st, runs + [r], periodMs) ==
      ServeOnce(ServeAll(st, runs, periodMs), r.releaseTime, r.startTime, r.endTime, periodMs)
    decreases |runs|
  {
    if runs != [] {
      assert (runs + [r])[1..] == runs[1..] + [r];
      ServeAllLast(ServeOnce(st, runs[0].releaseTime, runs[0].startTime, runs[0].endTime, periodMs), runs[1..], r, periodMs);
    } else {
      assert ([] + [r])[1..] == [];
    }
  }

  /** Serving a sequence of runs counts each of them once, stays consistent when every run
      took a non-negative time, and anchors the expected-release grid at the first run. */
  lemma {:induction false} ServeAllCounts(st: Statistics, runs: seq<Run>, periodMs: int)
    requires Consistent(st) && periodMs >= 0
    requires forall i :: 0 <= i < |runs| ==> runs[i].startTime <= runs[i].endTime
    ensures var r := ServeAll(st, runs, periodMs);
      r.executionCount == st.executionCount + |runs| && Consistent(r) &&
      (runs != [] && !st.firstReleaseSet ==> r.firstReleaseSet && r.firstRelease == runs[0].releaseTime)
    decreases |runs|
  {
    if runs != [] {
      var st1 := ServeOnce(st, runs[0].releaseTime, runs[0].startTime, runs[0].endTime, periodMs);
      ServeOnceKeepsConsistent(st, runs[0].releaseTime, runs[0].startTime, runs[0].endTime, periodMs);
      ServeAllCounts(st1, runs[1..], periodMs);
      FirstReleaseKept(st1, runs[1..], periodMs);
    }
  }

  lemma {:induction false} FirstReleaseKept(st: Statistics, runs: seq<Run>, periodMs: int)
    requires st.firstReleaseSet
    ensures ServeAll(st, runs, periodMs).firstReleaseSet && ServeAll(st, runs, periodMs).firstRelease == st.firstRelease
    decreases |runs|
  {
    if runs != [] {
      FirstReleaseKept(ServeOnce(st, runs[0].releaseTime, runs[0].startTime, runs[0].endTime, periodMs), runs[1..], periodMs);
    }
  }

  /** What `printStatistics` reports: nothing but the period when there was no
      execution; otherwise the averages (in microseconds) and the miss rate (percent). */
  datatype Report =
    | NoExecutions(periodMs: int)
    | Summary(executionCount: nat, avgExecutionTime: real, executionTimeJitter: int,
              avgStartJitter: real, startTimeJitter: int, deadlineMisses: nat, deadlineMissRate: real,
              maxLateness: Option<int>)

  function StatisticsReport(st: Statistics, periodMs: int): (r: Report)
    ensures r.NoExecutions? <==> st.executionCount == 0
  {
    if st.executionCount == 0 then NoExecutions(periodMs)
    else
      var n := st.executionCount as real;
      Summary(st.executionCount,
              st.totalExecutionTime as real / n,
              st.maxExecutionTime - st.minExecutionTime,
              st.totalStartJitter as real / n,
              st.maxStartJitter - st.minStartJitter,
              st.deadlineMisses,
              (st.deadlineMisses as real * 100.0) / n,
              if st.deadlineMisses > 0 then Some(st.maxLateness) else None)
  }

  lemma NonNegFactor(d: real, r: real)
    requires r > 0.0 && d * r >= 0.0
    ensures d >= 0.0
  {
  }

  /** For consistent statistics with at least one execution, the reported average
      execution time lies between the minimum and the maximum, the execution-time jitter
      is non-negative, the miss rate is a percentage, and the maximum lateness is shown
      exactly when a deadline was missed. */
  lemma ReportBounds(st: Statistics, periodMs: int)
    requires Consistent(st) && st.executionCount > 0
    ensures var r := StatisticsReport(st, periodMs);
      r.Summary? &&
      st.minExecutionTime as real <= r.avgExecutionTime <= st.maxExecutionTime as real &&
      r.executionTimeJitter >= 0 &&
      0.0 <= r.deadlineMissRate <= 100.0 &&
      (r.maxLateness.Some? <==> st.deadlineMisses > 0)
  {
    var r := StatisticsReport(st, periodMs);
    var n := st.executionCount as real;
    var q := r.avgExecutionTime;
    assert (q - st.minExecutionTime as real) * n == (st.totalExecutionTime - st.minExecutionTime * st.executionCount) as real;
    NonNegFactor(q - st.minExecutionTime as real, n);
    assert (st.maxExecutionTime as real - q) * n == (st.maxExecutionTime * st.executionCount - st.totalExecutionTime) as real;
    NonNegFactor(st.maxExecutionTime as real - q, n);
    var m := r.deadlineMissRate;
    assert m * n == st.deadlineMisses as real * 100.0;
    NonNegFactor(m, n);
    assert (100.0 - m) * n == (st.executionCount - st.deadlineMisses) as real * 100.0;
    NonNegFactor(100.0 - m, n);
  }

  /** One service: its period, its release semaphore, its run flag, its timer and its
      statistics. */
  class Service {
    const affinity: U8
    const priority: U8
    const periodMs: U32
    var semaphore: nat
    var running: bool
    /** Whether `timer_create` succeeded for this service (`setTimerId` was called). */
    var timerCreated: bool
    /** Number of `timer_delete` calls made with this service's timer id. */
    var timerDeletes: nat
    var armed: Option<ITimerSpec>
    var stats: Statistics

    /** A new service is running, has no pending release and default statistics. */
    constructor (affinity: U8, priority: U8, periodMs: U32)
      ensures this.affinity == affinity && this.priority == priority && this.periodMs == periodMs
      ensures semaphore == 0 && running && stats == InitialStatistics
      ensures !timerCreated && timerDeletes == 0 && armed == None
    {
      this.affinity, this.priority, this.periodMs := affinity, priority, periodMs;
      semaphore, running, stats := 0, true, InitialStatistics;
      timerCreated, timerDeletes, armed := false, 0, None;
    }

    /** Clears the run flag and releases the semaphore once more, so that a waiting
        worker wakes up. */
    method Stop()
      modifies this`running, this`semaphore
      ensures !running && semaphore == old(semaphore) + 1
    {
      running := false;
      semaphore := semaphore + 1;
    }

    /** Releases the semaphore once and changes nothing else. */
    method Release()
      modifies this`semaphore
      ensures semaphore == old(semaphore) + 1
    {
      semaphore := semaphore + 1;
    }

    /** The service's worker thread. `try_acquire` does not wait, its result is only
        logged, and `stop()` ends the body of the loop, so the body runs at most once, at
        once, whether or not the service was released; the worker always ends stopped. */
    method ProvideService(releaseTime: int, startTime: int, endTime: int)
      modifies this`semaphore, this`running, this`stats
      ensures !running
      ensures old(running) ==>
        stats == ServeOnce(old(stats), releaseTime, startTime, endTime, periodMs) &&
        semaphore == (if old(semaphore) > 0 then old(semaphore) - 1 else 0) + 1
      ensures !old(running) ==> stats == old(stats) && semaphore == old(semaphore)
    {
      ghost var passes := 0;
      while running
        invariant passes <= 1
        invariant passes == 0 ==> running == old(running) && stats == old(stats) && semaphore == old(semaphore)
        invariant passes == 1 ==> (old(running) && !running &&
          stats == ServeOnce(old(stats), releaseTime, startTime, endTime, periodMs) &&
          semaphore == (if old(semaphore) > 0 then old(semaphore) - 1 else 0) + 1)
        decreases if running then 1 else 0
      {
        if semaphore > 0 {
          semaphore := semaphore - 1;
        }
        if running {
          stats := RecordRelease(stats, releaseTime, periodMs);
          stats := RecordExecution(stats, releaseTime, startTime, endTime, periodMs);
        }
        Stop();
        passes := passes + 1;
      }
    }

    /** The worker as the class and loop comments describe it: block in `acquire` until
        a release arrives, serve it while the service runs, and go back to waiting.
        `runs` are the releases that arrive before the service is stopped; each is taken
        by one `acquire` and served once. */
    method ProvideServiceIntended(runs: seq<Run>)
      requires running
      modifies this`stats
      ensures running
      ensures stats == ServeAll(old(stats), runs, periodMs)
    {
      var i := 0;
      while i < |runs|
        invariant 0 <= i <= |runs|
        invariant stats == ServeAll(old(stats), runs[..i], periodMs)
      {
        assert runs[..i + 1] == runs[..i] + [runs[i]];
        ServeAllLast(old(stats), runs[..i], runs[i], periodMs);
        stats := ServeOnce(stats, runs[i].releaseTime, runs[i].startTime, runs[i].endTime, periodMs);
        i := i + 1;
      }
      assert runs[..|runs|] == runs;
    }

    /** What `printStatistics` prints. */
    function PrintStatistics(): (r: Report)
      reads this
      ensures r.NoExecutions? <==> stats.executionCount == 0
      ensures r.NoExecutions? ==> r.periodMs == periodMs
    {
      StatisticsReport(stats, periodMs)
    }
  }

  /** The sequencer: owns the services and their timers. */
  class Sequencer {
    var services: seq<Service>

    /** Every service is owned once (`unique_ptr`). */
    ghost predicate Valid()
      reads this
    {
      forall i, j :: 0 <= i < j < |services| ==> services[i] != services[j]
    }

    constructor ()
      ensures Valid() && services == []
    {
      services := [];
    }

    method AddService(affinity: U8, priority: U8, periodMs: U32)
      requires Valid()
      modifies this`services
      ensures Valid()
      ensures |services| == |old(services)| + 1 && services[..|old(services)|] == old(services)
      ensures var s := services[|old(services)|];
        fresh(s) && s.periodMs == periodMs && s.running && s.semaphore == 0 && s.stats == InitialStatistics &&
        !s.timerCreated && s.armed == None
    {
      var s := new Service(affinity, priority, periodMs);
      services := services + [s];
    }

    /** Creates and arms one timer per service, each with the service's own period as
        first expiry and interval. `created[i]` and `armed[i]` are the outcomes of
        `timer_create` and `timer_settime` for service `i`; a service whose timer could
        not be created is skipped. */
    method StartServices(created: seq<bool>, armedOk: seq<bool>)
      requires Valid() && |created| == |services| && |armedOk| == |services|
      modifies services
      ensures forall i :: 0 <= i < |services| ==>
        services[i].timerCreated == (old(services[i].timerCreated) || created[i]) &&
        services[i].armed == (if created[i] && armedOk[i] then Some(PeriodicTimer(services[i].periodMs)) else old(services[i].armed))
      ensures forall i :: 0 <= i < |services| ==>
        services[i].running == old(services[i].running) && services[i].semaphore == old(services[i].semaphore) &&
        services[i].stats == old(services[i].stats) && services[i].timerDeletes == old(services[i].timerDeletes)
    {
      var i := 0;
      while i < |services|
        invariant 0 <= i <= |services|
        invariant forall j :: 0 <= j < i ==>
          services[j].timerCreated == (old(services[j].timerCreated) || created[j]) &&
          services[j].armed == (if created[j] && armedOk[j] then Some(PeriodicTimer(services[j].periodMs)) else old(services[j].armed))
        invariant forall j :: i <= j < |services| ==>
          services[j].timerCreated == old(services[j].timerCreated) && services[j].armed == old(services[j].armed)
        invariant forall j :: 0 <= j < |services| ==>
          services[j].running == old(services[j].running) && services[j].semaphore == old(services[j].semaphore) &&
          services[j].stats == old(services[j].stats) && services[j].timerDeletes == old(services[j].timerDeletes)
      {
        if !created[i] {
          i := i + 1;
          continue;
        }
        var s := services[i];
        s.timerCreated := true;
        if armedOk[i] {
          s.armed := Some(PeriodicTimer(s.periodMs));
        }
        i := i + 1;
      }
    }

    /** Deletes every service's timer and stops every service. The timer id is deleted
        even for a service whose timer was never created; a deleted timer no longer
        fires, and the id stays recorded. */
    method StopServices()
      requires Valid()
      modifies services
      ensures forall i :: 0 <= i < |services| ==>
        !services[i].running && services[i].semaphore == old(services[i].semaphore) + 1 &&
        services[i].timerDeletes == old(services[i].timerDeletes) + 1 &&
        services[i].armed == None && services[i].timerCreated == old(services[i].timerCreated) &&
        services[i].stats == old(services[i].stats)
    {
      var i := 0;
      while i < |services|
        invariant 0 <= i <= |services|
        invariant forall j :: 0 <= j < i ==>
          !services[j].running && services[j].semaphore == old(services[j].semaphore) + 1 &&
          services[j].timerDeletes == old(services[j].timerDeletes) + 1 && services[j].armed == None
        invariant forall j :: i <= j < |services| ==>
          services[j].running == old(services[j].running) && services[j].semaphore == old(services[j].semaphore) &&
          services[j].timerDeletes == old(services[j].timerDeletes)
        invariant forall j :: 0 <= j < |services| ==>
          services[j].stats == old(services[j].stats) && services[j].timerCreated == old(services[j].timerCreated)
      {
        var s := services[i];
        s.timerDeletes := s.timerDeletes + 1;
        s.armed := None;
        s.Stop();
        i := i + 1;
      }
    }
  }

  /** The worker as written, on a service that has never been released: it runs the
      service at once, records one execution, stops itself and leaves one unused release
      on the semaphore, so no later timer release is ever served. */
  method WorkerServesWithoutRelease() returns (executions: nat, running: bool, pending: nat)
    ensures executions == 1 && !running && pending == 1
  {
    var s := new Service(0, 0, 20);
    s.ProvideService(0, 0, 5000);
    executions, running, pending := s.stats.executionCount, s.running, s.semaphore;
  }

  /** The timer's notification function: releases the service it was created for. */
  method TimerHandler(service: Service)
    modifies service`semaphore
    ensures service.semaphore == old(service.semaphore) + 1
  {
    service.Release();
  }
}
