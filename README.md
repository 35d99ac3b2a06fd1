# Real-time sequencers and load generators, modelled in Dafny

This project models the scheduling core of a set of real-time embedded exercises.

- **The master-tick sequencer** (`sk_exer4`). One POSIX timer ticks at a fixed interval. On
  each tick, `onAlarm` scans the services from a rotating cursor in period order. Each
  due service the scan reaches is released once through its semaphore; its next release
  moves past the tick and its deadline is set one period after that. The scan stops at
  the first service that is not due, and that service becomes the cursor, so a due
  service behind it waits for a later tick. Each service's
  worker thread keeps an `RTStatistics` record. The record holds running minimum,
  maximum, total and count for execution time, execution jitter and release jitter, plus
  a deadline-miss counter.
- **The per-service-timer sequencer** (`exer4redo`). Every service has a timer of its own.
  The timer's expiry releases the service. The service's worker keeps a `Statistics`
  struct: start jitter against a fixed grid of expected releases, execution time,
  deadline misses and maximum lateness. The driver program has an iterative `uint64_t`
  Fibonacci load, a signal handler that sets a termination flag, a runtime argument, and
  a rate-monotonic plan with two services.
- **The pthread affinity exercise.** It contains the `delta_t` timespec difference, the
  `FIB_TEST` load macro over global 32-bit registers, the triangular sum of each counter
  thread, and the core and priority `main` computes for each thread (the threads are
  then created with default attributes, so neither is applied).
- **The lock-timeout exercises.** Their one-second `timer_handler` releases task 1 every
  tick and task 2 every tenth tick. After 180 ticks it ends the test and keeps posting
  both semaphores so that blocked tasks wake up.
- **The VxWorks LCM schedule.** A sequencer task gives F10 every 20 ms and F20 every
  50 ms at fixed `taskDelay` offsets inside a 100 ms major cycle. The cycle starts at a
  critical instant, where both services are given together.

Threads, OS timers and clocks are replaced by parameters:

- the current time (`now`, release, start and end times) is an integer;
- each timer's success or failure is a boolean;
- a semaphore is a counter of releases not yet taken;
- a VxWorks binary semaphore is a "full" flag.

Machine integers are `int` subset types. Unsigned wrap-around is written out modulo 2^32
or 2^64, and conversions to a 32-bit `int` are written out as two's complement. C's
truncating `/` and `%` are spelled out in `Ints`.

Files:

- `ints.dfy`: widths, C division and conversions.
- `wrappers.dfy`: `Option`.
- `timer_spec.dfy`: the millisecond-to-`itimerspec` conversion.
- `rt_statistics.dfy`: `RTStatistics`.
- `master_tick.dfy`: the `sk_exer4` sequencer.
- `service_timer.dfy`: the `exer4redo` service and sequencer.
- `redo_main.dfy`: the `exer4redo` driver.
- `fibonacci.dfy`: Fibonacci numbers.
- `fib_macro.dfy`: `FIB_TEST`.
- `rt_thread.dfy`: the pthread exercise.
- `tick_handler.dfy`: the lock-timeout handler.
- `lcm_schedule.dfy`: the VxWorks schedule.

`stopServices` of the master-tick sequencer is sometimes described as idempotent. The
code is idempotent only in what it does to the timer: `teardownTimer` deletes a live
timer once and then forgets it. Each call still clears every run flag and releases every
semaphore again. The model follows the code (`MasterTick.Sequencer.StopServices`).

## Model

| member | source | states |
|---|---|---|
| Ints.ToInt32 | exercise1/rt_thread_improved/pthread.c:75-76 | Storing a difference in an `int` keeps it modulo 2^32, and keeps it unchanged when it fits. |
| TimerSpec.PeriodicTimer | exer4redo/Sequencer.hpp:293-296 | For a period of `p` ms: the interval equals the first expiry; `sec*1000 + nsec/10^6 == p`; `nsec` is a whole number of ms; the value is normalised (`nsec` in [0, 10^9)) when `p >= 0`. The same conversion is in `setupTimer` (sk_exer4/Sequencer.cpp:214-220). |
| RTStats.Tally.Record | sk_exer4/Sequencer.hpp:50-61 | Folding in one sample gives minimum `min(old, x)` and maximum `max(old, x)`, so min <= x <= max; the total grows by `x` and the count by one. |
| RTStats.TallyCountsAndSums | sk_exer4/Sequencer.hpp:60-61 | The tally of a history counts every sample and totals them. |
| RTStats.TallyBoundsSamples | sk_exer4/Sequencer.hpp:51-58 | Every recorded sample lies between the tally's minimum and maximum. |
| RTStats.MeanBetweenExtrema | sk_exer4/Sequencer.hpp:50-61 | `min*count <= total <= max*count` for every history, the empty one included. |
| RTStats.JittersFollowExecutions | sk_exer4/Sequencer.hpp:63-75 | Execution jitter is recorded from the second execution on, once per execution, as the absolute difference from the previous execution time. |
| RTStats.AverageBetweenExtrema | sk_exer4/Sequencer.hpp:97-101 | The mean of a non-empty history lies between its minimum and maximum. |
| RTStats.ExecStep | sk_exer4/Sequencer.hpp:48-76 | The code's jitter test `count > 1` after the increment means "there was a previous execution". One update extends the execution history and the jitter history by exactly their next elements. |
| RTStats.RTStatistics.constructor | sk_exer4/Sequencer.hpp:26-46 | Every minimum starts at `LLONG_MAX`; every maximum, total and count starts at 0. |
| RTStats.RTStatistics.UpdateExecTime | sk_exer4/Sequencer.hpp:48-76 | Records `x` into the execution tally. Records `abs(x - previous)` into the jitter tally exactly when an execution was recorded before. Sets `previousExecNs` to `x`. Keeps the tallies equal to those of the recorded history. |
| RTStats.RTStatistics.UpdateReleaseJitter | sk_exer4/Sequencer.hpp:78-92 | A negative value changes nothing. A non-negative one is folded into the minimum, maximum and total, and the release count grows by one. |
| RTStats.RTStatistics.MissDeadline | sk_exer4/Sequencer.hpp:94 | The miss counter grows by exactly one. |
| RTStats.RTStatistics.AvgExecNs | sk_exer4/Sequencer.hpp:97-101 | 0 before any execution; otherwise between the minimum and maximum execution time. |
| RTStats.RTStatistics.AvgReleaseJitterNs | sk_exer4/Sequencer.hpp:102-106 | 0 before any release; otherwise between the minimum and maximum release jitter. |
| RTStats.RTStatistics.AvgExecJitterNs | sk_exer4/Sequencer.hpp:107-111 | 0 before the second execution; otherwise between the minimum and maximum execution jitter. |
| MasterTick.SortByPeriod | sk_exer4/Sequencer.cpp:86-88 | The result is in non-decreasing period order and is a permutation of the services. |
| MasterTick.Scheduled | sk_exer4/Sequencer.cpp:94-96 | A started service is released first at `now`, with its first deadline one period later; nothing else changes. |
| MasterTick.ScheduleAll | sk_exer4/Sequencer.cpp:92-97 | Every service is scheduled at `now`, in the same order. |
| MasterTick.StartedInPeriodOrder | sk_exer4/Sequencer.cpp:86-97 | After `startServices` the services are sorted by period (between any two of them) and are a permutation of the old ones. Each has `nextRelease == now` and `nextDeadline == now + period`. |
| MasterTick.Periods | sk_exer4/Sequencer.cpp:150-155 | The catch-up loop adds `k >= 1` periods, where `k` is the one whose grid point is the first after `now`. |
| MasterTick.Advance | sk_exer4/Sequencer.cpp:150-155 | The new release is after `now`, at most one period after it, and at least one period after the old release. |
| MasterTick.AdvanceUnique | sk_exer4/Sequencer.cpp:152-155 | The loop stops at the only grid point that is after `now` and whose predecessor is not. |
| MasterTick.Released | sk_exer4/Sequencer.cpp:144-159 | A due service gets exactly one release, however far behind it was. Its next release moves by a positive whole number of periods to just after `now`. Its deadline is one period after that. No other field changes. |
| MasterTick.DueRun | sk_exer4/Sequencer.cpp:137-165 | The scan meets the consecutive due services from the cursor and stops at the first one that is not due. |
| MasterTick.AlarmEffect | sk_exer4/Sequencer.cpp:140-159 | For each service after one tick: a service the scan reached while it was due got exactly one release, the advance to a positive whole number of periods past `now`, and the deadline one period later, with its run flag and statistics unchanged. Every other service is unchanged. |
| MasterTick.AlarmStopsAtFirstNotDue | sk_exer4/Sequencer.cpp:137-165 | The first service found not due becomes the cursor and is unchanged. The scan covers every service exactly when all are due, and then the cursor stays. |
| MasterTick.DueServiceBehindNotDueIsSkipped | sk_exer4/Sequencer.cpp:140-165 | A due service behind a not-due one at the cursor is not released on this tick, and the cursor does not move. |
| MasterTick.ReleaseJitterSample | sk_exer4/Sequencer.cpp:58-60 | The release jitter passed to the statistics is never negative. It is 0 exactly when the worker woke no later than the planned release; otherwise it is the delay. |
| MasterTick.JitterAfterReleaseIsZero | sk_exer4/Sequencer.cpp:55-60 | The worker reads `nextRelease` after `onAlarm` has moved it past the tick, so a worker woken before that next release records zero jitter. |
| MasterTick.CheckedDeadlineIsOnePeriodLate | sk_exer4/Sequencer.cpp:144-159 | After any tick that reaches a service, the deadline the worker would read is more than one period after that tick, and stays one period after the next release. |
| MasterTick.JobDeadlineIsNextRelease | sk_exer4/Sequencer.cpp:150-158 | A tick within one period of the planned release moves the next release exactly one period on: the end of the released job's period. |
| MasterTick.OverrunJobIsNotCounted | sk_exer4/Sequencer.cpp:73 | A 20 ms job released at 0 ms that ends at 45 ms, with ticks at 20 ms and 40 ms while it runs, ends after its period, but the deadline read at the end is 80 ms, so no miss is counted. |
| MasterTick.Stopped | sk_exer4/Sequencer.cpp:117-118 | Stopping clears the run flag and adds exactly one release; nothing else changes. |
| MasterTick.Sequencer.constructor | sk_exer4/Sequencer.hpp:172-197 | No services, cursor 0, no timer. |
| MasterTick.Sequencer.AddService | sk_exer4/Sequencer.cpp:31-80 | Appends one running service with no pending release, given name, priority, affinity and period, and fresh empty statistics; the earlier services are kept. |
| MasterTick.Sequencer.StartServices | sk_exer4/Sequencer.cpp:83-107 | The services become the sorted and scheduled list, and the master timer is set up with the tick interval. |
| MasterTick.Sequencer.SetupTimer | sk_exer4/Sequencer.cpp:194-226 | A failed `timer_create` returns with nothing armed. Otherwise the timer is live and, if `timer_settime` succeeds, armed with the periodic interval. |
| MasterTick.Sequencer.TeardownTimer | sk_exer4/Sequencer.cpp:228-235 | A live timer is deleted once and forgotten; with no timer nothing is deleted. |
| MasterTick.Sequencer.StopServices | sk_exer4/Sequencer.cpp:109-119 | Tears the timer down (at most one deletion), leaving no live and no armed timer. Every service is then stopped, with one extra release each. |
| MasterTick.Sequencer.OnAlarm | sk_exer4/Sequencer.cpp:131-167 | One tick at `now`: the services and cursor become those of the scan (`AlarmServices`, `AlarmCursor`, whose effect `AlarmEffect` and `AlarmStopsAtFirstNotDue` state). With no services nothing changes. |
| MasterTick.Sequencer.ReleaseService | sk_exer4/Sequencer.cpp:147-159 | Releases the service at `idx` as `Released` says and leaves every other service alone. |
| MasterTick.CatchUp | sk_exer4/Sequencer.cpp:150-155 | The catch-up loop ends at `Advance`, the first release time after `now`. |
| MasterTick.Sequencer.WorkerWake | sk_exer4/Sequencer.cpp:47-61 | Blocks exactly when no release is pending. Exits without serving when released but told to stop. Otherwise takes one release and records one release-jitter sample, clamped at zero, against the planned release as read at wake-up; nothing else changes. |
| MasterTick.Sequencer.WorkerFinish | sk_exer4/Sequencer.cpp:63-76 | After the service function ran, records the execution time and counts a miss exactly when the run ended after `nextDeadline` as read at that moment, after any ticks during the run. |
| MasterTick.Sequencer.WorkerFinishIntended | sk_exer4/Sequencer.cpp:72-76 | The same bookkeeping, with the miss counted exactly when the run ended after the deadline of the job taken at wake-up. |
| MasterTick.RecordRelease | sk_exer4/Sequencer.cpp:57-60 | One release-jitter sample, the delay clamped at zero; the other statistics are unchanged. |
| MasterTick.RecordCompletion | sk_exer4/Sequencer.cpp:67-76 | One execution-time sample, and one more miss exactly when the run ended after the given deadline. |
| ServiceTimer.FirstReleaseAnchors | exer4redo/Sequencer.hpp:193-196 | The first release sets the first and expected release to the release time and records no start jitter. |
| ServiceTimer.LaterReleaseMeasuresJitter | exer4redo/Sequencer.hpp:197-208 | A later release expects `lastExpected + period`. It folds the absolute distance into the jitter minimum, maximum and total, and advances the expected release by exactly one period. |
| ServiceTimer.ExpectedReleaseGrid | exer4redo/Sequencer.hpp:193-208 | After `n` releases the expected release is `n - 1` periods after the first, whenever the releases came: the grid is fixed. |
| ServiceTimer.GridAdvances | exer4redo/Sequencer.hpp:199-207 | Each later release moves the expected release one grid point on. |
| ServiceTimer.InitialConsistent | exer4redo/Sequencer.hpp:37-50 | The default statistics satisfy the statistics invariant. |
| ServiceTimer.ReleaseKeepsConsistent | exer4redo/Sequencer.hpp:193-208 | Release bookkeeping keeps the invariant. |
| ServiceTimer.ExecutionRecorded | exer4redo/Sequencer.hpp:220-237 | One execution: count + 1, total + time, and min <= time <= max. A miss is counted exactly when the response time exceeds the period, and then the maximum lateness covers it. The invariant is kept. |
| ServiceTimer.ServeOnceKeepsConsistent | exer4redo/Sequencer.hpp:186-238 | One pass of the worker's body keeps the invariant, counts one execution and sets the first release. |
| ServiceTimer.ServeAllCounts | exer4redo/Sequencer.hpp:181-238 | Serving `n` releases counts `n` executions and keeps the invariant; the grid is anchored at the first one. |
| ServiceTimer.StatisticsReport | exer4redo/Sequencer.hpp:95-138 | "No executions" exactly when the count is 0. |
| ServiceTimer.ReportBounds | exer4redo/Sequencer.hpp:103-135 | With executions, the average execution time lies between the minimum and maximum. The execution-time range is non-negative, and the miss rate is in [0, 100]. The maximum lateness is printed exactly when there was a miss. |
| ServiceTimer.Service.constructor | exer4redo/Sequencer.hpp:52-63 | A new service is running, has an empty semaphore and default statistics. |
| ServiceTimer.Service.Stop | exer4redo/Sequencer.hpp:73-77 | Clears the run flag and releases the semaphore once. |
| ServiceTimer.Service.Release | exer4redo/Sequencer.hpp:79-81 | Releases the semaphore once and changes nothing else. |
| ServiceTimer.Service.ProvideService | exer4redo/Sequencer.hpp:177-242 | As written: the body runs at most once, whether or not a release was pending, and the worker always ends stopped. |
| ServiceTimer.Service.ProvideServiceIntended | exer4redo/Sequencer.hpp:31-33 | The worker the comments describe: every release that arrives is served once, and the service stays running. |
| ServiceTimer.WorkerServesWithoutRelease | exer4redo/Sequencer.hpp:181-241 | A service never released still records one execution, ends stopped, and leaves a release no worker will take. |
| ServiceTimer.Service.PrintStatistics | exer4redo/Sequencer.hpp:98-101 | Reports "No executions" with the period exactly when there was no execution. |
| ServiceTimer.Sequencer.AddService | exer4redo/Sequencer.hpp:260-266 | Appends one fresh running service with default statistics. |
| ServiceTimer.Sequencer.StartServices | exer4redo/Sequencer.hpp:268-303 | A service whose `timer_create` fails is skipped. Every other one gets its timer and, when `timer_settime` succeeds, is armed with its own period as first expiry and interval. Nothing else changes: no timer is deleted, run flags, semaphores and statistics are kept. |
| ServiceTimer.Sequencer.StopServices | exer4redo/Sequencer.hpp:305-313 | Every service's timer id is deleted once, so no timer stays armed, and every service is stopped; the recorded timer ids and the statistics are kept. |
| ServiceTimer.TimerHandler | exer4redo/Sequencer.hpp:328-331 | A timer expiry releases its service once. |
| RedoMain.FibonacciIterative | exer4redo/Sequencer.cpp:29-39 | Returns `n` for `n <= 1` and F(n) modulo 2^64 otherwise. |
| RedoMain.Termination.SignalHandler | exer4redo/Sequencer.cpp:22-26 | Sets the flag for SIGINT and SIGTERM and leaves it unchanged for any other signal. |
| RedoMain.RuntimeSeconds | exer4redo/Sequencer.cpp:70-78 | The runtime is always positive: the parsed value if positive, else 10. |
| RedoMain.ServicePlan | exer4redo/Sequencer.cpp:93-107 | No services exactly when the maximum priority is -1. Otherwise 20 ms and 50 ms, with priorities congruent modulo 256 to the maximum less one and less two, as `uint8_t` receives them; when the maximum is 2 to 256 they are exactly those values, both below the maximum. |
| RedoMain.ServicePlanIsRateMonotonic | exer4redo/Sequencer.cpp:102-107 | When the maximum priority is 2 to 256, the shorter period has the higher priority. |
| RedoMain.PriorityWrapInvertsPlan | exer4redo/Sequencer.cpp:107 | With a maximum priority of 1 the 50 ms service gets priority 255 and the 20 ms service 0. |
| Ints.ToU8 | exer4redo/Sequencer.hpp:53 | The `uint8_t` conversion keeps the value modulo 256 and leaves values in range unchanged. |
| RedoMain.MainLoop | exer4redo/Sequencer.cpp:118-131 | The loop ends at the first pass that sees the flag set, or at the first sleep after which the elapsed seconds reach the runtime, and not before. |
| FibMacro.StepsStaySummed | exercise1/rt_thread_improved/pthread.c:45-51 | After any number of inner passes `fib == fib0 + fib1`, so the sum at the top of a later outer iteration changes nothing. |
| FibMacro.StepsWalkFibonacci | exercise1/rt_thread_improved/pthread.c:45-51 | From (0, 1, 0), the sum followed by `k` inner passes leaves F(k), F(k+1), F(k+2) modulo 2^32. |
| FibMacro.FirstFibTestComputesFibonacci | exercise1/rt_thread_improved/pthread.c:35-53 | The first use from the initial globals leaves F(seqCnt-1), F(seqCnt), F(seqCnt+1) modulo 2^32. |
| FibMacro.LaterFibTestChangesNothing | exercise1/rt_thread_improved/pthread.c:42-53 | Because `jdx` is never reset, any later use with the same `seqCnt` leaves the registers unchanged. |
| FibMacro.FibLoad.constructor | exercise1/rt_thread_improved/pthread.c:35-38 | `idx = 0`, `jdx = 1`, `fib0 = 0`, `fib1 = 1`, `fib = 0`. |
| FibMacro.FibLoad.FibTest | exercise1/rt_thread_improved/pthread.c:42-53 | `idx` ends at `iterCnt`. `jdx` ends at `seqCnt` if it was below it and at least one outer iteration ran. The registers end as `AfterFibTest` of the old ones. |
| RtThread.DeltaT | exercise1/rt_thread_improved/pthread.c:73-106 | `delta_t` always returns 1. |
| RtThread.DeltaTIgnoresSecondsSign | exercise1/rt_thread_improved/pthread.c:78-103 | Both outer branches compute the same thing: borrow a second exactly when the nanosecond difference is negative. |
| RtThread.DeltaTIsDifference | exercise1/rt_thread_improved/pthread.c:73-104 | When the differences fit in an `int`, the result is the exact difference of the two times in nanoseconds. |
| RtThread.DeltaTNormalises | exercise1/rt_thread_improved/pthread.c:80-102 | Nanosecond inputs in [0, 10^9) give a result nanosecond part in [0, 10^9). |
| RtThread.CounterSum | exercise1/rt_thread_improved/pthread.c:128-129 | `2 * sum == n * (n - 1)` with `n = (threadIdx + 1) * 100`: the sum of 1 .. n-1. |
| RtThread.ProcessorCount | exercise1/rt_thread_improved/pthread.c:195-201 | The configured count when it is at least 1, otherwise 1. |
| RtThread.AssignThreads | exercise1/rt_thread_improved/pthread.c:229-245 | `main` computes core `i % processors` (a valid core) and priority `rt_max_prio - i - 1` for thread `i`. |
| RtThread.AssignmentsOrdered | exercise1/rt_thread_improved/pthread.c:232-244 | The computed priorities are below the maximum and strictly decreasing with the thread index. With at least four processors the computed cores are all different. |
| TickHandler.ReleasesOverTestWindow | exercise3/submission/Exercise_3_Code/Exercise_3_Code/Q2/Q2_MUTEX.c:190-217 | During the first 180 ticks task 1 is posted once per tick and task 2 once per ten ticks: 180 and 18 posts in all. |
| TickHandler.T1AtLeastTenfoldT2 | exercise3/submission/exercise3_code_AVJ/Q5/Q5_Timeout.c:246-272 | During the test window task 1 is released at least ten times as often as task 2. |
| TickHandler.Handler.constructor | exercise3/submission/exercise3_code_AVJ/Q5/Q5_Timeout.c:254-255 | Both counters start at 0, no posts, test not done. |
| TickHandler.Handler.Tick | exercise3/submission/exercise3_code_AVJ/Q5/Q5_Timeout.c:253-272 | Both counters grow by one and stay equal. `sem_T1` gets one post. `sem_T2` gets one exactly when `release_count % 10 == 0`. Every tick after the 180th adds one more post to each. `testDone` is 1 exactly when `count > 180` and, once set, is never cleared. |
| TickHandler.MainLockOption | exercise3/submission/exercise3_code_AVJ/Q5/Q5_Timeout.c:421-432 | The program goes on exactly when it has one argument whose value is 0 or 1, and then uses it. |
| LcmSchedule.PassTicks | exercise1/exercise1_ali_sulehria/VxWorksLCMSchedule/lab1.c:165-181 | Within a pass F10 is given at +20, +40, +60, +80, +100 and F20 at +50, +100. |
| LcmSchedule.F10IsPeriodic | exercise1/exercise1_ali_sulehria/VxWorksLCMSchedule/lab1.c:155-182 | After `n` passes F10 has been given `5n + 1` times, exactly 20 ticks apart from the critical instant. |
| LcmSchedule.F20IsPeriodic | exercise1/exercise1_ali_sulehria/VxWorksLCMSchedule/lab1.c:155-182 | After `n` passes F20 has been given `2n + 1` times, exactly 50 ticks apart from the critical instant. |
| LcmSchedule.PassIsOneMajorCycle | exercise1/exercise1_ali_sulehria/VxWorksLCMSchedule/lab1.c:109-181 | A pass gives F10 once per F10 period and F20 once per F20 period of the major cycle, ends with the next critical instant one major cycle on, and the cycle is 100 ms at the clock rate set. |
| LcmSchedule.MajorCycleIsLeastCommonPeriod | exercise1/exercise1_ali_sulehria/VxWorksLCMSchedule/lab1.c:109 | Every positive span holding a whole number of both periods is a multiple of the 100-tick major cycle, so none is shorter. |
| LcmSchedule.Lcm.constructor | exercise1/exercise1_ali_sulehria/VxWorksLCMSchedule/lab1.c:22-27 | Abort flag and both counters 0, nothing given yet. |
| LcmSchedule.Lcm.Start | exercise1/exercise1_ali_sulehria/VxWorksLCMSchedule/lab1.c:187-189 | Clears the abort flag. |
| LcmSchedule.Lcm.Shutdown | exercise1/exercise1_ali_sulehria/VxWorksLCMSchedule/lab1.c:90-92 | Sets the abort flag. |
| LcmSchedule.Lcm.SemGive | exercise1/exercise1_ali_sulehria/VxWorksLCMSchedule/lab1.c:155 | A give fills that binary semaphore (a give to a full one is lost), leaves the other alone and is logged with its tick. |
| LcmSchedule.Lcm.SequencerPass | exercise1/exercise1_ali_sulehria/VxWorksLCMSchedule/lab1.c:165-181 | One pass advances the clock by 100 ticks and logs exactly the gives of `PassReleases`. |
| LcmSchedule.Lcm.Sequencer | exercise1/exercise1_ali_sulehria/VxWorksLCMSchedule/lab1.c:103-185 | The clock runs at 1000 ticks a second. Both semaphores are created empty, then both are given at the critical instant. The loop runs only while the abort flag is clear. The log is `Schedule(t0, passes)`. |
| LcmSchedule.Lcm.Fib10Iteration | exercise1/exercise1_ali_sulehria/VxWorksLCMSchedule/lab1.c:66-69 | Takes the F10 semaphore, runs the load, and increments `fib10Cnt` by one (as a 32-bit unsigned value). |
| LcmSchedule.Lcm.Fib20Iteration | exercise1/exercise1_ali_sulehria/VxWorksLCMSchedule/lab1.c:80-83 | Takes the F20 semaphore, runs twice the load, and increments `fib20Cnt` by one (as a 32-bit unsigned value). |

## Findings

| source | as written | input that shows it | evidently intended | confidence | as-written member | corrected member |
|---|---|---|---|---|---|---|
| sk_exer4/Sequencer.cpp:73 | The miss check reads `nextDeadline` after the service function returns. Every tick during the run moves it on, and it is already one period past the job's own deadline. | A 20 ms service released at 0 ms whose job runs until 45 ms, with ticks at 20 ms and 40 ms: the job ends 25 ms late, but the check compares 45 ms with 80 ms and counts no miss. | Compare the end time with the deadline of the job that was released, read when the worker wakes. | medium; not executed | MasterTick.Sequencer.WorkerFinish | MasterTick.Sequencer.WorkerFinishIntended |
| exer4redo/Sequencer.hpp:181-241 | `try_acquire` does not wait and its result only selects a log message. `stop()` ends every pass of the worker loop. | A service constructed (its worker starts at once) and never released: the service runs once straight away, counts one execution, stops itself, and no later timer release is ever served. | Wait for each release (`acquire`) and run the service every time it is released, as the comments at lines 31-33 and 182 say. | medium; not executed | ServiceTimer.WorkerServesWithoutRelease | ServiceTimer.Service.ProvideServiceIntended |

`MasterTick.OverrunJobIsNotCounted` shows the first row's input, and
`MasterTick.CheckedDeadlineIsOnePeriodLate` shows that the check as written counts no
miss for any job ending within one period of the last tick that reached its service.
`MasterTick.JobDeadlineIsNextRelease` shows the deadline `WorkerWake` hands to
`WorkerFinishIntended` is the end of the released job's period.

`ServiceTimer.Service.ProvideService` models the loop as written. `ServiceTimer.ServeAllCounts`
proves the intended worker's property: it counts exactly one execution per release, and
its statistics stay consistent.

## Left out

- Threads, `jthread`/`pthread_create`/joins, CPU affinity and scheduling priorities are
  OS calls and are not modelled; they include the early return for a negative core in
  `setCurrentThreadAffinity`. Only the priority and core numbers that `main` computes
  are modelled.
- POSIX timers and signal routing (`timer_create`, `timer_settime`, `sigaction`, the
  static instance pointer, `sigintHandler`'s `_Exit`) are OS plumbing. Their outcomes are
  boolean parameters, and a tick is a call with an explicit `now`.
- Clocks (`steady_clock`, `clock_gettime`, `get_time_ms`, VxWorks ticks) are integer
  parameters. `sk_exer4` times are nanoseconds, `exer4redo` times microseconds, and
  the LCM schedule uses ticks.
- RTStats.RTStatistics.UpdateExecTime: the compare-and-swap retry loops are modelled
  for a single writer (the worker). A concurrent reader could see a partly updated
  record; that is not captured.
- Semaphores are counters and are never blocked on. `counting_semaphore<1>` has
  undefined behaviour above 1, and the model lets the count grow. A VxWorks binary
  semaphore is a "full" flag.
- Floating point: `sk_exer4`'s `printStatistics` and its `double` averages are left out;
  the averages are exact reals. `exer4redo` keeps `double` milliseconds, and
  the model keeps integer microseconds, so rounding of very large values is not modelled.
- ServiceTimer.StatisticsReport: the report is a value, not printed text, and its numbers
  are microseconds and exact reals rather than `double` milliseconds.
- Printing, syslog and `generateLoad`/`service1`/`service2` (timed busy loops) are I/O or
  timing and are left out. So are `get_time_ms`, `Get_New_Val`/`Check_New_Val` and the
  task bodies of the lock-timeout exercises.
- MasterTick.Sequencer.OnAlarm: requires every period to be positive; with a zero or
  negative period the catch-up loop of the code never ends.
- MasterTick.Sequencer.WorkerWake: requires the release jitter to fit in `long long`, as
  the `count()` result does; `WorkerFinish` requires the same of the execution time.
- MasterTick.SortByPeriod: `std::sort` is not stable, so services with equal periods may
  end in any order; the model fixes one of those orders, and only the period
  order and the permutation are promised.
- MasterTick.Sequencer.StopServices: the joins of the worker threads are not modelled.
- ServiceTimer.Service.ProvideService: `_initializeService` (affinity and priority) is
  not modelled, and the concurrent interleaving with the timer handler is not captured.
  The model takes one call, as the worker sees it when it starts.
- ServiceTimer.Sequencer.StopServices: `timer_delete` is also called with the
  uninitialised id of a service whose `timer_create` failed; the model only counts the
  call.
- RedoMain.FibonacciIterative: requires `n < UINT64_MAX`, because for `UINT64_MAX` the
  loop counter never exceeds `n` and the loop does not end.
- RedoMain.MainLoop: the flag and elapsed-time readings are given as sequences. A run
  longer than the sequences yields `None`.
- RedoMain.ServicePlanIsRateMonotonic: holds only for maximum priorities from 2 to 256;
  below 2 the `uint8_t` narrowing inverts the plan, as `PriorityWrapInvertsPlan` shows.
- MasterTick.Sequencer.WorkerFinish: the service function between `WorkerWake` and
  `WorkerFinish` is not modelled; ticks during it are `OnAlarm` calls between the two.
- RtThread.AssignThreads: `main` stores the computed core and priority in
  `rt_sched_attr`, but creates every thread with default attributes
  (exercise1/rt_thread_improved/pthread.c:249-253), so neither takes effect; the model
  states only what `main` computes.
- RtThread.DeltaT: the `dt_sec - 1` and `NSEC_PER_SEC + dt_nsec` steps are unbounded
  integers; an `int` overflow there is not modelled.
- RtThread.CounterSum: requires a thread index below `NUM_THREADS`, the only indices
  `main` passes. For larger ones the `int` sum could overflow, which is not modelled.
- FibMacro.FibLoad.FibTest: the globals are shared by all counter threads at the same
  time (`main` has its own local `idx`). The model runs one use at a time. Because `jdx`
  is shared, only the first use computes anything, as `LaterFibTestChangesNothing` states.
- TickHandler.Handler.Tick: the `static int` counters are unbounded; overflow after
  2^31 ticks is not modelled.
- LcmSchedule.Lcm.Sequencer: the number of loop passes before another task sets the abort
  flag is the parameter `passes`. The VxWorks task-spawn code, the WindView events and
  the `pthread_create` failure exits are left out.
- LcmSchedule.Lcm.Shutdown: the joins and semaphore destruction are left out.
- LcmSchedule.Lcm.Fib10Iteration: the `while(!abortTest)` loop around the iteration and
  the blocking `semTake` are not modelled; one iteration starts with the semaphore full.
- The `exer4redo` `printStatistics` text and the `sk_exer4` one, the GPIO exercises,
  the condition-variable sequencer and the message-queue and IPC demos are not part
  of this model.
