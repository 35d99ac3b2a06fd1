/** The driver of the per-service-timer sequencer: the Fibonacci load generator, the
    termination signal handler, the runtime argument and the rate-monotonic priority
    plan of the two demonstration services. */
module RedoMain {
  import opened Ints
  import opened Wrappers
  import opened Fibonacci

  /** `fibonacciIterative`: the `n`-th Fibonacci number in `uint64_t` arithmetic, that
      is modulo 2^64. For `n == UINT64_MAX` the loop counter can never exceed `n`, so the
      loop does not end; callers pass smaller values. */
  method FibonacciIterative(n: U64) returns (r: U64)
    requires n < UINT64_MAX
    ensures r == Fib(n) % TWO_TO_64
    ensures n <= 1 ==> r == n
  {
    if n <= 1 {
      return n;
    }
    var a: U64, b: U64 := 0, 1;
    var i: U64 := 2;
    while i <= n
      invariant 2 <= i <= n + 1
      invariant a == Fib(i - 2) % TWO_TO_64 && b == Fib(i - 1) % TWO_TO_64
    {
      var temp: U64 := (a + b) % TWO_TO_64;
      AddMod64(Fib(i - 2), Fib(i - 1));
      a := b;
      b := temp;
      i := i + 1;
    }
    r := b;
  }

  const SIGINT: int := 2
  const SIGTERM: int := 15

  /** The process-wide termination flag and its signal handler. */
  class Termination {
    var terminateProgram: bool

    constructor ()
      ensures !terminateProgram
    {
      terminateProgram := false;
    }

    /** Sets the flag for SIGINT and SIGTERM; any other signal leaves it as it was. */
    method SignalHandler(signum: int)
      modifies this`terminateProgram
      ensures terminateProgram == (old(terminateProgram) || signum == SIGINT || signum == SIGTERM)
    {
      if signum == SIGINT || signum == SIGTERM {
        terminateProgram := true;
      }
    }
  }

  const DEFAULT_RUNTIME_SECONDS: int := 10

  /** The run time in seconds: 10 without an argument; otherwise the argument's `atoi`
      value `parsed`, replaced by 10 when it is not positive. */
  method RuntimeSeconds(argc: int, parsed: int) returns (runtime: int)
    ensures runtime > 0
    ensures argc > 1 && parsed > 0 ==> runtime == parsed
    ensures !(argc > 1 && parsed > 0) ==> runtime == DEFAULT_RUNTIME_SECONDS
  {
    runtime := DEFAULT_RUNTIME_SECONDS;
    if argc > 1 {
      runtime := parsed;
      if runtime <= 0 {
        runtime := DEFAULT_RUNTIME_SECONDS;
      }
    }
  }

  /** One `addService` call: the period and the priority as the `uint8_t` parameter
      receives it. */
  datatype Plan = Plan(periodMs: int, priority: U8)

  /** The services `main` adds: none (exit status 1) when the maximum SCHED_FIFO priority
      cannot be read (-1); otherwise 20 ms at the maximum priority less one and 50 ms at
      the maximum less two, each narrowed to `uint8_t` when passed to `addService`. */
  function ServicePlan(maxPriority: int): (r: Option<seq<Plan>>)
    ensures r.None? <==> maxPriority == -1
    ensures r.Some? ==> |r.value| == 2 && r.value[0].periodMs == 20 && r.value[1].periodMs == 50
    ensures r.Some? ==> forall i :: 0 <= i < |r.value| ==> (r.value[i].priority - (maxPriority - 1 - i)) % 256 == 0
    ensures r.Some? && 2 <= maxPriority <= 256 ==>
      forall i :: 0 <= i < |r.value| ==> r.value[i].priority == maxPriority - 1 - i < maxPriority
  {
    if maxPriority == -1 then None
    else Some([Plan(20, ToU8(maxPriority - 1)), Plan(50, ToU8(maxPriority - 2))])
  }

  /** The plan is rate monotonic, a shorter period always having a higher priority,
      whenever both priorities fit in `uint8_t` without wrapping. */
  lemma ServicePlanIsRateMonotonic(maxPriority: int)
    requires 2 <= maxPriority <= 256
    ensures var p := ServicePlan(maxPriority).value;
      forall i, j :: 0 <= i < |p| && 0 <= j < |p| && p[i].periodMs < p[j].periodMs ==> p[i].priority > p[j].priority
  {
  }

  /** With a maximum priority of 1 the second priority, -1, wraps to 255: the 50 ms
      service then outranks the 20 ms one. */
  lemma PriorityWrapInvertsPlan()
    ensures var p := ServicePlan(1).value;
      p[0].priority == 0 && p[1].priority == 255 && p[0].periodMs < p[1].periodMs
  {
  }

  /** How the main loop ends: at the top of a pass because the termination flag was set
      after `sleeps` sleeps, or after `sleeps` sleeps because the run time was reached. */
  datatype LoopEnd = Signalled(sleeps: nat) | RuntimeOver(sleeps: nat)

  /** The main loop: while the termination flag is clear it sleeps 100 ms and stops once
      the whole seconds elapsed since the start reach the run time. `terminated[k]` is the
      flag seen before sleep `k` and `elapsed[k]` the elapsed seconds seen after it; the
      result is `None` when neither sequence ends the loop. */
  method MainLoop(runtime: int, terminated: seq<bool>, elapsed: seq<int>) returns (end: Option<LoopEnd>)
    requires |terminated| == |elapsed|
    ensures end.Some? && end.value.Signalled? ==> var k := end.value.sleeps;
      k < |terminated| && terminated[k] && forall j :: 0 <= j < k ==> !terminated[j] && elapsed[j] < runtime
    ensures end.Some? && end.value.RuntimeOver? ==> var k := end.value.sleeps;
      0 < k <= |elapsed| && !terminated[k - 1] && elapsed[k - 1] >= runtime &&
      forall j :: 0 <= j < k - 1 ==> !terminated[j] && elapsed[j] < runtime
    ensures end.None? ==> forall j :: 0 <= j < |elapsed| ==> !terminated[j] && elapsed[j] < runtime
  {
    var k := 0;
    while k < |terminated|
      invariant 0 <= k <= |terminated|
      invariant forall j :: 0 <= j < k ==> !terminated[j] && elapsed[j] < runtime
    {
      if terminated[k] {
        return Some(Signalled(k));
      }
      if elapsed[k] >= runtime {
        return Some(RuntimeOver(k + 1));
      }
      k := k + 1;
    }
    return None;
  }
}
