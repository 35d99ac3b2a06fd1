/** The per-service statistics aggregator of the master-tick sequencer: running
    minimum, maximum, total and count of execution time, of execution-time jitter
    (difference between consecutive execution times) and of release jitter, plus a
    deadline-miss counter. Every quantity is in nanoseconds.

    The source keeps the four numbers of each quantity in four atomics (`minExecNs`,
    `maxExecNs`, `totalExecNs`, `count`, and likewise for the two jitters); here each
    group of four is one `Tally`. The source updates the extrema with compare-and-swap
    retry loops so that a reader may run concurrently; with the single writer the source
    has (the service's worker), such a loop stores the candidate exactly when it improves
    the extremum, which is what `Tally.Record` does. */
module RTStats {
  import opened Ints

  /** Running minimum, maximum, total and count of one quantity. */
  datatype Tally = Tally(min: int, max: int, total: int, count: int)
  {
    /** Folds one sample in: the minimum and maximum move only when the sample improves
        them, the total grows by the sample and the count by one. */
    function Record(x: int): (t: Tally)
      ensures t.min <= min && t.min <= x && (t.min == min || t.min == x)
      ensures t.max >= max && t.max >= x && (t.max == max || t.max == x)
      ensures t.total == total + x && t.count == count + 1
    {
      Tally(Min(min, x), Max(max, x), total + x, count + 1)
    }
  }

  /** Minimum starts at `LLONG_MAX`; maximum, total and count at 0. */
  const EmptyTally := Tally(LLONG_MAX, 0, 0, 0)

  /** The tally a sequence of samples produces, recorded oldest first. */
  function TallyOf(s: seq<int>): Tally
  {
    if s == [] then EmptyTally else TallyOf(s[..|s| - 1]).Record(s[|s| - 1])
  }

  /** Sum of a sequence of samples. */
  function Sum(s: seq<int>): int
  {
    if s == [] then 0 else Sum(s[..|s| - 1]) + s[|s| - 1]
  }

  /** Absolute differences of consecutive samples: the execution-time jitter history. */
  function Jitters(s: seq<int>): seq<int>
  {
    if |s| < 2 then [] else [Abs(s[1] - s[0])] + Jitters(s[1..])
  }

  lemma TallyAppend(s: seq<int>, x: int)
    ensures TallyOf(s + [x]) == TallyOf(s).Record(x)
    ensures Sum(s + [x]) == Sum(s) + x
  {
    assert (s + [x])[..|s|] == s;
  }

  /** The tally of a history counts its samples and totals them. */
  lemma {:induction false} TallyCountsAndSums(s: seq<int>)
    ensures TallyOf(s).count == |s| && TallyOf(s).total == Sum(s)
  {
    if s != [] {
      TallyCountsAndSums(s[..|s| - 1]);
    }
  }

  /** Every recorded sample lies between the tally's minimum and maximum. */
  lemma {:induction false} TallyBoundsSamples(s: seq<int>)
    ensures forall i :: 0 <= i < |s| ==> TallyOf(s).min <= s[i] <= TallyOf(s).max
  {
    if s != [] {
      var p := s[..|s| - 1];
      TallyBoundsSamples(p);
      assert forall i :: 0 <= i < |p| ==> p[i] == s[i];
    }
  }

  lemma {:induction false} SumAtLeast(s: seq<int>, lo: int)
    requires forall i :: 0 <= i < |s| ==> lo <= s[i]
    ensures lo * |s| <= Sum(s)
  {
    if s != [] {
      var p := s[..|s| - 1];
      SumAtLeast(p, lo);
      assert lo * |s| == lo * |p| + lo;
    }
  }

  lemma {:induction false} SumAtMost(s: seq<int>, hi: int)
    requires forall i :: 0 <= i < |s| ==> s[i] <= hi
    ensures Sum(s) <= hi * |s|
  {
    if s != [] {
      var p := s[..|s| - 1];
      SumAtMost(p, hi);
      assert hi * |s| == hi * |p| + hi;
    }
  }

  /** min * count <= total <= max * count: the mean of every tally
      lies between its extrema (the empty tally included). */
  lemma MeanBetweenExtrema(s: seq<int>)
    ensures var t := TallyOf(s); t.min * t.count <= t.total <= t.max * t.count
  {
    TallyCountsAndSums(s);
    TallyBoundsSamples(s);
    SumAtLeast(s, TallyOf(s).min);
    SumAtMost(s, TallyOf(s).max);
  }

  /** Jitter is recorded from the second execution on, once per execution, as the
      absolute difference from the execution before it. */
  lemma {:induction false} JittersFollowExecutions(s: seq<int>)
    ensures |Jitters(s)| == if |s| == 0 then 0 else |s| - 1
    ensures forall i :: 0 <= i < |Jitters(s)| ==> Jitters(s)[i] == Abs(s[i + 1] - s[i])
  {
    if |s| >= 2 {
      JittersFollowExecutions(s[1..]);
    }
  }

  lemma {:induction false} JittersAppend(s: seq<int>, x: int)
    requires s != []
    ensures Jitters(s + [x]) == Jitters(s) + [Abs(x - s[|s| - 1])]
  {
    var t := s + [x];
    if |s| == 1 {
      assert t[1..] == [x];
    } else {
      assert t[1..] == s[1..] + [x];
      JittersAppend(s[1..], x);
    }
  }

  /** Mean of a tally as the source's average helpers compute it: 0 when nothing was
      recorded, total / count otherwise. */
  function Average(t: Tally): (r: real)
    requires t.count >= 0
    ensures t.count == 0 ==> r == 0.0
    ensures t.count > 0 ==> r * (t.count as real) == t.total as real
  {
    if t.count == 0 then 0.0 else (t.total as real) / (t.count as real)
  }

  lemma NonNegFactor(d: real, r: real)
    requires r > 0.0 && d * r >= 0.0
    ensures d >= 0.0
  {
  }

  lemma QuotientBounds(lo: int, total: int, hi: int, n: int)
    requires n > 0 && lo * n <= total <= hi * n
    ensures lo as real <= (total as real) / (n as real) <= hi as real
  {
    var q, r := (total as real) / (n as real), n as real;
    assert (q - lo as real) * r == (total - lo * n) as real;
    NonNegFactor(q - lo as real, r);
    assert (hi as real - q) * r == (hi * n - total) as real;
    NonNegFactor(hi as real - q, r);
  }

  /** The mean reported for a non-empty history lies between its minimum and maximum. */
  lemma AverageBetweenExtrema(s: seq<int>)
    requires s != []
    ensures TallyOf(s).count == |s|
    ensures var t := TallyOf(s); t.min as real <= Average(t) <= t.max as real
  {
    MeanBetweenExtrema(s);
    TallyCountsAndSums(s);
    var t := TallyOf(s);
    QuotientBounds(t.min, t.total, t.max, t.count);
  }

  /** One execution time folded into a valid history: the execution tally records it,
      and the jitter tally records its distance from the previous execution exactly when
      there was one. */
  lemma ExecStep(s: seq<int>, x: int, t: Tally, j: Tally, prev: int, t': Tally, j': Tally)
    requires t == TallyOf(s) && j == TallyOf(Jitters(s))
    requires prev == if s == [] then 0 else s[|s| - 1]
    requires t' == t.Record(x)
    requires j' == if t'.count > 1 then j.Record(if x > prev then x - prev else prev - x) else j
    ensures t.count == |s|
    ensures j' == if t.count > 0 then j.Record(Abs(x - prev)) else j
    ensures TallyOf(s + [x]) == t' && TallyOf(Jitters(s + [x])) == j'
  {
    TallyAppend(s, x);
    TallyCountsAndSums(s);
    if s != [] {
      JittersAppend(s, x);
      TallyAppend(Jitters(s), Abs(x - prev));
    } else {
      assert Jitters(s + [x]) == [];
    }
  }

  class RTStatistics {
    var execTime: Tally        // minExecNs, maxExecNs, totalExecNs, count
    var releaseJitter: Tally   // minReleaseJitterNs, maxReleaseJitterNs, totalReleaseJitterNs, releaseCount
    var execJitter: Tally      // minExecJitterNs, maxExecJitterNs, totalExecJitterNs, execJitterCount
    var previousExecNs: int
    var deadlineMissCount: int

    /** Every execution time and every release jitter recorded so far, oldest first. */
    ghost var execSamples: seq<int>
    ghost var releaseSamples: seq<int>

    ghost predicate Valid()
      reads this
    {
      execTime == TallyOf(execSamples) &&
      execJitter == TallyOf(Jitters(execSamples)) &&
      releaseJitter == TallyOf(releaseSamples) &&
      previousExecNs == (if execSamples == [] then 0 else execSamples[|execSamples| - 1]) &&
      deadlineMissCount >= 0
    }

    /** Every minimum starts at `LLONG_MAX`; every maximum, total and count at 0. */
    constructor ()
      ensures Valid() && execSamples == [] && releaseSamples == []
      ensures execTime == releaseJitter == execJitter == EmptyTally
      ensures previousExecNs == 0 && deadlineMissCount == 0
    {
      execTime, releaseJitter, execJitter := EmptyTally, EmptyTally, EmptyTally;
      previousExecNs, deadlineMissCount := 0, 0;
      execSamples, releaseSamples := [], [];
    }

    /** Records one execution time. From the second execution on it also records the
        execution jitter, the distance from the previous execution time. */
    method UpdateExecTime(execNs: int)
      requires Valid() && 0 <= execNs <= LLONG_MAX
      modifies this`execTime, this`execJitter, this`previousExecNs, this`execSamples
      ensures Valid()
      ensures execSamples == old(execSamples) + [execNs]
      ensures execTime == old(execTime).Record(execNs)
      ensures old(execTime.count) == 0 ==> execJitter == old(execJitter)
      ensures old(execTime.count) > 0 ==> execJitter == old(execJitter).Record(Abs(execNs - old(previousExecNs)))
      ensures previousExecNs == execNs
    {
      var t := execTime.Record(execNs);
      var j := execJitter;
      if t.count > 1 {
        var jitter := if execNs > previousExecNs then execNs - previousExecNs else previousExecNs - execNs;
        j := j.Record(jitter);
      }
      ExecStep(execSamples, execNs, execTime, execJitter, previousExecNs, t, j);
      execTime, execJitter, previousExecNs := t, j, execNs;
      execSamples := execSamples + [execNs];
    }

    /** Records one release jitter; a negative value is ignored. */
    method UpdateReleaseJitter(jitterNs: I64)
      requires Valid()
      modifies this`releaseJitter, this`releaseSamples
      ensures Valid()
      ensures jitterNs < 0 ==> releaseJitter == old(releaseJitter) && releaseSamples == old(releaseSamples)
      ensures jitterNs >= 0 ==>
        releaseJitter == old(releaseJitter).Record(jitterNs) &&
        releaseSamples == old(releaseSamples) + [jitterNs as int]
    {
      if jitterNs < 0 {
        return;
      }
      TallyAppend(releaseSamples, jitterNs);
      releaseJitter := releaseJitter.Record(jitterNs);
      releaseSamples := releaseSamples + [jitterNs as int];
    }

    /** Counts one deadline miss and changes nothing else. */
    method MissDeadline()
      requires Valid()
      modifies this`deadlineMissCount
      ensures Valid() && deadlineMissCount == old(deadlineMissCount) + 1
    {
      deadlineMissCount := deadlineMissCount + 1;
    }

    /** Mean execution time; 0 before the first execution. */
    function AvgExecNs(): (r: real)
      reads this
      requires Valid()
      ensures execTime.count == 0 ==> r == 0.0
      ensures execTime.count > 0 ==> execTime.min as real <= r <= execTime.max as real
    {
      TallyCountsAndSums(execSamples);
      if execTime.count > 0 then AverageBetweenExtrema(execSamples); Average(execTime)
      else Average(execTime)
    }

    /** Mean release jitter; 0 before the first recorded release. */
    function AvgReleaseJitterNs(): (r: real)
      reads this
      requires Valid()
      ensures releaseJitter.count == 0 ==> r == 0.0
      ensures releaseJitter.count > 0 ==> releaseJitter.min as real <= r <= releaseJitter.max as real
    {
      TallyCountsAndSums(releaseSamples);
      if releaseJitter.count > 0 then AverageBetweenExtrema(releaseSamples); Average(releaseJitter)
      else Average(releaseJitter)
    }

    /** Mean execution jitter; 0 before the second execution. */
    function AvgExecJitterNs(): (r: real)
      reads this
      requires Valid()
      ensures execJitter.count == 0 ==> r == 0.0
      ensures execJitter.count > 0 ==> execJitter.min as real <= r <= execJitter.max as real
    {
      TallyCountsAndSums(Jitters(execSamples));
      if execJitter.count > 0 then AverageBetweenExtrema(Jitters(execSamples)); Average(execJitter)
      else Average(execJitter)
    }
  }
}
