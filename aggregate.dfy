/** The live aggregation of one benchmark run: the `BenchmarkResult` object
    that `runBenchmark` fills in place through the per-result callback
    (bench.ts:276-294), and the statistics it derives once the measured
    phase is over (bench.ts:300-315). The functions over a sequence of
    results say what each field holds after that sequence was delivered. */
module Aggregate {
  import opened Request
  import opened Stats
  import opened Counts
  import Scoring

  // ---------------------------------------------------------------------
  // What the fields hold after a sequence of results
  // ---------------------------------------------------------------------

  function SuccessCount(s: seq<RequestResult>): nat
  {
    if |s| == 0 then 0
    else SuccessCount(s[..|s| - 1]) + (if s[|s| - 1].success then 1 else 0)
  }

  function FailureCount(s: seq<RequestResult>): nat
  {
    if |s| == 0 then 0
    else FailureCount(s[..|s| - 1]) + (if s[|s| - 1].success then 0 else 1)
  }

  /** The latencies of the successful results, in delivery order. */
  function ResponseTimes(s: seq<RequestResult>): seq<real>
  {
    if |s| == 0 then []
    else ResponseTimes(s[..|s| - 1]) + (if s[|s| - 1].success then [s[|s| - 1].time] else [])
  }

  /** The body bytes of the successful results. */
  function TotalBytes(s: seq<RequestResult>): nat
  {
    if |s| == 0 then 0
    else TotalBytes(s[..|s| - 1]) + (if s[|s| - 1].success then s[|s| - 1].bytes else 0)
  }

  /** `if (result.error)`: a failure is logged only when its error message is
      present and, JavaScript truthiness, not the empty string. */
  predicate IsLoggedError(r: RequestResult)
  {
    !r.success && r.error.Some? && r.error.value != ""
  }

  /** The logged error messages, in delivery order. */
  function ErrorLog(s: seq<RequestResult>): seq<string>
  {
    if |s| == 0 then []
    else
      var last := s[|s| - 1];
      ErrorLog(s[..|s| - 1]) + (if IsLoggedError(last) then [last.error.value] else [])
  }

  /** `status.toString()` for a non-negative integer: its decimal digits,
      with no leading zero except for 0 itself. */
  function Decimal(n: nat): (r: string)
    ensures |r| >= 1
    ensures n >= 10 ==> |r| >= 2
    ensures forall i :: 0 <= i < |r| ==> '0' <= r[i] <= '9'
    ensures n >= 1 ==> r[0] != '0'
  {
    if n < 10 then [Digit(n)]
    else
      var head := Decimal(n / 10);
      var r := head + [Digit(n % 10)];
      assert forall i :: 0 <= i < |head| ==> r[i] == head[i];
      r
  }

  function Digit(d: nat): (c: char)
    requires d < 10
    ensures '0' <= c <= '9' && (d >= 1 ==> c != '0')
  {
    ('0' as int + d) as char
  }

  /** Different statuses have different keys. */
  lemma {:induction false} DecimalInjective(a: nat, b: nat)
    requires Decimal(a) == Decimal(b)
    ensures a == b
  {
    var da, db := Decimal(a), Decimal(b);
    if a >= 10 && b >= 10 {
      assert da[|da| - 1] == Digit(a % 10) && db[|db| - 1] == Digit(b % 10);
      assert da[..|da| - 1] == Decimal(a / 10) && db[..|db| - 1] == Decimal(b / 10);
      DecimalInjective(a / 10, b / 10);
    }
  }

  /** The `statusCodes` dictionary: successful results counted by status key. */
  function Histogram(s: seq<RequestResult>): map<string, nat>
  {
    if |s| == 0 then map[]
    else
      var last := s[|s| - 1];
      var h := Histogram(s[..|s| - 1]);
      if last.success then Bump(h, Decimal(last.status)) else h
  }

  /** How many successful results carry the given status. */
  function StatusCount(s: seq<RequestResult>, status: nat): nat
  {
    if |s| == 0 then 0
    else
      var last := s[|s| - 1];
      StatusCount(s[..|s| - 1], status) + (if last.success && last.status == status then 1 else 0)
  }

  // ---------------------------------------------------------------------
  // The aggregation invariants, proved over any sequence of results
  // ---------------------------------------------------------------------

  /** Every result is counted exactly once: `successful + failed == completed`. */
  lemma {:induction false} CountsPartition(s: seq<RequestResult>)
    ensures SuccessCount(s) + FailureCount(s) == |s|
  {
    if |s| > 0 {
      CountsPartition(s[..|s| - 1]);
    }
  }

  /** One latency sample per success: `responseTimes.length == successful`. */
  lemma {:induction false} OneSamplePerSuccess(s: seq<RequestResult>)
    ensures |ResponseTimes(s)| == SuccessCount(s)
  {
    if |s| > 0 {
      OneSamplePerSuccess(s[..|s| - 1]);
    }
  }

  /** The status counts total the successes. */
  lemma {:induction false} HistogramTotal(s: seq<RequestResult>)
    ensures SumValues(Histogram(s)) == SuccessCount(s)
  {
    if |s| > 0 {
      HistogramTotal(s[..|s| - 1]);
      if s[|s| - 1].success {
        SumValuesBump(Histogram(s[..|s| - 1]), Decimal(s[|s| - 1].status));
      }
    }
  }

  /** The count under a status key is the number of successes with that status. */
  lemma {:induction false} HistogramCounts(s: seq<RequestResult>, status: nat)
    ensures Lookup(Histogram(s), Decimal(status)) == StatusCount(s, status)
  {
    if |s| > 0 {
      HistogramCounts(s[..|s| - 1], status);
      var last := s[|s| - 1];
      if last.success && last.status != status && Decimal(last.status) == Decimal(status) {
        DecimalInjective(last.status, status);
      }
    }
  }

  /** At most one error is logged per failure: `errors.length <= failed`. */
  lemma {:induction false} ErrorsAtMostFailures(s: seq<RequestResult>)
    ensures |ErrorLog(s)| <= FailureCount(s)
  {
    if |s| > 0 {
      ErrorsAtMostFailures(s[..|s| - 1]);
    }
  }

  /** Only thrown errors are logged: results that all came back with a
      response (no error) log nothing, whatever their status. */
  lemma {:induction false} OnlyThrownErrorsLogged(s: seq<RequestResult>)
    requires forall k :: 0 <= k < |s| ==> s[k].error.None?
    ensures ErrorLog(s) == []
  {
    if |s| > 0 {
      OnlyThrownErrorsLogged(s[..|s| - 1]);
    }
  }

  /** Among results that `makeRequest` produced, a status outside 200-299
      (including the 0 of a request that never got a response) is never
      counted in the dictionary. */
  lemma {:induction false} NonOkNeverCounted(s: seq<RequestResult>, status: nat)
    requires forall k :: 0 <= k < |s| ==> WellFormed(s[k])
    requires !IsOkStatus(status)
    ensures StatusCount(s, status) == 0
    ensures Lookup(Histogram(s), Decimal(status)) == 0
  {
    HistogramCounts(s, status);
    if |s| > 0 {
      var prefix := s[..|s| - 1];
      assert forall k :: 0 <= k < |prefix| ==> WellFormed(prefix[k]) by {
        forall k | 0 <= k < |prefix|
          ensures WellFormed(prefix[k])
        {
          assert prefix[k] == s[k];
        }
      }
      NonOkNeverCounted(prefix, status);
      assert WellFormed(s[|s| - 1]);
    }
  }

  /** A run in which every request succeeds counts them all as successes,
      with one sample each, and logs nothing. */
  lemma {:induction false} AllSucceed(s: seq<RequestResult>)
    requires forall k :: 0 <= k < |s| ==> s[k].success
    ensures SuccessCount(s) == |s| && FailureCount(s) == 0
    ensures |ResponseTimes(s)| == |s| && ErrorLog(s) == []
  {
    if |s| > 0 {
      AllSucceed(s[..|s| - 1]);
    }
  }

  /** A run in which every request fails (a server that always answers 500,
      say) has no successes, no latency samples and no status counts. */
  lemma {:induction false} AllFail(s: seq<RequestResult>)
    requires forall k :: 0 <= k < |s| ==> !s[k].success
    ensures SuccessCount(s) == 0 && FailureCount(s) == |s|
    ensures ResponseTimes(s) == [] && Histogram(s) == map[] && TotalBytes(s) == 0
  {
    if |s| > 0 {
      AllFail(s[..|s| - 1]);
    }
  }

  // ---------------------------------------------------------------------
  // The callback as a step on the counters
  // ---------------------------------------------------------------------

  /** The fields of a run that the per-result callback maintains, with the
      `completed` and `totalBytes` counters kept beside the run. */
  datatype Tally = Tally(
    completed: nat,
    successful: nat,
    failed: nat,
    totalBytes: nat,
    responseTimes: seq<real>,
    statusCodes: map<string, nat>,
    errors: seq<string>)

  const EmptyTally := Tally(0, 0, 0, 0, [], map[], [])

  /** The callback of bench.ts:276-294 on the counters: a success is
      counted, its latency sampled, its bytes added and its status key
      bumped; a failure is counted and its error, if it has a non-empty
      one, logged. */
  function Next(t: Tally, r: RequestResult): Tally
  {
    if r.success then
      t.(completed := t.completed + 1,
         successful := t.successful + 1,
         responseTimes := t.responseTimes + [r.time],
         totalBytes := t.totalBytes + r.bytes,
         statusCodes := Bump(t.statusCodes, Decimal(r.status)))
    else
      t.(completed := t.completed + 1,
         failed := t.failed + 1,
         errors := if IsLoggedError(r) then t.errors + [r.error.value] else t.errors)
  }

  /** The counters after a sequence of results: the callback applied to
      each in turn, starting from zero. */
  function TallyOf(s: seq<RequestResult>): Tally
  {
    if |s| == 0 then EmptyTally else Next(TallyOf(s[..|s| - 1]), s[|s| - 1])
  }

  /** Delivering one more result is one step of the callback. */
  lemma TallyOfAppend(s: seq<RequestResult>, r: RequestResult)
    ensures TallyOf(s + [r]) == Next(TallyOf(s), r)
  {
    assert (s + [r])[..|s|] == s;
  }

  /** The step-by-step counters agree with the counting definitions: each
      field holds what its definition over the whole sequence says. */
  lemma {:induction false} TallyOfCounts(s: seq<RequestResult>)
    ensures TallyOf(s) == Tally(|s|, SuccessCount(s), FailureCount(s), TotalBytes(s),
                                ResponseTimes(s), Histogram(s), ErrorLog(s))
  {
    if |s| > 0 {
      TallyOfCounts(s[..|s| - 1]);
    }
  }

  /** The invariants the counters keep after every callback. */
  ghost predicate Balanced(t: Tally)
  {
    && t.successful + t.failed == t.completed
    && |t.responseTimes| == t.successful
    && SumValues(t.statusCodes) == t.successful
    && |t.errors| <= t.failed
  }

  /** Whatever results arrive, in whatever order, the counters balance. */
  lemma TallyIsBalanced(s: seq<RequestResult>)
    ensures Balanced(TallyOf(s))
  {
    TallyOfCounts(s);
    CountsPartition(s);
    OneSamplePerSuccess(s);
    HistogramTotal(s);
    ErrorsAtMostFailures(s);
  }

  // ---------------------------------------------------------------------
  // Derived statistics
  // ---------------------------------------------------------------------

  /** `(successful / total) * 100`. */
  function SuccessRate(successful: nat, total: nat): (r: real)
    requires total > 0
    ensures r >= 0.0
  {
    successful as real / total as real * 100.0
  }

  /** The success rate is a percentage, and it is 100 exactly when every
      request succeeded. */
  lemma SuccessRateIsPercentage(successful: nat, total: nat)
    requires total > 0 && successful <= total
    ensures SuccessRate(successful, total) <= 100.0
    ensures SuccessRate(successful, total) == 100.0 <==> successful == total
  {
    var ratio := successful as real / total as real;
    assert ratio * total as real == successful as real;
  }

  /** `amount / (durationMillis / 1000)`: a per-second rate over a duration
      in milliseconds. */
  function PerSecond(amount: nat, durationMillis: int): (r: real)
    requires durationMillis > 0
    ensures r >= 0.0
  {
    amount as real / (durationMillis as real / 1000.0)
  }

  /** The rate is the amount per second: over the duration it adds up to
      the amount again. */
  lemma PerSecondIsRate(amount: nat, durationMillis: int)
    requires durationMillis > 0
    ensures PerSecond(amount, durationMillis) * (durationMillis as real / 1000.0) == amount as real
  {
  }

  /** The fields a run derives once it is over. */
  datatype Summary = Summary(
    successRate: real,
    totalDuration: int,
    rps: real,
    throughput: real,
    latency: Latency)

  /** bench.ts:300-315: what a run derives at its end from its counters,
      its latency samples, the number of requests it issued and its
      duration. The latency block is computed only when some request
      succeeded; otherwise the previous one is kept. */
  function Finalise(successful: nat, totalBytes: nat, times: seq<real>, total: nat,
                    durationMillis: int, previous: Latency): (s: Summary)
    requires total > 0 && durationMillis > 0
    ensures s.totalDuration == durationMillis
    ensures s.successRate >= 0.0 && s.rps >= 0.0 && s.throughput >= 0.0
    ensures |times| == 0 ==> s.latency == previous
    ensures |times| > 0 ==>
              && s.latency.min <= s.latency.p50 <= s.latency.p75 <= s.latency.p90
              && s.latency.p90 <= s.latency.p95 <= s.latency.p99 <= s.latency.max
              && s.latency.min <= s.latency.avg <= s.latency.max
              && s.latency.min in times && s.latency.max in times
  {
    var latency := if |times| > 0 then LatencyIsOrdered(times); LatencyOf(times) else previous;
    Summary(SuccessRate(successful, total), durationMillis,
            PerSecond(successful, durationMillis), PerSecond(totalBytes, durationMillis),
            latency)
  }

  /** The figures of a finished run that `calculateScore` reads. */
  function ScoredFigures(s: Summary): Scoring.Metrics
  {
    Scoring.Metrics(s.rps, s.successRate, s.latency.avg, s.latency.p95, s.latency.p99)
  }

  /** A run whose successes do not exceed its requests and whose elapsed
      times are never negative ends with figures `calculateScore` can rate:
      non-negative rates and latencies and a success rate in [0, 100]. */
  lemma FinalisedIsPlausible(successful: nat, totalBytes: nat, times: seq<real>, total: nat,
                             durationMillis: int, previous: Latency)
    requires total > 0 && durationMillis > 0 && successful <= total
    requires forall k :: 0 <= k < |times| ==> times[k] >= 0.0
    requires previous.avg >= 0.0 && previous.p95 >= 0.0 && previous.p99 >= 0.0
    ensures Scoring.Plausible(ScoredFigures(Finalise(successful, totalBytes, times, total, durationMillis, previous)))
  {
    SuccessRateIsPercentage(successful, total);
    var s := Finalise(successful, totalBytes, times, total, durationMillis, previous);
    if |times| > 0 {
      assert s.latency.min >= 0.0;
    }
  }

  // ---------------------------------------------------------------------
  // The run object
  // ---------------------------------------------------------------------

  /** The `BenchmarkResult` of one run, together with the two counters that
      `runBenchmark` keeps beside it in local variables (`completed` and
      `totalBytes`). The fields that the run derives at its end (success
      rate, duration, rates and latency statistics) are held together in
      one `Summary` value. The start and end timestamps are replaced by the
      duration handed to `Finish`. */
  class BenchmarkRun {
    const name: string
    const url: string
    const total: nat
    var successful: nat
    var failed: nat
    var completed: nat
    var totalBytes: nat
    var responseTimes: seq<real>
    var statusCodes: map<string, nat>
    var errors: seq<string>
    var stats: Summary
    /** The results delivered to the callback so far. */
    ghost var seen: seq<RequestResult>

    /** The counters are what the delivered results make of them. */
    ghost predicate Valid()
      reads this
    {
      Counters() == TallyOf(seen)
    }

    function Counters(): Tally
      reads this
    {
      Tally(completed, successful, failed, totalBytes, responseTimes, statusCodes, errors)
    }

    /** The initial `results` object of bench.ts:223-246: all counts and
        statistics 0 and all collections empty. */
    constructor (name: string, url: string, total: nat)
      ensures Valid() && seen == []
      ensures this.name == name && this.url == url && this.total == total
      ensures Counters() == EmptyTally
      ensures stats == Summary(0.0, 0, 0.0, 0.0, NoLatency)
    {
      this.name, this.url, this.total := name, url, total;
      successful, failed, completed, totalBytes := 0, 0, 0, 0;
      responseTimes, statusCodes, errors := [], map[], [];
      stats := Summary(0.0, 0, 0.0, 0.0, NoLatency);
      seen := [];
    }

    /** The per-result callback of bench.ts:276-294, without the progress
        bar. The counters take one step and stay balanced. */
    method Record(r: RequestResult)
      requires Valid()
      modifies this
      ensures Valid() && seen == old(seen) + [r]
      ensures Counters() == Next(old(Counters()), r)
      ensures Balanced(Counters())
      ensures stats == old(stats)
    {
      ghost var delivered := seen + [r];
      ghost var next := Next(Counters(), r);
      assert TallyOf(delivered) == next && Balanced(next) by {
        TallyOfAppend(seen, r);
        TallyIsBalanced(delivered);
      }
      if r.success {
        CountSuccess(r);
      } else {
        CountFailure(r);
      }
      seen := delivered;
    }

    /** The success branch of the callback. */
    method CountSuccess(r: RequestResult)
      requires r.success
      modifies this
      ensures Counters() == Next(old(Counters()), r)
      ensures seen == old(seen) && stats == old(stats)
    {
      completed := completed + 1;
      successful := successful + 1;
      responseTimes := responseTimes + [r.time];
      totalBytes := totalBytes + r.bytes;
      var statusKey := Decimal(r.status);
      statusCodes := statusCodes[statusKey := Lookup(statusCodes, statusKey) + 1];
    }

    /** The failure branch of the callback. */
    method CountFailure(r: RequestResult)
      requires !r.success
      modifies this
      ensures Counters() == Next(old(Counters()), r)
      ensures seen == old(seen) && stats == old(stats)
    {
      completed := completed + 1;
      failed := failed + 1;
      if r.error.Some? && r.error.value != "" {
        errors := errors + [r.error.value];
      }
    }

    /** The end of `runBenchmark` (bench.ts:300-315). Both rates divide by
        the duration, which the source does not guard: it must be positive
        here. */
    method Finish(durationMillis: int)
      requires Valid() && total > 0 && durationMillis > 0
      modifies this
      ensures Valid() && seen == old(seen) && Counters() == old(Counters())
      ensures stats ==
                Finalise(successful, totalBytes, responseTimes, total, durationMillis, old(stats.latency))
    {
      stats := Finalise(successful, totalBytes, responseTimes, total, durationMillis, stats.latency);
    }
  }
}
