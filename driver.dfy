/** `runConcurrentRequests` (bench.ts:176-209) and `runBenchmark`
    (bench.ts:221-322). The network is an input: `network(k)` is what the
    `k`-th request issued by one call produced, the reply and the elapsed
    time. Requests of one batch run concurrently in the source, but
    `Promise.all` delivers their results in issuance order, so the model
    issues them one after another. */
module Driver {
  import opened Numeric
  import opened Text
  import opened Request
  import opened Stats
  import opened Aggregate

  const WARMUP_REQUESTS: nat := 10
  const BENCHMARK_REQUESTS: nat := 100000
  const CONCURRENCY: nat := 10
  const PATH: string := "/"

  // ---------------------------------------------------------------------
  // Reference definitions
  // ---------------------------------------------------------------------

  /** The results of the first `n` requests, in issuance order. */
  function Issued(network: nat -> Exchange, n: nat): (r: seq<RequestResult>)
    ensures |r| == n
    ensures forall k :: 0 <= k < n ==> r[k] == MakeRequest(network(k))
  {
    if n == 0 then [] else Issued(network, n - 1) + [MakeRequest(network(n - 1))]
  }

  /** The batch sizes of `count` requests with at most `size` at a time:
      full batches while more than `size` remain, then the rest. */
  function Plan(count: nat, size: nat): seq<nat>
    requires size > 0
    decreases count
  {
    if count == 0 then []
    else if count <= size then [count]
    else [size] + Plan(count - size, size)
  }

  /** `Math.min(batchSize, count - b * batchSize)`: the size of batch `b`. */
  function BatchSize(count: nat, size: nat, b: int): int
  {
    MinInt(size, count - b * size)
  }

  /** Batch `j` has the size the formula gives it, for every batch. */
  ghost predicate SizedAsPlanned(batches: seq<seq<RequestResult>>, count: nat, size: nat)
  {
    forall j :: 0 <= j < |batches| ==> |batches[j]| == BatchSize(count, size, j)
  }

  lemma SizedAsPlannedExtend(batches: seq<seq<RequestResult>>, next: seq<RequestResult>, count: nat, size: nat)
    requires SizedAsPlanned(batches, count, size)
    requires |next| == BatchSize(count, size, |batches|)
    ensures SizedAsPlanned(batches + [next], count, size)
  {
    var extended := batches + [next];
    forall j | 0 <= j < |extended| ensures |extended[j]| == BatchSize(count, size, j) {
      if j < |batches| {
        assert extended[j] == batches[j];
      }
    }
  }

  lemma FlattenAppend(batches: seq<seq<RequestResult>>, next: seq<RequestResult>)
    ensures Flatten(batches + [next]) == Flatten(batches) + next
  {
    assert (batches + [next])[..|batches|] == batches;
  }

  /** The batches one after another. */
  function Flatten(batches: seq<seq<RequestResult>>): seq<RequestResult>
  {
    if |batches| == 0 then []
    else Flatten(batches[..|batches| - 1]) + batches[|batches| - 1]
  }

  // ---------------------------------------------------------------------
  // The batch plan
  // ---------------------------------------------------------------------

  /** `Math.ceil(count / batchSize)` batches. */
  lemma {:induction false} PlanLength(count: nat, size: nat)
    requires size > 0
    ensures |Plan(count, size)| == CeilDiv(count, size)
    decreases count
  {
    if count == 0 {
      CeilDivUnique(0, size, 0);
    } else if count <= size {
      CeilDivUnique(count, size, 1);
    } else {
      PlanLength(count - size, size);
      var c := CeilDiv(count - size, size);
      CeilDivUnique(count, size, c + 1);
    }
  }

  /** Batch `b` has `Math.min(batchSize, count - b * batchSize)` requests. */
  lemma {:induction false} PlanElement(count: nat, size: nat, b: nat)
    requires size > 0 && b < |Plan(count, size)|
    ensures Plan(count, size)[b] == BatchSize(count, size, b)
    decreases count
  {
    if b > 0 {
      PlanElement(count - size, size, b - 1);
      assert count - size - (b - 1) * size == count - b * size;
    }
  }

  /** The batch sizes add up to `count`. */
  lemma {:induction false} PlanSum(count: nat, size: nat)
    requires size > 0
    ensures SumNat(Plan(count, size)) == count
    decreases count
  {
    if count > size {
      PlanSum(count - size, size);
    }
  }

  /** Every batch is full except possibly the last, which is not empty. */
  lemma {:induction false} PlanShape(count: nat, size: nat)
    requires size > 0
    ensures forall j :: 0 <= j < |Plan(count, size)| ==> 1 <= Plan(count, size)[j] <= size
    ensures forall j :: 0 <= j < |Plan(count, size)| - 1 ==> Plan(count, size)[j] == size
    decreases count
  {
    if count > size {
      PlanShape(count - size, size);
      var p, rest := Plan(count, size), Plan(count - size, size);
      assert p == [size] + rest;
      forall j | 1 <= j < |p|
        ensures 1 <= p[j] <= size && (j < |p| - 1 ==> p[j] == size)
      {
        assert p[j] == rest[j - 1];
      }
    }
  }

  /** 23 requests at 10 at a time go out as 10, 10 and 3. */
  lemma PlanExample()
    ensures Plan(23, 10) == [10, 10, 3]
  {
  }

  /** The batch sizes of the source's formula are the plan: as many
      batches and the same size for each. */
  lemma FormulaIsPlan(count: nat, size: nat)
    requires size > 0
    ensures |Plan(count, size)| == CeilDiv(count, size)
    ensures forall j :: 0 <= j < CeilDiv(count, size) ==> Plan(count, size)[j] == BatchSize(count, size, j)
  {
    PlanLength(count, size);
    forall j | 0 <= j < CeilDiv(count, size)
      ensures Plan(count, size)[j] == BatchSize(count, size, j)
    {
      PlanElement(count, size, j);
    }
  }

  // ---------------------------------------------------------------------
  // The driver
  // ---------------------------------------------------------------------

  /** `runConcurrentRequests(count, url, onResult)`: issues `count`
      requests in batches of `CONCURRENCY`, collects every result in
      issuance order and, when there is a callback, hands it each result
      in that same order. The ghost `batches` records what each batch
      returned. */
  method RunConcurrentRequests(count: nat, network: nat -> Exchange, onResult: BenchmarkRun?)
    returns (results: seq<RequestResult>, ghost batches: seq<seq<RequestResult>>)
    requires onResult != null ==> onResult.Valid()
    modifies onResult
    ensures results == Issued(network, count)
    ensures |batches| == CeilDiv(count, CONCURRENCY)
    ensures SizedAsPlanned(batches, count, CONCURRENCY)
    ensures Flatten(batches) == results
    ensures onResult != null ==>
              onResult.Valid() && onResult.seen == old(onResult.seen) + results
              && onResult.stats == old(onResult.stats)
  {
    results := [];
    batches := [];
    var batchSize := CONCURRENCY;
    var batchCount := CeilDiv(count, batchSize);
    ghost var before := if onResult != null then onResult.seen else [];
    var b := 0;
    while b < batchCount
      invariant 0 <= b <= batchCount
      invariant |results| == MinInt(count, b * batchSize)
      invariant results == Issued(network, |results|)
      invariant |batches| == b && Flatten(batches) == results
      invariant SizedAsPlanned(batches, count, batchSize)
      invariant onResult != null ==>
                  onResult.Valid() && onResult.seen == before + results
                  && onResult.stats == old(onResult.stats)
    {
      BatchStart(count, batchSize, batchCount, b);
      var currentBatchSize := BatchSize(count, batchSize, b);
      var batchResults := IssueBatch(network, |results|, currentBatchSize);
      ghost var prior := results;
      results := results + batchResults;
      SizedAsPlannedExtend(batches, batchResults, count, batchSize);
      FlattenAppend(batches, batchResults);
      batches := batches + [batchResults];
      if onResult != null {
        Deliver(batchResults, onResult);
        AppendAssociative(before, prior, batchResults);
      }
      b := b + 1;
    }
    BatchEnd(count, batchSize, batchCount);
  }

  /** Batch `b` of `batchCount` starts at request `b * size`, before the
      end, and ends where the next one starts or at the end. */
  lemma BatchStart(count: nat, size: nat, batchCount: int, b: nat)
    requires size > 0 && batchCount == CeilDiv(count, size) && b < batchCount
    ensures b * size < count
    ensures MinInt(count, b * size) + BatchSize(count, size, b) == MinInt(count, (b + 1) * size)
  {
    MulMonotone(b, batchCount - 1, size);
  }

  /** Regrouping what the callback has seen. Dafny knows this equation, but
      stated inline in `RunConcurrentRequests` it leaves the loop's proof
      with more to search through than the resource limit allows; called as
      a lemma it keeps that proof small. */
  lemma AppendAssociative(a: seq<RequestResult>, b: seq<RequestResult>, c: seq<RequestResult>)
    ensures a + b + c == a + (b + c)
  {
  }

  /** After the last batch every request has gone out. */
  lemma BatchEnd(count: nat, size: nat, batchCount: int)
    requires size > 0 && batchCount == CeilDiv(count, size) && batchCount >= 0
    ensures MinInt(count, batchCount * size) == count
  {
  }

  /** The inner loop of bench.ts:192-194: the next `n` requests, starting
      at request `start`. */
  method IssueBatch(network: nat -> Exchange, start: nat, n: int) returns (promises: seq<RequestResult>)
    requires n >= 0
    ensures Issued(network, start) + promises == Issued(network, start + n)
  {
    promises := [];
    var i := 0;
    while i < n
      invariant 0 <= i <= n
      invariant Issued(network, start) + promises == Issued(network, start + i)
    {
      promises := promises + [MakeRequest(network(start + i))];
      i := i + 1;
    }
  }

  /** bench.ts:200-205: the callback on each result of a batch, in order. */
  method Deliver(batchResults: seq<RequestResult>, onResult: BenchmarkRun)
    requires onResult.Valid()
    modifies onResult
    ensures onResult.Valid() && onResult.seen == old(onResult.seen) + batchResults
    ensures onResult.stats == old(onResult.stats)
  {
    var j := 0;
    while j < |batchResults|
      invariant 0 <= j <= |batchResults|
      invariant onResult.Valid() && onResult.seen == old(onResult.seen) + batchResults[..j]
      invariant onResult.stats == old(onResult.stats)
    {
      onResult.Record(batchResults[j]);
      assert batchResults[..j + 1] == batchResults[..j] + [batchResults[j]];
      j := j + 1;
    }
    assert batchResults[..j] == batchResults;
  }

  /** bench.ts:250-256: `WARMUP_REQUESTS` requests without a callback,
      whose results are dropped. */
  method WarmUp(network: nat -> Exchange)
  {
    var discarded, _ := RunConcurrentRequests(WARMUP_REQUESTS, network, null);
  }

  /** bench.ts:258-297: `run.total` requests, each handed to the callback
      of a run that has seen nothing yet. */
  method Measure(run: BenchmarkRun, network: nat -> Exchange)
    requires run.Valid() && run.seen == []
    modifies run
    ensures run.Valid() && run.seen == Issued(network, run.total)
    ensures run.stats == old(run.stats)
  {
    var results, _ := RunConcurrentRequests(run.total, network, run);
    assert run.seen == [] + results == results;
  }

  /** `runBenchmark(name, url)`: a warm-up of `WARMUP_REQUESTS` whose
      results are discarded, then `BENCHMARK_REQUESTS` measured requests
      aggregated by the callback, then the derived statistics over the
      measured duration. */
  method RunBenchmark(name: string, url: string, warmup: nat -> Exchange,
                      measured: nat -> Exchange, durationMillis: int)
    returns (run: BenchmarkRun)
    requires durationMillis > 0
    ensures fresh(run)
    ensures run.name == name && run.url == url + PATH && run.total == BENCHMARK_REQUESTS
    ensures run.Valid() && run.seen == Issued(measured, run.total)
    ensures run.stats == Finalise(run.successful, run.totalBytes, run.responseTimes,
                                  run.total, durationMillis, NoLatency)
  {
    var fullUrl := url + PATH;
    run := new BenchmarkRun(name, fullUrl, BENCHMARK_REQUESTS);
    WarmUp(warmup);
    Measure(run, measured);
    run.Finish(durationMillis);
  }
}
