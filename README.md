# A verified model of the bench.ts benchmark engine

`bench.ts` benchmarks two HTTP servers against each other. For each server it:

1. sends a warm-up of 10 requests;
2. sends 100 000 measured requests, 10 at a time in synchronised batches;
3. aggregates every result into a `BenchmarkResult` through a callback;
4. derives success rate, throughput and latency percentiles at the end.

It then scores the two runs against each other and prints a verdict in a box.

This project models the deterministic core of that engine in Dafny and proves properties of the model:

- **Request** — `makeRequest` as a pure map. An arrived response (status, body length) or a thrown error (message), plus the elapsed time, becomes a `RequestResult`.
- **Driver** — `runConcurrentRequests` as an imperative method. It has a loop over batches and an inner loop that issues each batch. It delivers every result to an optional callback (a `BenchmarkRun`, or `null` for the warm-up). `runBenchmark` chains the warm-up, the measured phase and the final statistics.
- **Aggregate** — the `BenchmarkResult` as a class whose fields the callback updates in place.
  - A `Tally` datatype with a step function `Next` is the reference for one callback.
  - `TallyOf` applies `Next` to a whole sequence of results.
  - Counting functions over the delivered sequence say what each field holds.
  - Lemmas prove the invariants after any sequence of results.
- **Stats** — the nearest-rank `percentile` over a sorted copy, plus mean, minimum and maximum.
- **Scoring** — `calculateScore`, the two percentages and the verdict computed in `main`.
- **Layout** — `createBox` and `createTable`, over the string operations of **Text** (`repeat`, `padEnd`, `split`, `join`).
- **Counts** — the `statusCodes` dictionary: `(m[k] || 0) + 1` and the sum of its values.
- **Numeric** — `Math.ceil` of an integer quotient and `Math.min` / `Math.max`.

What the environment does is an input:

- For each request, a function `nat -> Exchange` gives what the `k`-th request of one driver call produced: a reply and the elapsed milliseconds.
- The measured duration is a positive parameter of `RunBenchmark`.

Latencies, rates and scores are exact `real`s. Counts and byte lengths are `nat`s.

Two facts about the code that the model keeps:

- **Histogram.** Only successful results are counted in `statusCodes` (bench.ts:280-287). A non-2xx status that arrived is never counted (`Aggregate.NonOkNeverCounted`).
- **Delivery order.** The callback receives the array `Promise.all` returns, in issuance order (bench.ts:196-205). So `onResult` sees the results exactly in `results` order.

Below 1 ms the latency terms of `calculateScore` divide by 1, not by the latency. A side below 1 ms therefore scores the smaller of the two latencies itself. When both latencies are below 1 ms, both sides score the smaller one, so the faster server no longer scores 1 (`Scoring.SubMillisecondLatencyIsSymmetric`). A run with no success keeps its latency fields at 0, and that gives the other side a latency sub-score of 0 (`Scoring.ZeroLatencyCancelsScore`).

## Model

| member | source | states |
|---|---|---|
| Numeric.MinInt | bench.ts:189 | `Math.min` of two integers: at most each argument and equal to one of them |
| Numeric.MinReal | bench.ts:340-345 | `Math.min` of two reals: at most each argument and equal to one of them |
| Numeric.MaxReal | bench.ts:336 | `Math.max` of two reals: at least each argument and equal to one of them |
| Numeric.AbsReal | bench.ts:544 | `Math.abs`: never negative, and equal to the argument or its negation |
| Numeric.CeilDiv | bench.ts:186 | `Math.ceil(a / b)` for a positive divisor: the least `r` with `r * b >= a` |
| Numeric.CeilDivUnique | bench.ts:186 | any integer with the two defining bounds of the ceiling is the ceiling |
| Text.Repeat | bench.ts:31-32 | `c.repeat(n)` has length `n` and every character is `c` |
| Text.PadEnd | bench.ts:55 | `padEnd(w)`: a shorter string is padded to exactly `w` with spaces after its text; a string at least `w` long is unchanged |
| Text.Split | bench.ts:28 | `split` on one character always yields at least one piece |
| Text.SplitHasNoSeparator | bench.ts:28 | no piece of a split contains the separator |
| Text.JoinSplit | bench.ts:28 | joining the pieces of a split with the separator gives the string back |
| Text.SplitJoin | bench.ts:38 | splitting a join of separator-free pieces gives the pieces back |
| Text.Join | bench.ts:38 | no own contract; `join` is characterised by `JoinSplit`, `SplitJoin` and `JoinLength` |
| Text.JoinLength | bench.ts:54-56 | a join is as long as its pieces plus one separator between each two |
| Layout.MaxLength | bench.ts:29 | the maximum line length bounds every line and is reached by one of them |
| Layout.BoxWidth | bench.ts:29 | no own contract; the longest line plus `padding` on each side, stated by `BoxLinesShape` and `BoxRightPadding` |
| Layout.FramedLine | bench.ts:35-37 | a framed line is `width + 2` characters wide |
| Layout.FramedLineShape | bench.ts:35-37 | a framed line opens and closes with the frame, keeps its text right after the frame and `padding` spaces, has only spaces from the end of the text to the right frame, and so ends in at least `padding` spaces before the frame |
| Layout.BoxRule | bench.ts:31-32 | the top and bottom rules are `width + 2` characters wide |
| Layout.BoxLines | bench.ts:28-38 | no own contract; `[top, ...paddedLines, bottom]`, stated by `BoxLinesShape`, `BoxLinesHaveNoBreak` and `BoxSplits` |
| Layout.FramedLines | bench.ts:34-36 | no own contract; `lines.map(...)`, stated by `BoxLinesShape` |
| Layout.BoxLinesHaveNoBreak | bench.ts:27-38 | no line of the box contains a line break |
| Layout.BoxSplits | bench.ts:38 | splitting the box at its line breaks gives back exactly its lines |
| Layout.BoxLinesShape | bench.ts:27-38 | the box has `lines.length + 2` lines: the top rule, each text line framed, the bottom rule; all `maxLen + 2*padding + 2` wide |
| Layout.BoxRightPadding | bench.ts:29-37 | for every text line of the box, `width - line.length - padding >= padding`, and the last `padding` characters before the right frame of every framed line are spaces |
| Layout.CreateBox | bench.ts:27-39 | no own contract; stated by `BoxShape`, `BoxSplits` and `BoxRightPadding` |
| Layout.BoxShape | bench.ts:27-39 | the same, stated about the string `createBox` returns |
| Layout.CellAt | bench.ts:46 | no own contract; `row[i] \|\| ""`: a missing cell reads as the empty string, stated through `ColumnMax` and `ColWidths` |
| Layout.ColumnMax | bench.ts:43-48 | the longest cell of a column bounds every cell of it (a missing cell reads as "") and is reached by one, or is 0 |
| Layout.ColWidths | bench.ts:43-48 | one width per header, at least 2 wider than the header and every cell of its column, and exactly 2 wider than the widest of them |
| Layout.RuleLine | bench.ts:51-68 | no own contract; stated by `RuleLineWidth` and `RuleLineHasNoBreak` |
| Layout.RowLine | bench.ts:54-63 | no own contract; stated by `RowLineWidth`, `PaddedCell` and `RowLineHasNoBreak` |
| Layout.RuleLineWidth | bench.ts:66-68 | every horizontal rule is as wide as the table line width |
| Layout.RowLineWidth | bench.ts:54-63 | a row with one cell per column is as wide as the rules |
| Layout.PadCell | bench.ts:59-63 | no own contract; `cell.padEnd(colWidths[i])`, which leaves a cell past the last column unchanged, stated by `PaddedCell` and `RowLineWidth` |
| Layout.PaddedCell | bench.ts:59-63 | a padded cell starts with its text, fills its column exactly, and everything after the text is a space, at least two of them |
| Layout.RowLines | bench.ts:59-63 | no own contract; `rows.map(row => ...)`, stated by `TableShape` and `TableSplits` |
| Layout.TableLines | bench.ts:66-70 | no own contract; `[top, headerRow, headerSep, ...dataRows, bottom]`, stated by `TableShape` and `TableSplits` |
| Layout.CreateTable | bench.ts:41-71 | no own contract; stated by `TableShape` and `TableSplits` |
| Layout.TableShape | bench.ts:41-71 | with one cell per header in every row, the table has `rows.length + 4` lines, all of the same width |
| Layout.RowLineHasNoBreak | bench.ts:54-63 | a row whose cells have no line break contains none |
| Layout.RuleLineHasNoBreak | bench.ts:66-68 | a horizontal rule contains no line break |
| Layout.TableSplits | bench.ts:70 | without line breaks in the cells, splitting the table at line breaks gives back exactly its lines |
| Request.IsOkStatus | bench.ts:156 | no own contract; `response.ok`, a status from 200 to 299, stated through `MakeRequest` and `Aggregate.NonOkNeverCounted` |
| Request.MakeRequest | bench.ts:123-173 | a thrown error gives a failure with status 0, no bytes and the message; a response gives its real status and byte count, no error, and success exactly for 200-299; the elapsed time is kept |
| Request.MakeRequestIsInvertible | bench.ts:149-170 | every result is well formed and the reply can be read back from it |
| Request.WellFormedIsMade | bench.ts:149-170 | conversely, every well-formed result is what `makeRequest` makes of the reply read back from it |
| Request.AnsweredVersusUnanswered | bench.ts:155-169 | a response with a nonzero status keeps it and has no error; a thrown error has status 0 and an error |
| Stats.Min | bench.ts:305 | `Math.min(...times)` is a sample at or below every sample |
| Stats.Max | bench.ts:306 | `Math.max(...times)` is a sample at or above every sample |
| Stats.Sum | bench.ts:304 | no own contract; the `reduce` over the samples, stated by `SumBounds` |
| Stats.Mean | bench.ts:304 | no own contract; stated by `MeanBounds` and `MeanBetweenMinAndMax` |
| Stats.SumBounds | bench.ts:304 | a sum of `n` values in `[lo, hi]` lies in `[n*lo, n*hi]` |
| Stats.MeanBounds | bench.ts:304 | the average of values in `[lo, hi]` lies in `[lo, hi]` |
| Stats.MeanBetweenMinAndMax | bench.ts:304-306 | min <= avg <= max |
| Stats.Insert | bench.ts:215 | inserting into a sorted sequence keeps it sorted and adds exactly that element |
| Stats.Sort | bench.ts:215 | the sorted copy is sorted and a permutation of the samples |
| Stats.CountBelowSort | bench.ts:215 | sorting does not change how many samples lie (strictly) below a value |
| Stats.SortedRankAtOrBelow | bench.ts:215-217 | in a sorted sequence, at least `k + 1` elements are at or below the element at index `k` |
| Stats.SortedRankBelow | bench.ts:215-217 | in a sorted sequence, at most `k` elements are strictly below the element at index `k` |
| Stats.RankIndex | bench.ts:216-217 | `max(0, ceil(p*n/100) - 1)` lies in `[0, n-1]` for p <= 100 |
| Stats.Percentile | bench.ts:212-218 | 0 for no samples, otherwise one of the samples |
| Stats.PercentileIsNearestRank | bench.ts:212-218 | for 0 < p <= 100, at least p% of the samples are at or below the percentile and fewer than p% strictly below it |
| Stats.PercentileMonotone | bench.ts:212-218 | a larger p never gives a smaller percentile |
| Stats.PercentileHundredIsMax | bench.ts:212-218 | p = 100 gives the maximum |
| Stats.PercentileZeroIsMin | bench.ts:212-218 | p <= 0 clamps the index to 0 and gives the minimum |
| Stats.PercentileBounds | bench.ts:212-218 | every percentile lies between min and max |
| Stats.SortedElementBounds | bench.ts:215-217 | every element of the sorted copy lies between min and max |
| Stats.NoLatency | bench.ts:233-240 | no own contract; the initial zero latency figures, which `Aggregate.Finalise` keeps when there are no samples |
| Stats.LatencyOf | bench.ts:304-311 | no own contract; stated by `LatencyIsOrdered` and `Aggregate.Finalise` |
| Stats.LatencyIsOrdered | bench.ts:303-312 | min <= p50 <= p75 <= p90 <= p95 <= p99 <= max and min <= avg <= max |
| Counts.Bump | bench.ts:287 | no own contract; stated by `SumValuesBump` and `Aggregate.HistogramCounts` |
| Counts.Lookup | bench.ts:287 | no own contract; `(statusCodes[statusKey] \|\| 0)`: a missing key reads as 0, stated through `SumValuesBump` |
| Counts.SumValuesRemove | bench.ts:287 | the sum of a dictionary's counts is independent of the key taken out first |
| Counts.SumValuesUpdate | bench.ts:287 | setting a key replaces what that key contributed to the sum |
| Counts.SumValuesBump | bench.ts:287 | bumping a key, with a missing key read as 0, adds exactly one to the sum of the counts |
| Aggregate.Decimal | bench.ts:286 | `status.toString()` consists of decimal digits only, has at least one digit and at least two from 10 on, and has no leading zero except for 0 itself |
| Aggregate.Digit | bench.ts:286 | one decimal digit of `toString`: a character from '0' to '9', and not '0' for a nonzero digit |
| Aggregate.DecimalInjective | bench.ts:286 | different statuses have different keys |
| Aggregate.CountsPartition | bench.ts:277-293 | every delivered result is counted exactly once: successful + failed == completed |
| Aggregate.OneSamplePerSuccess | bench.ts:280-282 | `responseTimes.length == successful` |
| Aggregate.HistogramTotal | bench.ts:285-287 | the counts in `statusCodes` add up to `successful` |
| Aggregate.HistogramCounts | bench.ts:285-287 | the count under a status key is the number of successes with that status |
| Aggregate.ErrorsAtMostFailures | bench.ts:288-292 | `errors.length <= failed` |
| Aggregate.IsLoggedError | bench.ts:288-292 | no own contract; `if (result.error)` with JavaScript truthiness: only a failure with a non-empty message is logged, stated by `OnlyThrownErrorsLogged` and `ErrorsAtMostFailures` |
| Aggregate.OnlyThrownErrorsLogged | bench.ts:290-292 | results that all carry no error log nothing, whatever their status |
| Aggregate.NonOkNeverCounted | bench.ts:280-287 | among results `makeRequest` made, a status outside 200-299 (including 0) is never counted |
| Aggregate.AllSucceed | bench.ts:280-287 | when every request succeeds, all are successes with one sample each and nothing is logged |
| Aggregate.AllFail | bench.ts:288-293 | when every request fails, there are no successes, samples, status counts or bytes |
| Aggregate.EmptyTally | bench.ts:223-246 | no own contract; the initial counters and empty collections, stated by `BenchmarkRun.constructor` |
| Aggregate.Next | bench.ts:276-294 | no own contract; the reference for one callback, stated by `BenchmarkRun.Record` and `TallyIsBalanced` |
| Aggregate.TallyOf | bench.ts:276-294 | no own contract; the callback over a whole sequence, stated by `TallyOfAppend`, `TallyOfCounts` and `TallyIsBalanced` |
| Aggregate.TallyOfAppend | bench.ts:276-294 | delivering one more result is one callback step |
| Aggregate.TallyOfCounts | bench.ts:276-294 | after any sequence of results each field holds its counting definition: completed, successes, failures, bytes of successes only, the success latencies in order, the status histogram and the non-empty error messages in order |
| Aggregate.TallyIsBalanced | bench.ts:276-294 | whatever results arrive, the four aggregation invariants hold |
| Aggregate.SuccessRate | bench.ts:301 | the success rate is never negative |
| Aggregate.SuccessRateIsPercentage | bench.ts:301 | with successful <= total the rate is at most 100, and 100 exactly when all succeeded |
| Aggregate.PerSecond | bench.ts:314-315 | a per-second rate is never negative |
| Aggregate.PerSecondIsRate | bench.ts:314-315 | the rate times the duration in seconds gives back the amount |
| Aggregate.Finalise | bench.ts:300-315 | rates are non-negative and the duration is the measured one; with no samples the latency block keeps its previous (initial zero) values; otherwise min <= p50 <= ... <= p99 <= max, min <= avg <= max, and min and max are samples |
| Aggregate.FinalisedIsPlausible | bench.ts:300-315 | with successes at most the requests and non-negative elapsed times, the figures `calculateScore` reads are plausible: non-negative rates and latencies and a success rate in [0, 100] |
| Aggregate.ScoredFigures | bench.ts:336-345 | no own contract; the five fields `calculateScore` reads, stated by `FinalisedIsPlausible` |
| Aggregate.BenchmarkRun.constructor | bench.ts:223-246 | a fresh run: nothing delivered, all counts zero, collections empty, statistics zero |
| Aggregate.BenchmarkRun.Record | bench.ts:276-294 | one callback: the counters take exactly one `Next` step, stay balanced, and the statistics are untouched |
| Aggregate.BenchmarkRun.CountSuccess | bench.ts:280-287 | the success branch is one `Next` step |
| Aggregate.BenchmarkRun.CountFailure | bench.ts:288-293 | the failure branch is one `Next` step |
| Aggregate.BenchmarkRun.Finish | bench.ts:300-315 | the statistics become `Finalise` of the counters; the counters are unchanged |
| Driver.WARMUP_REQUESTS | bench.ts:6 | no own contract; 10 warm-up requests, used by `WarmUp` |
| Driver.BENCHMARK_REQUESTS | bench.ts:7 | no own contract; 100 000 measured requests, the `total` promised by `RunBenchmark` |
| Driver.CONCURRENCY | bench.ts:8 | no own contract; 10 requests per batch, stated through `RunConcurrentRequests` and `PlanLength` |
| Driver.PATH | bench.ts:10 | no own contract; the path `"/"` appended to the server URL, stated by `RunBenchmark` |
| Driver.Issued | bench.ts:192-197 | the first `n` results, in issuance order, each what `makeRequest` makes of its exchange |
| Driver.BatchSize | bench.ts:189 | no own contract; stated by `PlanElement`, `FormulaIsPlan` and `BatchStart` |
| Driver.PlanLength | bench.ts:186 | the batch plan has `ceil(count / size)` batches |
| Driver.PlanElement | bench.ts:189 | batch `b` has `min(size, count - b*size)` requests |
| Driver.PlanSum | bench.ts:185-194 | the batch sizes add up to `count` |
| Driver.PlanShape | bench.ts:185-189 | every batch has 1 to `size` requests and all but the last exactly `size` |
| Driver.PlanExample | bench.ts:185-189 | 23 requests at 10 at a time go out as 10, 10 and 3 |
| Driver.FormulaIsPlan | bench.ts:186-189 | the source's batch count and per-batch size formula agree with the plan |
| Driver.SizedAsPlannedExtend | bench.ts:188-197 | a batch of the planned size keeps every batch sized as planned |
| Driver.FlattenAppend | bench.ts:197 | appending a batch appends its results |
| Driver.BatchStart | bench.ts:188-189 | every batch starts before the end and ends where the next one starts |
| Driver.BatchEnd | bench.ts:186-188 | after the last batch all `count` requests have gone out |
| Driver.IssueBatch | bench.ts:190-194 | the inner loop issues exactly the next `n` requests in order |
| Driver.Deliver | bench.ts:200-205 | the callback receives every result of the batch, in order, once |
| Driver.RunConcurrentRequests | bench.ts:176-209 | results are all `count` requests in issuance order; there are `ceil(count/10)` batches sized as planned that flatten to the results; a callback has seen exactly the results, in order, once each |
| Driver.WarmUp | bench.ts:248-256 | no own contract; the warm-up runs `runConcurrentRequests` without a callback and changes no run |
| Driver.Measure | bench.ts:276-294 | the measured phase delivers all `run.total` requests, in order, to a fresh run |
| Driver.RunBenchmark | bench.ts:221-322 | a fresh run for `url + "/"` with total 100 000 that has seen exactly the measured requests in order, with statistics `Finalise` of its counters over the duration |
| Scoring.RpsScore | bench.ts:336 | with non-negative throughputs the score is in [0, 1]; the faster side scores 1 and the slower side its own throughput as a fraction of the faster's |
| Scoring.SuccessRateScore | bench.ts:337 | a percentage in [0, 100] scores in [0, 1], exactly a hundredth of it |
| Scoring.LatencyScore | bench.ts:340-345 | non-negative latencies score in [0, 1]; from 1 ms up, a side at or below the other scores 1 and a slower side the ratio of the other's latency to its own; below 1 ms a side scores the smaller of the two latencies |
| Scoring.LatencyRatio | bench.ts:340-345 | the same four facts about the min/max quotient |
| Scoring.SubMillisecondLatencyIsSymmetric | bench.ts:340-345 | when both latencies are below 1 ms, both sides score the same, the smaller latency |
| Scoring.ZeroLatencyCancelsScore | bench.ts:340-345 | against a latency of 0, any non-negative latency scores 0 |
| Scoring.Score | bench.ts:325-355 | when both runs report plausible figures the weighted score lies in [0, 1] |
| Scoring.WEIGHTS | bench.ts:327-333 | no own contract; the weights 0.35, 0.25, 0.15, 0.15 and 0.10, stated by `WeightsSumToOne` |
| Scoring.WeightsSumToOne | bench.ts:327-333 | 0.35 + 0.25 + 0.15 + 0.15 + 0.10 == 1 |
| Scoring.DominantScoresOne | bench.ts:325-355 | a run at least as fast, fully reliable and at or below every latency (each >= 1 ms) scores exactly 1 |
| Scoring.Percentages | bench.ts:537-538 | the two percentages add up to 100, are 50 each for equal scores, and lie in [0, 100] for non-negative scores |
| Scoring.Decide | bench.ts:544-557 | no own contract; stated by `DecideCharacterised`, `DecideSwap` and `WinnerHasLargerShare` |
| Scoring.TIE_THRESHOLD | bench.ts:548 | no own contract; 0.05, stated by `DecideCharacterised` and `BoundaryIsAWin` |
| Scoring.DecideCharacterised | bench.ts:544-557 | a tie if and only if the scores are less than 0.05 apart; the first wins if and only if it leads by at least 0.05; likewise the second |
| Scoring.DecideSwap | bench.ts:544-557 | swapping the runs swaps the winner and keeps a tie |
| Scoring.BoundaryIsAWin | bench.ts:548 | a difference of exactly 0.05 (0.60 against 0.55) is a win, not a tie |
| Scoring.Improvement | bench.ts:545 | the improvement is never negative, and 0 exactly for equal scores |
| Scoring.ImprovementSymmetric | bench.ts:545 | the improvement does not depend on which run comes first |
| Scoring.Conclude | bench.ts:533-557 | no own contract; stated by `ConcludeSwap` and `IdenticalRunsTie` |
| Scoring.ConcludeSwap | bench.ts:533-557 | comparing in the other order mirrors the scores, percentages and verdict |
| Scoring.IdenticalRunsTie | bench.ts:533-557 | two identical plausible runs with some throughput score equally, 50% each, and tie |
| Scoring.WinnerHasLargerShare | bench.ts:537-557 | the winner's percentage is above 50 |

## Left out

- Requests and time are inputs:
  - the network, `fetch`, its headers and the request body;
  - the `AbortController` timeout (a timed-out request is a thrown error with its message);
  - `performance.now` and the two `Date` timestamps.
  - The duration is a positive parameter, and the timestamps are not stored.
- Real concurrency is not modelled. The model issues each batch sequentially. This loses no order, because `Promise.all` returns results in issuance order.
- Console output is not modelled: colours, the progress bar (bench.ts:267-274), `process.exit` and the server banner.
- `formatNumber`, `formatBytes`, `visualizeResponseTimes` and the recommendations are not modelled. They are floating-point formatting and bucketing outside the core.
- The `try`/`catch` returns of `null` in `runBenchmark` are not modelled. The model assumes that nothing in the `try` block throws. `makeRequest` catches its own errors, but the block also runs:
  - the progress callback, which writes to `process.stdout` (bench.ts:273);
  - `Math.min(...responseTimes)` and `Math.max(...responseTimes)` (bench.ts:305-306), which spread up to 100 000 arguments. JavaScript engines limit the number of arguments per call (JavaScriptCore, the engine Bun uses, to about 65 536), so a run with more successes than that may throw a `RangeError` there and return `null`. The model computes the minimum and maximum by recursion and has no such limit.
- `completedCount` in `runConcurrentRequests` is not modelled: it is incremented but never read.
- The run object makes three layout choices.
  - The closure locals `completed` and `totalBytes` are kept as fields of the run.
  - The fields derived at the end (success rate, duration, rps, throughput and the eight latency figures) are held in one `stats` value of type `Summary`.
  - `name`, `url` and `total` are constants.
- The `├┼┤` separator that `createTable` computes but never prints is not built.
- Floating point is not modelled: all arithmetic is exact.
  - In doubles 0.60 - 0.55 is slightly below 0.05, so JavaScript reports a tie where the model reports a win (`Scoring.BoundaryIsAWin`).
  - The percentile index is computed as the exact `ceil(p*n/100)`, whereas the source computes `Math.ceil((p / 100) * n)` in doubles.
- JavaScript strings are counted in UTF-16 code units. The model represents each UTF-16 unit by one `char`. A surrogate half, such as each half of the 🏆 in the verdict boxes (bench.ts:552, 555), stands for one non-newline placeholder `char`, because a Dafny `char` cannot be a surrogate. This loses nothing, because `createBox` and `createTable` depend only on lengths and on where the line breaks are.
- That `percentile` leaves its input unmodified has no lemma: the samples are a sequence value, and the sort works on a copy by construction.
- Stats.Percentile: `p > 100` is excluded. It would read past the end of the sorted copy, which is `undefined` in JavaScript.
- Scoring.Score: both throughputs 0 is excluded, because `rpsScore` would be NaN.
- Scoring.Percentages: both scores 0 is excluded, because the percentages would be NaN.
- Scoring.Improvement: a zero score is excluded. A run with no success at all scores 0: its throughput, success rate and latency fields are all 0. bench.ts:545 then divides by `Math.min(scoreA, scoreB) == 0` and prints an improvement of `Infinity%`.
- Aggregate.Finish: a zero duration is excluded, because the rates would be Infinity or NaN.
- The `elysia` and `jetpath` servers that are benchmarked are not part of this model.
