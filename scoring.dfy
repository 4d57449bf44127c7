/** The comparison of two finished runs: `calculateScore` (bench.ts:325-355)
    and, from `main` (bench.ts:533-557), the two score percentages and the
    verdict. The score is not symmetric: it rates one run with the other as
    reference, so `main` calls it once in each direction. Scores are exact
    reals; in doubles 0.60 - 0.55 falls just below 0.05. */
module Scoring {
  import opened Numeric

  /** The figures of a run that the score reads. */
  datatype Metrics = Metrics(
    rps: real,
    successRate: real,
    avgResponseTime: real,
    p95: real,
    p99: real)

  /** The weighting factors of `calculateScore`. */
  datatype Weights = Weights(
    rps: real,
    successRate: real,
    avgResponseTime: real,
    p95: real,
    p99: real)

  const WEIGHTS := Weights(0.35, 0.25, 0.15, 0.15, 0.10)

  /** A difference in score below this is reported as negligible. */
  const TIE_THRESHOLD: real := 0.05

  /** What a finished run can report: throughput and latencies are never
      negative and the success rate is a percentage. */
  predicate Plausible(m: Metrics)
  {
    && m.rps >= 0.0
    && 0.0 <= m.successRate <= 100.0
    && m.avgResponseTime >= 0.0 && m.p95 >= 0.0 && m.p99 >= 0.0
  }

  /** `result.rps / Math.max(result.rps, otherResult.rps)`: the faster side
      scores 1 and the slower one its fraction of the faster's throughput. */
  function RpsScore(mine: real, theirs: real): (r: real)
    requires MaxReal(mine, theirs) != 0.0
    ensures 0.0 <= mine && 0.0 <= theirs ==> 0.0 <= r <= 1.0
    ensures mine >= theirs && mine > 0.0 ==> r == 1.0
    ensures mine <= theirs ==> r * theirs == mine
  {
    var best := MaxReal(mine, theirs);
    assert && (0.0 <= mine && 0.0 <= theirs ==> mine / best <= 1.0)
           && (mine >= theirs && mine > 0.0 ==> mine / best == 1.0)
           && mine / best * best == mine by {
      DivTimes(mine, best);
      if 0.0 <= mine && 0.0 <= theirs {
        DivAtMost(mine, best);
      }
      if mine >= theirs && mine > 0.0 {
        DivSelf(best);
      }
    }
    mine / best
  }

  /** `successRate / 100`: a percentage in [0, 100] scores within [0, 1]. */
  function SuccessRateScore(successRate: real): (r: real)
    ensures 0.0 <= successRate <= 100.0 ==> 0.0 <= r <= 1.0
    ensures r * 100.0 == successRate
  {
    successRate / 100.0
  }

  /** `Math.min(other, mine) / Math.max(1, mine)` for a latency, where lower is
      better. From 1 ms up, a side at or below the other's value scores 1 and
      a slower side the ratio of the other's value to its own. Below 1 ms the
      divisor is 1, so the score is the smaller of the two latencies itself,
      the same for both sides. */
  function LatencyScore(mine: real, theirs: real): (r: real)
    ensures 0.0 <= mine && 0.0 <= theirs ==> 0.0 <= r <= 1.0
    ensures 1.0 <= mine <= theirs ==> r == 1.0
    ensures 1.0 <= mine && theirs <= mine ==> r * mine == theirs
    ensures mine < 1.0 ==> r == MinReal(theirs, mine)
  {
    var floor := MaxReal(1.0, mine);
    var best := MinReal(theirs, mine);
    LatencyRatio(best, floor, mine, theirs);
    best / floor
  }

  /** The facts behind `LatencyScore`, with its two operands named. */
  lemma LatencyRatio(best: real, floor: real, mine: real, theirs: real)
    requires floor == MaxReal(1.0, mine) && best == MinReal(theirs, mine)
    ensures 0.0 <= mine && 0.0 <= theirs ==> 0.0 <= best / floor <= 1.0
    ensures 1.0 <= mine <= theirs ==> best / floor == 1.0
    ensures 1.0 <= mine && theirs <= mine ==> best / floor * mine == theirs
    ensures mine < 1.0 ==> best / floor == best
  {
    if 0.0 <= mine && 0.0 <= theirs {
      DivAtMost(best, floor);
    }
    if 1.0 <= mine <= theirs {
      DivSelf(floor);
    }
    if 1.0 <= mine && theirs <= mine {
      DivTimes(best, floor);
    }
    if mine < 1.0 {
      DivOne(best, floor);
    }
  }

  /** Below 1 ms the latency terms no longer favour the faster side: both
      sides score the same, the smaller latency. */
  lemma SubMillisecondLatencyIsSymmetric(a: real, b: real)
    requires a < 1.0 && b < 1.0
    ensures LatencyScore(a, b) == LatencyScore(b, a) == MinReal(a, b)
  {
  }

  /** A latency field left at 0 (a run without a single success) gives the
      other side a latency score of 0 however fast it was. */
  lemma ZeroLatencyCancelsScore(mine: real)
    requires mine >= 0.0
    ensures LatencyScore(mine, 0.0) == 0.0
  {
  }

  lemma DivTimes(x: real, y: real)
    requires y != 0.0
    ensures x / y * y == x
  {
  }

  lemma DivSelf(x: real)
    requires x != 0.0
    ensures x / x == 1.0
  {
  }

  lemma DivOne(x: real, y: real)
    requires y == 1.0
    ensures x / y == x
  {
  }

  lemma DivAtMost(x: real, y: real)
    requires 0.0 <= x <= y && y > 0.0
    ensures x / y <= 1.0
  {
  }

  /** `calculateScore(result, otherResult)`: the weighted sum of the five
      sub-scores. Division by zero (both throughputs 0) is excluded; when
      both runs report plausible figures the score lies in [0, 1]. */
  function Score(result: Metrics, other: Metrics): (r: real)
    requires MaxReal(result.rps, other.rps) != 0.0
    ensures Plausible(result) && Plausible(other) ==> 0.0 <= r <= 1.0
  {
    WEIGHTS.rps * RpsScore(result.rps, other.rps)
    + WEIGHTS.successRate * SuccessRateScore(result.successRate)
    + WEIGHTS.avgResponseTime * LatencyScore(result.avgResponseTime, other.avgResponseTime)
    + WEIGHTS.p95 * LatencyScore(result.p95, other.p95)
    + WEIGHTS.p99 * LatencyScore(result.p99, other.p99)
  }

  /** The weights sum to 1, so a score is a weighted average of sub-scores. */
  lemma WeightsSumToOne()
    ensures WEIGHTS.rps + WEIGHTS.successRate + WEIGHTS.avgResponseTime
            + WEIGHTS.p95 + WEIGHTS.p99 == 1.0
  {
  }

  /** A run that is best on every count against its opponent (at least as
      fast, fully reliable, and at or below every latency, all of at least
      1 ms) scores exactly 1. */
  lemma DominantScoresOne(result: Metrics, other: Metrics)
    requires result.rps >= other.rps && result.rps > 0.0
    requires result.successRate == 100.0
    requires 1.0 <= result.avgResponseTime <= other.avgResponseTime
    requires 1.0 <= result.p95 <= other.p95
    requires 1.0 <= result.p99 <= other.p99
    ensures Score(result, other) == 1.0
  {
  }

  /** `scoreA / (scoreA + scoreB) * 100` and the same for B; undefined when
      both scores are 0. */
  function Percentages(scoreA: real, scoreB: real): (r: (real, real))
    requires scoreA + scoreB != 0.0
    ensures r.0 + r.1 == 100.0
    ensures scoreA == scoreB ==> r.0 == 50.0 && r.1 == 50.0
    ensures 0.0 <= scoreA && 0.0 <= scoreB ==> 0.0 <= r.0 <= 100.0 && 0.0 <= r.1 <= 100.0
  {
    var total := scoreA + scoreB;
    assert scoreA / total * 100.0 + scoreB / total * 100.0 == (scoreA + scoreB) / total * 100.0;
    (scoreA / total * 100.0, scoreB / total * 100.0)
  }

  /** The three boxes `main` can print. */
  datatype Verdict = Negligible | FirstWins | SecondWins

  /** bench.ts:544-557: a difference strictly below 0.05 is negligible;
      otherwise the higher score wins. */
  function Decide(scoreA: real, scoreB: real): Verdict
  {
    if AbsReal(scoreA - scoreB) < TIE_THRESHOLD then Negligible
    else if scoreA > scoreB then FirstWins
    else SecondWins
  }

  /** The verdict in terms of the difference alone: a tie exactly when the
      scores are less than 0.05 apart, and a win for the side that leads by
      at least 0.05. */
  lemma DecideCharacterised(scoreA: real, scoreB: real)
    ensures Decide(scoreA, scoreB) == Negligible <==> -0.05 < scoreA - scoreB < 0.05
    ensures Decide(scoreA, scoreB) == FirstWins <==> scoreA - scoreB >= 0.05
    ensures Decide(scoreA, scoreB) == SecondWins <==> scoreB - scoreA >= 0.05
  {
  }

  /** Swapping the runs swaps the winner and keeps a tie a tie. */
  lemma DecideSwap(scoreA: real, scoreB: real)
    ensures Decide(scoreB, scoreA) == match Decide(scoreA, scoreB)
                                      case Negligible => Negligible
                                      case FirstWins => SecondWins
                                      case SecondWins => FirstWins
  {
  }

  /** The boundary case: 0.60 against 0.55 differ by exactly 0.05, which is
      not below the threshold, so the first run wins. */
  lemma BoundaryIsAWin()
    ensures Decide(0.60, 0.55) == FirstWins
  {
  }

  /** `(Math.max(a, b) / Math.min(a, b) - 1) * 100`, defined when neither
      score is 0; it is the same whichever run comes first, and never negative. */
  function Improvement(scoreA: real, scoreB: real): (r: real)
    requires MinReal(scoreA, scoreB) > 0.0
    ensures r >= 0.0
    ensures r == 0.0 <==> scoreA == scoreB
  {
    var hi, lo := MaxReal(scoreA, scoreB), MinReal(scoreA, scoreB);
    assert hi / lo >= 1.0;
    assert hi / lo == 1.0 ==> hi == lo;
    (hi / lo - 1.0) * 100.0
  }

  /** The improvement does not depend on which run comes first. */
  lemma ImprovementSymmetric(scoreA: real, scoreB: real)
    requires MinReal(scoreA, scoreB) > 0.0
    ensures Improvement(scoreA, scoreB) == Improvement(scoreB, scoreA)
  {
    assert MaxReal(scoreA, scoreB) == MaxReal(scoreB, scoreA);
    assert MinReal(scoreA, scoreB) == MinReal(scoreB, scoreA);
  }

  /** What `main` concludes from two runs. */
  datatype Conclusion = Conclusion(
    scoreA: real, scoreB: real,
    percentA: real, percentB: real,
    verdict: Verdict)

  /** bench.ts:533-557: score each run against the other, normalise the two
      scores to percentages and decide. */
  function Conclude(a: Metrics, b: Metrics): Conclusion
    requires MaxReal(a.rps, b.rps) != 0.0
    requires Score(a, b) + Score(b, a) != 0.0
  {
    var scoreA := Score(a, b);
    var scoreB := Score(b, a);
    var percents := Percentages(scoreA, scoreB);
    Conclusion(scoreA, scoreB, percents.0, percents.1, Decide(scoreA, scoreB))
  }

  /** Comparing the runs in the other order gives the mirrored conclusion,
      even though `calculateScore` itself is not symmetric. */
  lemma ConcludeSwap(a: Metrics, b: Metrics)
    requires MaxReal(a.rps, b.rps) != 0.0
    requires Score(a, b) + Score(b, a) != 0.0
    ensures var c, d := Conclude(a, b), Conclude(b, a);
            && d.scoreA == c.scoreB && d.scoreB == c.scoreA
            && d.percentA == c.percentB && d.percentB == c.percentA
            && d.verdict == (match c.verdict
                             case Negligible => Negligible
                             case FirstWins => SecondWins
                             case SecondWins => FirstWins)
  {
    assert MaxReal(b.rps, a.rps) == MaxReal(a.rps, b.rps);
    DecideSwap(Score(a, b), Score(b, a));
  }

  /** Two identical plausible runs with some throughput score equally, at
      50% each, and the verdict is a tie. */
  lemma IdenticalRunsTie(m: Metrics)
    requires Plausible(m) && m.rps > 0.0
    ensures Score(m, m) > 0.0
    ensures var c := Conclude(m, m);
            c.percentA == 50.0 && c.percentB == 50.0 && c.verdict == Negligible
  {
    assert RpsScore(m.rps, m.rps) == 1.0;
    assert SuccessRateScore(m.successRate) >= 0.0;
    assert LatencyScore(m.avgResponseTime, m.avgResponseTime) >= 0.0;
    assert LatencyScore(m.p95, m.p95) >= 0.0;
    assert LatencyScore(m.p99, m.p99) >= 0.0;
  }

  lemma ShareAboveHalf(x: real, total: real)
    requires total > 0.0 && x * 2.0 > total
    ensures x / total > 0.5
  {
    assert (x / total) * total == x;
  }

  /** A win comes with the larger share: the winner's percentage exceeds 50. */
  lemma WinnerHasLargerShare(scoreA: real, scoreB: real)
    requires 0.0 <= scoreA && 0.0 <= scoreB && scoreA + scoreB != 0.0
    ensures Decide(scoreA, scoreB) == FirstWins ==> Percentages(scoreA, scoreB).0 > 50.0
    ensures Decide(scoreA, scoreB) == SecondWins ==> Percentages(scoreA, scoreB).1 > 50.0
  {
    var total := scoreA + scoreB;
    if Decide(scoreA, scoreB) == FirstWins {
      ShareAboveHalf(scoreA, total);
    }
    if Decide(scoreA, scoreB) == SecondWins {
      ShareAboveHalf(scoreB, total);
    }
  }
}
