/**
 * The grade part of the statistics (`SupabaseService._calculate_statistics`,
 * backend/services/supabase_service.py): marks are counted into the grades
 * 6 to 2 under the Bulgarian rounding thresholds, and the grade shares, the
 * good-grade share and the pass rate are percentages of the participants.
 * A mark here is `float(r["grade"])` where that converts, None otherwise.
 */
module Grades {
  import opened Wrappers
  import opened PyValue
  import opened Numbers

  /**
   * The grade a mark counts as under the Bulgarian rounding: 5.50 and up
   * is a 6, 4.50 a 5, 3.50 a 4, 2.50 a 3, 2.00 a 2; lower marks count as none.
   */
  function GradeBucket(g: real): (b: Option<int>)
    ensures b.Some? ==> 2 <= b.value <= 6
  {
    if g >= 5.5 then Some(6)
    else if g >= 4.5 then Some(5)
    else if g >= 3.5 then Some(4)
    else if g >= 2.5 then Some(3)
    else if g >= 2.0 then Some(2)
    else None
  }

  /** The grade a mark counts as in the distribution; a missing mark counts as none. */
  function MarkBucket(m: Option<real>): Option<int> {
    match m
    case Some(g) => GradeBucket(g)
    case None => None
  }

  /** The number of marks counting as grade `b`. */
  function CountBucket(ms: seq<Option<real>>, b: int): (n: nat)
    ensures n <= |ms|
  {
    if |ms| == 0 then 0
    else CountBucket(ms[..|ms| - 1], b) + (if MarkBucket(ms[|ms| - 1]) == Some(b) then 1 else 0)
  }

  /** The number of marks present and reaching `t`. */
  function CountAtLeast(ms: seq<Option<real>>, t: real): (n: nat)
    ensures n <= |ms|
  {
    if |ms| == 0 then 0
    else
      var m := ms[|ms| - 1];
      CountAtLeast(ms[..|ms| - 1], t) + (if m.Some? && m.value >= t then 1 else 0)
  }

  /** The five grade counts. */
  function BucketTotal(ms: seq<Option<real>>): nat {
    CountBucket(ms, 6) + CountBucket(ms, 5) + CountBucket(ms, 4) + CountBucket(ms, 3) + CountBucket(ms, 2)
  }

  /**
   * Every mark counts in at most one grade, and exactly the marks of at
   * least 2.00 count: the grade counts add up to those.
   */
  lemma {:induction false} BucketsTotal(ms: seq<Option<real>>)
    ensures BucketTotal(ms) == CountAtLeast(ms, 2.0)
  {
    if |ms| > 0 {
      BucketsTotal(ms[..|ms| - 1]);
    }
  }

  /** The passing grades (3 to 6) are the marks of at least 2.50. */
  lemma {:induction false} PassingBuckets(ms: seq<Option<real>>)
    ensures CountBucket(ms, 6) + CountBucket(ms, 5) + CountBucket(ms, 4) + CountBucket(ms, 3) == CountAtLeast(ms, 2.5)
  {
    if |ms| > 0 {
      PassingBuckets(ms[..|ms| - 1]);
    }
  }

  /** The good grades (5 and 6) are the marks of at least 4.50. */
  lemma {:induction false} GoodBuckets(ms: seq<Option<real>>)
    ensures CountBucket(ms, 6) + CountBucket(ms, 5) == CountAtLeast(ms, 4.5)
  {
    if |ms| > 0 {
      GoodBuckets(ms[..|ms| - 1]);
    }
  }

  /** The grades of the distribution. */
  const GradeKeys: set<int> := {6, 5, 4, 3, 2}

  /** The five grade counts of the marks. */
  function Distribution(ms: seq<Option<real>>): map<int, nat> {
    map b | b in GradeKeys :: CountBucket(ms, b)
  }

  /** `round((count / total) * 100, 1)`, or 0.0 without a total. */
  function Percent(count: nat, total: nat): (p: real)
    ensures 0.0 <= p
    ensures count <= total ==> p <= 100.0
    ensures total == 0 ==> p == 0.0
  {
    if total > 0 then
      var share := count as real / total as real;
      ShareBounds(count, total);
      Round1(share * 100.0)
    else 0.0
  }

  /** A share of a positive total is not negative, and at most 1 for a count within the total. */
  lemma ShareBounds(count: nat, total: nat)
    requires total > 0
    ensures 0.0 <= count as real / total as real
    ensures count <= total ==> count as real / total as real <= 1.0
  {
    var q := count as real / total as real;
    assert q * total as real == count as real;
    if q < 0.0 {
      assert q * total as real < 0.0;
    }
    if count <= total {
      QuotientBetween(count as real, total as real, 0.0, 1.0);
    }
  }

  /** A percentage is the share `count / total`, within the rounding to one decimal. */
  lemma PercentNear(count: nat, total: nat)
    requires total > 0
    ensures -0.05 <= Percent(count, total) - count as real / total as real * 100.0 <= 0.05
  {
  }

  /**
   * The grade figures over the participating results; `passing` is the
   * number of passing grades the pass rate is the share of.
   */
  datatype GradeStats = GradeStats(
    participated: nat,
    distribution: map<int, nat>,
    percentages: map<int, real>,
    goodGrades: nat,
    goodPercentage: real,
    passing: nat,
    passRate: real,
    avgPercentage: real)

  /** The average of the participants' percentages, 0.0 without participants or percentages. */
  function AvgPercentage(n: nat, percents: seq<real>): real {
    if n > 0 && |percents| > 0 then Round1(Sum(percents) / |percents| as real) else 0.0
  }

  /** Percentages between 0 and 100 average to a value between 0 and 100. */
  lemma AvgPercentageBounded(n: nat, percents: seq<real>)
    requires forall x :: x in percents ==> 0.0 <= x <= 100.0
    ensures 0.0 <= AvgPercentage(n, percents) <= 100.0
  {
    if n > 0 && |percents| > 0 {
      AverageWithin(percents, 0.0, 100.0);
    }
  }

  /**
   * The figures the calculation derives from the participant count `n` and
   * the grade counts `dist`: each grade's share, the good count (grades 5
   * and 6) and its share, the passing count (every grade but 2) and its
   * share, and the average percentage.
   */
  function GradeFigures(n: nat, dist: map<int, nat>, percents: seq<real>): GradeStats
    requires dist.Keys == GradeKeys
  {
    var good := dist[5] + dist[6];
    var pass := dist[6] + dist[5] + dist[4] + dist[3] + dist[2] - dist[2];
    GradeStats(n, dist, map b | b in dist :: Percent(dist[b], n), good, Percent(good, n), pass, Percent(pass, n),
               AvgPercentage(n, percents))
  }

  /**
   * The figures of participants with the marks `ms`: the grade counts add
   * up to the marks of at least 2.00, at most the participants; the good
   * count is the marks of at least 4.50 and the passing count those of at
   * least 2.50.
   */
  lemma GradeCountsOfMarks(ms: seq<Option<real>>, percents: seq<real>)
    ensures var g := GradeFigures(|ms|, Distribution(ms), percents);
      && g.participated == |ms|
      && g.distribution.Keys == GradeKeys
      && (forall b :: b in g.distribution ==> g.distribution[b] == CountBucket(ms, b))
      && g.distribution[6] + g.distribution[5] + g.distribution[4] + g.distribution[3] + g.distribution[2]
         == CountAtLeast(ms, 2.0) <= |ms|
      && g.goodGrades == CountAtLeast(ms, 4.5)
      && g.passing == CountAtLeast(ms, 2.5)
  {
    BucketsTotal(ms);
    PassingBuckets(ms);
    GoodBuckets(ms);
  }

  /** Each grade's share is a percentage, while the grade counts add up to at most the `n` participants. */
  lemma GradeSharesBounded(n: nat, dist: map<int, nat>, percents: seq<real>)
    requires dist.Keys == GradeKeys && dist[6] + dist[5] + dist[4] + dist[3] + dist[2] <= n
    ensures var g := GradeFigures(n, dist, percents);
      && g.percentages.Keys == GradeKeys
      && forall b :: b in g.percentages ==> 0.0 <= g.percentages[b] <= 100.0
  {
    var shares := GradeFigures(n, dist, percents).percentages;
    forall b | b in shares ensures 0.0 <= shares[b] <= 100.0 {
      assert dist[b] <= n;
    }
  }

  /**
   * The good grades are among the passing ones, and both shares are
   * percentages, while the grade counts add up to at most the `n` participants.
   */
  lemma GradeRatesBounded(n: nat, dist: map<int, nat>, percents: seq<real>)
    requires dist.Keys == GradeKeys && dist[6] + dist[5] + dist[4] + dist[3] + dist[2] <= n
    ensures var g := GradeFigures(n, dist, percents);
      && g.goodGrades <= g.passing <= n
      && 0.0 <= g.goodPercentage <= 100.0
      && 0.0 <= g.passRate <= 100.0
  {
  }

  /** Without participants every share, rate and average is 0. */
  lemma GradeFiguresEmpty(dist: map<int, nat>, percents: seq<real>)
    requires dist.Keys == GradeKeys
    ensures var g := GradeFigures(0, dist, percents);
      && g.goodPercentage == 0.0 && g.passRate == 0.0 && g.avgPercentage == 0.0
      && forall b :: b in g.percentages ==> g.percentages[b] == 0.0
  {
  }
}
