/**
 * The statistics of one test (`SupabaseService._calculate_statistics`,
 * backend/services/supabase_service.py): head counts, points and grade
 * averages, the grade distribution under the Bulgarian rounding thresholds,
 * pass and good-grade rates, and the per-question success rates.
 */
module Statistics {
  import opened Wrappers
  import opened PyText
  import opened PyValue
  import opened ResultRows
  import QuestionSuccess
  import opened Numbers
  import opened Grades

  /** A value of the statistics dict. */
  datatype StatValue =
    | Count(n: int)
    | Number(x: real)
    | Buckets(counts: map<int, nat>)
    | Shares(percents: map<int, real>)
    | Text(s: string)

  // ---------------------------------------------------------------------
  // Students

  const BoyGenders: seq<Value> := [Str("М"), Str("male"), Str("м")]
  const GirlGenders: seq<Value> := [Str("Ж"), Str("female"), Str("ж")]

  predicate IsBoy(student: Dict) {
    Get(student, "gender") in BoyGenders
  }

  predicate IsGirl(student: Dict) {
    Get(student, "gender") in GirlGenders
  }

  /** No student counts both as a boy and as a girl, so the two counts fit in the class. */
  lemma {:induction false} GenderCountsBounded(students: seq<Dict>)
    ensures CountIf(students, IsBoy) + CountIf(students, IsGirl) <= |students|
  {
    if |students| > 0 {
      GenderCountsBounded(students[..|students| - 1]);
      var last := students[|students| - 1];
      assert !(IsBoy(last) && IsGirl(last));
    }
  }

  // ---------------------------------------------------------------------
  // Grades

  /** `float(r.get("grade"))` when the result has a grade that converts. */
  function GradeOf(r: Dict): Option<real> {
    if Get(r, "grade") == Null then None else ToFloat(Get(r, "grade"))
  }

  /** The marks of the results, in order. */
  function Marks(rs: seq<Dict>): (ms: seq<Option<real>>)
    ensures |ms| == |rs| && forall k :: 0 <= k < |rs| ==> ms[k] == GradeOf(rs[k])
  {
    seq(|rs|, k requires 0 <= k < |rs| => GradeOf(rs[k]))
  }

  /** The distribution loop: each result with a convertible grade adds one to its grade's count. */
  method GradeDistribution(rs: seq<Dict>) returns (dist: map<int, nat>)
    ensures dist == Distribution(Marks(rs))
  {
    ghost var ms := Marks(rs);
    dist := map[6 := 0, 5 := 0, 4 := 0, 3 := 0, 2 := 0];
    for k := 0 to |rs|
      invariant dist.Keys == GradeKeys
      invariant forall b :: b in dist ==> dist[b] == CountBucket(ms[..k], b)
    {
      assert ms[..k + 1][..k] == ms[..k];
      dist := AddMark(dist, GradeOf(rs[k]));
    }
    assert ms[..|rs|] == ms;
  }

  /** One step of the distribution loop: the mark's grade, if any, counts one more. */
  method AddMark(dist: map<int, nat>, grade: Option<real>) returns (next: map<int, nat>)
    requires dist.Keys == GradeKeys
    ensures next.Keys == GradeKeys
    ensures forall b :: b in next ==> next[b] == dist[b] + if MarkBucket(grade) == Some(b) then 1 else 0
  {
    next := dist;
    if grade.Some? {
      var g := grade.value;
      if g >= 5.5 {
        next := dist[6 := dist[6] + 1];
      } else if g >= 4.5 {
        next := dist[5 := dist[5] + 1];
      } else if g >= 3.5 {
        next := dist[4 := dist[4] + 1];
      } else if g >= 2.5 {
        next := dist[3 := dist[3] + 1];
      } else if g >= 2.0 {
        next := dist[2 := dist[2] + 1];
      }
    }
  }

  /** A grade stored as text, such as "5.50", is read as its number and counts in its bucket. */
  lemma TextGradeCounts(r: Dict)
    requires Get(r, "grade") == Str("5.50")
    ensures GradeOf(r) == Some(5.5) && MarkBucket(GradeOf(r)) == Some(6)
  {
    ParseFloatFraction();
  }

  // ---------------------------------------------------------------------
  // Numbers

  /** `float(r.get("points") if r.get("points") is not None else r.get("total_points"))`. */
  function PointsOf(r: Dict): Option<real> {
    ToFloat(if Get(r, "points") != Null then Get(r, "points") else Get(r, "total_points"))
  }

  /** Points stored as the text of an integer are read as that integer. */
  lemma TextPointsConvert(r: Dict, i: int)
    requires Get(r, "points") == Str(PyStr(Int(i)))
    ensures PointsOf(r) == Some(i as real)
  {
    ParseFloatOfIntText(i);
  }

  /** The points of the results, or None where one of them does not convert (Python raises there). */
  function PointsList(rs: seq<Dict>): (r: Option<seq<real>>)
    ensures r.Some? <==> forall k :: 0 <= k < |rs| ==> PointsOf(rs[k]).Some?
    ensures r.Some? ==> |r.value| == |rs| && forall k :: 0 <= k < |rs| ==> r.value[k] == PointsOf(rs[k]).value
  {
    if |rs| == 0 then Some([])
    else
      var front := rs[..|rs| - 1];
      assert forall k :: 0 <= k < |front| ==> front[k] == rs[k];
      match (PointsList(front), PointsOf(rs[|rs| - 1]))
      case (Some(init), Some(p)) => Some(init + [p])
      case _ => None
  }

  /** The values under `key` that are present and convert with `float()`, in order. */
  function FieldNumbers(rs: seq<Dict>, key: string): (xs: seq<real>)
    ensures |xs| <= |rs|
  {
    if |rs| == 0 then []
    else
      var v := Get(rs[|rs| - 1], key);
      FieldNumbers(rs[..|rs| - 1], key) + (if v != Null && ToFloat(v).Some? then [ToFloat(v).value] else [])
  }

  /** The loop that gathers the convertible values under `key`, skipping the rest. */
  method GatherNumbers(rs: seq<Dict>, key: string) returns (xs: seq<real>)
    ensures xs == FieldNumbers(rs, key)
  {
    xs := [];
    for k := 0 to |rs|
      invariant xs == FieldNumbers(rs[..k], key)
    {
      assert rs[..k + 1][..k] == rs[..k];
      var v := Get(rs[k], key);
      if v != Null {
        var x := ToFloat(v);
        if x.Some? {
          xs := xs + [x.value];
        }
      }
    }
    assert rs[..|rs|] == rs;
  }

  // ---------------------------------------------------------------------
  // Participation

  /** `r.get("student_id") or r.get("student")`. */
  function StudentId(r: Dict): Value {
    Or(Get(r, "student_id"), Get(r, "student"))
  }

  /** Whether a result's id reaches `set.add`: it participates and its id is truthy. */
  predicate AddsId(r: Dict) {
    Participates(r) && Truthy(StudentId(r))
  }

  /**
   * The set of participating ids, as Python's set holds them: one element per
   * key, so ids equal under `==` (`1`, `1.0`, `True`) count once.
   */
  function ParticipatingIds(rs: seq<Dict>): set<HashKey> {
    set r | r in rs && AddsId(r) && HashKeyOf(StudentId(r)).Some? :: HashKeyOf(StudentId(r)).value
  }

  /** Whether `set.add` raises TypeError on some result: a truthy list or dict id. */
  predicate IdsRaise(rs: seq<Dict>) {
    exists k :: 0 <= k < |rs| && AddsId(rs[k]) && HashKeyOf(StudentId(rs[k])).None?
  }

  /**
   * The loop that collects the participating students' ids: None where
   * `set.add` raises on an unhashable id, otherwise the set.
   */
  method CollectParticipatingIds(rs: seq<Dict>) returns (ids: Option<set<HashKey>>)
    ensures ids.None? <==> IdsRaise(rs)
    ensures ids.Some? ==> ids.value == ParticipatingIds(rs)
  {
    var acc: set<HashKey> := {};
    for k := 0 to |rs|
      invariant !IdsRaise(rs[..k])
      invariant acc == ParticipatingIds(rs[..k])
    {
      var r := rs[k];
      assert rs[..k + 1] == rs[..k] + [r];
      if AddsId(r) {
        var key := HashKeyOf(StudentId(r));
        if key.None? {
          assert rs[k] == r;
          return None;
        }
        acc := acc + {key.value};
      }
      assert acc == ParticipatingIds(rs[..k + 1]);
      assert !IdsRaise(rs[..k + 1]) by {
        var next := rs[..k + 1];
        forall j | 0 <= j < k + 1 && AddsId(next[j])
          ensures HashKeyOf(StudentId(next[j])).Some?
        {
          if j < k {
            assert next[j] == rs[..k][j];
          }
        }
      }
    }
    assert rs[..|rs|] == rs;
    return Some(acc);
  }

  /** Two participating results whose ids are equal numbers give one id, as Python's set does. */
  lemma EqualNumberIdsCountOnce(r1: Dict, r2: Dict)
    requires AddsId(r1) && AddsId(r2)
    requires StudentId(r1).Int? || StudentId(r1).Float? || StudentId(r1).Bool?
    requires StudentId(r2).Int? || StudentId(r2).Float? || StudentId(r2).Bool?
    requires ToFloat(StudentId(r1)) == ToFloat(StudentId(r2))
    ensures |ParticipatingIds([r1, r2])| == 1
  {
    NumberKeysAgree(StudentId(r1), StudentId(r2));
    var key := HashKeyOf(StudentId(r1)).value;
    assert ParticipatingIds([r1, r2]) == {key} by {
      assert r1 in [r1, r2];
      forall x | x in ParticipatingIds([r1, r2]) ensures x == key {
        var r :| r in [r1, r2] && AddsId(r) && HashKeyOf(StudentId(r)).Some? && x == HashKeyOf(StudentId(r)).value;
        assert r == r1 || r == r2;
      }
    }
  }

  /** A participating result with a truthy list or dict id makes the collection raise. */
  lemma UnhashableIdRaises(rs: seq<Dict>, k: nat)
    requires k < |rs| && AddsId(rs[k]) && (StudentId(rs[k]).List? || StudentId(rs[k]).Object?)
    ensures IdsRaise(rs)
  {
  }

  /** The hashable ids of the class's students. */
  function StudentIds(students: seq<Dict>): set<HashKey> {
    set s | s in students && HashKeyOf(Get(s, "id")).Some? :: HashKeyOf(Get(s, "id")).value
  }

  /** The set of one student's id key: empty when the id is unhashable. */
  function IdKeys(s: Dict): set<HashKey> {
    if HashKeyOf(Get(s, "id")).Some? then {HashKeyOf(Get(s, "id")).value} else {}
  }

  lemma {:induction false} StudentIdsBound(students: seq<Dict>)
    ensures |StudentIds(students)| <= |students|
  {
    if |students| > 0 {
      var init := students[..|students| - 1];
      var last := students[|students| - 1];
      StudentIdsBound(init);
      assert students == init + [last];
      forall x | x in StudentIds(students) ensures x in StudentIds(init) + IdKeys(last) {
        var s :| s in students && HashKeyOf(Get(s, "id")).Some? && x == HashKeyOf(Get(s, "id")).value;
        if s != last {
          assert s in init;
        }
      }
      SubsetCardinality(StudentIds(students), StudentIds(init) + IdKeys(last));
    }
  }

  /** The non-participating count is not negative when every participant is a student of the class. */
  lemma NonParticipatingNonNegative(students: seq<Dict>, rs: seq<Dict>)
    requires ParticipatingIds(rs) <= StudentIds(students)
    ensures |students| - |ParticipatingIds(rs)| >= 0
  {
    StudentIdsBound(students);
    SubsetCardinality(ParticipatingIds(rs), StudentIds(students));
  }

  lemma SubsetCardinality(a: set<HashKey>, b: set<HashKey>)
    requires a <= b
    ensures |a| <= |b|
  {
    assert b == a + (b - a);
  }

  // ---------------------------------------------------------------------
  // The summary

  /** The points and grade averages over the results with points. */
  datatype PointStats = PointStats(minPoints: StatValue, maxPoints: StatValue, avgPoints: StatValue, avgGrade: StatValue)

  function PointStatsOf(points: seq<real>, grades: seq<real>): PointStats {
    if |points| == 0 then PointStats(Count(0), Count(0), Count(0), Count(0))
    else
      PointStats(Number(Min(points)), Number(Max(points)), Number(Round1(Sum(points) / |points| as real)),
                 if |grades| > 0 then Number(Round2(Sum(grades) / |grades| as real)) else Count(0))
  }

  /** The grade figures over the participating results. */
  function GradeStatsOf(participating: seq<Dict>): GradeStats {
    GradeFigures(|participating|, Distribution(Marks(participating)), FieldNumbers(participating, "percentage"))
  }

  /**
   * The grade part of the calculation: the distribution loop, then the
   * shares of the participants and the average percentage.
   */
  method GradeStatistics(participating: seq<Dict>) returns (g: GradeStats)
    ensures g == GradeStatsOf(participating)
  {
    var dist := GradeDistribution(participating);
    var percents := GatherNumbers(participating, "percentage");
    g := GradeFigures(|participating|, dist, percents);
  }

  datatype Summary = Summary(
    totalStudents: nat,
    boys: nat,
    girls: nat,
    points: PointStats,
    grades: GradeStats,
    nonParticipating: int)

  /**
   * The summary the calculation yields, or None where a result's points do
   * not convert or a participating id cannot be put in a set.
   */
  function SummaryOf(students: seq<Dict>, results: seq<Dict>): Option<Summary> {
    var valid := Filter(results, HasPoints);
    match PointsList(valid)
    case None => None
    case Some(points) =>
      if IdsRaise(results) then None
      else Some(Summary(
        |students|, CountIf(students, IsBoy), CountIf(students, IsGirl),
        PointStatsOf(points, FieldNumbers(valid, "grade")),
        GradeStatsOf(Filter(valid, Participates)),
        |students| - |ParticipatingIds(results)|))
  }

  /** The keys of the statistics proper. */
  const SummaryKeys: set<string> := {
    "total_students", "boys_count", "girls_count", "min_points", "max_points", "avg_points",
    "avg_grade", "avg_percentage", "participated_count", "non_participating_count",
    "grade_distribution", "grade_percentages", "good_grades_count", "good_grades_percentage", "pass_rate"
  }

  /** The summary's value under one of its keys. */
  function SummaryField(s: Summary, key: string): StatValue {
    match key
    case "total_students" => Count(s.totalStudents)
    case "boys_count" => Count(s.boys)
    case "girls_count" => Count(s.girls)
    case "min_points" => s.points.minPoints
    case "max_points" => s.points.maxPoints
    case "avg_points" => s.points.avgPoints
    case "avg_grade" => s.points.avgGrade
    case "avg_percentage" => Number(s.grades.avgPercentage)
    case "participated_count" => Count(s.grades.participated)
    case "non_participating_count" => Count(s.nonParticipating)
    case "grade_distribution" => Buckets(s.grades.distribution)
    case "grade_percentages" => Shares(s.grades.percentages)
    case "good_grades_count" => Count(s.grades.goodGrades)
    case "good_grades_percentage" => Number(s.grades.goodPercentage)
    case _ => Number(s.grades.passRate)
  }

  /** `{**stats, **question_stats}`: the summary under its keys, merged with the success rates. */
  function StatsDict(s: Summary, rates: map<string, string>): (d: map<string, StatValue>)
    ensures d.Keys == SummaryKeys + rates.Keys
    ensures forall k :: k in rates ==> d[k] == Text(rates[k])
    ensures forall k :: k in SummaryKeys && k !in rates ==> d[k] == SummaryField(s, k)
  {
    var fields := map k | k in SummaryKeys :: SummaryField(s, k);
    fields + map k | k in rates :: Text(rates[k])
  }

  /**
   * `_calculate_statistics`: None where Python raises (a result's points do
   * not convert, the success-rate calculation raises, or a participating id
   * is a truthy list or dict), otherwise the statistics merged with the
   * question success rates.
   */
  method CalculateStatistics(students: seq<Dict>, results: seq<Dict>, questions: seq<Dict>)
    returns (stats: Option<map<string, StatValue>>)
    ensures SummaryOf(students, results).None? || QuestionSuccess.QuestionSuccessOf(results, questions).None?
      ==> stats.None?
    ensures SummaryOf(students, results).Some? && QuestionSuccess.QuestionSuccessOf(results, questions).Some? ==>
      stats == Some(StatsDict(SummaryOf(students, results).value,
                              QuestionSuccess.Rates(Filter(results, Participates), questions, |questions|)))
  {
    var valid := Filter(results, HasPoints);
    var points := PointsList(valid);
    if points.None? {
      return None;
    }
    var grades := GatherNumbers(valid, "grade");
    var pointStats := PointStatsOf(points.value, grades);
    var rates := QuestionSuccess.CalculateQuestionSuccess(results, questions);
    if rates.None? {
      return None;
    }
    var gradeStats := GradeStatistics(Filter(valid, Participates));
    var ids := CollectParticipatingIds(results);
    if ids.None? {
      return None;
    }
    var summary := Summary(|students|, CountIf(students, IsBoy), CountIf(students, IsGirl),
                           pointStats, gradeStats, |students| - |ids.value|);
    assert summary == SummaryOf(students, results).value;
    return Some(StatsDict(summary, rates.value));
  }

  /** No statistics key has the shape of a question success key. */
  lemma SummaryKeysAreNotRates(k: string)
    requires k in SummaryKeys
    ensures !(StartsWith(k, "q") && EndsWith(k, "_success"))
  {
  }
}
