/**
 * The analytics cache of `SupabaseService` (backend/services/supabase_service.py):
 * the `test_analytics` table as an in-memory map keyed by test id, the
 * freshness decision that drops a cache older than the newest result, the
 * split of a fresh calculation into statistics and question success rates,
 * and the "0%" back-fill of a cached answer.
 */
module AnalyticsCache {
  import opened Wrappers
  import opened PyText
  import opened PyValue
  import opened DateTimeUtils
  import opened ResultRows
  import opened Statistics
  import QuestionSuccess

  /** A statistics dictionary: the statistics proper and the `q{i}_success` rates. */
  type Stats = map<string, StatValue>

  /** A row of `test_analytics`. */
  datatype CacheRecord = CacheRecord(
    statistics: Stats,
    questionSuccessRates: Stats,
    aiAnalysis: Option<map<string, string>>,
    aiGeneratedAt: TimestampInput,
    calculatedAt: TimestampInput,
    updatedAt: TimestampInput)

  /** `if ai_analysis:` — a dictionary is truthy when it has entries. */
  predicate HasAnalysis(ai: Option<map<string, string>>) {
    ai.Some? && |ai.value| > 0
  }

  /**
   * The table after `save_analytics`' upsert at the clock reading `now`: the
   * row of `testId` gets the new statistics and rates and `updated_at`; the
   * AI analysis and its time are written only when an analysis is given. A
   * new row takes `calculated_at` from the table default, the same clock.
   */
  function Saved(rows: map<string, CacheRecord>, testId: string, statistics: Stats, rates: Stats,
                 ai: Option<map<string, string>>, now: string): map<string, CacheRecord> {
    var stamp := TimestampText(now);
    var base := if testId in rows then rows[testId] else CacheRecord(map[], map[], None, NoTimestamp, stamp, stamp);
    var updated := base.(statistics := statistics, questionSuccessRates := rates, updatedAt := stamp);
    rows[testId := if HasAnalysis(ai) then updated.(aiAnalysis := ai, aiGeneratedAt := stamp) else updated]
  }

  /** What a read of `testId` finds after a save: the saved maps and time, the earlier row's AI analysis unless a new one was given. */
  lemma SavedLookup(rows: map<string, CacheRecord>, testId: string, statistics: Stats, rates: Stats,
                    ai: Option<map<string, string>>, now: string)
    ensures var after := Saved(rows, testId, statistics, rates, ai, now);
      && testId in after
      && after[testId].statistics == statistics
      && after[testId].questionSuccessRates == rates
      && after[testId].updatedAt == TimestampText(now)
      && (HasAnalysis(ai) ==> after[testId].aiAnalysis == ai)
      && (!HasAnalysis(ai) && testId in rows ==> after[testId].aiAnalysis == rows[testId].aiAnalysis)
      && (!HasAnalysis(ai) && testId !in rows ==> after[testId].aiAnalysis.None?)
      && (testId in rows ==> after[testId].calculatedAt == rows[testId].calculatedAt)
  {
  }

  /** A save touches no other test's row. */
  lemma SavedKeepsOthers(rows: map<string, CacheRecord>, testId: string, statistics: Stats, rates: Stats,
                         ai: Option<map<string, string>>, now: string)
    ensures var after := Saved(rows, testId, statistics, rates, ai, now);
      && after.Keys == rows.Keys + {testId}
      && forall other :: other in rows && other != testId ==> after[other] == rows[other]
  {
  }

  /** Saving the same thing twice at the same time is saving it once. */
  lemma SaveIdempotent(rows: map<string, CacheRecord>, testId: string, statistics: Stats, rates: Stats,
                       ai: Option<map<string, string>>, now: string)
    ensures var once := Saved(rows, testId, statistics, rates, ai, now);
      Saved(once, testId, statistics, rates, ai, now) == once
  {
  }

  /** Deleting after saving leaves no trace of the save. */
  lemma InvalidateUndoesSave(rows: map<string, CacheRecord>, testId: string, statistics: Stats, rates: Stats,
                             ai: Option<map<string, string>>, now: string)
    ensures Saved(rows, testId, statistics, rates, ai, now) - {testId} == rows - {testId}
  {
  }

  /**
   * The `test_analytics` table. Each operation takes `fails`, standing for
   * the client raising: the methods catch that and answer None or False.
   */
  class AnalyticsStore {
    var rows: map<string, CacheRecord>

    constructor()
      ensures rows == map[]
    {
      rows := map[];
    }

    /** `get_analytics`: the row of `testId`, None when absent or when the read fails. */
    method GetAnalytics(testId: string, fails: bool) returns (r: Option<CacheRecord>)
      ensures r == (if !fails && testId in rows then Some(rows[testId]) else None)
    {
      if fails || testId !in rows {
        return None;
      }
      return Some(rows[testId]);
    }

    /** `save_analytics`: the upsert, True on success; a failed write changes nothing. */
    method SaveAnalytics(testId: string, statistics: Stats, rates: Stats,
                         ai: Option<map<string, string>>, now: string, fails: bool) returns (ok: bool)
      modifies this
      ensures ok == !fails
      ensures rows == (if fails then old(rows) else Saved(old(rows), testId, statistics, rates, ai, now))
    {
      if fails {
        return false;
      }
      rows := Saved(rows, testId, statistics, rates, ai, now);
      return true;
    }

    /** `invalidate_analytics`: the row of `testId` is deleted, True on success. */
    method InvalidateAnalytics(testId: string, fails: bool) returns (ok: bool)
      modifies this
      ensures ok == !fails
      ensures rows == (if fails then old(rows) else old(rows) - {testId})
      ensures !fails ==> testId !in rows && forall other :: other in old(rows) && other != testId ==> other in rows
    {
      if fails {
        return false;
      }
      rows := rows - {testId};
      return true;
    }
  }

  // ---------------------------------------------------------------------
  // Freshness

  /** A timestamp column or value is truthy unless missing or empty text. */
  predicate TimestampTruthy(t: TimestampInput) {
    !t.NoTimestamp? && t != TimestampText("")
  }

  /** `cache_updated_at or cache_calculated_at`. */
  function CacheTimestamp(rec: CacheRecord): (t: TimestampInput)
    ensures TimestampTruthy(t) <==> TimestampTruthy(rec.updatedAt) || TimestampTruthy(rec.calculatedAt)
  {
    if TimestampTruthy(rec.updatedAt) then rec.updatedAt else rec.calculatedAt
  }

  /** What the query for the test's newest result answers. */
  datatype LatestResult =
    | NoResults
    | Latest(createdAt: TimestampInput)
    | QueryFailed

  /** The one-second tolerance of the freshness check, in microseconds. */
  const ToleranceMicros: int := 1_000_000

  /**
   * The cache is dropped exactly when both timestamps are present and the
   * newest result is later than the cache timestamp by more than the
   * tolerance. A failed query or a comparison that raises keeps the cache.
   */
  predicate CacheIsStale(rec: CacheRecord, latest: LatestResult,
                         fromisoformat: string -> Option<Instant>,
                         strptime: (string, string) -> Option<Instant>) {
    var stamp := CacheTimestamp(rec);
    TimestampTruthy(stamp) && latest.Latest? && TimestampTruthy(latest.createdAt)
    && IsTimestampNewer(latest.createdAt, stamp, ToleranceMicros, fromisoformat, strptime) == Ok(true)
  }

  /** A stale cache is one whose timestamp parses and lies more than a second before the newest result's. */
  lemma StaleMeansNewer(rec: CacheRecord, latest: LatestResult,
                        fromisoformat: string -> Option<Instant>,
                        strptime: (string, string) -> Option<Instant>)
    ensures CacheIsStale(rec, latest, fromisoformat, strptime) <==>
      TimestampTruthy(CacheTimestamp(rec)) && latest.Latest? && TimestampTruthy(latest.createdAt)
      && var newest := ParseTimestamp(latest.createdAt, fromisoformat, strptime);
      var cached := ParseTimestamp(CacheTimestamp(rec), fromisoformat, strptime);
      && newest.Some? && cached.Some? && newest.value.aware == cached.value.aware
      && newest.value.micros - cached.value.micros > ToleranceMicros
  {
  }

  /** No results, a failed query, a missing timestamp or a comparison that raises all keep the cache. */
  lemma FreshnessFailsSafe(rec: CacheRecord, latest: LatestResult,
                           fromisoformat: string -> Option<Instant>,
                           strptime: (string, string) -> Option<Instant>)
    requires
      || !latest.Latest?
      || !TimestampTruthy(latest.createdAt)
      || !TimestampTruthy(CacheTimestamp(rec))
      || IsTimestampNewer(latest.createdAt, CacheTimestamp(rec), ToleranceMicros, fromisoformat, strptime).Err?
    ensures !CacheIsStale(rec, latest, fromisoformat, strptime)
  {
  }

  // ---------------------------------------------------------------------
  // Key split and back-fill

  /** `key.startswith('q') and key.endswith('_success')`. */
  predicate IsRateKey(k: string) {
    StartsWith(k, "q") && EndsWith(k, "_success")
  }

  /** The entries that go to the `statistics` column. */
  function StatisticsPart(stats: Stats): Stats {
    map k | k in stats && !IsRateKey(k) :: stats[k]
  }

  /** The entries that go to the `question_success_rates` column. */
  function RatesPart(stats: Stats): Stats {
    map k | k in stats && IsRateKey(k) :: stats[k]
  }

  /** The two parts are disjoint and `{**statistics, **question_success_rates}` puts them back together. */
  lemma SplitMerge(stats: Stats)
    ensures StatisticsPart(stats).Keys !! RatesPart(stats).Keys
    ensures StatisticsPart(stats) + RatesPart(stats) == stats
  {
    var merged := StatisticsPart(stats) + RatesPart(stats);
    assert merged.Keys == stats.Keys;
    forall k | k in stats ensures merged[k] == stats[k] {
    }
  }

  /** The split loop of a fresh calculation: each entry goes to the rates when its key has the rate shape, to the statistics otherwise. */
  method SplitForCache(stats: Stats) returns (statistics: Stats, rates: Stats)
    ensures statistics == StatisticsPart(stats)
    ensures rates == RatesPart(stats)
  {
    statistics, rates := map[], map[];
    var remaining := stats.Keys;
    while remaining != {}
      invariant remaining <= stats.Keys
      invariant statistics == map k | k in stats.Keys - remaining && !IsRateKey(k) :: stats[k]
      invariant rates == map k | k in stats.Keys - remaining && IsRateKey(k) :: stats[k]
      decreases |remaining|
    {
      var key :| key in remaining;
      if IsRateKey(key) {
        rates := rates[key := stats[key]];
      } else {
        statistics := statistics[key := stats[key]];
      }
      remaining := remaining - {key};
    }
  }

  /** Statistics without rate-shaped keys and rates with only rate-shaped keys split back into themselves. */
  lemma SplitOfDisjoint(statistics: Stats, rates: Stats)
    requires forall k :: k in statistics ==> !IsRateKey(k)
    requires forall k :: k in rates ==> IsRateKey(k)
    ensures StatisticsPart(statistics + rates) == statistics
    ensures RatesPart(statistics + rates) == rates
  {
    var merged := statistics + rates;
    assert StatisticsPart(merged).Keys == statistics.Keys;
    assert RatesPart(merged).Keys == rates.Keys;
  }

  /**
   * A fresh calculation splits back into its parts: the statistics proper
   * under the summary keys, and the success rates as text.
   */
  lemma FreshSplit(s: Summary, rates: map<string, string>)
    requires forall k :: k in rates ==> IsRateKey(k)
    ensures StatisticsPart(StatsDict(s, rates)) == map k | k in SummaryKeys :: SummaryField(s, k)
    ensures RatesPart(StatsDict(s, rates)) == map k | k in rates :: Text(rates[k])
  {
    var fields := map k | k in SummaryKeys :: SummaryField(s, k);
    forall k | k in fields ensures !IsRateKey(k) {
      SummaryKeysAreNotRates(k);
    }
    SplitOfDisjoint(fields, map k | k in rates :: Text(rates[k]));
  }

  /**
   * The back-fill of `q1_success` to `q{n}_success`, one ordinal at a
   * time: a key already there is left alone, a missing one gets "0%".
   */
  function ZeroFilled(stats: Stats, n: nat): Stats {
    if n == 0 then stats
    else
      var before := ZeroFilled(stats, n - 1);
      var key := QuestionSuccess.SuccessKey(n);
      if key in before then before else before[key := Text("0%")]
  }

  /** The rate keys up to `n` are those up to `n - 1` and the key of `n`. */
  lemma SuccessKeysStep(n: nat)
    requires n >= 1
    ensures QuestionSuccess.SuccessKeys(n) == QuestionSuccess.SuccessKeys(n - 1) + {QuestionSuccess.SuccessKey(n)}
  {
  }

  /** Every `q{i}_success` has the rate shape. */
  lemma SuccessKeysAreRateKeys(n: nat)
    ensures forall k :: k in QuestionSuccess.SuccessKeys(n) ==> IsRateKey(k)
  {
  }

  /** After the back-fill every rate key up to `n` is present, the entries already there are kept, and the added ones are "0%". */
  lemma {:induction false} ZeroFilledFacts(stats: Stats, n: nat)
    ensures ZeroFilled(stats, n).Keys == stats.Keys + QuestionSuccess.SuccessKeys(n)
    ensures forall k :: k in stats ==> ZeroFilled(stats, n)[k] == stats[k]
    ensures forall k :: k in ZeroFilled(stats, n) && k !in stats ==> ZeroFilled(stats, n)[k] == Text("0%")
  {
    if n > 0 {
      ZeroFilledFacts(stats, n - 1);
      SuccessKeysStep(n);
    }
  }

  /** Back-filling a map that already has every rate key up to `n` changes nothing. */
  lemma {:induction false} ZeroFilledComplete(stats: Stats, n: nat)
    requires QuestionSuccess.SuccessKeys(n) <= stats.Keys
    ensures ZeroFilled(stats, n) == stats
  {
    if n > 0 {
      SuccessKeysStep(n);
      ZeroFilledComplete(stats, n - 1);
    }
  }

  /** Back-filling twice is back-filling once. */
  lemma ZeroFilledIdempotent(stats: Stats, n: nat)
    ensures ZeroFilled(ZeroFilled(stats, n), n) == ZeroFilled(stats, n)
  {
    ZeroFilledFacts(stats, n);
    ZeroFilledComplete(ZeroFilled(stats, n), n);
  }

  /** The back-fill loop: `q{i}_success` for i in 1..n is set to "0%" where it is missing. */
  method BackFillZeros(stats: Stats, n: nat) returns (filled: Stats)
    ensures filled == ZeroFilled(stats, n)
  {
    filled := stats;
    for i := 1 to n + 1
      invariant filled == ZeroFilled(stats, i - 1)
    {
      var key := QuestionSuccess.SuccessKey(i);
      if key !in filled {
        filled := filled[key := Text("0%")];
      }
    }
  }
}

/**
 * `get_test_analysis_data` and `recalculate_and_save_analytics`
 * (backend/services/supabase_service.py): the cache lookup, the freshness
 * check, the cached or fresh statistics, and the table writes they cause.
 */
module AnalysisRequest {
  import opened Wrappers
  import opened PyValue
  import opened DateTimeUtils
  import opened ResultRows
  import opened Statistics
  import QuestionSuccess
  import opened AnalyticsCache

  /**
   * What a request reads from the other tables and the clock: whether the
   * test and the class exist, the class's students, the test's results,
   * the test's `questions` list and `total_questions` field (0 when absent),
   * the newest result's time, and the clock reading.
   */
  datatype Request = Request(
    testId: string,
    classId: string,
    testFound: bool,
    classFound: bool,
    students: seq<Dict>,
    results: seq<Dict>,
    questions: seq<Dict>,
    totalFromTest: int,
    latest: LatestResult,
    now: string)

  /** Which of the cache operations of one request raise inside the client. */
  datatype Faults = Faults(getFails: bool, invalidateFails: bool, saveFails: bool)

  /** The `datetime` parsers the timestamp comparison uses. */
  datatype Parsers = Parsers(fromisoformat: string -> Option<Instant>, strptime: (string, string) -> Option<Instant>)

  /**
   * The analysis data handed to the report: the statistics and success
   * rates, `total_questions`, and whether the cache supplied them.
   */
  datatype AnalysisData = AnalysisData(stats: Stats, totalQuestions: int, fromCache: bool)

  /** What `get_analytics` answers. */
  function Lookup(rows: map<string, CacheRecord>, req: Request, faults: Faults): Option<CacheRecord> {
    if !faults.getFails && req.testId in rows then Some(rows[req.testId]) else None
  }

  /** A cached row was found and the freshness check drops it. */
  predicate Stale(rows: map<string, CacheRecord>, req: Request, faults: Faults, p: Parsers) {
    Lookup(rows, req, faults).Some? && CacheIsStale(Lookup(rows, req, faults).value, req.latest, p.fromisoformat, p.strptime)
  }

  /** A cached row was found and survives the freshness check. */
  predicate UsesCache(rows: map<string, CacheRecord>, req: Request, faults: Faults, p: Parsers) {
    Lookup(rows, req, faults).Some? && !Stale(rows, req, faults, p)
  }

  /** The table after the freshness check: a stale row is deleted unless the delete fails. */
  function RowsAfterCheck(rows: map<string, CacheRecord>, req: Request, faults: Faults, p: Parsers): map<string, CacheRecord> {
    if Stale(rows, req, faults, p) && !faults.invalidateFails then rows - {req.testId} else rows
  }

  /** `final_total_questions`: the number of questions when the test lists any, its `total_questions` otherwise. */
  function FinalTotal(req: Request): int {
    if |req.questions| > 0 then |req.questions| else req.totalFromTest
  }

  /** `{**statistics, **question_success_rates}` of a cached row. */
  function CachedStats(rec: CacheRecord): Stats {
    rec.statistics + rec.questionSuccessRates
  }

  /** `_calculate_statistics` over the request's students, results and questions; None where it raises. */
  function FreshStats(req: Request): Option<Stats> {
    match (SummaryOf(req.students, req.results), QuestionSuccess.QuestionSuccessOf(req.results, req.questions))
    case (Some(s), Some(rates)) => Some(StatsDict(s, rates))
    case _ => None
  }

  /** The error `get_test_analysis_data` raises for anything other than a missing test or class. */
  const FetchError: string := "Error fetching test analysis data"

  /**
   * The answer from a usable cached row: its merged maps, back-filled with
   * "0%" up to a positive final question count. Statistics without
   * `total_students` make the closing log line raise.
   */
  function CachedAnswer(rec: CacheRecord, total: int): Result<AnalysisData, string> {
    var stats := CachedStats(rec);
    if "total_students" !in stats then Err(FetchError)
    else Ok(AnalysisData(if total > 0 then ZeroFilled(stats, total) else stats, total, true))
  }

  /** The answer from a fresh calculation, None where it raised. */
  function FreshAnswer(calculated: Option<Stats>, total: int): Result<AnalysisData, string> {
    if calculated.None? || "total_students" !in calculated.value then Err(FetchError)
    else Ok(AnalysisData(calculated.value, total, false))
  }

  /**
   * The answer: a missing test or class is an error; a usable cache gives
   * the cached answer, anything else the answer from the calculation
   * `calculated`.
   */
  function AnswerOf(rows: map<string, CacheRecord>, req: Request, faults: Faults, p: Parsers,
                    calculated: Option<Stats>): Result<AnalysisData, string> {
    if !req.testFound then Err("Test not found: " + req.testId)
    else if !req.classFound then Err("Class not found: " + req.classId)
    else if UsesCache(rows, req, faults, p) then CachedAnswer(Lookup(rows, req, faults).value, FinalTotal(req))
    else FreshAnswer(calculated, FinalTotal(req))
  }

  /** The table afterwards: a fresh calculation is saved, split into its two columns, unless the save fails. */
  function RowsAfter(rows: map<string, CacheRecord>, req: Request, faults: Faults, p: Parsers, calculated: Option<Stats>): map<string, CacheRecord> {
    var checked := RowsAfterCheck(rows, req, faults, p);
    if req.testFound && req.classFound && !UsesCache(rows, req, faults, p) && calculated.Some? && !faults.saveFails then
      var stats := calculated.value;
      Saved(checked, req.testId, StatisticsPart(stats), RatesPart(stats), None, req.now)
    else checked
  }

  /** The fresh path: the statistics are calculated and saved, split into their two columns. */
  method CalculateAndSave(store: AnalyticsStore, req: Request, saveFails: bool) returns (stats: Option<Stats>)
    modifies store
    ensures stats == FreshStats(req)
    ensures store.rows == (if stats.Some? && !saveFails
                           then Saved(old(store.rows), req.testId, StatisticsPart(stats.value), RatesPart(stats.value), None, req.now)
                           else old(store.rows))
  {
    stats := CalculateStatistics(req.students, req.results, req.questions);
    if stats.None? {
      return;
    }
    var statistics, rates := SplitForCache(stats.value);
    var _ := store.SaveAnalytics(req.testId, statistics, rates, None, req.now, saveFails);
  }

  /** The cached path: the merged maps and the "0%" back-fill. */
  method ServeFromCache(rec: CacheRecord, total: int) returns (r: Result<AnalysisData, string>)
    ensures r == CachedAnswer(rec, total)
  {
    var stats := rec.statistics + rec.questionSuccessRates;
    if total > 0 {
      ZeroFilledFacts(stats, total);
      SuccessKeysAreRateKeys(total);
      assert !IsRateKey("total_students");
      stats := BackFillZeros(stats, total);
    }
    if "total_students" !in stats {
      return Err(FetchError);
    }
    return Ok(AnalysisData(stats, total, true));
  }

  /** `get_test_analysis_data`. */
  method GetTestAnalysisData(store: AnalyticsStore, req: Request, faults: Faults, p: Parsers)
    returns (r: Result<AnalysisData, string>)
    modifies store
    ensures r == AnswerOf(old(store.rows), req, faults, p, FreshStats(req))
    ensures store.rows == RowsAfter(old(store.rows), req, faults, p, FreshStats(req))
  {
    ghost var rows := store.rows;
    var cached := store.GetAnalytics(req.testId, faults.getFails);
    if cached.Some? && CacheIsStale(cached.value, req.latest, p.fromisoformat, p.strptime) {
      var _ := store.InvalidateAnalytics(req.testId, faults.invalidateFails);
      cached := None;
    }
    assert store.rows == RowsAfterCheck(rows, req, faults, p);
    if !req.testFound {
      return Err("Test not found: " + req.testId);
    }
    if !req.classFound {
      return Err("Class not found: " + req.classId);
    }
    var total := if |req.questions| > 0 then |req.questions| else req.totalFromTest;
    if cached.Some? {
      r := ServeFromCache(cached.value, total);
      return;
    }
    var computed := CalculateAndSave(store, req, faults.saveFails);
    if computed.None? || "total_students" !in computed.value {
      return Err(FetchError);
    }
    return Ok(AnalysisData(computed.value, total, false));
  }

  // ---------------------------------------------------------------------
  // What the request promises

  /** The answer comes from the cache exactly when the row was read and the freshness check keeps it. */
  lemma CacheUsedIff(rows: map<string, CacheRecord>, req: Request, faults: Faults, p: Parsers, calculated: Option<Stats>)
    requires AnswerOf(rows, req, faults, p, calculated).Ok?
    ensures AnswerOf(rows, req, faults, p, calculated).value.fromCache <==>
      !faults.getFails && req.testId in rows
      && !CacheIsStale(rows[req.testId], req.latest, p.fromisoformat, p.strptime)
  {
  }

  /** A usable cache leaves the table alone; a stale row is gone afterwards unless its delete failed or a fresh result was saved. */
  lemma TableAfterFreshnessCheck(rows: map<string, CacheRecord>, req: Request, faults: Faults, p: Parsers, calculated: Option<Stats>)
    ensures UsesCache(rows, req, faults, p) ==> RowsAfter(rows, req, faults, p, calculated) == rows
    ensures Stale(rows, req, faults, p) && !faults.invalidateFails
            && (!req.testFound || !req.classFound || calculated.None? || faults.saveFails)
      ==> req.testId !in RowsAfter(rows, req, faults, p, calculated)
  {
  }

  /**
   * A cached answer holds every `q{i}_success` up to a positive final
   * question count, keeps every cached entry, and has "0%" for the rest.
   */
  lemma CachedAnswerCoversQuestions(rows: map<string, CacheRecord>, req: Request, faults: Faults, p: Parsers,
                                    calculated: Option<Stats>)
    requires AnswerOf(rows, req, faults, p, calculated).Ok?
    requires UsesCache(rows, req, faults, p) && FinalTotal(req) > 0
    ensures var stats := AnswerOf(rows, req, faults, p, calculated).value.stats;
      var cached := CachedStats(rows[req.testId]);
      && QuestionSuccess.SuccessKeys(FinalTotal(req)) <= stats.Keys
      && (forall k :: k in cached ==> k in stats && stats[k] == cached[k])
      && (forall k :: k in stats && k !in cached ==> stats[k] == Text("0%"))
  {
    ZeroFilledFacts(CachedStats(rows[req.testId]), FinalTotal(req));
  }

  /** After a fresh answer the table holds it under the test's id, split into its two columns, and reading it back merges to the answer. */
  lemma FreshAnswerSaved(rows: map<string, CacheRecord>, req: Request, faults: Faults, p: Parsers, calculated: Option<Stats>)
    requires AnswerOf(rows, req, faults, p, calculated).Ok? && !AnswerOf(rows, req, faults, p, calculated).value.fromCache
    requires !faults.saveFails
    ensures var after := RowsAfter(rows, req, faults, p, calculated);
      var stats := AnswerOf(rows, req, faults, p, calculated).value.stats;
      && req.testId in after
      && after[req.testId].statistics == StatisticsPart(stats)
      && after[req.testId].questionSuccessRates == RatesPart(stats)
      && CachedStats(after[req.testId]) == stats
  {
    SplitMerge(calculated.value);
  }

  /** A fresh calculation has `total_students` and every `q{i}_success` of the test's questions. */
  lemma FreshStatsComplete(req: Request)
    requires FreshStats(req).Some?
    ensures "total_students" in FreshStats(req).value
    ensures QuestionSuccess.SuccessKeys(|req.questions|) <= FreshStats(req).value.Keys
  {
    QuestionSuccess.RatesKeys(Filter(req.results, Participates), req.questions, |req.questions|);
  }

  /**
   * The cache serves what it was filled with: after a fresh answer was
   * saved, the same request served from the cache gives the same
   * statistics, provided the test lists its questions (or has no positive
   * question count) so that the back-fill has nothing to add.
   */
  lemma CacheRoundTrip(rows: map<string, CacheRecord>, req: Request, faults: Faults, later: Faults, p: Parsers,
                       calculated: Option<Stats>)
    requires AnswerOf(rows, req, faults, p, calculated).Ok? && !AnswerOf(rows, req, faults, p, calculated).value.fromCache
    requires !faults.saveFails && !later.getFails
    requires calculated.Some? ==> QuestionSuccess.SuccessKeys(|req.questions|) <= calculated.value.Keys
    requires |req.questions| > 0 || req.totalFromTest <= 0
    requires var after := RowsAfter(rows, req, faults, p, calculated);
      req.testId in after && !CacheIsStale(after[req.testId], req.latest, p.fromisoformat, p.strptime)
    ensures var first := AnswerOf(rows, req, faults, p, calculated).value;
      AnswerOf(RowsAfter(rows, req, faults, p, calculated), req, later, p, calculated) == Ok(first.(fromCache := true))
  {
    FreshAnswerSaved(rows, req, faults, p, calculated);
    var stats := calculated.value;
    if FinalTotal(req) > 0 {
      ZeroFilledComplete(stats, FinalTotal(req));
    }
  }

  // ---------------------------------------------------------------------
  // Recalculation

  /** The keys of `test_data` that are not statistics. */
  const ExcludedKeys: set<string> := {
    "test_id", "test_name", "class_id", "class_name", "subject", "teacher_name", "students", "results",
    "test", "total_questions", "mc_questions", "short_questions", "max_points_test"
  }

  /** The statistics `recalculate_and_save_analytics` saves: no rate keys and none of the excluded keys. */
  function RecalculatedStatistics(stats: Stats): (r: Stats)
    ensures r.Keys == StatisticsPart(stats).Keys - ExcludedKeys
    ensures forall k :: k in r ==> r[k] == stats[k]
  {
    map k | k in stats && !IsRateKey(k) && k !in ExcludedKeys :: stats[k]
  }

  /** The split loop of a recalculation: rate keys to the rates, the rest to the statistics unless excluded. */
  method SplitForRecalculation(stats: Stats) returns (statistics: Stats, rates: Stats)
    ensures statistics == RecalculatedStatistics(stats)
    ensures rates == RatesPart(stats)
  {
    statistics, rates := map[], map[];
    var remaining := stats.Keys;
    while remaining != {}
      invariant remaining <= stats.Keys
      invariant statistics == map k | k in stats.Keys - remaining && !IsRateKey(k) && k !in ExcludedKeys :: stats[k]
      invariant rates == map k | k in stats.Keys - remaining && IsRateKey(k) :: stats[k]
      decreases |remaining|
    {
      var key :| key in remaining;
      if IsRateKey(key) {
        rates := rates[key := stats[key]];
      } else if key !in ExcludedKeys {
        statistics := statistics[key := stats[key]];
      }
      remaining := remaining - {key};
    }
  }

  /** The table before the request: a forced recalculation first deletes the row, unless the delete fails. */
  function RowsBeforeRecalculation(rows: map<string, CacheRecord>, testId: string, force: bool, forceFails: bool)
    : map<string, CacheRecord> {
    if force && !forceFails then rows - {testId} else rows
  }

  /** A forced recalculation whose delete succeeds never answers from the cache. */
  lemma ForcedRecalculationIsFresh(rows: map<string, CacheRecord>, req: Request, faults: Faults, p: Parsers,
                                   calculated: Option<Stats>)
    requires AnswerOf(RowsBeforeRecalculation(rows, req.testId, true, false), req, faults, p, calculated).Ok?
    ensures !AnswerOf(RowsBeforeRecalculation(rows, req.testId, true, false), req, faults, p, calculated).value.fromCache
  {
  }

  /**
   * `recalculate_and_save_analytics`: the optional forced delete, the
   * request, then a second save of its statistics and rates. An error of
   * the request propagates before that save.
   */
  method RecalculateAndSaveAnalytics(store: AnalyticsStore, req: Request, force: bool, forceFails: bool,
                                     faults: Faults, finalSaveFails: bool, p: Parsers)
    returns (r: Result<AnalysisData, string>)
    modifies store
    ensures var before := RowsBeforeRecalculation(old(store.rows), req.testId, force, forceFails);
      r == AnswerOf(before, req, faults, p, FreshStats(req))
    ensures var before := RowsBeforeRecalculation(old(store.rows), req.testId, force, forceFails);
      var served := RowsAfter(before, req, faults, p, FreshStats(req));
      store.rows == if r.Ok? && !finalSaveFails
                    then Saved(served, req.testId, RecalculatedStatistics(r.value.stats), RatesPart(r.value.stats), None, req.now)
                    else served
  {
    if force {
      var _ := store.InvalidateAnalytics(req.testId, forceFails);
    }
    ghost var before := store.rows;
    assert before == RowsBeforeRecalculation(old(store.rows), req.testId, force, forceFails);
    ghost var answer := AnswerOf(before, req, faults, p, FreshStats(req));
    ghost var served := RowsAfter(before, req, faults, p, FreshStats(req));
    r := GetTestAnalysisData(store, req, faults, p);
    assert r == answer && store.rows == served;
    if r.Err? {
      return;
    }
    var statistics, rates := SplitForRecalculation(r.value.stats);
    var _ := store.SaveAnalytics(req.testId, statistics, rates, None, req.now, finalSaveFails);
  }
}
