# AI-EduAnalytics analytics core in Dafny

This project models the analytics engine behind the report endpoint of the
AI-EduAnalytics backend, a FastAPI service that turns a class's test results
into a Word report with an AI-written analysis. It covers these parts:

- **Statistics of a test** (`SupabaseService._calculate_statistics`):
  - head counts by gender;
  - points and grade averages;
  - the grade distribution under the Bulgarian thresholds 5.50 / 4.50 / 3.50 / 2.50 / 2.00;
  - grade shares, the good-grade share and the pass rate;
  - the non-participation count.
- **Per-question success rates** (`_calculate_question_success`):
  - each question's entry is matched by id, with a guarded positional fallback;
  - points are summed;
  - each rate is `"{rate}%"` with rate = min(100, round(100·earned / (max_points·participants))).
- **The `test_analytics` cache** as an in-memory map keyed by test id:
  - get, save (an upsert) and invalidate;
  - the freshness check that drops a cache older than the newest result, with a one-second tolerance, and keeps it on any failure;
  - the split of fresh statistics into the two cache columns;
  - the `"0%"` back-fill of missing `q{i}_success` keys;
  - `get_test_analysis_data` and `recalculate_and_save_analytics` over that map.
- **The two AI-response parsers.**
  - Gemini: labelled extraction, then a line scan, then an equal-chunk emergency split, then the section back-fill.
  - Groq: labelled extraction, then a header-split fallback, then the default fill and the key renaming.
  - Both retry loops, including Groq's rate-limit classification and retry delay.
- **Timestamp utilities:**
  - parsing dispatch and formatting;
  - the three-way comparison with tolerance and its "unknown" outcome;
  - `is_timestamp_newer`;
  - file-name sanitising.
- **The document service:**
  - the required-field check;
  - the template context with its question cells and never-blank AI sections;
  - the fix-up of question cells before rendering;
  - the output file name.
- **The HTTP layer's checks:**
  - `sanitize_filename`;
  - the request-model validators;
  - the path-traversal and extension checks of template deletion;
  - the mapping of AI-provider errors to HTTP status codes.
- **Settings:** `parse_allowed_origins` and `validate_settings`.

Python values are modelled as follows:

- JSON-like data is the `Value` datatype of `PyValue`:
  - `None`, `bool`, `int`, `float` with its printed form, `str`, and containers;
  - dictionaries are `map<string, Value>`;
  - `float` is an exact `real`, and `round` is half-even on that real;
  - `float()` on text reads a decimal literal, so "12" and " 5.50 " are numbers.
- `str.strip`, `str.lower` and `str.split` are written out in `PyText`.
- The Supabase client, the language models, the regular-expression engine for the labelled patterns, the `datetime` parsers and the clock are function parameters or plain inputs.

## Model

| member | source | states |
|---|---|---|
| PyValue.ToFloat | backend/services/supabase_service.py:626-631 | `float()` of a bool, int or float is its value, of text its decimal reading, and fails on anything else |
| PyValue.ParseFloatOfIntText | backend/services/supabase_service.py:626-631 | the text Python prints for an int reads back as that int |
| PyValue.ToFloatOfIntText | backend/services/supabase_service.py:626-631 | `float(str(i))` agrees with `float(i)` |
| PyValue.ParseFloatFraction | backend/services/supabase_service.py:621-631 | the grade text "5.50" reads as 5.5 |
| PyValue.ParseFloatRejectsWords | backend/services/supabase_service.py:626-631 | text that is not a number, such as "abc", fails to convert |
| Grades.GradeBucket | backend/services/supabase_service.py:671-689 | a mark counts as at most one grade, 2..6, chosen by the first threshold it reaches (5.50, 4.50, 3.50, 2.50, 2.00); lower marks count as none |
| Grades.BucketsTotal | backend/services/supabase_service.py:671-689 | the five grade counts add up to exactly the marks of at least 2.00, so to at most the participants |
| Grades.PassingBuckets | backend/services/supabase_service.py:700-702 | the passing count (every grade but 2) is exactly the marks of at least 2.50 |
| Grades.GoodBuckets | backend/services/supabase_service.py:697 | the good-grade count (grades 5 and 6) is exactly the marks of at least 4.50 |
| Grades.Percent | backend/services/supabase_service.py:693 | a share is 0.0 without participants, never negative, and at most 100 for a count within the total |
| Grades.PercentNear | backend/services/supabase_service.py:693 | a share is `count/total·100` within the rounding to one decimal |
| Grades.AvgPercentageBounded | backend/services/supabase_service.py:705-714 | percentages in 0..100 average to a value in 0..100 (0.0 when there are none) |
| Grades.GradeCountsOfMarks | backend/services/supabase_service.py:668-702 | over the participants' marks, the grade counts total the marks of at least 2.00, the good count is the marks of at least 4.50 and the passing count those of at least 2.50 |
| Grades.GradeSharesBounded | backend/services/supabase_service.py:691-693 | every grade share is a percentage in 0..100 |
| Grades.GradeRatesBounded | backend/services/supabase_service.py:697-702 | the good grades are among the passing ones, and the good-grade share and pass rate are in 0..100 |
| Grades.GradeFiguresEmpty | backend/services/supabase_service.py:716-719 | without participants every share, rate and average is 0 |
| Statistics.GenderCountsBounded | backend/services/supabase_service.py:594-595 | no student counts as both a boy and a girl, so the two counts add up to at most the class size |
| Statistics.Marks | backend/services/supabase_service.py:672-676 | the marks are the convertible grades of the results (numbers, and text `float()` reads), one per result, in order |
| Statistics.GradeDistribution | backend/services/supabase_service.py:646-689 | the distribution loop yields the grade counts of the participants' marks |
| Statistics.AddMark | backend/services/supabase_service.py:673-687 | one loop step adds one to the count of the mark's grade and leaves the other counts alone |
| Statistics.TextGradeCounts | backend/services/supabase_service.py:621-631 | a grade stored as the text "5.50" reads as 5.5 and counts as a 6 |
| Statistics.PointsList | backend/services/supabase_service.py:613-616 | `points`, else `total_points`, as floats for every result with points; none when one of them does not convert (Python raises) |
| Statistics.TextPointsConvert | backend/services/supabase_service.py:613-616 | points stored as the text of an integer read as that integer |
| Statistics.FieldNumbers | backend/services/supabase_service.py:622-632 | the convertible values under a key, skipping the others, in order |
| Statistics.GatherNumbers | backend/services/supabase_service.py:622-632 | the gathering loop yields exactly those values |
| Statistics.CollectParticipatingIds | backend/services/supabase_service.py:722-727 | the loop fails exactly when a participating, non-cancelled result has a truthy list or dict id (Python's `set.add` raises TypeError); otherwise it yields the set of hash keys of the truthy ids (`student_id` or `student`) of those results, so 1, 1.0 and True are one id |
| Statistics.EqualNumberIdsCountOnce | backend/services/supabase_service.py:722-727 | two participants whose numeric ids are equal as numbers, whatever their types, count as one |
| Statistics.UnhashableIdRaises | backend/services/supabase_service.py:722-727 | one participant with a truthy list or dict id makes the id loop raise |
| PyValue.HashKeyOf | backend/services/supabase_service.py:722-727 | a value has a set key exactly when it is not a list or dict |
| PyValue.NumberKeysAgree | backend/services/supabase_service.py:722-727 | two numbers (bool, int or float) have the same set key exactly when they are equal as floats |
| PyValue.TrueOneAndOnePointZeroCoincide | backend/services/supabase_service.py:722-727 | True, 1 and 1.0 are the same set element |
| Statistics.StudentIdsBound | backend/services/supabase_service.py:591 | the class has at most as many distinct hashable ids as students |
| Statistics.NonParticipatingNonNegative | backend/services/supabase_service.py:729 | the non-participating count is not negative when every participant is a student of the class |
| Statistics.GradeStatistics | backend/services/supabase_service.py:663-719 | the grade part of the calculation equals the grade figures of the participating results |
| Statistics.StatsDict | backend/services/supabase_service.py:731-748 | the dictionary holds the summary keys and the rate keys; a rate key takes the rate, the others the summary's field |
| Statistics.CalculateStatistics | backend/services/supabase_service.py:570-755 | none where a result's points do not convert, a participating result has a truthy list or dict id, or the success-rate calculation raises on an entry that is not a dict, otherwise the summary of the students and valid results merged with the question rates over the participating results |
| Statistics.SummaryKeysAreNotRates | backend/services/supabase_service.py:731-746 | no statistics key has the `q…_success` shape, so the cache split keeps them apart |
| QuestionSuccess.SuccessKey | backend/services/supabase_service.py:1035 | `q{i}_success` starts with `q` and ends with `_success` |
| QuestionSuccess.SuccessKeyInjective | backend/services/supabase_service.py:1035 | different question numbers give different keys |
| QuestionSuccess.RateText | backend/services/supabase_service.py:1035 | `"{rate}%"` is digits followed by `%` |
| QuestionSuccess.RateTextReadBack | backend/services/supabase_service.py:1035 | the digits of the rate text read back as the rate |
| QuestionSuccess.MaxPoints | backend/services/supabase_service.py:875-890 | a question's maximum is its positive `points`, otherwise 1; it is always positive |
| QuestionSuccess.MaxPointsOfText | backend/services/supabase_service.py:883-890 | a question whose `points` is the text of a positive integer n is worth n |
| QuestionSuccess.AcceptedIds | backend/services/supabase_service.py:896-899 | the accepted ids are the question's own lower-cased id when it has one, then `q{i}`, `{i}`, `question{i}`, `question_{i}` |
| QuestionSuccess.EntryId | backend/services/supabase_service.py:925 | an entry's id is truthy iff one of `questionId`, `question_id`, `id` is |
| QuestionSuccess.NumericIndex | backend/services/supabase_service.py:932-938 | only bool, int and float ids are read as a question number |
| QuestionSuccess.FirstById | backend/services/supabase_service.py:923-938 | the first entry matching the question by id, and none exactly when no entry matches |
| QuestionSuccess.FindById | backend/services/supabase_service.py:923-938 | the search loop raises exactly when it reaches an entry that is not a dict before a match, and otherwise stops at the first matching entry |
| QuestionSuccess.Positional | backend/services/supabase_service.py:943-961 | the `i`-th entry is taken iff i ≤ both lengths and the entry has no id or an accepted one |
| QuestionSuccess.PositionalOnlyAsLastResort | backend/services/supabase_service.py:940-961 | the entry by id wins when there is one, and the position is consulted only when none matches |
| QuestionSuccess.EntryPoints | backend/services/supabase_service.py:963-974 | `points`, else `point`, else 0, with negatives raised to 0; an explicit 0 counts as an answer |
| QuestionSuccess.EntryPointsOfText | backend/services/supabase_service.py:963-974 | points earned recorded as the text of an integer n count n |
| QuestionSuccess.AsDicts | backend/services/supabase_service.py:908-920 | the entries of a results list read as dictionaries, one per item; a dict entry keeps its fields |
| QuestionSuccess.Contribution | backend/services/supabase_service.py:906-976 | what one result adds to a question is never negative |
| QuestionSuccess.TotalEarned | backend/services/supabase_service.py:904-976 | the points earned on a question over the results are never negative |
| QuestionSuccess.SuccessRate | backend/services/supabase_service.py:992-993 | the rate is in 0..100, 0 for no points, 100 from full points on, and otherwise within 0.5 of the exact percentage |
| QuestionSuccess.RateOf | backend/services/supabase_service.py:871-1015 | a question's rate among the participating results is in 0..100 |
| QuestionSuccess.RatesKeys | backend/services/supabase_service.py:1035 | the output's keys are exactly `q1_success`..`qN_success` |
| QuestionSuccess.RatesValue | backend/services/supabase_service.py:1035 | the entry under `q{i}_success` is question i's rate text |
| QuestionSuccess.NoParticipantsAllZero | backend/services/supabase_service.py:808-812 | with no participating result every question reads `"0%"` |
| QuestionSuccess.ResultPoints | backend/services/supabase_service.py:904-976 | one result's lookup raises exactly when it hits a non-dict entry first, and otherwise adds that result's contribution |
| QuestionSuccess.LogSampleIds | backend/services/supabase_service.py:834-851 | the id log over the first result raises exactly when one of its first five entries is not a dict |
| QuestionSuccess.QuestionRate | backend/services/supabase_service.py:871-1015 | the loop over the results raises exactly when one result's lookup does, and otherwise computes the question's rate |
| QuestionSuccess.QuestionSuccessOf | backend/services/supabase_service.py:757-1051 | when it does not raise, the result is the rates over the participating results; it raises only for a test with questions and participants |
| QuestionSuccess.DictEntriesNeverRaise | backend/services/supabase_service.py:923-961 | results whose entries are all dicts never make the calculation raise |
| QuestionSuccess.NonDictFirstEntryRaises | backend/services/supabase_service.py:843-848 | a first participating result whose first entry is not a dict makes the calculation raise |
| QuestionSuccess.CalculateQuestionSuccess | backend/services/supabase_service.py:757-1051 | the rates of every question over the participating, non-cancelled results, keyed exactly `q1_success`..`qN_success` (nothing for a test without questions), or none where a non-dict entry makes it raise |
| QuestionSuccess.ZeroRates | backend/services/supabase_service.py:808-812 | the loop for a test nobody took yields the rates over no results |
| QuestionSuccess.ComputeRates | backend/services/supabase_service.py:871-1035 | the loop over the questions raises exactly when some question's pass does, and otherwise yields the rates over the participating results |
| QuestionSuccess.IsAnswerCorrect | backend/services/supabase_service.py:1053-1084 | None, lists and objects are wrong; a bool is itself; a number is right iff it equals 1 |
| QuestionSuccess.AnswerCorrectStricterThanGemini | backend/services/supabase_service.py:1053-1084 | every answer this variant accepts, the Gemini variant accepts too |
| QuestionSuccess.AnswerCorrectDiffersFromGemini | backend/services/gemini_service.py:856-873 | 2 and "правилно" are correct only for the Gemini variant |
| AnalyticsCache.SavedLookup | backend/services/supabase_service.py:1150-1197 | after an upsert the row holds the saved statistics, rates and time, and its earlier AI analysis unless a new one was given |
| AnalyticsCache.SavedKeepsOthers | backend/services/supabase_service.py:1185 | an upsert touches no other test's row |
| AnalyticsCache.SaveIdempotent | backend/services/supabase_service.py:1185 | saving the same data twice at the same time is saving it once |
| AnalyticsCache.InvalidateUndoesSave | backend/services/supabase_service.py:1199-1219 | deleting after saving leaves no trace of the save |
| AnalyticsCache.AnalyticsStore.GetAnalytics | backend/services/supabase_service.py:1090-1148 | the row of the test, none when it is absent or the read fails |
| AnalyticsCache.AnalyticsStore.SaveAnalytics | backend/services/supabase_service.py:1150-1197 | True and the upsert on success; False and no change when the write fails |
| AnalyticsCache.AnalyticsStore.InvalidateAnalytics | backend/services/supabase_service.py:1199-1219 | True and only that row deleted on success; False and no change when the delete fails |
| AnalyticsCache.CacheTimestamp | backend/services/supabase_service.py:93-95 | `updated_at or calculated_at` is truthy iff either one is |
| AnalyticsCache.StaleMeansNewer | backend/services/supabase_service.py:116-123 | the cache is dropped iff both timestamps are there, both parse and compare, and the newest result is more than a second later |
| AnalyticsCache.FreshnessFailsSafe | backend/services/supabase_service.py:126-140 | no result, a failed query, a missing timestamp or a comparison that fails all keep the cache |
| AnalyticsCache.SplitMerge | backend/services/supabase_service.py:185-189 | the two columns are disjoint and merge back to the statistics |
| AnalyticsCache.SplitForCache | backend/services/supabase_service.py:182-189 | the split loop sends `q…_success` keys to the rates and every other key to the statistics |
| AnalyticsCache.SplitOfDisjoint | backend/services/supabase_service.py:144-157 | statistics without rate keys merged with rates split back into themselves |
| AnalyticsCache.FreshSplit | backend/services/supabase_service.py:179-189 | a fresh calculation splits into exactly the statistics proper and the success rates |
| AnalyticsCache.SuccessKeysAreRateKeys | backend/services/supabase_service.py:337 | every `q{i}_success` has the rate shape |
| AnalyticsCache.ZeroFilledFacts | backend/services/supabase_service.py:334-341 | after the back-fill every rate key up to n is present, entries already there are kept, and added ones are `"0%"` |
| AnalyticsCache.ZeroFilledComplete | backend/services/supabase_service.py:334-341 | the back-fill changes nothing when every rate key is already there |
| AnalyticsCache.ZeroFilledIdempotent | backend/services/supabase_service.py:334-341 | back-filling twice is back-filling once |
| AnalyticsCache.BackFillZeros | backend/services/supabase_service.py:334-341 | the back-fill loop computes the back-filled map |
| AnalysisRequest.CalculateAndSave | backend/services/supabase_service.py:160-195 | the fresh path calculates the statistics and saves them split into their two columns, unless the save fails |
| AnalysisRequest.ServeFromCache | backend/services/supabase_service.py:142-157 | the cached path answers the merged columns, back-filled with `"0%"` |
| AnalysisRequest.GetTestAnalysisData | backend/services/supabase_service.py:63-378 | the answer and the new table are those of the cache lookup, freshness check, cached or fresh statistics and save |
| AnalysisRequest.CacheUsedIff | backend/services/supabase_service.py:88-142 | the answer comes from the cache iff the row was read and the freshness check kept it |
| AnalysisRequest.TableAfterFreshnessCheck | backend/services/supabase_service.py:119-123 | a usable cache leaves the table alone, and a stale row is gone afterwards unless its delete failed or a fresh result was saved |
| AnalysisRequest.CachedAnswerCoversQuestions | backend/services/supabase_service.py:331-341 | a cached answer holds every `q{i}_success` up to a positive question count, keeps every cached entry and has `"0%"` for the rest |
| AnalysisRequest.FreshAnswerSaved | backend/services/supabase_service.py:179-193 | after a fresh answer the table holds it under the test id in two columns, and reading it back merges to the answer |
| AnalysisRequest.FreshStatsComplete | backend/services/supabase_service.py:731-748 | a fresh calculation has `total_students` and every `q{i}_success` of the test's questions |
| AnalysisRequest.CacheRoundTrip | backend/services/supabase_service.py:142-195 | a request served from the cache after a fresh answer was saved gives the same statistics |
| AnalysisRequest.RecalculatedStatistics | backend/services/supabase_service.py:1254-1260 | the recalculated statistics drop the rate keys and the excluded keys and keep every other value |
| AnalysisRequest.SplitForRecalculation | backend/services/supabase_service.py:1250-1260 | the split loop of a recalculation yields those statistics and the rates |
| AnalysisRequest.ForcedRecalculationIsFresh | backend/services/supabase_service.py:1243-1247 | a forced recalculation whose delete succeeds never answers from the cache |
| AnalysisRequest.RecalculateAndSaveAnalytics | backend/services/supabase_service.py:1221-1266 | the optional forced delete, the request, then a second save of its split statistics and rates |
| AiSections.SectionIndex | backend/services/gemini_service.py:827-833 | each of the five sections has its position in the fixed order |
| AiSections.Key | backend/services/gemini_service.py:827-833 | a section's key is one of the five keys |
| AiSections.KeyInjective | backend/services/gemini_service.py:827-833 | different sections have different keys |
| AiSections.KeySetIsImage | backend/services/gemini_service.py:827-833 | every one of the five keys is some section's key |
| AiSections.SectionMap | backend/services/gemini_service.py:634-640 | five texts as a dictionary with exactly the five keys |
| AiSections.FiveKeysAreAll | backend/services/gemini_service.py:700-701 | five entries under no foreign key means exactly the five keys |
| AiSections.SectionMatch | backend/services/groq_service.py:354-362 | a section's value is the first of its patterns whose stripped capture is long enough, none when neither is |
| AiSections.OverlayAt | backend/services/groq_service.py:395-407 | after a pass over the sections, each section's key holds that section's value when defined, its old entry otherwise |
| AiSections.OverlayFrame | backend/services/groq_service.py:395-407 | a pass adds only section keys and keeps every other entry |
| AiSections.ExtractedHas | backend/services/gemini_service.py:672-684 | a section is stored iff one of its patterns matched, under its key, with the match |
| AiSections.ExtractedValues | backend/services/groq_service.py:354-362 | every stored section is longer than the minimum and sits under a section key |
| AiSections.MatchSection | backend/services/groq_service.py:355-362 | the pattern loop for one section stops at the first accepted capture |
| AiSections.ExtractLabelled | backend/services/groq_service.py:353-362 | the extraction loop stores the first accepted capture of every section |
| AiSections.ReplyText | backend/services/gemini_service.py:629-631 | a non-text reply becomes `str(x)` when truthy and "" otherwise |
| GeminiService.GeminiDefault | backend/services/gemini_service.py:240-246 | each default section text has at least 10 characters |
| GeminiService.GeminiDefaults | backend/services/gemini_service.py:633-641 | the defaults hold the five keys with non-empty text |
| GeminiService.HeaderOf | backend/services/gemini_service.py:749-786 | the header a stripped line starts with, in the scan's order; an empty line is no header |
| GeminiService.ScanKeepsInvariant | backend/services/gemini_service.py:748-789 | the scan stores only the five keys with non-empty text and buffers only stripped non-empty lines |
| GeminiService.FlushKeepsInvariant | backend/services/gemini_service.py:753-754 | closing a section stores it only when its buffer is non-empty |
| GeminiService.NoHeaderNoSections | backend/services/gemini_service.py:748-793 | with no header line the scan stores nothing, so lines before the first header are discarded |
| GeminiService.ChunkSize | backend/services/gemini_service.py:803 | `max(len // 5, 100)` is at least 100 and at least a fifth of the text |
| GeminiService.ChunkOrDefault | backend/services/gemini_service.py:807-811 | a chunk is its stripped text or, when blank, its section's default; never empty |
| GeminiService.EmergencySplit | backend/services/gemini_service.py:801-812 | the split always yields the five keys with non-empty text |
| GeminiService.ChunksCoverText | backend/services/gemini_service.py:806-812 | the five chunks are contiguous and concatenate to the whole text |
| GeminiService.FallbackComplete | backend/services/gemini_service.py:718-814 | the fallback parse always ends with exactly five non-empty sections |
| GeminiService.ScanLines | backend/services/gemini_service.py:748-789 | the line loop computes the scan's state |
| GeminiService.FallbackParse | backend/services/gemini_service.py:718-814 | `_fallback_parse` returns the scan's sections or the chunk split, always five non-empty sections |
| GeminiService.LabelledKeys | backend/services/gemini_service.py:672-684 | labelled extraction stores only section keys with non-empty text |
| GeminiService.ParsedSections | backend/services/gemini_service.py:611-716 | what the parser yields for a text always has exactly the five non-empty sections |
| GeminiService.ParseAiResponse | backend/services/gemini_service.py:611-716 | blank input gives the defaults; five labelled sections are kept, fewer fall back to the line scan; the result is always complete |
| GeminiService.ValidateSections | backend/services/gemini_service.py:816-844 | valid iff every one of the five keys is present with at least 10 characters |
| GeminiService.BackFilledValid | backend/services/gemini_service.py:224-248 | after the back-fill every section validates and every other entry is unchanged |
| GeminiService.BackFillOfValid | backend/services/gemini_service.py:225 | sections that already validate are left unchanged |
| GeminiService.BackFillSections | backend/services/gemini_service.py:224-248 | the patching validates, keeps valid sections and foreign keys, and gives every missing or short section its default |
| GeminiService.BackFillLoop | backend/services/gemini_service.py:238-247 | the loop over the five sections computes the back-fill |
| GeminiService.Attempt | backend/services/gemini_service.py:557-586 | an attempt succeeds iff the reply's stripped text is non-empty, and yields that text |
| GeminiService.CallGeminiWithRetry | backend/services/gemini_service.py:536-609 | success iff one of the 3 attempts succeeds, with the first successful text; otherwise the error names the last failure |
| GeminiService.ParseAndBackFill | backend/services/gemini_service.py:194-251 | the back-filled parse of a reply validates and has exactly the five keys |
| GeminiService.GenerateAnalysis | backend/services/gemini_service.py:146-251 | success iff a call succeeds, and then the back-filled parse of the first successful reply, exactly the five sections of at least 10 characters each; otherwise the error of the last attempt |
| GeminiService.IsAnswerCorrect | backend/services/gemini_service.py:846-873 | None, lists and objects are wrong; a bool is itself; a number is right iff non-zero |
| GroqService.GroqLabel | backend/services/groq_service.py:377 | each section has a non-empty upper-case label |
| GroqService.GroqLabelInjective | backend/services/groq_service.py:377 | different sections have different labels |
| GroqService.GroqDefaults | backend/services/groq_service.py:319-327 | the blank-input result holds the five keys with non-empty text |
| GroqService.MissingText | backend/services/groq_service.py:380 | the filler reads "Не е налична информация за {SECTION}." |
| GroqService.NonBlankStripped | backend/services/groq_service.py:373-374 | a part is taken, stripped, iff it is not blank |
| GroqService.SplitPart | backend/services/groq_service.py:369-374 | the split fallback's text for a section is never empty |
| GroqService.GroqSectionText | backend/services/groq_service.py:353-381 | each section's parsed text is never empty |
| GroqService.SplitStep | backend/services/groq_service.py:372-374 | one more position sets that section's label to its part when the part is not blank |
| GroqService.AssignSplitParts | backend/services/groq_service.py:369-374 | the split loop assigns `parts[1:6]` positionally, skipping blank parts |
| GroqService.FillMissing | backend/services/groq_service.py:377-381 | the fill loop gives every missing label its filler and keeps the rest |
| GroqService.RenameKeys | backend/services/groq_service.py:385-407 | the renaming loop stores each label's text under the document's key |
| GroqService.FilledSection | backend/services/groq_service.py:353-381 | after the fill each label holds its split part, else its labelled capture, else its filler |
| GroqService.GroqParsedSections | backend/services/groq_service.py:385-408 | the parser's result holds each section's text under the section's key |
| GroqService.GroqParsedKeys | backend/services/groq_service.py:385-408 | the parser's result has exactly the five keys |
| GroqService.GroqParse | backend/services/groq_service.py:297-410 | exactly the five keys: the defaults for blank text, otherwise each section's parsed text |
| GroqService.ParseAiResponse | backend/services/groq_service.py:297-410 | blank input gives the defaults; otherwise exactly the five keys, each with its section text; never an empty section |
| GroqService.RetryMatch | backend/services/groq_service.py:259 | the leftmost match of `retry.*?(\d+(?:\.\d+)?)\s*s` from a position, when there is one |
| GroqService.RetryDelay | backend/services/groq_service.py:256-261 | the delay is 2 without a "retry … N s" match and at least 5 with one |
| GroqService.RetryDelayReadsSeconds | backend/services/groq_service.py:259-261 | "retry Ns" yields `max(N, 5)` seconds |
| GroqService.QuotaMessage | backend/services/groq_service.py:263-266 | the quota message names the delay exactly when it exceeds the default |
| GroqService.Attempt | backend/services/groq_service.py:221-246 | an attempt succeeds iff the content's stripped text is non-empty, and yields that text |
| GroqService.FinalMessageDetails | backend/services/groq_service.py:286-295 | the final message names the error type and appends the details only when shorter than 200 characters |
| GroqService.CallGroqWithRetry | backend/services/groq_service.py:200-295 | success iff one of the 3 attempts succeeds; otherwise the last failure's error, a rate limit iff its text says so |
| GroqService.GenerateAnalysis | backend/services/groq_service.py:62-121 | success iff a call succeeds, and then the parse of the first successful reply, a complete set of five sections; otherwise the error of the last attempt |
| DateTimeUtils.FirstFormat | backend/utils/datetime_utils.py:52-68 | the first format that parses wins, and none parses iff the result is none |
| DateTimeUtils.ParseTimestamp | backend/utils/datetime_utils.py:10-71 | None and non-string values give none, a datetime is returned as is, and text tries ISO with `Z`, plain ISO, then the formats |
| DateTimeUtils.FormatTimestamp | backend/utils/datetime_utils.py:74-100 | no datetime gives "", "iso" gives `isoformat()`, anything else its strftime pattern |
| DateTimeUtils.Difference | backend/utils/datetime_utils.py:141 | the difference is defined iff both sides are naive or both aware |
| DateTimeUtils.Sign | backend/utils/datetime_utils.py:143-148 | 0 within the tolerance, 1 above it, −1 below it |
| DateTimeUtils.CompareTimestamps | backend/utils/datetime_utils.py:116-148 | none when either side fails to parse, otherwise the tolerant three-way comparison of the two parses |
| DateTimeUtils.CompareAntisymmetric | backend/utils/datetime_utils.py:141-148 | swapping the sides negates the comparison |
| DateTimeUtils.CompareReflexive | backend/utils/datetime_utils.py:141-148 | a parsable timestamp compares equal to itself |
| DateTimeUtils.IsTimestampNewer | backend/utils/datetime_utils.py:151-168 | true iff the comparison is exactly 1, so false when either side fails to parse |
| DateTimeUtils.ReplaceDisallowed | backend/utils/datetime_utils.py:187 | each character outside `[\w\-_\.]` becomes `_` and the rest stay |
| DateTimeUtils.CollapseUnderscores | backend/utils/datetime_utils.py:190 | no underscore runs remain and nothing but underscores is removed |
| DateTimeUtils.CleanFileName | backend/utils/datetime_utils.py:185-190 | only file-name characters, no underscore runs, no edge underscore |
| DateTimeUtils.CleanFileNameKeeps | backend/utils/datetime_utils.py:185-190 | clean text passes through unchanged |
| DateTimeUtils.CleanFileNameIdempotent | backend/utils/datetime_utils.py:185-190 | cleaning twice is cleaning once |
| DateTimeUtils.SanitizeFilename | backend/utils/datetime_utils.py:171-197 | the cleaned name, with the extension appended only when it does not already end in it (any case) |
| DocumentService.FirstMissing | backend/services/document_service.py:215-218 | the first required field the data lacks, none iff all are present |
| DocumentService.ValidateTestData | backend/services/document_service.py:204-220 | an error iff class_name, subject or total_students is absent |
| DocumentService.DocumentDefault | backend/services/document_service.py:478-484 | every section's default text is non-blank |
| DocumentService.SectionText | backend/services/document_service.py:476-489 | a section's text is never blank: the analysis's own text iff that is non-blank, the default otherwise |
| DocumentService.EffectiveQuestionCount | backend/services/document_service.py:428-431 | `max(total, len(questions))`, and 0 iff neither is positive |
| DocumentService.QuestionRows | backend/services/document_service.py:434-437 | the rows filled are at least 19 and at least the test's question count |
| DocumentService.Cell | backend/services/document_service.py:443-472 | a cell is never blank, `"0%"` for a missing or None value |
| DocumentService.NumericCell | backend/services/document_service.py:466-470 | a non-string value printing as a number gets a '%' appended |
| DocumentService.IntCell | backend/services/document_service.py:466-470 | a whole-number rate becomes its digits followed by '%' |
| DocumentService.InitialContext | backend/services/document_service.py:348-413 | the fixed keys: copied fields with their defaults, the school year, `total_questions` = 19, `actual_total_questions` = the incoming value, the raw section texts |
| DocumentService.FixedKeysAreNotCells | backend/services/document_service.py:352-413 | no fixed key has the shape of a question cell's key |
| DocumentService.AddQuestionCells | backend/services/document_service.py:443-472 | the loop puts every row's cell under its key over the context |
| DocumentService.FillSection | backend/services/document_service.py:485-489 | one step replaces a blank section text by its default |
| DocumentService.FillSectionDefaults | backend/services/document_service.py:476-489 | the loop leaves every section's never-blank text and changes nothing else |
| DocumentService.FillContext | backend/services/document_service.py:415-489 | both loops give the fixed keys and a cell for each row, with each section's text |
| DocumentService.BuildContext | backend/services/document_service.py:328-495 | the context holds the copied and extra fields, never-blank section texts, and a cell for every row up to max(count, 19), and nothing else |
| DocumentService.RenderRows | backend/services/document_service.py:122-125 | the first pass visits rows `1..min(total, 99)` |
| DocumentService.RenderedUsable | backend/services/document_service.py:126-142 | the first pass never leaves a None, blank or "None" cell |
| DocumentService.BackfilledUsable | backend/services/document_service.py:147-153 | the second pass never leaves an unusable cell |
| DocumentService.BackfillKeepsRendered | backend/services/document_service.py:147-153 | a cell the first pass rendered passes the second unchanged |
| DocumentService.RenderCells | backend/services/document_service.py:122-145 | the first pass's loop computes the first pass |
| DocumentService.BackfillLateCells | backend/services/document_service.py:147-156 | the second pass's loop computes the second pass |
| DocumentService.NormaliseForRender | backend/services/document_service.py:121-156 | the fix-up is the first pass followed by the second |
| DocumentService.FirstPassCell | backend/services/document_service.py:126-142 | each visited row holds the rendered form of its value, which is usable |
| DocumentService.SecondPassCell | backend/services/document_service.py:149-153 | each of q11..q19 holds a usable value after the second pass |
| DocumentService.SecondPassKeeps | backend/services/document_service.py:149-153 | the second pass leaves every key outside q11..q19 alone |
| DocumentService.NormalisedCells | backend/services/document_service.py:121-156 | after the fix-up, visited rows hold their rendered form, and visited rows and q11..q19 are all usable |
| DocumentService.NormaliseKeepsOtherKeys | backend/services/document_service.py:121-156 | keys other than question rows keep their value through the fix-up |
| DocumentService.FileNameOf | backend/services/document_service.py:514-524 | `Analiz_{class}_{subject}_{timestamp}.docx` with cleaned parts; only file-name characters when the timestamp has only those |
| DocumentService.GenerateFilename | backend/services/document_service.py:497-526 | a name iff class and subject (defaults "Unknown" and "Test") are text, and then that shape |
| DocumentService.FileNameOfClean | backend/services/document_service.py:514-524 | already clean names go into the file name unchanged |
| DocumentService.FilenameDefaults | backend/services/document_service.py:509-510 | missing class and subject give `Analiz_Unknown_Test_{timestamp}.docx` |
| Api.SanitizeFilename | backend/main.py:323-345 | never empty; only file-name characters; no underscore runs; at most max_length unless it is "document"; "document" when nothing is left |
| Api.SanitizeFilenameIdempotent | backend/main.py:323-345 | sanitising a sanitised name gives it back, unless the cut left an edge underscore |
| Api.ResponseFilename | backend/main.py:678-681 | `Analiz_{class}_{subject}.docx` with non-empty sanitised parts; a 500 error when a part is not text, naming the type of the first such part |
| Api.CheckLength | backend/main.py:354-356 | a length error iff the text is outside the field's limits |
| Api.ValidateId | backend/main.py:354-369 | accepted iff 1..100 characters, not blank and none of `< > & " ' ; ( )`; the value is the stripped text; blank gives "ID cannot be empty" |
| Api.ValidateIdIdempotent | backend/main.py:358-369 | an accepted ID passes again unchanged |
| Api.ValidateOptionalText | backend/main.py:371-382 | an error iff over 200 characters; None and blank give None; other text is stripped |
| Api.ValidateOptionalTextIdempotent | backend/main.py:407-418 | a validated name passes again unchanged |
| Api.ValidateMaxTokens | backend/main.py:430-438 | None gives 2048; a value is kept iff within 1..8192 |
| Api.ValidateTemperature | backend/main.py:420-428 | None gives 0.7; a value is kept iff within 0.0..2.0 |
| Api.TraversalAttemptSimplified | backend/main.py:1063-1069 | the traversal test rejects a name iff it starts with a slash or backslash, or holds ".." and a slash or backslash |
| Api.TemplateNameCheck | backend/main.py:1045-1091 | accepted iff 1..255 characters, no traversal, ends in ".docx" in any case, and the name before the extension is not blank |
| Api.ErrorResponse | backend/main.py:622-631 | 429 iff the error is a rate limit, 500 otherwise, with the error's message as the detail |
| Config.TruthyStrings | backend/config.py:77 | the stripped text of each truthy element, and nothing for a list with none |
| Config.CommaOrigins | backend/config.py:82 | the non-blank stripped comma pieces, none empty or holding a comma |
| Config.ParseAllowedOrigins | backend/config.py:52-90 | a decoded JSON list gives its truthy strings; other text its comma pieces or the defaults; a list its truthy strings; anything else the defaults |
| Config.MissingSettings | backend/config.py:152-163 | each error is listed iff its setting is missing |
| Config.Bullets | backend/config.py:166 | each error becomes a "  - " line |
| Config.ValidateSettings | backend/config.py:142-168 | an error iff the Gemini key, the Supabase URL, or both Supabase keys are missing |
| DocumentService.BlankRateGivesEmptyCell | backend/services/document_service.py:459-472 | a whitespace-only rate gives an empty cell |
| DocumentService.CellAgreesWhenNotBlank | backend/services/document_service.py:459-472 | the corrected cell agrees with the cell as written on every value whose text is not blank |
| Api.TemplateNameCheckAsWritten | backend/main.py:1085-1091 | what is accepted passes the traversal and extension checks |
| Api.FiveCharacterNamesAccepted | backend/main.py:1085 | every five-character name ending in ".docx" is accepted though nothing is left before the extension |
| Api.BareExtensionAccepted | backend/main.py:1085 | ".docx" itself is accepted |
| Api.TemplateNameChecksAgree | backend/main.py:1085 | the two checks differ only on five-character names, which the corrected one refuses |
| Api.ErrorResponseAsWritten | backend/main.py:627 | a Gemini error gives 500 with the attribute error as the detail; a Groq error maps by its flag |
| Api.GeminiMessageLost | backend/main.py:627-631 | a Gemini error's own message never reaches the client |
| Api.ErrorResponsesAgree | backend/main.py:622-631 | on Groq errors the two mappings agree; on Gemini errors only the status agrees |

## Left out

- The Supabase client is replaced by an in-memory table and request inputs. This covers table queries, the storage bucket, and template upload, download, listing and deletion. It also covers `_get_test`, `_get_class`, `_get_students_in_class` and `_get_test_results`, with the results-table name fallback.
- FastAPI routing, exception handlers, CORS, the health check, the config endpoints and `cleanup_old_documents` are left out. They are I/O plumbing.
- Parts of the endpoints themselves are left out; only their checks and the error mapping are modelled. The second endpoint's own ID checks (backend/main.py:725-745) are not modelled.
- Gemini model discovery, the `generate_content` and `chat.completions.create` calls, and `_build_prompt` are left out. The models are an opaque function from attempt number to reply.
- The pauses (`time.sleep`) between attempts are left out.
- The labelled regular expressions of both parsers are an abstract extractor. Groq's header split is an abstract function that returns the parts.
  - The Gemini line-scan headers are implemented as prefix tests on the lower-cased line.
  - The Groq "retry … N s" pattern is implemented as a leftmost, lazy match.
- `str.lower` is written out for ASCII and Cyrillic only.
- `\w` covers ASCII, Latin-1, Latin Extended and Cyrillic letters.
- `datetime.fromisoformat` and `strptime` are parameters. Only their success or failure and the instant they yield are modelled.
- `get_current_timestamp`, `datetime.now()` and the clock are plain inputs: the timestamp string of a file name, and the `now` of a save.
- PyValue.ToFloat: `float()` on text reads ASCII decimal literals with an optional sign, fraction and exponent. Python also accepts "inf", "nan", underscores between digits and non-ASCII digits; the model reads these as not a number, because infinities and NaN are not reals.
- AnalyticsCache.CacheRecord: the cached `statistics` and `question_success_rates` columns are maps, so a NULL column is not representable; Python's merge `{**statistics, **question_success_rates}` at backend/services/supabase_service.py:157 raises on one.
- The items of `test.questions` are dictionaries in the model. A question that is not a dict, on which `question.get` raises, is not modelled.
- JSON decoding of string-encoded `questions`, `question_results` and cache columns is left out. The model assumes inputs are already decoded.
- Floating point is modelled as exact reals. Python's `round` is half-even on the exact value, so binary representation effects are not modelled.
- Document rendering, template loading and temporary files are left out. These are `DocxTemplate`, `_load_template` and the output directory.
- `_validate_ai_analysis` is left out. It only logs.
- Some keys of `_build_context` are left out:
  - `grade_distribution_N`, `grade_percentage_N`, `max_points_test`, `test_name` and `date`. These are copied or formatted values the model does not reason about.
  - The `test.questions` lookup: the question count is a parameter.
- DocumentService.BuildContext: the question cells use the corrected `Cell` of the first Findings row. A whitespace-only string rate therefore gives "0%" where `_build_context` as written gives "" (`DocumentService.CellAsWritten`).
- DocumentService.TestTotal and DocumentService.RenderTotal: a `total_questions` that is not a whole number is read as 0 rather than raising.
- Some of `get_test_analysis_data` is left out:
  - the resolution of teacher name and subject;
  - the classification of multiple-choice and short questions;
  - the raw `students`/`results` attachment.

  These only decorate the returned dictionary and do not affect the statistics or the cache.
- Api.SanitizeFilename: `max_length` is a natural number. Python's behaviour for a negative length is not modelled.
- Api.ValidateOptionalText: the pydantic field's length limit and the validator are combined into one check. Values that pydantic coerces before validation are not modelled.
- Logging and the singleton getters are left out.

## Findings

| source | as written | input that shows it | evidently intended | confidence | as-written member | corrected member |
|---|---|---|---|---|---|---|
| backend/services/document_service.py:459-472 | `str(value).strip() if value else '0%'` tests emptiness before stripping | a rate of `" "` gives an empty cell; the render fix-up (backend/services/document_service.py:121-153) repairs rows 1..19, so only rows above 19 reach the document empty | no question cell is ever empty; a blank value reads "0%" | high, not executed | DocumentService.CellAsWritten, DocumentService.BlankRateGivesEmptyCell | DocumentService.Cell, DocumentService.CellAgreesWhenNotBlank |
| backend/main.py:1085 | `template_name[:-5] if len(template_name) > 5 else template_name` keeps a five-character name whole | `".docx"` passes every check of the delete endpoint | a name with nothing before ".docx" is rejected as empty | high, not executed | Api.TemplateNameCheckAsWritten, Api.FiveCharacterNamesAccepted, Api.BareExtensionAccepted | Api.TemplateNameCheck, Api.TemplateNameChecksAgree |
| backend/main.py:627 | `e.is_rate_limit` is read on a `GeminiAPIError`, which has no such attribute | any Gemini error: the outer handler answers 500 with "'GeminiAPIError' object has no attribute 'is_rate_limit'" | a Gemini error maps to 500 with its own message | high, not executed | Api.ErrorResponseAsWritten, Api.GeminiMessageLost | Api.ErrorResponse, Api.ErrorResponsesAgree |
