/**
 * The Groq provider's response handling (backend/services/groq_service.py):
 * the retry loop with its rate-limit classification and retry delay, and the
 * parser with its split fallback, default fill and key renaming.
 */
module GroqService {
  import opened Wrappers
  import opened PyText
  import opened AiSections

  // ---------------------------------------------------------------------
  // Labels and defaults

  /** The upper-case label the prompt asks the model to use for a section. */
  function GroqLabel(s: Section): (name: string)
    ensures |name| > 0
  {
    match s
    case Lowest => "LOWEST_RESULTS"
    case Highest => "HIGHEST_RESULTS"
    case Gaps => "GAPS_ANALYSIS"
    case Overall => "RESULTS_ANALYSIS"
    case Improvement => "IMPROVEMENT_MEASURES"
  }

  lemma GroqLabelInjective()
    ensures forall a, b :: GroqLabel(a) == GroqLabel(b) ==> a == b
  {
  }

  /** The text for blank input (and for the renaming step's unreachable default). */
  function GroqDefault(s: Section): (text: string)
    ensures text != ""
  {
    match s
    case Lowest => "Не е налична информация за най-ниските резултати."
    case Highest => "Не е налична информация за най-високите резултати."
    case Gaps => "Не е налична информация за пропуските."
    case Overall => "Не е налична информация за общия анализ."
    case Improvement => "Не са налични препоръки за подобрение."
  }

  function GroqDefaults(): (m: map<string, string>)
    ensures Complete(m)
  {
    SectionMap(GroqDefault(Lowest), GroqDefault(Highest), GroqDefault(Gaps),
               GroqDefault(Overall), GroqDefault(Improvement))
  }

  /** Each section's entry in the defaults is its default text. */
  lemma GroqDefaultsAt(s: Section)
    ensures GroqDefaults()[Key(s)] == GroqDefault(s)
  {
    match s
    case Lowest =>
    case Highest =>
    case Gaps =>
    case Overall =>
    case Improvement =>
  }

  /** The filler for a section nothing was found for. */
  function MissingText(s: Section): (text: string)
    ensures StartsWith(text, "Не е налична информация за ") && EndsWith(text, GroqLabel(s) + ".")
  {
    "Не е налична информация за " + GroqLabel(s) + "."
  }

  // ---------------------------------------------------------------------
  // `_parse_ai_response`

  /** `part.strip()` when that is not empty. */
  function NonBlankStripped(part: string): (r: Option<string>)
    ensures r.Some? <==> Strip(part) != ""
    ensures r.Some? ==> r.value == Strip(part)
  {
    if Strip(part) != "" then Some(Strip(part)) else None
  }

  /**
   * The split fallback's text for a section: the non-blank part at the
   * section's position among `parts[1:6]`, stripped.
   */
  function SplitPart(parts: seq<string>, s: Section): (r: Option<string>)
    ensures r.Some? ==> r.value != ""
  {
    var i := SectionIndex(s) + 1;
    if i < |parts| then NonBlankStripped(parts[i]) else None
  }

  /** The sections found by the labelled patterns, under their labels. */
  function LabelledSections(text: string, extract: Extractor): map<string, string> {
    Extracted(extract, text, 10, GroqLabel)
  }

  /** Whether the split fallback runs: fewer than two sections were found and the split gave at least two parts. */
  predicate SplitFallbackApplies(text: string, extract: Extractor, splitParts: string -> seq<string>) {
    |LabelledSections(text, extract)| < 2 && |splitParts(text)| >= 2
  }

  /**
   * The parsed text of one section, stated per section: the split fallback's
   * part when the fallback runs and has one, else the first accepted labelled
   * capture, else the missing-section filler.
   */
  function GroqSectionText(text: string, extract: Extractor, splitParts: string -> seq<string>, s: Section): (r: string)
    ensures r != ""
  {
    if SplitFallbackApplies(text, extract, splitParts) && SplitPart(splitParts(text), s).Some? then
      SplitPart(splitParts(text), s).value
    else
      match SectionMatch(extract, s, text, 10)
      case Some(g) => g
      case None => MissingText(s)
  }

  function SplitValue(parts: seq<string>): Section -> Option<string> {
    s => SplitPart(parts, s)
  }

  /** The split fallback's value for the section at position `i`. */
  lemma SplitValueAt(parts: seq<string>, i: nat)
    requires i < |AllSections|
    ensures SplitValue(parts)(AllSections[i]) == if i + 1 < |parts| then NonBlankStripped(parts[i + 1]) else None
  {
    assert SectionIndex(AllSections[i]) == i;
  }

  /** One more position of the split fallback sets that section's label to its part, when the part is not blank. */
  lemma SplitStep(base: map<string, string>, parts: seq<string>, i: nat)
    requires i < |AllSections| && i + 1 < |parts|
    ensures var m := Overlay(base, GroqLabel, SplitValue(parts), i);
      var stripped := NonBlankStripped(parts[i + 1]);
      Overlay(base, GroqLabel, SplitValue(parts), i + 1)
        == if stripped.Some? then m[GroqLabel(AllSections[i]) := stripped.value] else m
  {
    SplitValueAt(parts, i);
  }

  /** Positions past the last part change nothing. */
  lemma {:induction false} SplitOverlayBeyond(base: map<string, string>, parts: seq<string>, n: nat)
    requires |parts| >= 1 && |parts| - 1 <= n <= |AllSections|
    ensures Overlay(base, GroqLabel, SplitValue(parts), n) == Overlay(base, GroqLabel, SplitValue(parts), |parts| - 1)
  {
    if n > |parts| - 1 {
      SplitValueAt(parts, n - 1);
      SplitOverlayBeyond(base, parts, n - 1);
    }
  }

  /** The split fallback: assigns the non-blank parts positionally. */
  method AssignSplitParts(base: map<string, string>, parts: seq<string>) returns (sections: map<string, string>)
    requires |parts| >= 2
    ensures sections == Overlay(base, GroqLabel, SplitValue(parts), |AllSections|)
  {
    sections := base;
    var count := if |parts| - 1 < |AllSections| then |parts| - 1 else |AllSections|;
    for i := 0 to count
      invariant sections == Overlay(base, GroqLabel, SplitValue(parts), i)
    {
      SplitStep(base, parts, i);
      var stripped := NonBlankStripped(parts[i + 1]);
      if stripped.Some? {
        sections := sections[GroqLabel(AllSections[i]) := stripped.value];
      }
    }
    if count < |AllSections| {
      SplitOverlayBeyond(base, parts, |AllSections|);
    }
  }

  /** The filler for every section whose label `sections` lacks. */
  function FillValue(sections: map<string, string>): Section -> Option<string> {
    s => if GroqLabel(s) in sections then None else Some(MissingText(s))
  }

  /** Fills every missing label with its filler text. */
  method FillMissing(sections: map<string, string>) returns (filled: map<string, string>)
    ensures filled == Overlay(sections, GroqLabel, FillValue(sections), |AllSections|)
  {
    filled := sections;
    GroqLabelInjective();
    for i := 0 to |AllSections|
      invariant filled == Overlay(sections, GroqLabel, FillValue(sections), i)
    {
      var s := AllSections[i];
      assert SectionIndex(s) == i;
      OverlayAt(sections, GroqLabel, FillValue(sections), i, s);
      if GroqLabel(s) !in filled {
        filled := filled[GroqLabel(s) := MissingText(s)];
      }
    }
  }

  /** The renaming of each label to the section key the document uses. */
  function RenameValue(sections: map<string, string>): Section -> Option<string> {
    s => Some(if GroqLabel(s) in sections then sections[GroqLabel(s)] else GroqDefault(s))
  }

  method RenameKeys(sections: map<string, string>) returns (mapped: map<string, string>)
    ensures mapped == Overlay(map[], Key, RenameValue(sections), |AllSections|)
  {
    mapped := map[];
    for i := 0 to |AllSections|
      invariant mapped == Overlay(map[], Key, RenameValue(sections), i)
    {
      var s := AllSections[i];
      if GroqLabel(s) in sections {
        mapped := mapped[Key(s) := sections[GroqLabel(s)]];
      } else {
        mapped := mapped[Key(s) := GroqDefault(s)];
      }
    }
  }

  /** The labelled sections after the split fallback, under their labels. */
  function SplitSections(text: string, extract: Extractor, splitParts: string -> seq<string>): map<string, string> {
    var labelled := LabelledSections(text, extract);
    if SplitFallbackApplies(text, extract, splitParts) then
      Overlay(labelled, GroqLabel, SplitValue(splitParts(text)), |AllSections|)
    else labelled
  }

  /** ... after the default fill. */
  function FilledSections(text: string, extract: Extractor, splitParts: string -> seq<string>): map<string, string> {
    var sections := SplitSections(text, extract, splitParts);
    Overlay(sections, GroqLabel, FillValue(sections), |AllSections|)
  }

  /** ... after the renaming: the parser's result for non-blank text. */
  function GroqParsed(text: string, extract: Extractor, splitParts: string -> seq<string>): map<string, string> {
    Overlay(map[], Key, RenameValue(FilledSections(text, extract, splitParts)), |AllSections|)
  }

  /** After the fill, every label holds the section's text as stated per section. */
  lemma FilledSection(text: string, extract: Extractor, splitParts: string -> seq<string>, s: Section)
    ensures var f := FilledSections(text, extract, splitParts);
      GroqLabel(s) in f && f[GroqLabel(s)] == GroqSectionText(text, extract, splitParts, s)
  {
    GroqLabelInjective();
    var sections := SplitSections(text, extract, splitParts);
    OverlayAt(sections, GroqLabel, FillValue(sections), |AllSections|, s);
    ExtractedHas(extract, text, 10, GroqLabel, s);
    if SplitFallbackApplies(text, extract, splitParts) {
      OverlayAt(LabelledSections(text, extract), GroqLabel, SplitValue(splitParts(text)), |AllSections|, s);
    }
  }

  /** The parser's result holds each section's text under the section's key. */
  lemma GroqParsedSections(text: string, extract: Extractor, splitParts: string -> seq<string>)
    ensures forall s :: Key(s) in GroqParsed(text, extract, splitParts)
                        && GroqParsed(text, extract, splitParts)[Key(s)] == GroqSectionText(text, extract, splitParts, s)
  {
    var filled := FilledSections(text, extract, splitParts);
    forall s ensures Key(s) in GroqParsed(text, extract, splitParts)
                     && GroqParsed(text, extract, splitParts)[Key(s)] == GroqSectionText(text, extract, splitParts, s) {
      OverlayAt(map[], Key, RenameValue(filled), |AllSections|, s);
      FilledSection(text, extract, splitParts, s);
    }
  }

  /** The parser's result holds exactly the five keys. */
  lemma GroqParsedKeys(text: string, extract: Extractor, splitParts: string -> seq<string>)
    ensures GroqParsed(text, extract, splitParts).Keys == KeySet
  {
    var m := GroqParsed(text, extract, splitParts);
    OverlayFrame(map[], Key, RenameValue(FilledSections(text, extract, splitParts)), |AllSections|);
    GroqParsedSections(text, extract, splitParts);
    forall k | k in KeySet ensures k in m {
      KeySetCovered(k);
    }
    forall k | k in m ensures k in KeySet {
      var s :| Key(s) == k;
    }
  }

  /** What `_parse_ai_response` yields for a reply's text: the defaults for blank text, else the parse. */
  function GroqParse(text: string, extract: Extractor, splitParts: string -> seq<string>): (m: map<string, string>)
    ensures m.Keys == KeySet
    ensures IsBlank(text) ==> forall s :: m[Key(s)] == GroqDefault(s)
    ensures !IsBlank(text) ==> forall s :: m[Key(s)] == GroqSectionText(text, extract, splitParts, s)
  {
    GroqParsedKeys(text, extract, splitParts);
    GroqParsedSections(text, extract, splitParts);
    forall s ensures GroqDefaults()[Key(s)] == GroqDefault(s) {
      GroqDefaultsAt(s);
    }
    if IsBlank(text) then GroqDefaults() else GroqParsed(text, extract, splitParts)
  }

  /** `_parse_ai_response`: labelled extraction, split fallback, default fill, key renaming. */
  method ParseAiResponse(raw: RawReply, extract: Extractor, splitParts: string -> seq<string>)
    returns (mapped: map<string, string>)
    ensures mapped == GroqParse(ReplyText(raw), extract, splitParts)
    ensures Complete(mapped)
    ensures IsBlank(ReplyText(raw)) ==> mapped == GroqDefaults()
    ensures !IsBlank(ReplyText(raw)) ==>
      forall s :: mapped[Key(s)] == GroqSectionText(ReplyText(raw), extract, splitParts, s)
  {
    var text := ReplyText(raw);
    if text == "" || IsBlank(text) {
      return GroqDefaults();
    }
    var sections := ExtractLabelled(text, extract, 10, GroqLabel);
    if |sections| < 2 {
      var parts := splitParts(text);
      if |parts| >= 2 {
        sections := AssignSplitParts(sections, parts);
      }
    }
    assert sections == SplitSections(text, extract, splitParts);
    var filled := FillMissing(sections);
    assert filled == FilledSections(text, extract, splitParts);
    mapped := RenameKeys(filled);
    assert mapped == GroqParsed(text, extract, splitParts);
    GroqParsedSections(text, extract, splitParts);
    GroqParsedKeys(text, extract, splitParts);
    forall k | k in mapped ensures mapped[k] != "" {
      KeySetCovered(k);
    }
  }

  // ---------------------------------------------------------------------
  // Rate limits

  /** The error is a rate limit: "rate_limit" or "quota" in any case, or "429". */
  predicate IsRateLimit(details: string) {
    Contains(Lower(details), "rate_limit") || Contains(details, "429") || Contains(Lower(details), "quota")
  }

  /** The end of `\d+(?:\.\d+)?` for a number whose first digit is at `q`. */
  function NumberEnd(l: string, q: nat): (e: nat)
    requires q <= |l|
    ensures q + LeadCount(l[q..], IsDigit) <= e <= |l|
  {
    var a := q + LeadCount(l[q..], IsDigit);
    if a + 1 < |l| && l[a] == '.' && IsDigit(l[a + 1]) then a + 1 + LeadCount(l[a + 1..], IsDigit) else a
  }

  /** `(\d+(?:\.\d+)?)\s*s` matches at `q` (on lower-cased text). */
  predicate NumberSecondsAt(l: string, q: nat)
    requires q <= |l|
  {
    q < |l| && IsDigit(l[q])
    && var e := NumberEnd(l, q);
       var f := e + LeadCount(l[e..], IsSpace);
       f < |l| && l[f] == 's'
  }

  /** The lazy `.*?` after "retry": the first position from `q` on, within the line, where the number matches. */
  function LazyNumber(l: string, q: nat): (r: Option<nat>)
    requires q <= |l|
    ensures r.Some? ==> q <= r.value < |l| && NumberSecondsAt(l, r.value)
    decreases |l| - q
  {
    if NumberSecondsAt(l, q) then Some(q)
    else if q == |l| || l[q] == '\n' then None
    else LazyNumber(l, q + 1)
  }

  /** The leftmost match of `retry.*?(\d+(?:\.\d+)?)\s*s` from position `p` on: where its number starts. */
  function RetryMatch(l: string, p: nat): (r: Option<nat>)
    requires p <= |l|
    ensures r.Some? ==> r.value < |l| && NumberSecondsAt(l, r.value)
    decreases |l| - p
  {
    if p + 5 > |l| then None
    else if OccursAt(l, "retry", p) && LazyNumber(l, p + 5).Some? then LazyNumber(l, p + 5)
    else RetryMatch(l, p + 1)
  }

  const DefaultRetryDelay := 2

  /**
   * The wait announced for a rate limit: the whole seconds of the first
   * "retry ... N s" in the error text, at least 5, or the default of 2.
   */
  function RetryDelay(details: string): (delay: int)
    ensures delay == DefaultRetryDelay || delay >= 5
    ensures delay != DefaultRetryDelay <==> Contains(Lower(details), "retry") && RetryMatch(Lower(details), 0).Some?
  {
    var l := Lower(details);
    if Contains(l, "retry") then
      match RetryMatch(l, 0)
      case Some(q) =>
        var whole := DigitsValue(LeadingDigits(l[q..]));
        if whole > 5 then whole else 5
      case None => DefaultRetryDelay
    else DefaultRetryDelay
  }

  const QuotaPrefix := "Квотата за Groq API е изчерпана. Моля, проверете вашия план. "

  /** The sentence naming the delay: "try again after N seconds". */
  const RetryOpening := "Опитайте отново след "
  const SecondsClosing := " секунди."

  /** The message of the error raised when the quota is exhausted; it names the delay only above the default. */
  function QuotaMessage(delay: int): (msg: string)
    ensures StartsWith(msg, QuotaPrefix)
    ensures delay > DefaultRetryDelay ==> EndsWith(msg, IntToStr(delay) + SecondsClosing)
    ensures delay <= DefaultRetryDelay ==> msg == QuotaPrefix
  {
    if delay > DefaultRetryDelay then
      var named := IntToStr(delay) + SecondsClosing;
      var tail := RetryOpening + named;
      EndsWithConcat(RetryOpening, named);
      EndsWithExtended(QuotaPrefix, tail, named);
      StartsWithConcat(QuotaPrefix, tail);
      QuotaPrefix + tail
    else
      StartsWithConcat(QuotaPrefix, "");
      assert QuotaPrefix + "" == QuotaPrefix;
      QuotaPrefix
  }

  lemma StartsWithConcat(a: string, b: string)
    ensures StartsWith(a + b, a)
  {
    assert (a + b)[..|a|] == a;
  }

  lemma EndsWithConcat(a: string, b: string)
    ensures EndsWith(a + b, b)
  {
    assert (a + b)[|a|..] == b;
  }

  lemma EndsWithExtended(a: string, t: string, b: string)
    requires EndsWith(t, b)
    ensures EndsWith(a + t, b)
  {
    assert (a + t)[|a + t| - |b|..] == t[|t| - |b|..];
  }

  // ---------------------------------------------------------------------
  // The call with retries (`_call_groq_with_retry`)

  const MaxRetries := 3

  /** What one model call produced. */
  datatype GroqReply =
    | NoResponse             // no response or no choices
    | Content(text: string)  // the first choice's message content
    | NoContent              // the content is None
    | CallFailed(errorType: string, details: string)

  datatype GroqApiError = GroqApiError(message: string, isRateLimit: bool, retryAfter: Option<int>)

  /** One attempt: the stripped reply text, or the exception it raises. */
  function Attempt(reply: GroqReply): (r: Result<string, Failure>)
    ensures r.Ok? <==> reply.Content? && Strip(reply.text) != ""
    ensures r.Ok? ==> r.value == Strip(reply.text)
  {
    match reply
    case NoResponse => Err(Failure("GroqAPIError", "Empty response from Groq API"))
    case Content(t) =>
      if Strip(t) == "" then Err(Failure("GroqAPIError", "Empty text in Groq response")) else Ok(Strip(t))
    case NoContent => Err(Failure("AttributeError", "'NoneType' object has no attribute 'strip'"))
    case CallFailed(errorType, details) => Err(Failure(errorType, details))
  }

  const FinalPrefix := "Неуспешно генериране на AI анализ след 3 опита: "

  /** The message raised after the last failed attempt. */
  function FinalMessage(f: Failure): string {
    var msg := FinalPrefix + f.errorType;
    if |f.details| < 200 then msg + ": " + f.details else msg
  }

  /** The final message names the error type, and appends the details only when shorter than 200 characters. */
  lemma FinalMessageDetails(f: Failure)
    ensures StartsWith(FinalMessage(f), FinalPrefix + f.errorType)
    ensures |f.details| < 200 ==> EndsWith(FinalMessage(f), ": " + f.details)
    ensures |f.details| >= 200 ==> FinalMessage(f) == FinalPrefix + f.errorType
  {
    var msg := FinalPrefix + f.errorType;
    assert (msg + ": " + f.details)[..|msg|] == msg;
    assert (msg + ": " + f.details)[|msg + ": " + f.details| - |": " + f.details|..] == ": " + f.details;
  }

  /** The error raised when the last attempt fails. */
  function ExhaustedError(f: Failure): GroqApiError {
    if IsRateLimit(f.details) then GroqApiError(QuotaMessage(RetryDelay(f.details)), true, Some(RetryDelay(f.details)))
    else GroqApiError(FinalMessage(f), false, None)
  }

  /**
   * `_call_groq_with_retry`. `call(k)` is the outcome of the k-th call of the
   * model; the pauses between attempts are left out.
   */
  method CallGroqWithRetry(call: nat -> GroqReply) returns (r: Result<string, GroqApiError>)
    ensures r.Ok? <==> exists k :: 1 <= k <= MaxRetries && Attempt(call(k)).Ok?
    ensures r.Ok? ==> r.value != "" && exists k :: (1 <= k <= MaxRetries && Attempt(call(k)) == Ok(r.value)
                                                    && forall j :: 1 <= j < k ==> Attempt(call(j)).Err?)
    ensures r.Err? ==> r.error == ExhaustedError(Attempt(call(MaxRetries)).error)
    ensures r.Err? ==> (r.error.isRateLimit <==> IsRateLimit(Attempt(call(MaxRetries)).error.details))
  {
    var lastError := Failure("Unknown", "No error details");
    var attempt := 1;
    ghost var lastAttempt := 0;
    while attempt <= MaxRetries
      invariant 1 <= attempt <= MaxRetries + 1 && lastAttempt == attempt - 1
      invariant forall j :: 1 <= j < attempt ==> Attempt(call(j)).Err?
      invariant attempt > 1 ==> lastError == Attempt(call(lastAttempt)).error
      invariant attempt > MaxRetries ==> !IsRateLimit(lastError.details)
    {
      var outcome := Attempt(call(attempt));
      if outcome.Ok? {
        return Ok(outcome.value);
      }
      forall j | 1 <= j <= attempt ensures Attempt(call(j)).Err? {
        if j == attempt {
          assert Attempt(call(j)) == outcome;
        }
      }
      lastError := outcome.error;
      lastAttempt := attempt;
      if IsRateLimit(lastError.details) && attempt == MaxRetries {
        var delay := RetryDelay(lastError.details);
        return Err(GroqApiError(QuotaMessage(delay), true, Some(delay)));
      }
      attempt := attempt + 1;
    }
    r := Err(GroqApiError(FinalMessage(lastError), false, None));
  }

  /** `generate_analysis` after the prompt is built: call, then parse. */
  method GenerateAnalysis(call: nat -> GroqReply, extract: Extractor, splitParts: string -> seq<string>)
    returns (r: Result<map<string, string>, GroqApiError>)
    ensures r.Ok? <==> exists k :: 1 <= k <= MaxRetries && Attempt(call(k)).Ok?
    ensures r.Ok? ==> Complete(r.value)
    ensures r.Ok? ==> exists k :: 1 <= k <= MaxRetries && Attempt(call(k)).Ok?
                                 && (forall j :: 1 <= j < k ==> Attempt(call(j)).Err?)
                                 && r.value == GroqParse(Attempt(call(k)).value, extract, splitParts)
    ensures r.Err? ==> r.error == ExhaustedError(Attempt(call(MaxRetries)).error)
  {
    var text := CallGroqWithRetry(call);
    if text.Err? {
      return Err(text.error);
    }
    ghost var k :| 1 <= k <= MaxRetries && Attempt(call(k)) == Ok(text.value)
                   && forall j :: 1 <= j < k ==> Attempt(call(j)).Err?;
    var sections := ParseAiResponse(TextReply(text.value), extract, splitParts);
    r := Ok(sections);
  }

  // ---------------------------------------------------------------------
  // Concrete cases

  /** Lower-casing leaves "retry <digits>s" as it is. */
  lemma LowerRetryText(d: string)
    requires IsDigits(d)
    ensures Lower("retry " + d + "s") == "retry " + d + "s"
  {
    var l := "retry " + d + "s";
    forall i | 0 <= i < |l| ensures LowerChar(l[i]) == l[i] {
      if 6 <= i < 6 + |d| {
        assert l[i] == d[i - 6];
      }
    }
  }

  /** In "retry <digits>s" the number is found right after the blank. */
  lemma NumberSecondsInRetryText(d: string)
    requires IsDigits(d)
    ensures var l := "retry " + d + "s"; NumberEnd(l, 6) == 6 + |d| && NumberSecondsAt(l, 6)
  {
    var l := "retry " + d + "s";
    assert l[6..] == d + "s";
    LeadCountPrefix(d, "s", IsDigit);
    assert LeadCount("s", IsDigit) == 0;
    assert l[6 + |d|] == 's';
    assert l[6 + |d|..] == "s";
    assert LeadCount("s", IsSpace) == 0;
    assert l[6] == d[0];
  }

  /** The regular expression matches "retry <digits>s" and captures the digits. */
  lemma RetryMatchOfRetryText(d: string)
    requires IsDigits(d)
    ensures var l := "retry " + d + "s";
      Contains(l, "retry") && RetryMatch(l, 0) == Some(6) && LeadingDigits(l[6..]) == d
  {
    var l := "retry " + d + "s";
    assert OccursAt(l, "retry", 0);
    NumberSecondsInRetryText(d);
    assert !NumberSecondsAt(l, 5) by {
      assert l[5] == ' ';
    }
    assert LazyNumber(l, 5) == Some(6);
    assert l[6..] == d + "s";
    LeadCountPrefix(d, "s", IsDigit);
    assert (d + "s")[..|d|] == d;
  }

  /** A message naming "retry <n>s" yields a wait of `n` seconds, or 5 when `n` is smaller. */
  lemma RetryDelayReadsSeconds(n: nat)
    ensures RetryDelay("retry " + NatToStr(n) + "s") == if n > 5 then n else 5
  {
    var d := NatToStr(n);
    LowerRetryText(d);
    RetryMatchOfRetryText(d);
    DigitsValueOfNatToStr(n);
  }
}
