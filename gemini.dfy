/**
 * The Gemini provider's response handling (backend/services/gemini_service.py):
 * the retry loop around the model call, the three-stage parser and the
 * section back-fill.
 */
module GeminiService {
  import opened Wrappers
  import opened PyText
  import opened PyValue
  import opened AiSections

  // ---------------------------------------------------------------------
  // Defaults

  function GeminiDefault(s: Section): (text: string)
    ensures |text| >= 10
  {
    match s
    case Lowest => "Анализ на най-ниските резултати."
    case Highest => "Анализ на най-високите резултати."
    case Gaps => "Анализ на пропуските."
    case Overall => "Общ анализ на резултатите."
    case Improvement => "Мерки за подобрение."
  }

  /** The fixed sections returned for blank input. */
  function GeminiDefaults(): (m: map<string, string>)
    ensures Complete(m)
  {
    SectionMap(GeminiDefault(Lowest), GeminiDefault(Highest), GeminiDefault(Gaps),
               GeminiDefault(Overall), GeminiDefault(Improvement))
  }

  /** Each section's entry in the defaults is its default text. */
  lemma GeminiDefaultsAt(s: Section)
    ensures GeminiDefaults()[Key(s)] == GeminiDefault(s)
  {
    match s
    case Lowest =>
    case Highest =>
    case Gaps =>
    case Overall =>
    case Improvement =>
  }

  // ---------------------------------------------------------------------
  // Line scan (`_fallback_parse`)

  /** The characters `[\s_-]` matches. */
  predicate IsSeparator(c: char) {
    IsSpace(c) || c == '_' || c == '-'
  }

  /** `s` after a run of `[\s_-]*`. */
  function SkipSeparators(s: string): string {
    s[LeadCount(s, IsSeparator)..]
  }

  /** After the label word: `[\s_-]*(RESULTS?|резултати)`, on lower-cased text. */
  predicate ResultsWordFollows(rest: string) {
    var t := SkipSeparators(rest);
    StartsWith(t, "result") || StartsWith(t, "резултати")
  }

  /**
   * Which header a stripped line starts with, in the order the scan tests them.
   * The header patterns match case-insensitively at the start of the line, so
   * they are tested on its lower-cased form.
   */
  function HeaderOf(line: string): (h: Option<Section>)
    ensures line == "" ==> h.None?
  {
    var l := Lower(line);
    if (StartsWith(l, "lowest") && ResultsWordFollows(l[6..]))
       || (StartsWith(l, "най-ниски") && ResultsWordFollows(l[9..])) then Some(Lowest)
    else if (StartsWith(l, "highest") && ResultsWordFollows(l[7..]))
       || (StartsWith(l, "най-високи") && ResultsWordFollows(l[10..])) then Some(Highest)
    else if StartsWith(l, "gap") || StartsWith(l, "пропуски") then Some(Gaps)
    else if (StartsWith(l, "result")
             && var rest := if StartsWith(l[6..], "s") then l[7..] else l[6..];
                StartsWith(SkipSeparators(rest), "analysis"))
       || (StartsWith(l, "общ") && |l| > 3 && IsSpace(l[3])
           && StartsWith(l[3..][LeadCount(l[3..], IsSpace)..], "анализ")) then Some(Overall)
    else if (StartsWith(l, "improvement") && StartsWith(SkipSeparators(l[11..]), "measure"))
       || StartsWith(l, "мерки") then Some(Improvement)
    else None
  }

  /** The scan's variables: the sections so far, the open section and its lines. */
  datatype ScanState = ScanState(sections: map<string, string>, current: Option<Section>, buffer: seq<string>)

  /** Closes the open section, but only when it has collected lines. */
  function Flush(st: ScanState): map<string, string> {
    if st.current.Some? && |st.buffer| > 0 then st.sections[Key(st.current.value) := Strip(Join("\n", st.buffer))]
    else st.sections
  }

  /** One line of the scan. */
  function Step(st: ScanState, line: string): ScanState {
    var stripped := Strip(line);
    match HeaderOf(stripped)
    case Some(h) => ScanState(Flush(st), Some(h), [])
    case None =>
      if stripped != "" && st.current.Some? then st.(buffer := st.buffer + [stripped]) else st
  }

  /** The scan over the first lines. */
  function Scan(lines: seq<string>): ScanState {
    if |lines| == 0 then ScanState(map[], None, [])
    else Step(Scan(lines[..|lines| - 1]), lines[|lines| - 1])
  }

  /** Stored sections are known keys with non-empty text; buffered lines are stripped and non-empty. */
  predicate ScanInvariant(st: ScanState) {
    (forall k :: k in st.sections ==> k in KeySet && st.sections[k] != "")
    && (forall b :: b in st.buffer ==> b != "" && !IsSpace(b[0]))
  }

  lemma FlushKeepsInvariant(st: ScanState)
    requires ScanInvariant(st)
    ensures forall k :: k in Flush(st) ==> k in KeySet && Flush(st)[k] != ""
  {
    if st.current.Some? && |st.buffer| > 0 {
      assert st.buffer[0] in st.buffer;
      JoinNotBlank("\n", st.buffer);
    }
  }

  lemma {:induction false} ScanKeepsInvariant(lines: seq<string>)
    ensures ScanInvariant(Scan(lines))
  {
    if |lines| > 0 {
      var st := Scan(lines[..|lines| - 1]);
      ScanKeepsInvariant(lines[..|lines| - 1]);
      FlushKeepsInvariant(st);
    }
  }

  /** Lines before the first header are discarded: with no header, the scan stores nothing. */
  lemma {:induction false} NoHeaderNoSections(lines: seq<string>)
    requires forall i :: 0 <= i < |lines| ==> HeaderOf(Strip(lines[i])).None?
    ensures Scan(lines).current.None? && Flush(Scan(lines)) == map[]
  {
    if |lines| > 0 {
      NoHeaderNoSections(lines[..|lines| - 1]);
    }
  }

  /** `text[a:b]` with Python's clamping. */
  function Chunk(text: string, a: nat, b: nat): (r: string)
    ensures |r| <= |text|
  {
    var lo := if a < |text| then a else |text|;
    var hi := if b < lo then lo else if b < |text| then b else |text|;
    text[lo..hi]
  }

  /** At least 100 characters per chunk. */
  function ChunkSize(length: nat): (c: nat)
    ensures c >= 100 && c >= length / 5
  {
    if length / 5 > 100 then length / 5 else 100
  }

  /** One chunk of the emergency split: its stripped text, or the section's default when blank. */
  function ChunkOrDefault(text: string, a: nat, b: nat, s: Section): (r: string)
    ensures r != ""
    ensures r == Strip(Chunk(text, a, b)) || r == GeminiDefault(s)
  {
    var t := Strip(Chunk(text, a, b));
    if t != "" then t else GeminiDefault(s)
  }

  /** The last resort: five contiguous chunks of the text, blank ones replaced by defaults. */
  function EmergencySplit(text: string): (m: map<string, string>)
    ensures Complete(m)
  {
    var c := ChunkSize(|text|);
    SectionMap(ChunkOrDefault(text, 0, c, Lowest), ChunkOrDefault(text, c, 2 * c, Highest),
               ChunkOrDefault(text, 2 * c, 3 * c, Gaps), ChunkOrDefault(text, 3 * c, 4 * c, Overall),
               ChunkOrDefault(text, 4 * c, |text|, Improvement))
  }

  /** The five chunks are contiguous and together are the whole text. */
  lemma ChunksCoverText(text: string)
    ensures var c := ChunkSize(|text|);
      Chunk(text, 0, c) + Chunk(text, c, 2 * c) + Chunk(text, 2 * c, 3 * c)
      + Chunk(text, 3 * c, 4 * c) + Chunk(text, 4 * c, |text|) == text
  {
    var c := ChunkSize(|text|);
    var n := |text|;
    var p1 := if c < n then c else n;
    var p2 := if 2 * c < n then 2 * c else n;
    var p3 := if 3 * c < n then 3 * c else n;
    var p4 := if 4 * c < n then 4 * c else n;
    assert Chunk(text, 0, c) == text[..p1];
    assert Chunk(text, c, 2 * c) == text[p1..p2];
    assert Chunk(text, 2 * c, 3 * c) == text[p2..p3];
    assert Chunk(text, 3 * c, 4 * c) == text[p3..p4];
    assert Chunk(text, 4 * c, n) == text[p4..];
    assert text[..p1] + text[p1..p2] == text[..p2];
    assert text[..p2] + text[p2..p3] == text[..p3];
    assert text[..p3] + text[p3..p4] == text[..p4];
    assert text[..p4] + text[p4..] == text;
  }

  /** What `_fallback_parse` returns. */
  function FallbackSections(text: string): map<string, string> {
    if IsBlank(text) then GeminiDefaults()
    else
      var m := Flush(Scan(Split(text, '\n')));
      if |m| < 5 then EmergencySplit(text) else m
  }

  /** The line scan always ends with five non-empty sections. */
  lemma FallbackComplete(text: string)
    ensures Complete(FallbackSections(text))
  {
    if !IsBlank(text) {
      var st := Scan(Split(text, '\n'));
      var m := Flush(st);
      ScanKeepsInvariant(Split(text, '\n'));
      FlushKeepsInvariant(st);
      if |m| >= 5 {
        FiveKeysAreAll(m.Keys);
      }
    }
  }

  /** The header scan of `_fallback_parse`, up to (not including) the final flush. */
  method ScanLines(lines: seq<string>) returns (sections: map<string, string>, current: Option<Section>, buffer: seq<string>)
    ensures ScanState(sections, current, buffer) == Scan(lines)
  {
    sections := map[];
    current := None;
    buffer := [];
    for i := 0 to |lines|
      invariant ScanState(sections, current, buffer) == Scan(lines[..i])
    {
      assert lines[..i + 1][..i] == lines[..i];
      var stripped := Strip(lines[i]);
      var header := HeaderOf(stripped);
      if header.Some? {
        if current.Some? && |buffer| > 0 {
          sections := sections[Key(current.value) := Strip(Join("\n", buffer))];
        }
        current := header;
        buffer := [];
      } else if stripped != "" && current.Some? {
        buffer := buffer + [stripped];
      }
    }
    assert lines[..|lines|] == lines;
  }

  /** `_fallback_parse`: scan lines for headers, then fall back to the chunk split. */
  method FallbackParse(text: string) returns (sections: map<string, string>)
    ensures sections == FallbackSections(text)
    ensures Complete(sections)
  {
    FallbackComplete(text);
    if IsBlank(text) {
      return GeminiDefaults();
    }
    var current, buffer;
    sections, current, buffer := ScanLines(Split(text, '\n'));
    if current.Some? && |buffer| > 0 {
      sections := sections[Key(current.value) := Strip(Join("\n", buffer))];
    }
    if |sections| < 5 {
      sections := EmergencySplit(text);
    }
  }

  // ---------------------------------------------------------------------
  // `_parse_ai_response`

  /** Strategy 1: at least one non-blank capture per section. */
  function Labelled(text: string, extract: Extractor): map<string, string> {
    Extracted(extract, text, 0, Key)
  }

  lemma LabelledKeys(text: string, extract: Extractor)
    ensures forall k :: k in Labelled(text, extract) ==> k in KeySet && Labelled(text, extract)[k] != ""
  {
    KeyInjectiveAll();
    ExtractedValues(extract, text, 0, Key);
  }

  /** What `_parse_ai_response` yields for a reply's text. */
  function ParsedSections(text: string, extract: Extractor): (sections: map<string, string>)
    ensures Complete(sections)
  {
    FallbackComplete(text);
    LabelledKeys(text, extract);
    if IsBlank(text) then GeminiDefaults()
    else if |Labelled(text, extract)| >= 5 then
      FiveKeysAreAll(Labelled(text, extract).Keys);
      Labelled(text, extract)
    else FallbackSections(text)
  }

  /** `_parse_ai_response`: defaults for blank input, else labelled extraction, else the line scan. */
  method ParseAiResponse(raw: RawReply, extract: Extractor) returns (sections: map<string, string>)
    ensures sections == ParsedSections(ReplyText(raw), extract)
    ensures Complete(sections)
    ensures IsBlank(ReplyText(raw)) ==> sections == GeminiDefaults()
    ensures !IsBlank(ReplyText(raw)) && |Labelled(ReplyText(raw), extract)| >= 5 ==>
      sections == Labelled(ReplyText(raw), extract)
    ensures !IsBlank(ReplyText(raw)) && |Labelled(ReplyText(raw), extract)| < 5 ==>
      sections == FallbackSections(ReplyText(raw))
  {
    var text := ReplyText(raw);
    if text == "" || IsBlank(text) {
      return GeminiDefaults();
    }
    sections := ExtractLabelled(text, extract, 0, Key);
    if |sections| < 5 {
      sections := FallbackParse(text);
    } else {
      LabelledKeys(text, extract);
      FiveKeysAreAll(sections.Keys);
    }
  }

  // ---------------------------------------------------------------------
  // Validation and back-fill

  /** Whether a section needs its default: missing, or shorter than 10 characters. */
  predicate NeedsDefault(m: map<string, string>, s: Section) {
    Key(s) !in m || |m[Key(s)]| < 10
  }

  /** `_validate_sections`: every one of the five keys is present with at least 10 characters. */
  function ValidateSections(m: map<string, string>): (valid: bool)
    ensures valid <==> forall s :: !NeedsDefault(m, s)
  {
    ValidateBySection(m);
    forall k :: k in KeySet ==> k in m && |m[k]| >= 10
  }

  lemma ValidateBySection(m: map<string, string>)
    ensures (forall k :: k in KeySet ==> k in m && |m[k]| >= 10) <==> forall s :: !NeedsDefault(m, s)
  {
    if forall s :: !NeedsDefault(m, s) {
      forall k | k in KeySet ensures k in m && |m[k]| >= 10 {
        KeySetCovered(k);
        var s :| Key(s) == k;
        assert !NeedsDefault(m, s);
      }
    }
  }

  /** The back-fill's replacement for a section: its default when it needs one. */
  function BackFillValue(sections: map<string, string>): Section -> Option<string> {
    s => if NeedsDefault(sections, s) then Some(GeminiDefault(s)) else None
  }

  /** The section's text after the back-fill. */
  function Filled(sections: map<string, string>, s: Section): string {
    if NeedsDefault(sections, s) then GeminiDefault(s) else sections[Key(s)]
  }

  /** The pass of the back-fill. */
  function BackFilled(sections: map<string, string>): map<string, string> {
    Overlay(sections, Key, BackFillValue(sections), |AllSections|)
  }

  /** After the back-fill every section holds its filled text. */
  lemma BackFilledSections(sections: map<string, string>)
    ensures forall s :: Key(s) in BackFilled(sections) && BackFilled(sections)[Key(s)] == Filled(sections, s)
  {
    KeyInjectiveAll();
    forall s ensures Key(s) in BackFilled(sections) && BackFilled(sections)[Key(s)] == Filled(sections, s) {
      OverlayAt(sections, Key, BackFillValue(sections), |AllSections|, s);
    }
  }

  /** The back-fill adds exactly the section keys. */
  lemma BackFilledKeys(sections: map<string, string>)
    ensures BackFilled(sections).Keys == sections.Keys + KeySet
  {
    var m := BackFilled(sections);
    OverlayFrame(sections, Key, BackFillValue(sections), |AllSections|);
    forall k | k in m ensures k in sections || k in KeySet {
      if k !in sections {
        var s :| Key(s) == k;
      }
    }
    BackFilledSections(sections);
    forall k | k in KeySet ensures k in m {
      KeySetCovered(k);
    }
  }

  /** The back-fill keeps every entry that is no section's. */
  lemma BackFilledKeeps(sections: map<string, string>)
    ensures forall k :: k in sections && k !in KeySet ==> k in BackFilled(sections) && BackFilled(sections)[k] == sections[k]
  {
    forall k | k in sections && k !in KeySet ensures k in BackFilled(sections) && BackFilled(sections)[k] == sections[k] {
      OverlayUntouched(sections, Key, BackFillValue(sections), |AllSections|, k);
    }
  }

  /** After the back-fill every section passes validation and nothing else changes. */
  lemma BackFilledValid(sections: map<string, string>)
    ensures var m := Overlay(sections, Key, BackFillValue(sections), |AllSections|);
      ValidateSections(m)
      && m.Keys == sections.Keys + KeySet
      && (forall k :: k in sections && k !in KeySet ==> m[k] == sections[k])
      && (forall s :: m[Key(s)] == Filled(sections, s))
  {
    BackFilledSections(sections);
    BackFilledKeys(sections);
    BackFilledKeeps(sections);
  }


  /** When the sections already validate, the back-fill changes nothing. */
  lemma BackFillOfValid(sections: map<string, string>)
    requires ValidateSections(sections)
    ensures Overlay(sections, Key, BackFillValue(sections), |AllSections|) == sections
  {
    var m := Overlay(sections, Key, BackFillValue(sections), |AllSections|);
    BackFilledValid(sections);
    forall k | k in m ensures k in sections && m[k] == sections[k] {
      if k in KeySet {
        KeySetCovered(k);
        var s :| Key(s) == k;
      }
    }
  }

  /**
   * The section patching at the end of `generate_analysis`: when the sections
   * do not validate, every missing or too short section gets its default.
   */
  method BackFillSections(sections: map<string, string>) returns (r: map<string, string>)
    ensures r == Overlay(sections, Key, BackFillValue(sections), |AllSections|)
    ensures ValidateSections(r)
    ensures r.Keys == sections.Keys + KeySet
    ensures forall k :: k in sections && k !in KeySet ==> r[k] == sections[k]
    ensures forall s :: !NeedsDefault(sections, s) ==> r[Key(s)] == sections[Key(s)]
    ensures forall s :: NeedsDefault(sections, s) ==> r[Key(s)] == GeminiDefault(s)
  {
    if ValidateSections(sections) {
      BackFillOfValid(sections);
      r := sections;
    } else {
      r := BackFillLoop(sections);
    }
    BackFilledValid(sections);
  }

  /** The loop of the back-fill: each section in order gets its default when it needs one. */
  method BackFillLoop(sections: map<string, string>) returns (r: map<string, string>)
    ensures r == Overlay(sections, Key, BackFillValue(sections), |AllSections|)
  {
    r := sections;
    KeyInjectiveAll();
    for i := 0 to |AllSections|
      invariant r == Overlay(sections, Key, BackFillValue(sections), i)
    {
      var s := AllSections[i];
      assert SectionIndex(s) == i;
      OverlayAt(sections, Key, BackFillValue(sections), i, s);
      if Key(s) !in r || |r[Key(s)]| < 10 {
        r := r[Key(s) := GeminiDefault(s)];
      }
    }
  }

  // ---------------------------------------------------------------------
  // The call with retries (`_call_gemini_with_retry`)

  const MaxRetries := 3

  /** What one model call produced. */
  datatype GeminiReply =
    | NoResponse
    | Reply(text: string)
    | TextUnavailable(reason: string)
    | CallFailed(errorType: string, details: string)

  datatype GeminiApiError = GeminiApiError(message: string)

  const ExtractPrefix := "Failed to extract text from Gemini response: "

  /** One attempt: the stripped reply text, or the exception it raises. */
  function Attempt(reply: GeminiReply): (r: Result<string, Failure>)
    ensures r.Ok? <==> reply.Reply? && Strip(reply.text) != ""
    ensures r.Ok? ==> r.value == Strip(reply.text)
  {
    match reply
    case NoResponse => Err(Failure("GeminiAPIError", "Empty response from Gemini API"))
    case Reply(t) =>
      if Strip(t) == "" then Err(Failure("GeminiAPIError", ExtractPrefix + "Empty text in Gemini response"))
      else Ok(Strip(t))
    case TextUnavailable(reason) => Err(Failure("GeminiAPIError", ExtractPrefix + reason))
    case CallFailed(errorType, details) => Err(Failure(errorType, details))
  }

  function FinalMessage(f: Failure): string {
    "Failed to generate AI analysis after 3 attempts: " + f.errorType + ": " + f.details
  }

  /**
   * `_call_gemini_with_retry`. `call(k)` is the outcome of the k-th call of the
   * model; the pause between attempts is left out.
   */
  method CallGeminiWithRetry(call: nat -> GeminiReply) returns (r: Result<string, GeminiApiError>)
    ensures r.Ok? <==> exists k :: 1 <= k <= MaxRetries && Attempt(call(k)).Ok?
    ensures r.Ok? ==> r.value != "" && exists k :: (1 <= k <= MaxRetries && Attempt(call(k)) == Ok(r.value)
                                                    && forall j :: 1 <= j < k ==> Attempt(call(j)).Err?)
    ensures r.Err? ==> r.error == GeminiApiError(FinalMessage(Attempt(call(MaxRetries)).error))
  {
    var lastError := Failure("Unknown", "No error details");
    var attempt := 1;
    ghost var lastAttempt := 0;
    while attempt <= MaxRetries
      invariant 1 <= attempt <= MaxRetries + 1 && lastAttempt == attempt - 1
      invariant forall j :: 1 <= j < attempt ==> Attempt(call(j)).Err?
      invariant attempt > 1 ==> lastError == Attempt(call(lastAttempt)).error
    {
      var outcome := Attempt(call(attempt));
      if outcome.Ok? {
        return Ok(outcome.value);
      }
      forall j | 1 <= j <= attempt ensures Attempt(call(j)).Err? {
        if j == attempt {
          assert Attempt(call(j)) == outcome;
        }
      }
      lastError := outcome.error;
      lastAttempt := attempt;
      attempt := attempt + 1;
    }
    r := Err(GeminiApiError(FinalMessage(lastError)));
  }

  /** The reply's parse, back-filled: the sections `generate_analysis` returns for a reply. */
  method ParseAndBackFill(text: string, extract: Extractor) returns (sections: map<string, string>)
    ensures sections == BackFilled(ParsedSections(text, extract))
    ensures ValidateSections(sections) && sections.Keys == KeySet
  {
    var parsed := ParseAiResponse(TextReply(text), extract);
    sections := BackFillSections(parsed);
  }

  /**
   * `generate_analysis` after the prompt is built: call, parse, and back-fill.
   * The result always has the five sections with at least 10 characters each.
   */
  method GenerateAnalysis(call: nat -> GeminiReply, extract: Extractor)
    returns (r: Result<map<string, string>, GeminiApiError>)
    ensures r.Ok? <==> exists k :: 1 <= k <= MaxRetries && Attempt(call(k)).Ok?
    ensures r.Ok? ==> ValidateSections(r.value) && r.value.Keys == KeySet
    ensures r.Ok? ==> exists k :: 1 <= k <= MaxRetries && Attempt(call(k)).Ok?
                                 && (forall j :: 1 <= j < k ==> Attempt(call(j)).Err?)
                                 && r.value == BackFilled(ParsedSections(Attempt(call(k)).value, extract))
    ensures r.Err? ==> r.error == GeminiApiError(FinalMessage(Attempt(call(MaxRetries)).error))
  {
    var text := CallGeminiWithRetry(call);
    if text.Err? {
      return Err(text.error);
    }
    ghost var k :| 1 <= k <= MaxRetries && Attempt(call(k)) == Ok(text.value)
                   && forall j :: 1 <= j < k ==> Attempt(call(j)).Err?;
    var sections := ParseAndBackFill(text.value, extract);
    r := Ok(sections);
  }

  // ---------------------------------------------------------------------

  /** `_is_answer_correct` (Gemini variant). */
  function IsAnswerCorrect(answer: Value): (correct: bool)
    ensures answer.Null? || answer.List? || answer.Object? ==> !correct
    ensures answer.Bool? ==> correct == answer.b
    ensures answer.Int? || answer.Float? ==> correct == Truthy(answer)
  {
    match answer
    case Null => false
    case Bool(b) => b
    case Str(s) => Strip(Lower(s)) in ["true", "1", "yes", "да", "правилно", "correct"]
    case Int(i) => i != 0
    case Float(x, _) => x != 0.0
    case List(_, _) => false
    case Object(_, _) => false
  }
}
