/**
 * The request checks of the HTTP layer (backend/main.py): the file-name
 * sanitiser, the request-model validators, the template-name check of the
 * delete endpoint, and the mapping of AI-provider errors to HTTP errors.
 * The endpoints' I/O around these checks is not part of this model.
 */
module Api {
  import opened Wrappers
  import opened PyText
  import opened PyValue
  import DateTimeUtils
  import GeminiService
  import GroqService

  /** An HTTP error response: status code and detail text. */
  datatype HttpError = HttpError(status: int, detail: string)

  // ---------------------------------------------------------------------
  // `sanitize_filename`
  // ---------------------------------------------------------------------

  /** The name `sanitize_filename` falls back on when nothing is left. */
  const FallbackName := "document"

  /** The default `max_length`. */
  const DefaultMaxLength: nat := 100

  lemma FallbackNameIsClean()
    ensures DateTimeUtils.IsCleanName(FallbackName) && FallbackName != []
  {
  }

  /**
   * The cleaned text, cut to `maxLength` characters, or "document" when
   * that leaves nothing: never empty, only file-name characters, no
   * underscore runs, and no longer than `maxLength` unless it is the
   * fallback.
   */
  function SanitizeFilename(text: string, maxLength: nat): (r: string)
    ensures r != []
    ensures forall i :: 0 <= i < |r| ==> DateTimeUtils.IsFileNameChar(r[i])
    ensures DateTimeUtils.NoRepeatedUnderscore(r)
    ensures |r| <= maxLength || r == FallbackName
    ensures r == FallbackName || r[0] != '_'
    ensures var c := DateTimeUtils.CleanFileName(text);
      if c == [] || maxLength == 0 then r == FallbackName
      else r == c[..if |c| > maxLength then maxLength else |c|]
  {
    var safe := DateTimeUtils.CleanFileName(text);
    var cut := if |safe| > maxLength then safe[..maxLength] else safe;
    DateTimeUtils.SliceKeepsCharsAndRuns(safe, 0, cut);
    FallbackNameIsClean();
    if cut == [] then FallbackName else cut
  }

  /**
   * Sanitising a name the sanitiser produced gives it back, unless the
   * cut left an underscore at its end (which a second pass strips).
   */
  lemma SanitizeFilenameIdempotent(text: string, maxLength: nat)
    requires var r := SanitizeFilename(text, maxLength); r[|r| - 1] != '_' && |r| <= maxLength
    ensures SanitizeFilename(SanitizeFilename(text, maxLength), maxLength) == SanitizeFilename(text, maxLength)
  {
    var r := SanitizeFilename(text, maxLength);
    assert DateTimeUtils.IsCleanName(r);
    DateTimeUtils.CleanFileNameKeeps(r);
    assert r[..|r|] == r;
  }

  /** `type(v).__name__`. */
  function TypeName(v: Value): string {
    match v
    case Null => "NoneType"
    case Bool(_) => "bool"
    case Int(_) => "int"
    case Float(_, _) => "float"
    case Str(_) => "str"
    case List(_, _) => "list"
    case Object(_, _) => "dict"
  }

  /**
   * The download name the report endpoint returns,
   * `Analiz_{class}_{subject}.docx` with both parts sanitised; class and
   * subject default to "Unknown" and "Test", and a value that is present
   * but not a string makes the sanitiser fail, which the endpoint turns
   * into a 500 error.
   */
  function ResponseFilename(testData: Dict): (r: Result<string, HttpError>)
    ensures r.Ok? <==> GetOr(testData, "class_name", Str("Unknown")).Str? && GetOr(testData, "subject", Str("Test")).Str?
    ensures r.Err? ==> r.error.status == 500
    ensures r.Ok? ==> exists c, s :: (c != [] && s != [] && r.value == "Analiz_" + c + "_" + s + ".docx"
      && c == SanitizeFilename(GetOr(testData, "class_name", Str("Unknown")).s, DefaultMaxLength)
      && s == SanitizeFilename(GetOr(testData, "subject", Str("Test")).s, DefaultMaxLength))
  {
    var className := GetOr(testData, "class_name", Str("Unknown"));
    var subject := GetOr(testData, "subject", Str("Test"));
    if !className.Str? || !subject.Str? then
      var bad := if !className.Str? then className else subject;
      Err(HttpError(500, "Unexpected server error: expected string or bytes-like object, got '" + TypeName(bad) + "'"))
    else
      var c := SanitizeFilename(className.s, DefaultMaxLength);
      var s := SanitizeFilename(subject.s, DefaultMaxLength);
      Ok("Analiz_" + c + "_" + s + ".docx")
  }

  // ---------------------------------------------------------------------
  // `GenerateReportRequest` and `AISettings` validators
  // ---------------------------------------------------------------------

  /** The characters an ID may not hold. */
  const BadIdChars: set<char> := {'<', '>', '&', '"', '\'', ';', '(', ')'}

  /** The field's own length limits, checked before the validator: 1..`maxLength` characters. */
  function CheckLength(v: string, minLength: nat, maxLength: nat): (r: Option<string>)
    ensures r.None? <==> minLength <= |v| <= maxLength
  {
    if |v| < minLength then Some("String should have at least " + NatToStr(minLength) + " character")
    else if |v| > maxLength then Some("String should have at most " + NatToStr(maxLength) + " characters")
    else None
  }

  /**
   * `validate_ids` after the field's 1..100 length check: blank text is
   * rejected, the rest is stripped and rejected when it holds any of
   * `< > & " ' ; ( )`; the stripped text is the value.
   */
  function ValidateId(v: string): (r: Result<string, string>)
    ensures r.Ok? <==> 1 <= |v| <= 100 && !IsBlank(v) && forall c :: c in Strip(v) ==> c !in BadIdChars
    ensures r.Ok? ==> r.value == Strip(v) && r.value != [] && |r.value| <= 100
    ensures r.Ok? ==> !IsSpace(r.value[0]) && !IsSpace(r.value[|r.value| - 1])
    ensures r.Err? && 1 <= |v| <= 100 && IsBlank(v) ==> r.error == "ID cannot be empty"
  {
    match CheckLength(v, 1, 100)
    case Some(e) => Err(e)
    case None =>
      if v == [] || IsBlank(v) then Err("ID cannot be empty")
      else
        var t := Strip(v);
        StripFacts(v);
        if exists c :: c in t && c in BadIdChars then Err("ID contains invalid characters")
        else Ok(t)
  }

  /** An accepted ID passes the validator again unchanged. */
  lemma ValidateIdIdempotent(v: string)
    requires ValidateId(v).Ok?
    ensures ValidateId(ValidateId(v).value) == ValidateId(v)
  {
    var t := Strip(v);
    StripIdempotent(v);
    StrippedNotBlank(v);
  }

  /** The most characters a teacher name or subject may have. */
  const MaxNameLength: nat := 200

  /**
   * `validate_teacher_name` and `validate_string_fields` after the field's
   * 200-character check: None stays None, blank text becomes None, other
   * text is stripped. The validator's own length check comes after the
   * field's and never fires.
   */
  function ValidateOptionalText(v: Option<string>, tooLong: string): (r: Result<Option<string>, string>)
    ensures r.Err? <==> v.Some? && |v.value| > MaxNameLength
    ensures r.Ok? && v.None? ==> r.value.None?
    ensures r.Ok? && v.Some? ==> (r.value.None? <==> IsBlank(v.value))
    ensures r.Ok? && r.value.Some? ==> r.value.value == Strip(v.value) && !IsBlank(r.value.value)
  {
    if v.None? then Ok(None)
    else match CheckLength(v.value, 0, MaxNameLength)
      case Some(e) => Err(e)
      case None =>
        var t := Strip(v.value);
        if |t| == 0 then Ok(None)
        else if |t| > MaxNameLength then Err(tooLong)
        else
          StrippedNotBlank(v.value);
          Ok(Some(t))
  }

  /** A validated name passes the validator again unchanged. */
  lemma ValidateOptionalTextIdempotent(v: Option<string>, tooLong: string)
    requires ValidateOptionalText(v, tooLong).Ok?
    ensures ValidateOptionalText(ValidateOptionalText(v, tooLong).value, tooLong) == ValidateOptionalText(v, tooLong)
  {
    var r := ValidateOptionalText(v, tooLong);
    if r.value.Some? {
      StripIdempotent(v.value);
    }
  }

  /**
   * `validate_max_tokens` after the field's own bounds: None becomes 2048,
   * a value within 1..8192 is kept and anything else is rejected.
   */
  function ValidateMaxTokens(v: Option<int>): (r: Result<int, string>)
    ensures v.None? ==> r == Ok(2048)
    ensures v.Some? ==> (r.Ok? <==> 1 <= v.value <= 8192)
    ensures v.Some? && r.Ok? ==> r.value == v.value
    ensures r.Ok? ==> 1 <= r.value <= 8192
  {
    if v.None? then Ok(2048)
    else if v.value < 1 then Err("Input should be greater than or equal to 1")
    else if v.value > 8192 then Err("Input should be less than or equal to 8192")
    else Ok(v.value)
  }

  /**
   * `validate_temperature` after the field's own bounds: None becomes
   * 0.7, a value within 0.0..2.0 is kept and anything else is rejected.
   */
  function ValidateTemperature(v: Option<real>): (r: Result<real, string>)
    ensures v.None? ==> r == Ok(0.7)
    ensures v.Some? ==> (r.Ok? <==> 0.0 <= v.value <= 2.0)
    ensures v.Some? && r.Ok? ==> r.value == v.value
    ensures r.Ok? ==> 0.0 <= r.value <= 2.0
  {
    if v.None? then Ok(0.7)
    else if v.value < 0.0 then Err("Input should be greater than or equal to 0")
    else if v.value > 2.0 then Err("Input should be less than or equal to 2")
    else Ok(v.value)
  }

  // ---------------------------------------------------------------------
  // The template-name check of `delete_template`
  // ---------------------------------------------------------------------

  /** The path-traversal test of `delete_template`, disjunct by disjunct. */
  predicate TraversalAttempt(t: string) {
    Contains(t, "../") || Contains(t, "..\\") || StartsWith(t, "/") || StartsWith(t, "\\")
    || Contains(t, "/..") || Contains(t, "\\..")
    || (Contains(t, "..") && ('/' in t || '\\' in t))
  }

  /** Text `p` occurs in is text `p`'s characters occur in. */
  lemma ContainsChars(t: string, p: string, i: nat)
    requires OccursAt(t, p, i)
    ensures forall k :: 0 <= k < |p| ==> p[k] in t
  {
    forall k | 0 <= k < |p| ensures p[k] in t {
      assert t[i + k] == t[i..i + |p|][k];
    }
  }

  /** Text holding `p` followed or preceded by one more character holds `p`. */
  lemma ContainsPart(t: string, p: string, q: string, i: nat)
    requires OccursAt(t, p + q, i)
    ensures OccursAt(t, p, i) && OccursAt(t, q, i + |p|)
  {
    assert t[i..i + |p|] == (p + q)[..|p|];
    assert t[i + |p|..i + |p| + |q|] == (p + q)[|p|..];
  }

  /**
   * The test reads as: the name starts with a slash or a backslash, or
   * it holds ".." and some slash or backslash.
   */
  lemma TraversalAttemptSimplified(t: string)
    ensures TraversalAttempt(t) <==> StartsWith(t, "/") || StartsWith(t, "\\") || (Contains(t, "..") && ('/' in t || '\\' in t))
  {
    if Contains(t, "../") {
      var i :| 0 <= i <= |t| && OccursAt(t, "../", i);
      ContainsPart(t, "..", "/", i);
      ContainsChars(t, "/", i + 2);
    }
    if Contains(t, "..\\") {
      var i :| 0 <= i <= |t| && OccursAt(t, "..\\", i);
      ContainsPart(t, "..", "\\", i);
      ContainsChars(t, "\\", i + 2);
    }
    if Contains(t, "/..") {
      var i :| 0 <= i <= |t| && OccursAt(t, "/..", i);
      ContainsPart(t, "/", "..", i);
      ContainsChars(t, "/", i);
    }
    if Contains(t, "\\..") {
      var i :| 0 <= i <= |t| && OccursAt(t, "\\..", i);
      ContainsPart(t, "\\", "..", i);
      ContainsChars(t, "\\", i);
    }
  }

  /** `template_name.lower().endswith('.docx')`. */
  predicate DocxName(t: string) {
    EndsWith(Lower(t), ".docx")
  }

  /**
   * The checks `delete_template` makes before deleting, as written: the
   * path parameter's 1..255 length, the traversal test, the extension,
   * and a name left after cutting the extension that is not blank, where
   * the cut happens only for names longer than five characters.
   */
  function TemplateNameCheckAsWritten(t: string): (r: Result<string, HttpError>)
    ensures r.Ok? ==> r.value == t && !TraversalAttempt(t) && DocxName(t)
  {
    if |t| < 1 || |t| > 255 then Err(HttpError(422, "Invalid template name length"))
    else if TraversalAttempt(t) then Err(HttpError(400, "Invalid template name: Path traversal not allowed"))
    else if !DocxName(t) then Err(HttpError(400, "Invalid template name: Must be a .docx file"))
    else
      var base := if |t| > 5 then t[..|t| - 5] else t;
      if base == [] || Strip(base) == [] then Err(HttpError(400, "Invalid template name: Filename cannot be empty"))
      else Ok(t)
  }

  /**
   * Every five-character name that ends in ".docx" in any case, ".docx"
   * itself among them, passes, although no name is left once the
   * extension is cut.
   */
  lemma FiveCharacterNamesAccepted(t: string)
    requires |t| == 5 && DocxName(t)
    ensures TemplateNameCheckAsWritten(t) == Ok(t)
    ensures t[..|t| - 5] == []
  {
    var lowered := Lower(t);
    assert lowered[|lowered| - 5..] == ".docx";
    forall k | 0 <= k < 5 ensures t[k] != '/' && t[k] != '\\' && !IsSpace(t[k]) {
      assert LowerChar(t[k]) == ".docx"[k];
    }
    assert '/' !in t && '\\' !in t;
    TraversalAttemptSimplified(t);
    StripTrimmed(t);
  }

  /** The bare extension ".docx" passes the check as written. */
  lemma BareExtensionAccepted()
    ensures TemplateNameCheckAsWritten(".docx") == Ok(".docx")
  {
    var t := ".docx";
    assert Lower(t) == t by {
      assert forall k :: 0 <= k < |t| ==> LowerChar(t[k]) == t[k];
    }
    FiveCharacterNamesAccepted(t);
  }

  /**
   * The same checks with the extension always cut: a name is accepted
   * exactly when its length is 1..255, it passes the traversal test, it
   * ends in ".docx" in any case, and the name before the extension is
   * not blank.
   */
  function TemplateNameCheck(t: string): (r: Result<string, HttpError>)
    ensures r.Ok? <==> 1 <= |t| <= 255 && !TraversalAttempt(t) && DocxName(t) && !IsBlank(t[..|t| - 5])
    ensures r.Ok? ==> r.value == t && !StartsWith(t, "/") && !StartsWith(t, "\\")
    ensures r.Ok? ==> !(Contains(t, "..") && ('/' in t || '\\' in t))
    ensures r.Err? ==> r.error.status == 400 || r.error.status == 422
  {
    TraversalAttemptSimplified(t);
    if |t| < 1 || |t| > 255 then Err(HttpError(422, "Invalid template name length"))
    else if TraversalAttempt(t) then Err(HttpError(400, "Invalid template name: Path traversal not allowed"))
    else if !DocxName(t) then Err(HttpError(400, "Invalid template name: Must be a .docx file"))
    else
      var base := t[..|t| - 5];
      if base == [] || Strip(base) == [] then Err(HttpError(400, "Invalid template name: Filename cannot be empty"))
      else Ok(t)
  }

  /** The two checks differ only on names of exactly five characters, which the corrected one refuses. */
  lemma TemplateNameChecksAgree(t: string)
    ensures |t| != 5 ==> TemplateNameCheck(t) == TemplateNameCheckAsWritten(t)
    ensures |t| == 5 ==> TemplateNameCheck(t).Err?
  {
    if |t| == 5 && DocxName(t) {
      assert t[..0] == [];
    }
  }

  // ---------------------------------------------------------------------
  // AI-provider errors as HTTP errors
  // ---------------------------------------------------------------------

  /** The error an AI-provider call ends with. */
  datatype ProviderError =
    | FromGemini(gemini: GeminiService.GeminiApiError)
    | FromGroq(groq: GroqService.GroqApiError)

  /** `str(e)`: both errors print as their message. */
  function Message(e: ProviderError): string {
    match e
    case FromGemini(g) => g.message
    case FromGroq(g) => g.message
  }

  /** The detail a `GeminiAPIError` ends with: reading `is_rate_limit` from it fails. */
  const MissingRateLimitDetail := "Unexpected server error: 'GeminiAPIError' object has no attribute 'is_rate_limit'"

  /**
   * The mapping as written: a Groq error gives 429 when it is a rate
   * limit and 500 otherwise, with its message as the detail; a Gemini
   * error has no `is_rate_limit`, so reading it fails and the outer
   * handler answers 500 with the attribute error as the detail.
   */
  function ErrorResponseAsWritten(e: ProviderError): (r: HttpError)
    ensures r.status == 429 <==> e.FromGroq? && e.groq.isRateLimit
    ensures r.status == 429 || r.status == 500
    ensures e.FromGroq? ==> r.detail == Message(e)
    ensures e.FromGemini? ==> r.detail == MissingRateLimitDetail
  {
    match e
    case FromGemini(_) => HttpError(500, MissingRateLimitDetail)
    case FromGroq(g) => HttpError(if g.isRateLimit then 429 else 500, g.message)
  }

  /** A Gemini error's own message never reaches the client. */
  lemma GeminiMessageLost(message: string)
    requires message != MissingRateLimitDetail
    ensures ErrorResponseAsWritten(FromGemini(GeminiService.GeminiApiError(message))).detail != message
  {
  }

  /** Whether the error is a rate limit: only a Groq error can say so. */
  predicate IsRateLimit(e: ProviderError) {
    e.FromGroq? && e.groq.isRateLimit
  }

  /**
   * The mapping with a Gemini error read as not a rate limit: 429 exactly
   * for a rate limit and 500 otherwise, and the error's message as the
   * detail in every case.
   */
  function ErrorResponse(e: ProviderError): (r: HttpError)
    ensures r.status == 429 <==> IsRateLimit(e)
    ensures r.status == 500 <==> !IsRateLimit(e)
    ensures r.detail == Message(e)
  {
    HttpError(if IsRateLimit(e) then 429 else 500, Message(e))
  }

  /** On Groq errors the two mappings agree; on Gemini errors only the status agrees. */
  lemma ErrorResponsesAgree(e: ProviderError)
    ensures e.FromGroq? ==> ErrorResponse(e) == ErrorResponseAsWritten(e)
    ensures ErrorResponse(e).status == ErrorResponseAsWritten(e).status
  {
  }
}
