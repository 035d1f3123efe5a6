/**
 * Timestamp parsing, formatting and comparison, and file-name sanitising
 * (backend/utils/datetime_utils.py).
 */
module DateTimeUtils {
  import opened Wrappers
  import opened PyText

  /**
   * A `datetime`: a count of microseconds. An aware datetime (one with a UTC
   * offset) counts from the UTC epoch; a naive one from its own local epoch.
   */
  datatype Instant = Instant(micros: int, aware: bool)

  /** What `parse_timestamp` may be handed. */
  datatype TimestampInput =
    | NoTimestamp
    | AtInstant(t: Instant)
    | TimestampText(s: string)
    | OtherValue

  /** The formats tried, in order, after the two ISO attempts. */
  const CommonFormats: seq<string> := [
    "%Y-%m-%d %H:%M:%S",
    "%Y-%m-%d %H:%M:%S.%f",
    "%Y-%m-%dT%H:%M:%S",
    "%Y-%m-%dT%H:%M:%S.%f",
    "%Y-%m-%dT%H:%M:%SZ",
    "%Y-%m-%dT%H:%M:%S.%fZ",
    "%Y-%m-%d",
    "%d.%m.%Y",
    "%d/%m/%Y"
  ]

  /** The first format under which `strptime` accepts `s`. */
  function FirstFormat(s: string, formats: seq<string>, strptime: (string, string) -> Option<Instant>): (r: Option<Instant>)
    ensures r.Some? <==> exists k :: 0 <= k < |formats| && strptime(s, formats[k]).Some?
    ensures r.Some? ==>
      exists k :: (0 <= k < |formats| && r == strptime(s, formats[k])
                   && forall j :: 0 <= j < k ==> strptime(s, formats[j]).None?)
  {
    if |formats| == 0 then None
    else if strptime(s, formats[0]).Some? then strptime(s, formats[0])
    else
      var r := FirstFormat(s, formats[1..], strptime);
      assert forall k :: 1 <= k < |formats| ==> formats[k] == formats[1..][k - 1];
      r
  }

  /**
   * `parse_timestamp`. `fromisoformat` and `strptime` are the library parsers,
   * returning None where they raise ValueError.
   */
  function ParseTimestamp(ts: TimestampInput, fromisoformat: string -> Option<Instant>,
                          strptime: (string, string) -> Option<Instant>): (r: Option<Instant>)
    ensures ts.NoTimestamp? || ts.OtherValue? ==> r.None?
    ensures ts.AtInstant? ==> r == Some(ts.t)
    ensures ts.TimestampText? ==>
      var s := ts.s;
      (r.Some? <==> fromisoformat(ReplaceChar(s, 'Z', "+00:00")).Some? || fromisoformat(s).Some?
                    || exists k :: 0 <= k < |CommonFormats| && strptime(s, CommonFormats[k]).Some?)
      && (fromisoformat(ReplaceChar(s, 'Z', "+00:00")).Some? ==> r == fromisoformat(ReplaceChar(s, 'Z', "+00:00")))
  {
    match ts
    case NoTimestamp => None
    case AtInstant(t) => Some(t)
    case OtherValue => None
    case TimestampText(s) =>
      var normalized := fromisoformat(ReplaceChar(s, 'Z', "+00:00"));
      if normalized.Some? then normalized
      else if fromisoformat(s).Some? then fromisoformat(s)
      else FirstFormat(s, CommonFormats, strptime)
  }

  /** The text `dt.isoformat()` or `dt.strftime(...)` produce; both are library calls. */
  function FormatPattern(formatType: string): (p: string)
    ensures formatType !in {"filename", "display", "date", "school_year"} ==> p == formatType
  {
    if formatType == "filename" then "%Y%m%d_%H%M%S"
    else if formatType == "display" then "%d.%m.%Y %H:%M:%S"
    else if formatType == "date" then "%d.%m.%Y"
    else if formatType == "school_year" then "%Y/%Y"
    else formatType
  }

  /** `format_timestamp`. */
  function FormatTimestamp(dt: Option<Instant>, formatType: string, isoformat: Instant -> string,
                           strftime: (Instant, string) -> string): (r: string)
    ensures dt.None? ==> r == ""
    ensures dt.Some? && formatType == "iso" ==> r == isoformat(dt.value)
    ensures dt.Some? && formatType != "iso" ==> r == strftime(dt.value, FormatPattern(formatType))
  {
    match dt
    case None => ""
    case Some(t) => if formatType == "iso" then isoformat(t) else strftime(t, FormatPattern(formatType))
  }

  /** Python refuses to subtract a naive datetime from an aware one and the other way round. */
  const NaiveAwareError := "TypeError: can't subtract offset-naive and offset-aware datetimes"

  /** `dt1 - dt2` in microseconds. */
  function Difference(a: Instant, b: Instant): (r: Result<int, string>)
    ensures r.Ok? <==> a.aware == b.aware
    ensures r.Ok? ==> r.value == a.micros - b.micros
  {
    if a.aware != b.aware then Err(NaiveAwareError) else Ok(a.micros - b.micros)
  }

  /** The three-way outcome for a difference `d` and a tolerance. */
  function Sign(d: int, tolerance: int): (c: int)
    ensures c == 0 <==> -tolerance <= d <= tolerance
    ensures c == 1 <==> (d < -tolerance || d > tolerance) && d > 0
    ensures c == -1 <==> (d < -tolerance || d > tolerance) && d <= 0
  {
    if (if d < 0 then -d else d) <= tolerance then 0
    else if d > 0 then 1
    else -1
  }

  /**
   * `compare_timestamps` with the tolerance in microseconds. `Ok(None)` when
   * either side does not parse; `Err` where the subtraction raises.
   */
  function CompareTimestamps(t1: TimestampInput, t2: TimestampInput, tolerance: int,
                             fromisoformat: string -> Option<Instant>,
                             strptime: (string, string) -> Option<Instant>): (r: Result<Option<int>, string>)
    ensures var p1 := ParseTimestamp(t1, fromisoformat, strptime);
      var p2 := ParseTimestamp(t2, fromisoformat, strptime);
      (p1.None? || p2.None? ==> r == Ok(None))
      && (p1.Some? && p2.Some? && p1.value.aware != p2.value.aware ==> r == Err(NaiveAwareError))
      && (p1.Some? && p2.Some? && p1.value.aware == p2.value.aware ==>
            r.Ok? && r.value.Some? && var d := p1.value.micros - p2.value.micros;
            var c := r.value.value;
            (c == 0 <==> -tolerance <= d <= tolerance)
            && (tolerance >= 0 ==> (c == 1 <==> d > tolerance) && (c == -1 <==> d < -tolerance)))
  {
    var p1 := ParseTimestamp(t1, fromisoformat, strptime);
    var p2 := ParseTimestamp(t2, fromisoformat, strptime);
    if p1.None? || p2.None? then Ok(None)
    else match Difference(p1.value, p2.value)
      case Err(e) => Err(e)
      case Ok(d) => Ok(Some(Sign(d, tolerance)))
  }

  /** Swapping the two sides negates the comparison. */
  lemma CompareAntisymmetric(t1: TimestampInput, t2: TimestampInput, tolerance: int,
                             fromisoformat: string -> Option<Instant>,
                             strptime: (string, string) -> Option<Instant>)
    requires tolerance >= 0
    requires CompareTimestamps(t1, t2, tolerance, fromisoformat, strptime).Ok?
    ensures var c12 := CompareTimestamps(t1, t2, tolerance, fromisoformat, strptime);
      var c21 := CompareTimestamps(t2, t1, tolerance, fromisoformat, strptime);
      c21.Ok? && c12.value.Some? == c21.value.Some?
      && (c12.value.Some? ==> c21.value.value == -c12.value.value)
  {
  }

  /** A parsable timestamp compares equal to itself. */
  lemma CompareReflexive(t: TimestampInput, tolerance: int,
                         fromisoformat: string -> Option<Instant>,
                         strptime: (string, string) -> Option<Instant>)
    requires tolerance >= 0
    requires ParseTimestamp(t, fromisoformat, strptime).Some?
    ensures CompareTimestamps(t, t, tolerance, fromisoformat, strptime) == Ok(Some(0))
  {
  }

  /** `is_timestamp_newer`: the comparison is exactly 1. */
  function IsTimestampNewer(t1: TimestampInput, t2: TimestampInput, tolerance: int,
                            fromisoformat: string -> Option<Instant>,
                            strptime: (string, string) -> Option<Instant>): (r: Result<bool, string>)
    ensures var c := CompareTimestamps(t1, t2, tolerance, fromisoformat, strptime);
      (r.Ok? <==> c.Ok?) && (r.Ok? ==> (r.value <==> c.value == Some(1)))
    ensures r == Ok(true) ==>
      ParseTimestamp(t1, fromisoformat, strptime).Some? && ParseTimestamp(t2, fromisoformat, strptime).Some?
  {
    match CompareTimestamps(t1, t2, tolerance, fromisoformat, strptime)
    case Err(e) => Err(e)
    case Ok(c) => Ok(c == Some(1))
  }

  // ---------------------------------------------------------------------
  // File names

  /**
   * What `\w` matches: letters, digits and the underscore. Letters are those of
   * ASCII, Latin-1, Latin Extended-A/B and Cyrillic.
   */
  predicate IsWordChar(c: char) {
    ('a' <= c <= 'z') || ('A' <= c <= 'Z') || ('0' <= c <= '9') || c == '_'
    || c == '\U{AA}' || c == '\U{B5}' || c == '\U{BA}'
    || ('\U{C0}' <= c <= '\U{24F}' && c != '\U{D7}' && c != '\U{F7}')
    || ('\U{400}' <= c <= '\U{481}') || ('\U{48A}' <= c <= '\U{52F}')
  }

  /** The characters `[\w\-_\.]` keeps. */
  predicate IsFileNameChar(c: char) {
    IsWordChar(c) || c == '-' || c == '.'
  }

  predicate IsUnderscore(c: char) {
    c == '_'
  }

  /** No two adjacent underscores. */
  predicate NoRepeatedUnderscore(s: string) {
    forall i :: 0 <= i < |s| - 1 ==> !(s[i] == '_' && s[i + 1] == '_')
  }

  /** `re.sub(r'[^\w\-_\.]', '_', s)`. */
  function ReplaceDisallowed(s: string): (r: string)
    ensures |r| == |s|
    ensures forall i :: 0 <= i < |s| ==> r[i] == (if IsFileNameChar(s[i]) then s[i] else '_')
  {
    seq(|s|, i requires 0 <= i < |s| => if IsFileNameChar(s[i]) then s[i] else '_')
  }

  /** `re.sub(r'_+', '_', s)`. */
  function CollapseUnderscores(s: string): (r: string)
    ensures forall c :: c in r ==> c in s
    ensures NoRepeatedUnderscore(r)
    ensures |s| > 0 ==> |r| > 0 && r[0] == s[0]
    ensures RemoveChar(r, '_') == RemoveChar(s, '_')
  {
    if |s| <= 1 then s
    else if s[0] == '_' && s[1] == '_' then
      var r := CollapseUnderscores(s[1..]);
      assert RemoveChar(s, '_') == RemoveChar(s[1..], '_');
      r
    else
      var rest := CollapseUnderscores(s[1..]);
      var r := [s[0]] + rest;
      assert r[1..] == rest;
      assert RemoveChar(r, '_') == (if s[0] == '_' then "" else [s[0]]) + RemoveChar(rest, '_');
      r
  }

  /**
   * The cleaning pipeline shared by every file-name sanitiser:
   * replace disallowed characters, collapse underscore runs, strip edge underscores.
   */
  function CleanFileName(s: string): (r: string)
    ensures forall i :: 0 <= i < |r| ==> IsFileNameChar(r[i])
    ensures NoRepeatedUnderscore(r)
    ensures r == [] || (r[0] != '_' && r[|r| - 1] != '_')
  {
    var replaced := ReplaceDisallowed(s);
    var collapsed := CollapseUnderscores(replaced);
    assert forall c :: c in collapsed ==> IsFileNameChar(c) by {
      forall c | c in collapsed ensures IsFileNameChar(c) {
        assert c in replaced;
        var i :| 0 <= i < |replaced| && replaced[i] == c;
      }
    }
    var r := StripBy(collapsed, IsUnderscore);
    SliceKeepsCharsAndRuns(collapsed, LeadCount(collapsed, IsUnderscore), r);
    r
  }

  /** Text the cleaning pipeline would leave alone: file-name characters, no underscore runs, no edge underscore. */
  predicate IsCleanName(s: string) {
    (forall i :: 0 <= i < |s| ==> IsFileNameChar(s[i]))
    && NoRepeatedUnderscore(s)
    && (s == [] || (s[0] != '_' && s[|s| - 1] != '_'))
  }

  /** Text of ASCII letters only is clean. */
  lemma LettersAreClean(s: string)
    requires forall i :: 0 <= i < |s| ==> 'a' <= s[i] <= 'z' || 'A' <= s[i] <= 'Z'
    ensures IsCleanName(s)
  {
  }

  /** Collapsing underscore runs changes nothing in text that has none. */
  lemma {:induction false} CollapseKeeps(s: string)
    requires NoRepeatedUnderscore(s)
    ensures CollapseUnderscores(s) == s
  {
    if |s| > 1 {
      assert NoRepeatedUnderscore(s[1..]) by {
        forall i | 0 <= i < |s[1..]| - 1 ensures !(s[1..][i] == '_' && s[1..][i + 1] == '_') {
          assert s[1..][i] == s[i + 1] && s[1..][i + 1] == s[i + 2];
        }
      }
      CollapseKeeps(s[1..]);
      assert s == [s[0]] + s[1..];
    }
  }

  /** The cleaning pipeline leaves clean text as it is. */
  lemma CleanFileNameKeeps(s: string)
    requires IsCleanName(s)
    ensures CleanFileName(s) == s
  {
    assert ReplaceDisallowed(s) == s;
    CollapseKeeps(s);
    if |s| > 0 {
      assert LeadCount(s, IsUnderscore) == 0;
      assert TrailCount(s, IsUnderscore) == 0;
    }
  }

  /** What the cleaning pipeline leaves is clean, so cleaning twice is cleaning once. */
  lemma CleanFileNameIdempotent(s: string)
    ensures IsCleanName(CleanFileName(s))
    ensures CleanFileName(CleanFileName(s)) == CleanFileName(s)
  {
    CleanFileNameKeeps(CleanFileName(s));
  }

  /** A slice keeps the characters of its text and never creates an underscore run. */
  lemma SliceKeepsCharsAndRuns(s: string, k: nat, r: string)
    requires k + |r| <= |s| && r == s[k..k + |r|]
    requires forall c :: c in s ==> IsFileNameChar(c)
    requires NoRepeatedUnderscore(s)
    ensures forall i :: 0 <= i < |r| ==> IsFileNameChar(r[i])
    ensures NoRepeatedUnderscore(r)
  {
    forall i | 0 <= i < |r| ensures IsFileNameChar(r[i]) {
      assert r[i] == s[k + i];
    }
    forall i | 0 <= i < |r| - 1 ensures !(r[i] == '_' && r[i + 1] == '_') {
      assert r[i] == s[k + i] && r[i + 1] == s[k + i + 1];
    }
  }

  /** `sanitize_filename(filename, ensure_extension)`. */
  function SanitizeFilename(filename: string, ensureExtension: Option<string>): (r: string)
    ensures ensureExtension.None? || ensureExtension.value == "" ==> r == CleanFileName(filename)
    ensures ensureExtension.Some? && ensureExtension.value != "" ==>
      var clean := CleanFileName(filename);
      var ext := ensureExtension.value;
      EndsWith(Lower(r), Lower(ext))
      && (EndsWith(Lower(clean), Lower(ext)) ==> r == clean)
      && (!EndsWith(Lower(clean), Lower(ext)) ==> r == clean + ext)
  {
    var safe := CleanFileName(filename);
    match ensureExtension
    case None => safe
    case Some(ext) =>
      if ext == "" || EndsWith(Lower(safe), Lower(ext)) then safe
      else
        LowerConcat(safe, ext);
        safe + ext
  }
}
