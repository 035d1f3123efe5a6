/** Settings parsing and validation (backend/config.py). */
module Config {
  import opened Wrappers
  import opened PyText
  import opened PyValue

  /** The development origins used when nothing else is configured. */
  const DefaultOrigins: seq<string> := [
    "http://localhost:5173",
    "http://localhost:5174",
    "http://localhost:5175",
    "http://localhost:5176",
    "http://localhost:3000"
  ]

  /** The raw `allowed_origins` setting. */
  datatype OriginsInput =
    | OriginsText(s: string)
    | OriginsList(items: seq<Value>)
    | OriginsOther

  /** `[str(o).strip() for o in items if o]`. */
  function TruthyStrings(items: seq<Value>): (r: seq<string>)
    ensures |r| <= |items|
    ensures forall x :: x in r <==> exists v :: v in items && Truthy(v) && x == Strip(PyStr(v))
    ensures r == [] <==> forall v :: v in items ==> !Truthy(v)
  {
    if |items| == 0 then []
    else
      var rest := TruthyStrings(items[1..]);
      assert forall v :: v in items[1..] ==> v in items;
      assert forall v :: v in items ==> v == items[0] || v in items[1..];
      if Truthy(items[0]) then [Strip(PyStr(items[0]))] + rest else rest
  }

  /** `[o.strip() for o in pieces if o.strip()]`. */
  function NonBlankStripped(pieces: seq<string>): (r: seq<string>)
    ensures forall x :: x in r <==> exists p :: p in pieces && x == Strip(p) && x != ""
  {
    if |pieces| == 0 then []
    else
      var rest := NonBlankStripped(pieces[1..]);
      assert forall p :: p in pieces[1..] ==> p in pieces;
      assert forall p :: p in pieces ==> p == pieces[0] || p in pieces[1..];
      if Strip(pieces[0]) != "" then [Strip(pieces[0])] + rest else rest
  }

  /** The comma-separated reading of a setting. */
  function CommaOrigins(s: string): (r: seq<string>)
    ensures forall x :: x in r ==> x != "" && ',' !in x && Strip(x) == x
    ensures forall p :: p in Split(s, ',') && Strip(p) != "" ==> Strip(p) in r
  {
    var r := NonBlankStripped(Split(s, ','));
    assert forall x :: x in r ==> ',' !in x && Strip(x) == x by {
      forall x | x in r ensures ',' !in x && Strip(x) == x {
        var p :| p in Split(s, ',') && x == Strip(p) && x != "";
        StripSubset(p);
        StripIdempotent(p);
      }
    }
    r
  }

  /**
   * `Settings.parse_allowed_origins`. `jsonList` is `json.loads` restricted to
   * its outcome: the decoded list, or None when the text does not decode to a list.
   */
  function ParseAllowedOrigins(v: OriginsInput, jsonList: string -> Option<seq<Value>>): (r: seq<string>)
    ensures v.OriginsOther? ==> r == DefaultOrigins
    ensures v.OriginsList? ==> r == TruthyStrings(v.items)
    ensures v.OriginsText? && StartsWith(Strip(v.s), "[") && jsonList(v.s).Some? ==>
      r == TruthyStrings(jsonList(v.s).value)
    ensures v.OriginsText? && !(StartsWith(Strip(v.s), "[") && jsonList(v.s).Some?) ==>
      r != [] && (CommaOrigins(v.s) == [] ==> r == DefaultOrigins)
      && (CommaOrigins(v.s) != [] ==> r == CommaOrigins(v.s))
  {
    match v
    case OriginsText(s) =>
      if StartsWith(Strip(s), "[") && jsonList(s).Some? then TruthyStrings(jsonList(s).value)
      else
        var origins := CommaOrigins(s);
        if origins != [] then origins else DefaultOrigins
    case OriginsList(items) => TruthyStrings(items)
    case OriginsOther => DefaultOrigins
  }

  /** The required part of the settings. An optional key is None when unset. */
  datatype Settings = Settings(
    geminiApiKey: string,
    supabaseUrl: string,
    supabaseAnonKey: Option<string>,
    supabaseKey: Option<string>)

  predicate IsSet(key: Option<string>) {
    key.Some? && key.value != ""
  }

  const GeminiKeyMissing := "GEMINI_API_KEY is required"
  const SupabaseUrlMissing := "SUPABASE_URL is required"
  const SupabaseKeyMissing := "SUPABASE_ANON_KEY or SUPABASE_KEY is required"

  /** The error list `validate_settings` collects, in its order. */
  function MissingSettings(s: Settings): (errors: seq<string>)
    ensures GeminiKeyMissing in errors <==> s.geminiApiKey == ""
    ensures SupabaseUrlMissing in errors <==> s.supabaseUrl == ""
    ensures SupabaseKeyMissing in errors <==> !IsSet(s.supabaseAnonKey) && !IsSet(s.supabaseKey)
    ensures forall e :: e in errors ==> e in {GeminiKeyMissing, SupabaseUrlMissing, SupabaseKeyMissing}
  {
    (if s.geminiApiKey == "" then [GeminiKeyMissing] else [])
    + (if s.supabaseUrl == "" then [SupabaseUrlMissing] else [])
    + (if !IsSet(s.supabaseAnonKey) && !IsSet(s.supabaseKey) then [SupabaseKeyMissing] else [])
  }

  /** `"  - {e}"` for each error. */
  function Bullets(errors: seq<string>): (r: seq<string>)
    ensures |r| == |errors|
    ensures forall i :: 0 <= i < |errors| ==> r[i] == "  - " + errors[i]
  {
    seq(|errors|, i requires 0 <= i < |errors| => "  - " + errors[i])
  }

  const MissingHeader := "Missing required environment variables:\n"

  /** `validate_settings`: the ValueError message when something required is missing. */
  function ValidateSettings(s: Settings): (r: Result<(), string>)
    ensures r.Err? <==> s.geminiApiKey == "" || s.supabaseUrl == ""
                        || (!IsSet(s.supabaseAnonKey) && !IsSet(s.supabaseKey))
    ensures r.Err? ==> StartsWith(r.error, MissingHeader)
  {
    var errors := MissingSettings(s);
    if errors == [] then Ok(())
    else Err(MissingHeader + Join("\n", Bullets(errors)))
  }
}
