/**
 * The five analysis sections both AI providers produce, and the labelled
 * extraction step both of their parsers begin with.
 */
module AiSections {
  import opened Wrappers
  import opened PyText

  datatype Section = Lowest | Highest | Gaps | Overall | Improvement

  /** The sections in the order the parsers visit them. */
  const AllSections: seq<Section> := [Lowest, Highest, Gaps, Overall, Improvement]

  /** The position of a section in `AllSections`. */
  function SectionIndex(s: Section): (i: nat)
    ensures i < |AllSections| && AllSections[i] == s
  {
    match s
    case Lowest => 0
    case Highest => 1
    case Gaps => 2
    case Overall => 3
    case Improvement => 4
  }

  /** The dictionary key of a section in the parsed result and in the document context. */
  function Key(s: Section): (k: string)
    ensures k in KeySet
  {
    match s
    case Lowest => "lowest_results_analysis"
    case Highest => "highest_results_analysis"
    case Gaps => "gaps_analysis"
    case Overall => "results_analysis"
    case Improvement => "improvement_measures"
  }

  const KeySet: set<string> := {
    "lowest_results_analysis", "highest_results_analysis", "gaps_analysis",
    "results_analysis", "improvement_measures"
  }

  lemma KeyInjective(s: Section, t: Section)
    requires Key(s) == Key(t)
    ensures s == t
  {
  }

  lemma KeySetCovered(k: string)
    requires k in KeySet
    ensures exists s :: Key(s) == k
  {
    if k == "lowest_results_analysis" { assert Key(Lowest) == k; }
    else if k == "highest_results_analysis" { assert Key(Highest) == k; }
    else if k == "gaps_analysis" { assert Key(Gaps) == k; }
    else if k == "results_analysis" { assert Key(Overall) == k; }
    else { assert Key(Improvement) == k; }
  }

  /** Every key is the key of some section. */
  lemma KeySetIsImage()
    ensures forall k :: k in KeySet ==> exists s :: Key(s) == k
  {
    forall k | k in KeySet ensures exists s :: Key(s) == k {
      KeySetCovered(k);
    }
  }

  /** A parsed result: exactly the five keys, each holding non-empty text. */
  predicate Complete(m: map<string, string>) {
    m.Keys == KeySet && forall k :: k in m ==> m[k] != ""
  }

  /** The five sections as a dictionary. */
  function SectionMap(lowest: string, highest: string, gaps: string, overall: string, improvement: string)
    : (m: map<string, string>)
    requires lowest != "" && highest != "" && gaps != "" && overall != "" && improvement != ""
    ensures Complete(m)
    ensures m[Key(Lowest)] == lowest && m[Key(Highest)] == highest && m[Key(Gaps)] == gaps
    ensures m[Key(Overall)] == overall && m[Key(Improvement)] == improvement
  {
    map["lowest_results_analysis" := lowest, "highest_results_analysis" := highest,
        "gaps_analysis" := gaps, "results_analysis" := overall, "improvement_measures" := improvement]
  }

  /** Holding at least the five keys' worth of entries and no foreign key means holding all five. */
  lemma FiveKeysAreAll(keys: set<string>)
    requires keys <= KeySet && |keys| >= 5
    ensures keys == KeySet
  {
    assert |KeySet| == 5;
    if keys != KeySet {
      var missing :| missing in KeySet && missing !in keys;
      var rest := KeySet - {missing};
      assert keys <= rest;
      assert |rest| == 4;
      SubsetCardinality(keys, rest);
      assert false;
    }
  }

  lemma KeyInjectiveAll()
    ensures forall a, b :: Key(a) == Key(b) ==> a == b
  {
  }

  lemma SubsetCardinality<T>(a: set<T>, b: set<T>)
    requires a <= b
    ensures |a| <= |b|
  {
    if a != {} {
      var x :| x in a;
      SubsetCardinality(a - {x}, b - {x});
    }
  }

  /**
   * What one labelled pattern yields: `extract(s, j, text)` is the first capture
   * group of the j-th pattern for section `s` searched in `text`, or None when
   * the pattern does not match. The patterns themselves are regular expressions
   * and are left abstract.
   */
  type Extractor = (Section, nat, string) -> Option<string>

  /** A capture is accepted when its stripped text is longer than `minLength`. */
  predicate Accepted(g: Option<string>, minLength: nat) {
    g.Some? && |Strip(g.value)| > minLength
  }

  /** The stripped capture of the first of a section's two patterns that is accepted. */
  function SectionMatch(extract: Extractor, s: Section, text: string, minLength: nat): (r: Option<string>)
    ensures r.Some? ==> |r.value| > minLength
    ensures r.Some? <==> Accepted(extract(s, 0, text), minLength) || Accepted(extract(s, 1, text), minLength)
  {
    if Accepted(extract(s, 0, text), minLength) then Some(Strip(extract(s, 0, text).value))
    else if Accepted(extract(s, 1, text), minLength) then Some(Strip(extract(s, 1, text).value))
    else None
  }

  /**
   * A pass over the sections in order that sets `keyOf(s)` to `value(s)`
   * wherever that is defined, after visiting the first `n` sections.
   */
  function Overlay(base: map<string, string>, keyOf: Section -> string,
                   value: Section -> Option<string>, n: nat): map<string, string>
    requires n <= |AllSections|
  {
    if n == 0 then base
    else
      var m := Overlay(base, keyOf, value, n - 1);
      var s := AllSections[n - 1];
      if value(s).Some? then m[keyOf(s) := value(s).value] else m
  }

  /** What a pass leaves under a section's key, for keys that tell sections apart. */
  lemma {:induction false} OverlayAt(base: map<string, string>, keyOf: Section -> string,
                                     value: Section -> Option<string>, n: nat, s: Section)
    requires n <= |AllSections|
    requires forall a, b :: keyOf(a) == keyOf(b) ==> a == b
    ensures var m := Overlay(base, keyOf, value, n);
      var written := SectionIndex(s) < n && value(s).Some?;
      (keyOf(s) in m <==> written || keyOf(s) in base)
      && (keyOf(s) in m ==> m[keyOf(s)] == if written then value(s).value else base[keyOf(s)])
  {
    if n > 0 {
      OverlayAt(base, keyOf, value, n - 1, s);
      if keyOf(AllSections[n - 1]) == keyOf(s) {
        assert AllSections[n - 1] == s;
      }
    }
  }

  /** A pass adds only the keys of sections and keeps every other entry. */
  lemma {:induction false} OverlayFrame(base: map<string, string>, keyOf: Section -> string,
                                        value: Section -> Option<string>, n: nat)
    requires n <= |AllSections|
    ensures var m := Overlay(base, keyOf, value, n);
      base.Keys <= m.Keys
      && forall k :: k in m ==> k in base || exists s :: keyOf(s) == k
  {
    if n > 0 {
      OverlayFrame(base, keyOf, value, n - 1);
    }
  }

  /** A key that is no section's key keeps its entry. */
  lemma {:induction false} OverlayUntouched(base: map<string, string>, keyOf: Section -> string,
                                            value: Section -> Option<string>, n: nat, k: string)
    requires n <= |AllSections| && k in base && forall s :: keyOf(s) != k
    ensures var m := Overlay(base, keyOf, value, n); k in m && m[k] == base[k]
  {
    if n > 0 {
      OverlayUntouched(base, keyOf, value, n - 1, k);
    }
  }

  /** What the labelled patterns yield for each section. */
  function MatchValue(extract: Extractor, text: string, minLength: nat): Section -> Option<string> {
    s => SectionMatch(extract, s, text, minLength)
  }

  /** The sections the labelled patterns find, stored under `keyOf(section)`. */
  function Extracted(extract: Extractor, text: string, minLength: nat, keyOf: Section -> string): map<string, string> {
    Overlay(map[], keyOf, MatchValue(extract, text, minLength), |AllSections|)
  }

  /** Whether section `s` was found and what was stored for it, for keys that tell sections apart. */
  lemma ExtractedHas(extract: Extractor, text: string, minLength: nat, keyOf: Section -> string, s: Section)
    requires forall a, b :: keyOf(a) == keyOf(b) ==> a == b
    ensures var m := Extracted(extract, text, minLength, keyOf);
      (keyOf(s) in m <==> SectionMatch(extract, s, text, minLength).Some?)
      && (keyOf(s) in m ==> m[keyOf(s)] == SectionMatch(extract, s, text, minLength).value)
  {
    OverlayAt(map[], keyOf, MatchValue(extract, text, minLength), |AllSections|, s);
  }

  /** Every stored section is longer than `minLength` and sits under some section's key. */
  lemma ExtractedValues(extract: Extractor, text: string, minLength: nat, keyOf: Section -> string)
    requires forall a, b :: keyOf(a) == keyOf(b) ==> a == b
    ensures var m := Extracted(extract, text, minLength, keyOf);
      forall k :: k in m ==> (exists s :: keyOf(s) == k) && |m[k]| > minLength
  {
    var m := Extracted(extract, text, minLength, keyOf);
    OverlayFrame(map[], keyOf, MatchValue(extract, text, minLength), |AllSections|);
    forall k | k in m ensures |m[k]| > minLength {
      var s :| keyOf(s) == k;
      ExtractedHas(extract, text, minLength, keyOf, s);
    }
  }

  /** One section's turn: the patterns in order, stopping at the first accepted capture. */
  method MatchSection(text: string, extract: Extractor, s: Section, minLength: nat)
    returns (found: Option<string>)
    ensures found == SectionMatch(extract, s, text, minLength)
  {
    found := None;
    var j := 0;
    while j < 2 && found.None?
      invariant 0 <= j <= 2
      invariant found.None? ==> forall j' :: 0 <= j' < j ==> !Accepted(extract(s, j', text), minLength)
      invariant found == None || found == SectionMatch(extract, s, text, minLength)
    {
      var g := extract(s, j, text);
      if g.Some? && |Strip(g.value)| > minLength {
        found := Some(Strip(g.value));
        if j == 1 {
          assert !Accepted(extract(s, 0, text), minLength);
        }
      }
      j := j + 1;
    }
  }

  /**
   * The labelled extraction both parsers run first: for every section in turn,
   * the first accepted capture of its patterns.
   */
  method ExtractLabelled(text: string, extract: Extractor, minLength: nat, keyOf: Section -> string)
    returns (sections: map<string, string>)
    ensures sections == Extracted(extract, text, minLength, keyOf)
  {
    sections := map[];
    for i := 0 to |AllSections|
      invariant sections == Overlay(map[], keyOf, MatchValue(extract, text, minLength), i)
    {
      var found := MatchSection(text, extract, AllSections[i], minLength);
      if found.Some? {
        sections := sections[keyOf(AllSections[i]) := found.value];
      }
    }
  }

  /** The model's reply before parsing: text, or another object with its truthiness and `str()`. */
  datatype RawReply = TextReply(s: string) | OtherReply(truthy: bool, text: string)

  /** `str(x) if x else ""` for a reply that is not text. */
  function ReplyText(raw: RawReply): (text: string)
    ensures raw.TextReply? ==> text == raw.s
    ensures raw.OtherReply? && !raw.truthy ==> text == ""
  {
    match raw
    case TextReply(s) => s
    case OtherReply(truthy, text) => if truthy then text else ""
  }

  /** An exception caught by a retry loop: its class name and its `str()`. */
  datatype Failure = Failure(errorType: string, details: string)
}
