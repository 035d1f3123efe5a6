/**
 * The document side of the report (`DocumentService`,
 * backend/services/document_service.py): checking the test data, building
 * the template context, the last fix-up of the question cells before
 * rendering, and the output file name. Template loading, rendering and the
 * storage bucket are not part of this model.
 */
module DocumentService {
  import opened Wrappers
  import opened PyText
  import opened PyValue
  import opened AiSections
  import opened DateTimeUtils
  import opened QuestionSuccess

  /** The variables handed to the Word template. */
  type Context = map<string, Value>

  /** The rows of the template's question table. */
  const TemplateQuestions: nat := 19

  // ---------------------------------------------------------------------
  // Checking the test data (`_validate_test_data`)
  // ---------------------------------------------------------------------

  const RequiredFields: seq<string> := ["class_name", "subject", "total_students"]

  /** The first of `fields` that `d` lacks. */
  function FirstMissing(fields: seq<string>, d: Dict): (r: Option<string>)
    ensures r.None? <==> forall i :: 0 <= i < |fields| ==> fields[i] in d
    ensures r.Some? ==> exists i :: 0 <= i < |fields| && fields[i] == r.value
                                    && r.value !in d && forall j :: 0 <= j < i ==> fields[j] in d
  {
    if |fields| == 0 then None
    else if fields[0] !in d then Some(fields[0])
    else
      var r := FirstMissing(fields[1..], d);
      assert r.Some? ==> exists i :: 0 <= i < |fields| && fields[i] == r.value
                                     && r.value !in d && forall j :: 0 <= j < i ==> fields[j] in d by {
        if r.Some? {
          var i :| 0 <= i < |fields[1..]| && fields[1..][i] == r.value
                   && r.value !in d && forall j :: 0 <= j < i ==> fields[1..][j] in d;
          assert fields[i + 1] == r.value;
        }
      }
      r
  }

  /**
   * The error `_validate_test_data` raises, if any: it names the first
   * required field the test data lacks.
   */
  function ValidateTestData(testData: Dict): (error: Option<string>)
    ensures error.None? <==> "class_name" in testData && "subject" in testData && "total_students" in testData
    ensures error.Some? ==> exists f :: f in RequiredFields && f !in testData
                                        && error.value == "Missing required field in test_data: " + f
  {
    var missing := FirstMissing(RequiredFields, testData);
    assert RequiredFields[0] == "class_name" && RequiredFields[1] == "subject" && RequiredFields[2] == "total_students";
    match missing
    case None => None
    case Some(f) => Some("Missing required field in test_data: " + f)
  }

  // ---------------------------------------------------------------------
  // The AI sections of the context
  // ---------------------------------------------------------------------

  /** The opening all the document's default texts share ("No data is available for"). */
  const NoData: string := "Не са налични данни за "

  /** The text a section gets in the document when the analysis has none for it. */
  function DocumentDefault(s: Section): (t: string)
    ensures !IsBlank(t)
  {
    var topic := match s
      case Lowest => "анализ на най-ниските резултати."
      case Highest => "анализ на най-високите резултати."
      case Gaps => "анализ на пропуските."
      case Overall => "общ анализ на резултатите."
      case Improvement => "мерки за подобрение.";
    var t := NoData + topic;
    assert t[0] == NoData[0] == 'Н';
    StripNonBlank(t);
    t
  }

  /** The analysis text of a section, "" when the analysis has none (`ai_analysis.get(key, '')`). */
  function AnalysisText(ai: map<string, string>, s: Section): string {
    if Key(s) in ai then ai[Key(s)] else ""
  }

  /**
   * The text a section ends with in the context: never blank; the
   * analysis's own text whenever that is not blank, the section's default
   * otherwise.
   */
  function SectionText(ai: map<string, string>, s: Section): (t: string)
    ensures !IsBlank(t)
    ensures !IsBlank(AnalysisText(ai, s)) <==> t == AnalysisText(ai, s)
    ensures IsBlank(AnalysisText(ai, s)) ==> t == DocumentDefault(s)
  {
    var given := AnalysisText(ai, s);
    if IsBlank(given) then DocumentDefault(s) else given
  }

  // ---------------------------------------------------------------------
  // The question cells of the context
  // ---------------------------------------------------------------------

  /** `test_data.get('total_questions', 0)` as a number; a value that is not a whole number counts as 0. */
  function TestTotal(testData: Dict): int {
    match GetOr(testData, "total_questions", Int(0))
    case Int(n) => n
    case _ => 0
  }

  /**
   * The number of questions the test has: the larger of the stored total
   * and the length of the question list, or 0 when neither is positive.
   */
  function EffectiveQuestionCount(testTotal: int, questionsCount: nat): (n: nat)
    ensures n >= questionsCount && n >= testTotal
    ensures n == 0 || n == questionsCount || n == testTotal
    ensures n == 0 <==> testTotal <= 0 && questionsCount == 0
  {
    if testTotal > 0 || questionsCount > 0 then
      (if testTotal >= questionsCount then testTotal else questionsCount)
    else 0
  }

  /** The number of question cells the context gets: at least the template's 19. */
  function QuestionRows(testData: Dict, questionsCount: nat): (rows: nat)
    ensures rows >= TemplateQuestions && rows >= questionsCount && rows >= TestTotal(testData)
  {
    var n := EffectiveQuestionCount(TestTotal(testData), questionsCount);
    if n >= TemplateQuestions then n else TemplateQuestions
  }

  /** The value under `key`, None when the key is absent. */
  function Lookup(d: Dict, key: string): Option<Value> {
    if key in d then Some(d[key]) else None
  }

  /** `value.replace('.', '').replace('-', '').isdigit()`. */
  predicate NumericText(t: string) {
    IsDigits(RemoveChar(RemoveChar(t, '.'), '-'))
  }

  /**
   * The cell text before the final strip: "0%" for a missing, None or
   * empty value, a string as it is, and any other value printed, with a
   * '%' appended when the print is numeric.
   */
  function CellText(found: Option<Value>): string {
    if found.None? || found.value.Null? || found.value == Str("") then NoRate
    else if found.value.Str? then found.value.s
    else
      var t := PyStr(found.value);
      if NumericText(t) then t + "%" else t
  }

  /** The cell `_build_context` stores for a question, as written: the stripped text, "0%" only for empty text. */
  function CellAsWritten(found: Option<Value>): string {
    var text := CellText(found);
    if text == "" then NoRate else Strip(text)
  }

  /** A whitespace-only rate survives the emptiness check and strips to an empty cell. */
  lemma BlankRateGivesEmptyCell()
    ensures CellAsWritten(Some(Str(" "))) == ""
  {
    StripFacts(" ");
  }

  /** The cell of a question without a rate. */
  const NoRate: string := "0%"

  lemma NoRateNotBlank()
    ensures Strip(NoRate) == NoRate && !IsBlank(NoRate)
  {
    StripTrimmed(NoRate);
  }

  /**
   * The cell `_build_context` stores for a question, with blank text
   * turned into "0%" as well: never blank, and "0%" for a question
   * without a value.
   */
  function Cell(found: Option<Value>): (c: string)
    ensures !IsBlank(c)
    ensures found.None? || found.value.Null? ==> c == NoRate
  {
    var text := CellText(found);
    NoRateNotBlank();
    if Strip(text) == [] then NoRate
    else
      StrippedNotBlank(text);
      Strip(text)
  }

  /**
   * The correction changes only the cells the source leaves empty: a value
   * whose text is not blank gets the same, stripped, cell either way.
   */
  lemma CellAgreesWhenNotBlank(found: Option<Value>)
    requires !IsBlank(CellText(found))
    ensures Cell(found) == CellAsWritten(found) == Strip(CellText(found))
  {
  }

  /** Numeric text is made of digits, dots and minus signs, so it holds no whitespace. */
  lemma NumericTextHasNoSpace(t: string)
    requires NumericText(t)
    ensures |t| > 0 && forall i :: 0 <= i < |t| ==> !IsSpace(t[i])
  {
    var digits := RemoveChar(RemoveChar(t, '.'), '-');
    forall i | 0 <= i < |t| ensures !IsSpace(t[i]) {
      var c := t[i];
      if c != '.' && c != '-' {
        assert c in RemoveChar(t, '.');
        assert c in digits;
      }
    }
  }

  /** A value that is not a string and prints as a number becomes that print with '%' appended. */
  lemma NumericCell(v: Value)
    requires !v.Str? && !v.Null? && NumericText(PyStr(v))
    ensures Cell(Some(v)) == PyStr(v) + "%"
  {
    var t := PyStr(v) + "%";
    NumericTextHasNoSpace(PyStr(v));
    StripTrimmed(t);
    StripNonBlank(t);
  }

  /** Every whole number prints as numeric text. */
  lemma IntTextIsNumeric(n: int)
    ensures NumericText(IntToStr(n))
  {
    var t := IntToStr(n);
    if n >= 0 {
      RemoveAbsentChar(t, '.');
      RemoveAbsentChar(t, '-');
    } else {
      var d := t[1..];
      assert t == "-" + d;
      RemoveAbsentChar(t, '.');
      RemoveAbsentChar(d, '-');
      assert t[0] == '-' && t[1..] == d;
    }
  }

  /** A whole-number rate becomes its digits followed by '%'. */
  lemma IntCell(n: int)
    ensures Cell(Some(Int(n))) == IntToStr(n) + "%"
  {
    IntTextIsNumeric(n);
    NumericCell(Int(n));
  }

  // ---------------------------------------------------------------------
  // Building the context (`_build_context`)
  // ---------------------------------------------------------------------

  /** The plain fields the context copies from the test data. */
  const CopiedFields: set<string> := {
    "class_name", "subject", "teacher_name",
    "total_students", "boys_count", "girls_count", "mc_questions", "short_questions",
    "min_points", "max_points", "avg_points", "avg_grade", "avg_percentage",
    "participated_count", "non_participating_count",
    "pass_rate", "good_grades_percentage", "good_grades_count"}

  /** The value a copied field falls back to: "Unknown" for the three names, 0 for the figures. */
  function CopiedDefault(field: string): Value {
    if field == "class_name" || field == "subject" || field == "teacher_name" then Str(UnknownName) else Int(0)
  }

  /** The keys of the context besides the question cells. */
  const FixedKeys: set<string> :=
    CopiedFields + ExtraKeys + KeySet

  /** No fixed key starts with 'q'. */
  lemma FixedKeysAvoidQ(k: string)
    requires |k| > 0 && k[0] == 'q'
    ensures k !in FixedKeys
  {
    assert k !in CopiedFields;
    assert k !in KeySet;
  }

  /** None of the fixed keys has the shape of a question cell's key. */
  lemma FixedKeysAreNotCells(i: nat)
    ensures SuccessKey(i) !in FixedKeys
    ensures SuccessKey(i) !in CopiedFields && SuccessKey(i) !in ExtraKeys && SuccessKey(i) !in KeySet
  {
    var k := SuccessKey(i);
    assert k[..1] == "q";
    FixedKeysAvoidQ(k);
  }

  /** The three groups of fixed keys do not overlap. */
  lemma FixedKeyGroupsDisjoint()
    ensures CopiedFields !! ExtraKeys && CopiedFields !! KeySet && ExtraKeys !! KeySet
  {
  }

  /** The keys the context sets besides the copied fields and the sections. */
  const ExtraKeys: set<string> := {"school_year", "total_questions", "actual_total_questions"}

  /**
   * The dictionary `_build_context` starts from: the copied fields, the
   * school year, the template's fixed total of 19 beside the test's own
   * total, and the analysis text of every section as given.
   */
  function InitialContext(testData: Dict, ai: map<string, string>, defaultSchoolYear: string): (context: Context)
    ensures context.Keys == FixedKeys
    ensures forall k :: k in CopiedFields ==> context[k] == GetOr(testData, k, CopiedDefault(k))
    ensures context["school_year"] == GetOr(testData, "school_year", Str(defaultSchoolYear))
    ensures context["total_questions"] == Int(TemplateQuestions)
    ensures context["actual_total_questions"] == GetOr(testData, "total_questions", Int(0))
    ensures forall s: Section :: context[Key(s)] == Str(AnalysisText(ai, s))
  {
    FixedKeyGroupsDisjoint();
    CopiedPart(testData) + ExtraPart(testData, defaultSchoolYear) + SectionPart(ai)
  }

  /** The entries copied from the test data, each with its default. */
  function CopiedPart(testData: Dict): (m: Context)
    ensures m.Keys == CopiedFields
    ensures forall k :: k in CopiedFields ==> m[k] == GetOr(testData, k, CopiedDefault(k))
  {
    map k | k in CopiedFields :: GetOr(testData, k, CopiedDefault(k))
  }

  /** The school year and the two question totals. */
  function ExtraPart(testData: Dict, defaultSchoolYear: string): (m: Context)
    ensures m.Keys == ExtraKeys
    ensures m["school_year"] == GetOr(testData, "school_year", Str(defaultSchoolYear))
    ensures m["total_questions"] == Int(TemplateQuestions)
    ensures m["actual_total_questions"] == GetOr(testData, "total_questions", Int(0))
  {
    map[
      "school_year" := GetOr(testData, "school_year", Str(defaultSchoolYear)),
      "total_questions" := Int(TemplateQuestions),
      "actual_total_questions" := GetOr(testData, "total_questions", Int(0))]
  }

  /** The analysis texts, "" for a section the analysis lacks. */
  function SectionPart(ai: map<string, string>): (m: Context)
    ensures m.Keys == KeySet
    ensures forall s: Section :: m[Key(s)] == Str(AnalysisText(ai, s))
  {
    map k | k in KeySet :: Str(if k in ai then ai[k] else "")
  }

  /** The cell of question `i`, from the value the test data holds under its key. */
  function QuestionCell(testData: Dict, i: nat): Value {
    Str(Cell(Lookup(testData, SuccessKey(i))))
  }

  /** The cell of every question of the test data, by question number. */
  function CellsOf(testData: Dict): nat -> Value {
    (i: nat) => QuestionCell(testData, i)
  }

  /** The keys of questions `lo`..`n`. */
  function KeyRange(lo: nat, n: int): set<string> {
    set i | lo <= i <= n :: SuccessKey(i)
  }

  /** The cells `cell(lo)`..`cell(n)`, keyed `q{i}_success`. */
  function KeyedCells(lo: nat, n: int, cell: nat -> Value): map<string, Value>
    decreases n - lo + 1
  {
    if n < lo then map[] else KeyedCells(lo, n - 1, cell)[SuccessKey(n) := cell(n)]
  }

  /** The cells are keyed by exactly the keys of questions `lo`..`n`. */
  lemma {:induction false} KeyedCellsKeys(lo: nat, n: int, cell: nat -> Value)
    decreases n - lo + 1
    ensures KeyedCells(lo, n, cell).Keys == KeyRange(lo, n)
  {
    if n >= lo {
      KeyedCellsKeys(lo, n - 1, cell);
      forall k | k in KeyRange(lo, n) ensures k in KeyRange(lo, n - 1) + {SuccessKey(n)} {
        var i :| lo <= i <= n && k == SuccessKey(i);
        if i < n {
          assert k in KeyRange(lo, n - 1);
        }
      }
    } else {
      assert KeyRange(lo, n) == {};
    }
  }

  /** Question `i`'s key holds question `i`'s cell. */
  lemma {:induction false} KeyedCellsValue(lo: nat, n: int, cell: nat -> Value, i: nat)
    requires lo <= i <= n
    ensures SuccessKey(i) in KeyedCells(lo, n, cell) && KeyedCells(lo, n, cell)[SuccessKey(i)] == cell(i)
  {
    var m := KeyedCells(lo, n, cell);
    assert m == KeyedCells(lo, n - 1, cell)[SuccessKey(n) := cell(n)];
    if i < n {
      KeyedCellsValue(lo, n - 1, cell, i);
      KeyDiffers(i, n);
    }
  }

  /** Different questions have different keys. */
  lemma KeyDiffers(i: nat, j: nat)
    requires i != j
    ensures SuccessKey(i) != SuccessKey(j)
  {
    if SuccessKey(i) == SuccessKey(j) {
      SuccessKeyInjective(i, j);
    }
  }

  /** A question's key is not among the keys of the questions before it. */
  lemma KeyNotEarlier(lo: nat, i: nat)
    ensures SuccessKey(i) !in KeyRange(lo, i - 1)
  {
    if SuccessKey(i) in KeyRange(lo, i - 1) {
      var j :| lo <= j <= i - 1 && SuccessKey(j) == SuccessKey(i);
      SuccessKeyInjective(j, i);
    }
  }

  /** A question outside `lo`..`n` has no key among theirs. */
  lemma KeyNotIn(lo: nat, n: int, i: nat)
    requires i < lo || n < i
    ensures SuccessKey(i) !in KeyRange(lo, n)
  {
    if SuccessKey(i) in KeyRange(lo, n) {
      var j :| lo <= j <= n && SuccessKey(j) == SuccessKey(i);
      SuccessKeyInjective(j, i);
    }
  }

  /** Setting an entry of the right operand of a merge sets it in the merge. */
  lemma MergeUpdate(a: map<string, Value>, b: map<string, Value>, k: string, v: Value)
    ensures a + b[k := v] == (a + b)[k := v]
  {
  }

  /**
   * The loop of `_build_context` over the question rows 1..`rows`: each
   * row's key gets the cell of the value the test data holds under it,
   * over whatever the context held there.
   */
  method AddQuestionCells(context: Context, testData: Dict, rows: nat) returns (out: Context)
    ensures out == context + KeyedCells(1, rows, CellsOf(testData))
  {
    var cell := CellsOf(testData);
    out := context;
    for i := 1 to rows + 1
      invariant out == context + KeyedCells(1, i - 1, cell)
    {
      MergeUpdate(context, KeyedCells(1, i - 1, cell), SuccessKey(i), cell(i));
      out := out[SuccessKey(i) := cell(i)];
    }
  }

  /** The section at position `n` of `AllSections` has index `n`. */
  lemma SectionAt(n: nat)
    requires n < |AllSections|
    ensures SectionIndex(AllSections[n]) == n
  {
  }

  /** Different sections have different keys. */
  lemma KeysDiffer(s: Section, t: Section)
    requires s != t
    ensures Key(s) != Key(t)
  {
    if Key(s) == Key(t) {
      KeyInjective(s, t);
    }
  }

  /** Every section other than the `n`-th has another index. */
  lemma OtherSectionsLater(n: nat)
    requires n < |AllSections|
    ensures forall t: Section :: t != AllSections[n] ==> SectionIndex(t) != n
  {
  }

  /** Setting one section's entry leaves the keys and every other entry as they were. */
  lemma SetSection(m: Context, s: Section, v: Value)
    requires KeySet <= m.Keys
    ensures m[Key(s) := v].Keys == m.Keys
    ensures forall k :: k in m && k !in KeySet ==> m[Key(s) := v][k] == m[k]
    ensures forall t: Section :: t != s ==> m[Key(s) := v][Key(t)] == m[Key(t)]
  {
    forall t: Section | t != s ensures Key(t) != Key(s) {
      KeysDiffer(t, s);
    }
  }

  /** One step of the loop over the sections: a blank text is replaced by the section's default. */
  method FillSection(context: Context, ai: map<string, string>, s: Section) returns (out: Context)
    requires Key(s) in context && context[Key(s)] == Str(AnalysisText(ai, s))
    ensures out == context[Key(s) := Str(SectionText(ai, s))]
  {
    out := context;
    if IsBlank(PyStr(context[Key(s)])) {
      out := out[Key(s) := Str(DocumentDefault(s))];
    } else {
      assert out == out[Key(s) := context[Key(s)]];
    }
  }

  /**
   * The loop of `_build_context` over the sections: a section whose text
   * is blank gets its default text; every other entry stays as it was.
   */
  method FillSectionDefaults(context: Context, ai: map<string, string>) returns (out: Context)
    requires KeySet <= context.Keys
    requires forall s: Section :: context[Key(s)] == Str(AnalysisText(ai, s))
    ensures out.Keys == context.Keys
    ensures forall k :: k in context && k !in KeySet ==> out[k] == context[k]
    ensures forall s: Section :: out[Key(s)] == Str(SectionText(ai, s))
  {
    out := context;
    for n := 0 to |AllSections|
      invariant out.Keys == context.Keys
      invariant forall k :: k in context && k !in KeySet ==> out[k] == context[k]
      invariant forall t: Section :: SectionIndex(t) < n ==> out[Key(t)] == Str(SectionText(ai, t))
      invariant forall t: Section :: SectionIndex(t) >= n ==> out[Key(t)] == Str(AnalysisText(ai, t))
    {
      var s := AllSections[n];
      SectionAt(n);
      OtherSectionsLater(n);
      SetSection(out, s, Str(SectionText(ai, s)));
      out := FillSection(out, ai, s);
    }
  }

  /** No question cell's key is one of the fixed keys. */
  lemma CellsAvoidFixedKeys(n: nat)
    ensures FixedKeys !! SuccessKeys(n)
  {
    forall k | k in SuccessKeys(n) ensures k !in FixedKeys {
      var i :| 1 <= i <= n && k == SuccessKey(i);
      FixedKeysAreNotCells(i);
    }
  }

  /**
   * The two loops of `_build_context`, over a starting dictionary holding
   * the fixed keys with each section's analysis text: the question cells
   * are added, then blank sections get their defaults.
   */
  method FillContext(initial: Context, testData: Dict, ai: map<string, string>, rows: nat) returns (context: Context)
    requires initial.Keys == FixedKeys
    requires forall s: Section :: initial[Key(s)] == Str(AnalysisText(ai, s))
    ensures context.Keys == FixedKeys + SuccessKeys(rows)
    ensures forall k :: k in CopiedFields + ExtraKeys ==> context[k] == initial[k]
    ensures forall s: Section :: context[Key(s)] == Str(SectionText(ai, s))
    ensures forall i :: 1 <= i <= rows ==> context[SuccessKey(i)] == QuestionCell(testData, i)
  {
    var cells := AddQuestionCells(initial, testData, rows);
    KeyedCellsKeys(1, rows, CellsOf(testData));
    assert KeyRange(1, rows) == SuccessKeys(rows);
    CellsAvoidFixedKeys(rows);
    FixedKeyGroupsDisjoint();
    context := FillSectionDefaults(cells, ai);
    forall i | 1 <= i <= rows ensures context[SuccessKey(i)] == QuestionCell(testData, i) {
      KeyedCellsValue(1, rows, CellsOf(testData), i);
      FixedKeysAreNotCells(i);
    }
  }

  /**
   * The context `_build_context` returns, over the test data, the AI
   * analysis, the length of the test's question list and the configured
   * school year. It holds the fields of the initial dictionary (the copied
   * fields, the school year, the template's fixed total of 19 beside the
   * test's own total), every section's text (never blank) and a cell (never
   * blank) for every question row up to the larger of the test's question
   * count and 19, and nothing else. The cells are the corrected `Cell`; as
   * written, a whitespace-only rate leaves its cell empty (`CellAsWritten`).
   */
  method BuildContext(testData: Dict, ai: map<string, string>, questionsCount: nat, defaultSchoolYear: string)
    returns (context: Context)
    ensures context.Keys == FixedKeys + SuccessKeys(QuestionRows(testData, questionsCount))
    ensures forall k :: k in CopiedFields + ExtraKeys ==> context[k] == InitialContext(testData, ai, defaultSchoolYear)[k]
    ensures forall s: Section :: context[Key(s)] == Str(SectionText(ai, s))
    ensures forall i :: 1 <= i <= QuestionRows(testData, questionsCount) ==>
              context[SuccessKey(i)] == QuestionCell(testData, i)
  {
    var initial := InitialContext(testData, ai, defaultSchoolYear);
    context := FillContext(initial, testData, ai, QuestionRows(testData, questionsCount));
  }

  // ---------------------------------------------------------------------
  // The fix-up of the question cells before rendering
  // (`generate_test_analysis_document`)
  // ---------------------------------------------------------------------

  /** `context.get('total_questions', 0)` as the render step reads it; a value that is not a whole number counts as 0. */
  function RenderTotal(context: Context): int {
    match GetOr(context, "total_questions", Int(0))
    case Int(n) => n
    case _ => 0
  }

  /** The rows the first pass visits: `range(1, min(total + 1, 100))`. */
  function RenderRows(context: Context): (n: nat)
    ensures n <= 99
    ensures RenderTotal(context) > 0 ==> n == if RenderTotal(context) < 99 then RenderTotal(context) else 99
  {
    var total := RenderTotal(context);
    if total <= 0 then 0 else if total < 99 then total else 99
  }

  /** How Python prints None. */
  const NoneText := "None"

  /** A value the render step replaces: None, or one whose text strips to "" or to "None". */
  predicate Unusable(v: Value) {
    v.Null? || Strip(PyStr(v)) == "" || Strip(PyStr(v)) == NoneText
  }

  /**
   * The render step's text for a usable value: its print, with '%'
   * appended when the print is numeric and does not end in '%', stripped.
   */
  function RenderText(v: Value): string {
    var t := PyStr(v);
    Strip(if !EndsWith(t, "%") && NumericText(t) then t + "%" else t)
  }

  /** What the first pass leaves under a question's key: "0%" for a missing or unusable value. */
  function Rendered(found: Option<Value>): Value {
    if found.None? || Unusable(found.value) then Str(NoRate) else Str(RenderText(found.value))
  }

  /** What the second pass leaves under a key among q11..q19: "0%" for a missing or unusable value. */
  function Backfilled(found: Option<Value>): Value {
    if found.None? || Unusable(found.value) then Str(NoRate) else found.value
  }

  /** Numeric text with '%' appended has no whitespace at either end and ends in '%'. */
  lemma NumericPercentStrips(t: string)
    requires NumericText(t)
    ensures Strip(t + "%") == t + "%" && EndsWith(t + "%", "%")
  {
    NumericTextHasNoSpace(t);
    StripTrimmed(t + "%");
  }

  /** The first pass never leaves an unusable value behind. */
  lemma RenderedUsable(found: Option<Value>)
    ensures !Unusable(Rendered(found))
  {
    NoRateNotBlank();
    if !(found.None? || Unusable(found.value)) {
      var t := PyStr(found.value);
      if !EndsWith(t, "%") && NumericText(t) {
        PercentRenderUsable(found.value);
      } else {
        StripIdempotent(t);
      }
    }
  }

  /** A numeric print gets its '%' and so is neither blank nor "None". */
  lemma PercentRenderUsable(v: Value)
    requires !EndsWith(PyStr(v), "%") && NumericText(PyStr(v))
    ensures !Unusable(Str(RenderText(v)))
  {
    var t := PyStr(v);
    NumericPercentStrips(t);
    StripIdempotent(t + "%");
    assert RenderText(v) == t + "%";
    assert (t + "%")[|t|] == '%';
    StripNonBlank(t + "%");
  }

  /** A value the second pass sees after the first pass stays as the first pass left it. */
  lemma BackfillKeepsRendered(found: Option<Value>)
    ensures Backfilled(Some(Rendered(found))) == Rendered(found)
  {
    RenderedUsable(found);
  }

  /** The first pass's result for each question number. */
  function RenderedOf(context: Context): nat -> Value {
    (i: nat) => Rendered(Lookup(context, SuccessKey(i)))
  }

  /** The second pass's result for each question number. */
  function BackfilledOf(context: Context): nat -> Value {
    (i: nat) => Backfilled(Lookup(context, SuccessKey(i)))
  }

  /** The context after the first pass. */
  function FirstPass(context: Context): Context {
    context + KeyedCells(1, RenderRows(context), RenderedOf(context))
  }

  /** The context after the second pass. */
  function SecondPass(context: Context): Context {
    context + KeyedCells(11, TemplateQuestions, BackfilledOf(context))
  }

  /**
   * The first pass: for each row 1..`RenderRows`, the value under the
   * row's key is replaced by its rendered text, "0%" when it is missing
   * or unusable.
   */
  method RenderCells(context: Context) returns (out: Context)
    ensures out == FirstPass(context)
  {
    out := context;
    var rows := RenderRows(context);
    for i := 1 to rows + 1
      invariant out == context + KeyedCells(1, i - 1, RenderedOf(context))
    {
      var key := SuccessKey(i);
      KeyedCellsKeys(1, i - 1, RenderedOf(context));
      KeyNotEarlier(1, i);
      assert Lookup(out, key) == Lookup(context, key);
      var v: Value;
      if key !in out {
        v := Str(NoRate);
      } else if Unusable(out[key]) {
        v := Str(NoRate);
      } else {
        v := Str(RenderText(out[key]));
      }
      MergeUpdate(context, KeyedCells(1, i - 1, RenderedOf(context)), key, v);
      out := out[key := v];
    }
  }

  /**
   * The second pass: every key among q11..q19 that is missing or holds an
   * unusable value gets "0%"; the others keep their value.
   */
  method BackfillLateCells(context: Context) returns (out: Context)
    ensures out == SecondPass(context)
  {
    out := context;
    for i := 11 to TemplateQuestions + 1
      invariant out == context + KeyedCells(11, i - 1, BackfilledOf(context))
    {
      var key := SuccessKey(i);
      KeyedCellsKeys(11, i - 1, BackfilledOf(context));
      KeyNotEarlier(11, i);
      assert Lookup(out, key) == Lookup(context, key);
      var v: Value;
      if key !in out {
        v := Str(NoRate);
      } else if Unusable(out[key]) {
        v := Str(NoRate);
      } else {
        v := out[key];
      }
      MergeUpdate(context, KeyedCells(11, i - 1, BackfilledOf(context)), key, v);
      out := out[key := v];
    }
  }

  /**
   * The fix-up `generate_test_analysis_document` applies to the context
   * before rendering: the first pass over rows 1..`RenderRows`, then the
   * second over q11..q19.
   */
  method NormaliseForRender(context: Context) returns (out: Context)
    ensures out == SecondPass(FirstPass(context))
  {
    var first := RenderCells(context);
    out := BackfillLateCells(first);
  }

  /** A row the first pass visits holds the rendered form of what it held, which is usable. */
  lemma FirstPassCell(context: Context, i: nat)
    requires 1 <= i <= RenderRows(context)
    ensures SuccessKey(i) in FirstPass(context)
    ensures FirstPass(context)[SuccessKey(i)] == Rendered(Lookup(context, SuccessKey(i)))
    ensures !Unusable(FirstPass(context)[SuccessKey(i)])
  {
    KeyedCellsValue(1, RenderRows(context), RenderedOf(context), i);
    RenderedUsable(Lookup(context, SuccessKey(i)));
  }

  /** The second pass leaves a usable value under each of q11..q19. */
  lemma SecondPassCell(context: Context, i: nat)
    requires 11 <= i <= TemplateQuestions
    ensures SuccessKey(i) in SecondPass(context)
    ensures SecondPass(context)[SuccessKey(i)] == Backfilled(Lookup(context, SuccessKey(i)))
    ensures !Unusable(SecondPass(context)[SuccessKey(i)])
  {
    KeyedCellsValue(11, TemplateQuestions, BackfilledOf(context), i);
    BackfilledUsable(Lookup(context, SuccessKey(i)));
  }

  /** The second pass never leaves an unusable value behind. */
  lemma BackfilledUsable(found: Option<Value>)
    ensures !Unusable(Backfilled(found))
  {
    NoRateNotBlank();
    assert PyStr(Str(NoRate)) == NoRate;
    assert NoRate != NoneText by {
      assert |NoRate| == 2 && |NoneText| == 4;
    }
  }

  /** The second pass leaves every key outside q11..q19 as it was. */
  lemma SecondPassKeeps(context: Context, k: string)
    requires k in context && k !in KeyRange(11, TemplateQuestions)
    ensures k in SecondPass(context) && SecondPass(context)[k] == context[k]
  {
    KeyedCellsKeys(11, TemplateQuestions, BackfilledOf(context));
  }

  /**
   * After the fix-up every row the first pass visits holds the rendered
   * form of what it held, and every row it visits and every one of
   * q11..q19 holds a usable value.
   */
  lemma NormalisedCells(context: Context, i: nat)
    ensures 1 <= i <= RenderRows(context) ==>
      SuccessKey(i) in SecondPass(FirstPass(context)) &&
      SecondPass(FirstPass(context))[SuccessKey(i)] == Rendered(Lookup(context, SuccessKey(i)))
    ensures 1 <= i <= RenderRows(context) || 11 <= i <= TemplateQuestions ==>
      SuccessKey(i) in SecondPass(FirstPass(context)) && !Unusable(SecondPass(FirstPass(context))[SuccessKey(i)])
  {
    var first := FirstPass(context);
    var key := SuccessKey(i);
    if 1 <= i <= RenderRows(context) {
      FirstPassCell(context, i);
      if 11 <= i <= TemplateQuestions {
        SecondPassCell(first, i);
        BackfillKeepsRendered(Lookup(context, key));
      } else {
        KeyNotIn(11, TemplateQuestions, i);
        SecondPassKeeps(first, key);
      }
    } else if 11 <= i <= TemplateQuestions {
      SecondPassCell(first, i);
    }
  }

  /** Keys other than the question rows keep their value through the fix-up. */
  lemma NormaliseKeepsOtherKeys(context: Context, k: string)
    requires k in context && forall i: nat :: k != SuccessKey(i)
    ensures k in SecondPass(FirstPass(context)) && SecondPass(FirstPass(context))[k] == context[k]
  {
    KeyedCellsKeys(1, RenderRows(context), RenderedOf(context));
    SecondPassKeeps(FirstPass(context), k);
  }

  // ---------------------------------------------------------------------
  // The output file name (`_generate_filename`)
  // ---------------------------------------------------------------------

  const FilePrefix := "Analiz_"
  const FileSuffix := ".docx"

  /** Every character of the text is one a file name may hold. */
  predicate FileNameText(s: string) {
    forall i :: 0 <= i < |s| ==> IsFileNameChar(s[i])
  }

  lemma FileNameAppend(a: string, b: string)
    requires FileNameText(a) && FileNameText(b)
    ensures FileNameText(a + b)
  {
    forall i | 0 <= i < |a + b| ensures IsFileNameChar((a + b)[i]) {
      if i >= |a| {
        assert (a + b)[i] == b[i - |a|];
      }
    }
  }

  lemma FixedPartsAreFileNameText()
    ensures FileNameText(FilePrefix) && FileNameText(FileSuffix) && FileNameText("_")
  {
  }

  /**
   * `Analiz_{class}_{subject}_{timestamp}.docx`, with class and subject
   * cleaned: it starts with the prefix, ends with the timestamp and the
   * extension, and holds only file-name characters when the timestamp does.
   */
  function FileNameOf(className: string, subject: string, timestamp: string): (name: string)
    ensures StartsWith(name, FilePrefix) && EndsWith(name, timestamp + FileSuffix)
    ensures FileNameText(timestamp) ==> FileNameText(name)
  {
    var c := CleanFileName(className);
    var t := CleanFileName(subject);
    var head := FilePrefix + c + "_" + t + "_";
    var name := head + (timestamp + FileSuffix);
    assert name[..|FilePrefix|] == FilePrefix;
    assert name[|name| - |timestamp + FileSuffix|..] == timestamp + FileSuffix;
    assert FileNameText(timestamp) ==> FileNameText(name) by {
      if FileNameText(timestamp) {
        FixedPartsAreFileNameText();
        FileNameAppend(FilePrefix, c);
        FileNameAppend(FilePrefix + c, "_");
        FileNameAppend(FilePrefix + c + "_", t);
        FileNameAppend(FilePrefix + c + "_" + t, "_");
        FileNameAppend(timestamp, FileSuffix);
        FileNameAppend(head, timestamp + FileSuffix);
      }
    }
    name
  }

  /**
   * The file name `_generate_filename` gives a test: class name and
   * subject default to "Unknown" and "Test"; the timestamp (the clock's
   * `%Y%m%d_%H%M%S`) is a parameter. A class or subject that is present
   * but not a string makes the regular-expression substitution fail, which
   * is the error here.
   */
  function GenerateFilename(testData: Dict, timestamp: string): (r: Result<string, string>)
    ensures r.Ok? <==> GetOr(testData, "class_name", Str(UnknownName)).Str? && GetOr(testData, "subject", Str(DefaultSubject)).Str?
    ensures r.Ok? ==> r.value == FileNameOf(GetOr(testData, "class_name", Str(UnknownName)).s,
                                            GetOr(testData, "subject", Str(DefaultSubject)).s, timestamp)
    ensures r.Ok? ==> StartsWith(r.value, FilePrefix) && EndsWith(r.value, timestamp + FileSuffix)
    ensures r.Ok? && FileNameText(timestamp) ==> FileNameText(r.value)
  {
    var className := GetOr(testData, "class_name", Str(UnknownName));
    var subject := GetOr(testData, "subject", Str(DefaultSubject));
    if !className.Str? || !subject.Str? then Err("expected string or bytes-like object")
    else Ok(FileNameOf(className.s, subject.s, timestamp))
  }

  /** The placeholder for a missing name, and the subject a test without one is filed under. */
  const UnknownName := "Unknown"
  const DefaultSubject := "Test"

  lemma DefaultNamesClean()
    ensures IsCleanName(UnknownName) && IsCleanName(DefaultSubject)
  {
    LettersAreClean(UnknownName);
    LettersAreClean(DefaultSubject);
  }

  /** Names that are clean already go into the file name as they are. */
  lemma FileNameOfClean(className: string, subject: string, timestamp: string)
    requires IsCleanName(className) && IsCleanName(subject)
    ensures FileNameOf(className, subject, timestamp) == FilePrefix + className + "_" + subject + "_" + timestamp + FileSuffix
  {
    CleanFileNameKeeps(className);
    CleanFileNameKeeps(subject);
  }

  /** A missing class name and subject read as "Unknown" and "Test". */
  lemma FilenameDefaults(testData: Dict, timestamp: string)
    requires "class_name" !in testData && "subject" !in testData
    ensures GenerateFilename(testData, timestamp).Ok?
    ensures GenerateFilename(testData, timestamp).value
      == FilePrefix + UnknownName + "_" + DefaultSubject + "_" + timestamp + FileSuffix
  {
    assert GetOr(testData, "class_name", Str(UnknownName)) == Str(UnknownName);
    assert GetOr(testData, "subject", Str(DefaultSubject)) == Str(DefaultSubject);
    DefaultNamesClean();
    FileNameOfClean(UnknownName, DefaultSubject, timestamp);
  }
}
