/**
 * The per-question success rates of a test (`SupabaseService._calculate_question_success`
 * and `_is_answer_correct`, backend/services/supabase_service.py).
 *
 * For each question `i` of the test, every participating result's per-question
 * entries are searched for the entry of question `i`; the points found are summed
 * and the rate is the share of the points all participants could have earned.
 */
module QuestionSuccess {
  import opened Wrappers
  import opened PyText
  import opened PyValue
  import opened ResultRows
  import GeminiService

  // ---------------------------------------------------------------------
  // Keys and values of the output

  /** `f"q{i}_success"`. */
  function SuccessKey(i: nat): (k: string)
    ensures StartsWith(k, "q") && EndsWith(k, "_success")
  {
    var k := "q" + NatToStr(i) + "_success";
    assert k[..1] == "q" && k[|k| - 8..] == "_success";
    k
  }

  lemma SuccessKeyInjective(i: nat, j: nat)
    requires SuccessKey(i) == SuccessKey(j)
    ensures i == j
  {
    var k := SuccessKey(i);
    assert k[1..|k| - 8] == NatToStr(i);
    assert k[1..|k| - 8] == NatToStr(j);
    NatToStrInjective(i, j);
  }

  /** The keys `q1_success` … `qN_success`. */
  function SuccessKeys(n: nat): set<string> {
    set i | 1 <= i <= n :: SuccessKey(i)
  }

  /** `f"{rate}%"` for a whole-number rate. */
  function RateText(rate: nat): (t: string)
    ensures EndsWith(t, "%") && IsDigits(t[..|t| - 1])
  {
    var t := NatToStr(rate) + "%";
    assert t[..|t| - 1] == NatToStr(rate);
    t
  }

  /** The text of a rate gives the rate back. */
  lemma RateTextReadBack(rate: nat)
    ensures var t := RateText(rate); DigitsValue(t[..|t| - 1]) == rate
  {
    var t := RateText(rate);
    assert t[..|t| - 1] == NatToStr(rate);
    DigitsValueOfNatToStr(rate);
  }

  // ---------------------------------------------------------------------
  // Identifying a question's entry

  /**
   * The most a student can earn on a question: its `points` when that is a
   * positive number, else 1.
   */
  function MaxPoints(question: Dict): (m: real)
    ensures m > 0.0
    ensures var p := ToFloat(Get(question, "points"));
      m == (if p.Some? && p.value > 0.0 then p.value else 1.0)
  {
    var p := Get(question, "points");
    if p == Null || p == Int(0) || (p.Float? && p.x == 0.0) || p == Bool(false) then 1.0
    else
      match ToFloat(p)
      case Some(x) => if x <= 0.0 then 1.0 else x
      case None => 1.0
  }

  /** A question whose points are the text of a positive integer is worth that many points. */
  lemma MaxPointsOfText(question: Dict, n: nat)
    requires n > 0 && Get(question, "points") == Str(PyStr(Int(n)))
    ensures MaxPoints(question) == n as real
  {
    ParseFloatOfIntText(n);
  }

  /** `str(v).strip().lower()`. */
  function NormalisedId(v: Value): string {
    Lower(Strip(PyStr(v)))
  }

  /**
   * The ids question `i` may be recorded under, lower-cased: its own id when
   * it has one, then `q{i}`, `{i}`, `question{i}` and `question_{i}`.
   */
  function AcceptedIds(question: Dict, i: nat): (ids: seq<string>)
    ensures |ids| == 4 || |ids| == 5
    ensures Lower("q" + NatToStr(i)) in ids && Lower(NatToStr(i)) in ids
    ensures Truthy(Get(question, "id")) ==> NormalisedId(Get(question, "id")) in ids
  {
    var own := Get(question, "id");
    var possible := (if Truthy(own) then [NormalisedId(own)] else [])
      + ["q" + NatToStr(i), NatToStr(i), "question" + NatToStr(i), "question_" + NatToStr(i)];
    assert Truthy(own) ==> possible[0] == NormalisedId(own);
    var ids := seq(|possible|, k requires 0 <= k < |possible| => Lower(possible[k]));
    assert ids[|ids| - 4] == Lower("q" + NatToStr(i)) && ids[|ids| - 3] == Lower(NatToStr(i));
    if Truthy(own) then
      assert ids[0] == Lower(NormalisedId(own));
      LowerIdempotent(Strip(PyStr(own)));
      ids
    else ids
  }

  lemma LowerIdempotent(s: string)
    ensures Lower(Lower(s)) == Lower(s)
  {
  }

  /** `qr.get("questionId") or qr.get("question_id") or qr.get("id")`. */
  function EntryId(qr: Dict): (id: Value)
    ensures Truthy(id) <==> Truthy(Get(qr, "questionId")) || Truthy(Get(qr, "question_id")) || Truthy(Get(qr, "id"))
  {
    Or(Or(Get(qr, "questionId"), Get(qr, "question_id")), Get(qr, "id"))
  }

  /** `int(v)` for a value that is an `int` or a `float` (a bool is an int in Python). */
  function NumericIndex(v: Value): (r: Option<int>)
    ensures r.Some? <==> v.Bool? || v.Int? || v.Float?
  {
    match v
    case Bool(b) => Some(if b then 1 else 0)
    case Int(n) => Some(n)
    case Float(x, _) => Some(Trunc(x))
    case _ => None
  }

  /** An entry is question `i`'s by id: its id is one of the accepted ids, or is the number `i`. */
  predicate MatchesById(qr: Dict, i: nat, accepted: seq<string>) {
    var id := EntryId(qr);
    Truthy(id) && (NormalisedId(id) in accepted || NumericIndex(id) == Some(i))
  }

  /** The first entry that satisfies `p`. */
  function FirstWhere(qrs: seq<Dict>, p: Dict -> bool): (r: Option<Dict>)
    ensures r.None? <==> forall k :: 0 <= k < |qrs| ==> !p(qrs[k])
    ensures r.Some? ==>
      exists k :: 0 <= k < |qrs| && qrs[k] == r.value && p(qrs[k]) && forall j :: 0 <= j < k ==> !p(qrs[j])
  {
    if |qrs| == 0 then None
    else if p(qrs[0]) then Some(qrs[0])
    else
      var rest := qrs[1..];
      var r := FirstWhere(rest, p);
      assert r.None? ==> forall k :: 0 <= k < |qrs| ==> !p(qrs[k]) by {
        if r.None? {
          forall k | 1 <= k < |qrs| ensures !p(qrs[k]) {
            assert qrs[k] == rest[k - 1];
          }
        }
      }
      assert r.Some? ==> exists k :: 0 <= k < |qrs| && qrs[k] == r.value && p(qrs[k])
                                     && forall j :: 0 <= j < k ==> !p(qrs[j]) by {
        if r.Some? {
          var k :| 0 <= k < |rest| && rest[k] == r.value && p(rest[k]) && forall j :: 0 <= j < k ==> !p(rest[j]);
          assert qrs[k + 1] == rest[k];
          forall j | 0 <= j < k + 1 ensures !p(qrs[j]) {
            if j > 0 {
              assert qrs[j] == rest[j - 1];
            }
          }
        }
      }
      r
  }

  /** Whether an entry is question `i`'s by id, as a predicate on entries. */
  function ById(i: nat, accepted: seq<string>): Dict -> bool {
    qr => MatchesById(qr, i, accepted)
  }

  /** The first entry that matches question `i` by id. */
  function FirstById(qrs: seq<Dict>, i: nat, accepted: seq<string>): (r: Option<Dict>)
    ensures r.None? <==> forall k :: 0 <= k < |qrs| ==> !MatchesById(qrs[k], i, accepted)
    ensures r.Some? ==>
      exists k :: 0 <= k < |qrs| && qrs[k] == r.value && MatchesById(qrs[k], i, accepted)
                  && forall j :: 0 <= j < k ==> !MatchesById(qrs[j], i, accepted)
  {
    FirstWhere(qrs, ById(i, accepted))
  }

  /**
   * Whether the scan for question `i` reaches an entry that is not a dict
   * before one that matches by id: `qr.get` raises on it.
   */
  predicate ScanHitsNonDict(items: seq<Value>, i: nat, accepted: seq<string>) {
    |items| > 0
    && (!items[0].Object?
        || (!MatchesById(items[0].fields, i, accepted) && ScanHitsNonDict(items[1..], i, accepted)))
  }

  /** Past entries that are dicts and do not match, the scan goes on as from where they end. */
  lemma {:induction false} ScanSkipsPrefix(items: seq<Value>, i: nat, accepted: seq<string>, k: nat)
    requires k <= |items|
    requires forall j :: 0 <= j < k ==> items[j].Object? && !MatchesById(items[j].fields, i, accepted)
    ensures ScanHitsNonDict(items, i, accepted) == ScanHitsNonDict(items[k..], i, accepted)
  {
    if k > 0 {
      ScanSkipsPrefix(items[1..], i, accepted, k - 1);
      assert items[1..][k - 1..] == items[k..];
    }
  }

  /** An empty dict, what `AsDicts` puts in place of a non-dict, never matches by id. */
  lemma EmptyNeverMatches(i: nat, accepted: seq<string>)
    ensures !MatchesById(map[], i, accepted)
  {
    assert !Truthy(EntryId(map[]));
  }

  /**
   * The loop over the entries that stops at the first one matching by id;
   * `raised` when it reaches an entry that is not a dict first.
   */
  method FindById(items: seq<Value>, i: nat, accepted: seq<string>) returns (raised: bool, found: Option<Dict>)
    ensures raised == ScanHitsNonDict(items, i, accepted)
    ensures !raised ==> found == FirstById(AsDicts(items), i, accepted)
  {
    ghost var ds := AsDicts(items);
    EmptyNeverMatches(i, accepted);
    for k := 0 to |items|
      invariant forall j :: 0 <= j < k ==> items[j].Object? && !MatchesById(items[j].fields, i, accepted)
    {
      if !items[k].Object? {
        ScanSkipsPrefix(items, i, accepted, k);
        return true, None;
      }
      if MatchesById(items[k].fields, i, accepted) {
        ScanSkipsPrefix(items, i, accepted, k);
        FirstByIdAt(ds, i, accepted, k);
        return false, Some(items[k].fields);
      }
    }
    ScanSkipsPrefix(items, i, accepted, |items|);
    assert forall j :: 0 <= j < |ds| ==> !MatchesById(ds[j], i, accepted);
    return false, None;
  }

  /** The first entry matching by id is the one at the first matching position. */
  lemma FirstByIdAt(qrs: seq<Dict>, i: nat, accepted: seq<string>, k: nat)
    requires k < |qrs| && MatchesById(qrs[k], i, accepted)
    requires forall j :: 0 <= j < k ==> !MatchesById(qrs[j], i, accepted)
    ensures FirstById(qrs, i, accepted) == Some(qrs[k])
  {
    var r := FirstById(qrs, i, accepted);
    var k' :| 0 <= k' < |qrs| && qrs[k'] == r.value && MatchesById(qrs[k'], i, accepted)
              && forall j :: 0 <= j < k' ==> !MatchesById(qrs[j], i, accepted);
    assert k' == k;
  }

  /**
   * The positional fallback: the `i`-th entry, taken only while the test has an
   * `i`-th question, and only when that entry has no id or an accepted one.
   */
  function Positional(qrs: seq<Dict>, i: nat, questionCount: nat, accepted: seq<string>): (r: Option<Dict>)
    ensures r.Some? <==>
      1 <= i <= |qrs| && i <= questionCount
      && (!Truthy(EntryId(qrs[i - 1])) || NormalisedId(EntryId(qrs[i - 1])) in accepted)
    ensures r.Some? ==> r.value == qrs[i - 1]
  {
    if 1 <= i <= |qrs| && i <= questionCount then
      var candidate := qrs[i - 1];
      var id := EntryId(candidate);
      if !Truthy(id) then Some(candidate)
      else if NormalisedId(id) in accepted then Some(candidate)
      else None
    else None
  }

  /** The entry the calculation uses for question `i`: by id, else by position. */
  function ResolveEntry(qrs: seq<Dict>, i: nat, questionCount: nat, accepted: seq<string>): Option<Dict> {
    var byId := FirstById(qrs, i, accepted);
    if byId.Some? then byId else Positional(qrs, i, questionCount, accepted)
  }

  /** The position is consulted only when no entry matches by id, and is guarded by both lengths and the entry's id. */
  lemma PositionalOnlyAsLastResort(qrs: seq<Dict>, i: nat, questionCount: nat, accepted: seq<string>)
    ensures var r := ResolveEntry(qrs, i, questionCount, accepted);
      r.Some? && !MatchesById(r.value, i, accepted) ==>
        (forall k :: 0 <= k < |qrs| ==> !MatchesById(qrs[k], i, accepted))
        && 1 <= i <= |qrs| && i <= questionCount && r.value == qrs[i - 1]
        && !Truthy(EntryId(qrs[i - 1]))
  {
    var byId := FirstById(qrs, i, accepted);
    if byId.Some? {
      var k :| 0 <= k < |qrs| && qrs[k] == byId.value && MatchesById(qrs[k], i, accepted)
               && forall j :: 0 <= j < k ==> !MatchesById(qrs[j], i, accepted);
    }
  }

  // ---------------------------------------------------------------------
  // Points

  /**
   * The points of an entry: `points`, else `point`, else 0, as a float with
   * negatives raised to 0; None where `float()` raises.
   */
  function EntryPoints(qr: Dict): (r: Option<real>)
    ensures r.Some? ==> r.value >= 0.0
    ensures Get(qr, "points") == Int(0) ==> r == Some(0.0)
    ensures Get(qr, "points") == Null && Get(qr, "point") == Null ==> r == Some(0.0)
    ensures Get(qr, "points").Int? ==> r == Some(if Get(qr, "points").i < 0 then 0.0 else Get(qr, "points").i as real)
  {
    var first := Get(qr, "points");
    var p := if first != Null then first else if Get(qr, "point") != Null then Get(qr, "point") else Int(0);
    match ToFloat(p)
    case Some(x) => Some(if x < 0.0 then 0.0 else x)
    case None => None
  }

  /** Points earned recorded as the text of an integer count as that integer. */
  lemma EntryPointsOfText(qr: Dict, n: nat)
    requires Get(qr, "points") == Str(PyStr(Int(n)))
    ensures EntryPoints(qr) == Some(n as real)
  {
    ParseFloatOfIntText(n);
  }

  /** `result.get("question_results") or result.get("questionResults")`, when it is a non-empty list. */
  function EntryItems(r: Dict): Option<seq<Value>> {
    var v := Or(Get(r, "question_results"), Get(r, "questionResults"));
    if v.List? && |v.items| > 0 then Some(v.items) else None
  }

  /** The entries of a result, each read as a dict. */
  function ResultEntries(r: Dict): Option<seq<Dict>> {
    match EntryItems(r)
    case None => None
    case Some(items) => Some(AsDicts(items))
  }

  /**
   * The entries of a list, each read as a dict; an entry that is not a dict
   * reads as an empty one, which the calculation only reaches where Python
   * has already raised (`ScanHitsNonDict`).
   */
  function AsDicts(items: seq<Value>): (ds: seq<Dict>)
    ensures |ds| == |items|
    ensures forall k :: 0 <= k < |items| && items[k].Object? ==> ds[k] == items[k].fields
  {
    seq(|items|, k requires 0 <= k < |items| => if items[k].Object? then items[k].fields else map[])
  }

  /** What one result adds to question `i`'s earned points; None when it adds no answer. */
  function Contribution(r: Dict, i: nat, questionCount: nat, accepted: seq<string>): (c: Option<real>)
    ensures c.Some? ==> c.value >= 0.0
  {
    match ResultEntries(r)
    case None => None
    case Some(qrs) =>
      match ResolveEntry(qrs, i, questionCount, accepted)
      case None => None
      case Some(entry) => if |entry| > 0 then EntryPoints(entry) else None
  }

  /** The points earned on question `i` over the results. */
  function TotalEarned(rs: seq<Dict>, i: nat, questionCount: nat, accepted: seq<string>): (total: real)
    ensures total >= 0.0
  {
    if |rs| == 0 then 0.0
    else
      var c := Contribution(rs[|rs| - 1], i, questionCount, accepted);
      TotalEarned(rs[..|rs| - 1], i, questionCount, accepted) + (if c.Some? then c.value else 0.0)
  }

  // ---------------------------------------------------------------------
  // Rates

  /**
   * `min(100, round(earned / (max_points * n) * 100))`: the share of all the
   * points `n` participants could have earned, as a whole percentage.
   */
  function SuccessRate(earned: real, maxPoints: real, n: nat): (rate: nat)
    requires earned >= 0.0 && maxPoints > 0.0 && n > 0
    ensures rate <= 100
    ensures earned == 0.0 ==> rate == 0
    ensures earned >= maxPoints * n as real ==> rate == 100
    ensures rate < 100 ==> -0.5 <= rate as real - earned / (maxPoints * n as real) * 100.0 <= 0.5
  {
    var possible := maxPoints * n as real;
    var share := earned / possible * 100.0;
    assert possible > 0.0 && share >= 0.0;
    assert earned >= possible ==> share >= 100.0 by {
      if earned >= possible {
        var q := earned / possible;
        assert q * possible == earned;
        if q < 1.0 {
          assert false;
        }
      }
    }
    var rounded := RoundHalfEven(share);
    if rounded < 100 then rounded else 100
  }

  /** The rate of question `i` (1-based) among the given participating results. */
  function RateOf(valid: seq<Dict>, questions: seq<Dict>, i: nat): (rate: nat)
    requires 1 <= i <= |questions|
    ensures rate <= 100
  {
    if |valid| == 0 then 0
    else
      var question := questions[i - 1];
      SuccessRate(TotalEarned(valid, i, |questions|, AcceptedIds(question, i)), MaxPoints(question), |valid|)
  }

  /** A dict filled for i = 1..n in order, entry `value(i)` under `key(i)`. */
  function Indexed(n: nat, key: nat -> string, value: nat -> string): map<string, string> {
    if n == 0 then map[] else Indexed(n - 1, key, value)[key(n) := value(n)]
  }

  lemma {:induction false} IndexedKeys(n: nat, key: nat -> string, value: nat -> string)
    ensures Indexed(n, key, value).Keys == set i | 1 <= i <= n :: key(i)
  {
    if n > 0 {
      IndexedKeys(n - 1, key, value);
      var before := set i | 1 <= i <= n - 1 :: key(i);
      forall k | k in (set i | 1 <= i <= n :: key(i)) ensures k in before + {key(n)} {
        var i :| 1 <= i <= n && k == key(i);
        if i < n {
          assert k in before;
        }
      }
    }
  }

  lemma {:induction false} IndexedValue(n: nat, key: nat -> string, value: nat -> string, i: nat)
    requires forall a: nat, b: nat :: key(a) == key(b) ==> a == b
    requires 1 <= i <= n
    ensures key(i) in Indexed(n, key, value) && Indexed(n, key, value)[key(i)] == value(i)
  {
    if i < n {
      IndexedValue(n - 1, key, value, i);
    }
  }

  /** Question i's rate as text, for i among the test's questions. */
  function RateValue(valid: seq<Dict>, questions: seq<Dict>): nat -> string {
    i => if 1 <= i <= |questions| then RateText(RateOf(valid, questions, i)) else ""
  }

  /** The rates of questions 1..n under their keys. */
  function Rates(valid: seq<Dict>, questions: seq<Dict>, n: nat): map<string, string> {
    Indexed(n, SuccessKey, RateValue(valid, questions))
  }

  lemma SuccessKeyInjectiveAll()
    ensures forall a: nat, b: nat :: SuccessKey(a) == SuccessKey(b) ==> a == b
  {
    forall a: nat, b: nat | SuccessKey(a) == SuccessKey(b) ensures a == b {
      SuccessKeyInjective(a, b);
    }
  }

  /** The output has exactly the keys `q1_success` … `qN_success`. */
  lemma RatesKeys(valid: seq<Dict>, questions: seq<Dict>, n: nat)
    ensures Rates(valid, questions, n).Keys == SuccessKeys(n)
  {
    IndexedKeys(n, SuccessKey, RateValue(valid, questions));
  }

  /** The entry under `q{i}_success` is question i's rate. */
  lemma RatesValue(valid: seq<Dict>, questions: seq<Dict>, n: nat, i: nat)
    requires 1 <= i <= n <= |questions|
    ensures SuccessKey(i) in Rates(valid, questions, n)
    ensures Rates(valid, questions, n)[SuccessKey(i)] == RateText(RateOf(valid, questions, i))
  {
    SuccessKeyInjectiveAll();
    IndexedValue(n, SuccessKey, RateValue(valid, questions), i);
  }

  /** With no participating result every question reads "0%". */
  lemma NoParticipantsAllZero(questions: seq<Dict>, i: nat)
    requires 1 <= i <= |questions|
    ensures SuccessKey(i) in Rates([], questions, |questions|)
    ensures Rates([], questions, |questions|)[SuccessKey(i)] == "0%"
  {
    RatesValue([], questions, |questions|, i);
    assert NatToStr(0) == "0";
  }

  // ---------------------------------------------------------------------
  // Entries that are not dicts

  /** Whether looking up question `i` in one result raises. */
  predicate LookupRaises(r: Dict, i: nat, accepted: seq<string>) {
    EntryItems(r).Some? && ScanHitsNonDict(EntryItems(r).value, i, accepted)
  }

  /** Whether question `i`'s pass over the results raises. */
  predicate ResultsRaise(valid: seq<Dict>, i: nat, accepted: seq<string>) {
    |valid| > 0
    && (ResultsRaise(valid[..|valid| - 1], i, accepted) || LookupRaises(valid[|valid| - 1], i, accepted))
  }

  /** A pass that raises on some first results raises on all of them. */
  lemma {:induction false} ResultsRaiseExtends(valid: seq<Dict>, m: nat, i: nat, accepted: seq<string>)
    requires m <= |valid| && ResultsRaise(valid[..m], i, accepted)
    ensures ResultsRaise(valid, i, accepted)
  {
    if m < |valid| {
      var init := valid[..|valid| - 1];
      assert init[..m] == valid[..m];
      ResultsRaiseExtends(init, m, i, accepted);
    } else {
      assert valid[..m] == valid;
    }
  }

  /** Whether the passes for questions 1..n raise. */
  predicate QuestionsRaise(valid: seq<Dict>, questions: seq<Dict>, n: nat)
    requires n <= |questions|
  {
    n > 0
    && (QuestionsRaise(valid, questions, n - 1) || ResultsRaise(valid, n, AcceptedIds(questions[n - 1], n)))
  }

  lemma {:induction false} QuestionsRaiseExtends(valid: seq<Dict>, questions: seq<Dict>, n: nat, m: nat)
    requires n <= m <= |questions| && QuestionsRaise(valid, questions, n)
    ensures QuestionsRaise(valid, questions, m)
  {
    if n < m {
      QuestionsRaiseExtends(valid, questions, n, m - 1);
      QuestionsRaiseStep(valid, questions, m);
    }
  }

  lemma QuestionsRaiseStep(valid: seq<Dict>, questions: seq<Dict>, m: nat)
    requires 0 < m <= |questions| && QuestionsRaise(valid, questions, m - 1)
    ensures QuestionsRaise(valid, questions, m)
  {
  }

  /** Whether the id log over the first five entries of the first result raises. */
  predicate SampleRaises(r: Dict) {
    EntryItems(r).Some?
    && exists k :: 0 <= k < |EntryItems(r).value| && k < 5 && !EntryItems(r).value[k].Object?
  }

  /** The log loop over the first five entries of the first result, which calls `qr.get` on each. */
  method LogSampleIds(r: Dict) returns (raised: bool)
    ensures raised == SampleRaises(r)
  {
    var items := EntryItems(r);
    if items.None? {
      return false;
    }
    var n := if |items.value| < 5 then |items.value| else 5;
    for k := 0 to n
      invariant forall j :: 0 <= j < k ==> items.value[j].Object?
    {
      if !items.value[k].Object? {
        return true;
      }
    }
    return false;
  }

  /**
   * The body of the loop over the results: the lookup of question `i`'s entry
   * in one result and the points it adds; `raised` where the lookup raises.
   */
  method ResultPoints(r: Dict, i: nat, questionCount: nat, accepted: seq<string>)
    returns (raised: bool, points: Option<real>)
    ensures raised == LookupRaises(r, i, accepted)
    ensures !raised ==> points == Contribution(r, i, questionCount, accepted)
  {
    points := None;
    var items := EntryItems(r);
    if items.None? {
      return false, None;
    }
    var entry;
    raised, entry := FindById(items.value, i, accepted);
    if raised {
      return;
    }
    if entry.None? {
      entry := Positional(AsDicts(items.value), i, questionCount, accepted);
    }
    if entry.Some? && |entry.value| > 0 {
      points := EntryPoints(entry.value);
    }
  }

  /** How the sum and the raise over the first results grow by one result. */
  lemma PrefixStep(valid: seq<Dict>, k: nat, i: nat, questionCount: nat, accepted: seq<string>)
    requires k < |valid|
    ensures var c := Contribution(valid[k], i, questionCount, accepted);
      TotalEarned(valid[..k + 1], i, questionCount, accepted)
        == TotalEarned(valid[..k], i, questionCount, accepted) + (if c.Some? then c.value else 0.0)
    ensures ResultsRaise(valid[..k + 1], i, accepted)
      == (ResultsRaise(valid[..k], i, accepted) || LookupRaises(valid[k], i, accepted))
  {
    assert valid[..k + 1][..k] == valid[..k];
  }

  /**
   * One question's rate: the loop over the participating results that sums
   * the points of the entry found for question `i`; None where a lookup
   * raises.
   */
  method QuestionRate(valid: seq<Dict>, questions: seq<Dict>, i: nat) returns (rate: Option<nat>)
    requires |valid| > 0 && 1 <= i <= |questions|
    ensures rate.None? <==> ResultsRaise(valid, i, AcceptedIds(questions[i - 1], i))
    ensures rate.Some? ==> rate.value == RateOf(valid, questions, i)
  {
    var question := questions[i - 1];
    var maxPoints := MaxPoints(question);
    var accepted := AcceptedIds(question, i);
    var earned := 0.0;
    for k := 0 to |valid|
      invariant earned == TotalEarned(valid[..k], i, |questions|, accepted)
      invariant !ResultsRaise(valid[..k], i, accepted)
    {
      PrefixStep(valid, k, i, |questions|, accepted);
      var raised, points := ResultPoints(valid[k], i, |questions|, accepted);
      if raised {
        ResultsRaiseExtends(valid, k + 1, i, accepted);
        return None;
      }
      if points.Some? {
        earned := earned + points.value;
      }
    }
    assert valid[..|valid|] == valid;
    rate := Some(SuccessRate(earned, maxPoints, |valid|));
  }

  /**
   * The success rates `_calculate_question_success` returns: nothing for a
   * test without questions, "0%" for each question when nobody took the
   * test, otherwise one rate per question; None where a non-dict entry makes
   * `qr.get` raise.
   */
  function QuestionSuccessOf(results: seq<Dict>, questions: seq<Dict>): (r: Option<map<string, string>>)
    ensures r.Some? ==> r.value == Rates(Filter(results, Participates), questions, |questions|)
    ensures r.None? ==> |questions| > 0 && |Filter(results, Participates)| > 0
  {
    var valid := Filter(results, Participates);
    if |questions| == 0 || |valid| == 0 then Some(Rates(valid, questions, |questions|))
    else if SampleRaises(valid[0]) || QuestionsRaise(valid, questions, |questions|) then None
    else Some(Rates(valid, questions, |questions|))
  }

  /** Every entry of the result's list, if it has one, is a dict. */
  predicate EntriesAreDicts(r: Dict) {
    EntryItems(r).Some? ==> forall j :: 0 <= j < |EntryItems(r).value| ==> EntryItems(r).value[j].Object?
  }

  lemma {:induction false} DictsNeverHit(items: seq<Value>, i: nat, accepted: seq<string>)
    requires forall j :: 0 <= j < |items| ==> items[j].Object?
    ensures !ScanHitsNonDict(items, i, accepted)
  {
    if |items| > 0 {
      DictsNeverHit(items[1..], i, accepted);
    }
  }

  lemma {:induction false} DictResultsNeverRaise(valid: seq<Dict>, i: nat, accepted: seq<string>)
    requires forall k :: 0 <= k < |valid| ==> EntriesAreDicts(valid[k])
    ensures !ResultsRaise(valid, i, accepted)
  {
    if |valid| > 0 {
      DictResultsNeverRaise(valid[..|valid| - 1], i, accepted);
      var last := valid[|valid| - 1];
      if EntryItems(last).Some? {
        DictsNeverHit(EntryItems(last).value, i, accepted);
      }
    }
  }

  lemma {:induction false} DictQuestionsNeverRaise(valid: seq<Dict>, questions: seq<Dict>, n: nat)
    requires n <= |questions|
    requires forall k :: 0 <= k < |valid| ==> EntriesAreDicts(valid[k])
    ensures !QuestionsRaise(valid, questions, n)
  {
    if n > 0 {
      DictQuestionsNeverRaise(valid, questions, n - 1);
      DictResultsNeverRaise(valid, n, AcceptedIds(questions[n - 1], n));
    }
  }

  /** Results whose entries are all dicts never make the calculation raise. */
  lemma DictEntriesNeverRaise(results: seq<Dict>, questions: seq<Dict>)
    requires forall k :: 0 <= k < |results| ==> EntriesAreDicts(results[k])
    ensures QuestionSuccessOf(results, questions).Some?
  {
    var valid := Filter(results, Participates);
    forall k | 0 <= k < |valid| ensures EntriesAreDicts(valid[k]) {
      assert valid[k] in results;
    }
    DictQuestionsNeverRaise(valid, questions, |questions|);
  }

  /** A result whose first entry is not a dict makes the id log raise. */
  lemma NonDictFirstEntryRaises(results: seq<Dict>, questions: seq<Dict>)
    requires |questions| > 0 && |Filter(results, Participates)| > 0
    requires var first := Filter(results, Participates)[0];
      EntryItems(first).Some? && !EntryItems(first).value[0].Object?
    ensures QuestionSuccessOf(results, questions).None?
  {
  }

  /**
   * `_calculate_question_success`: nothing for a test without questions,
   * otherwise one `"{rate}%"` per question, over the participating results;
   * None where it raises.
   */
  method CalculateQuestionSuccess(results: seq<Dict>, questions: seq<Dict>) returns (rates: Option<map<string, string>>)
    ensures rates == QuestionSuccessOf(results, questions)
    ensures rates.Some? ==> rates.value.Keys == SuccessKeys(|questions|)
  {
    var valid := Filter(results, Participates);
    RatesKeys(valid, questions, |questions|);
    if |questions| == 0 {
      return Some(map[]);
    }
    if |valid| == 0 {
      var zero := ZeroRates(questions);
      return Some(zero);
    }
    var raised := LogSampleIds(valid[0]);
    if raised {
      return None;
    }
    rates := ComputeRates(valid, questions);
  }

  /** The loop for a test nobody took: every question reads "0%". */
  method ZeroRates(questions: seq<Dict>) returns (rates: map<string, string>)
    ensures rates == Rates([], questions, |questions|)
  {
    assert RateText(0) == "0%" by {
      assert NatToStr(0) == "0";
    }
    rates := map[];
    for i := 1 to |questions| + 1
      invariant rates == Rates([], questions, i - 1)
    {
      assert RateValue([], questions)(i) == "0%";
      rates := rates[SuccessKey(i) := "0%"];
    }
  }

  /** The loop over the questions, one rate each; None where a lookup raises. */
  method ComputeRates(valid: seq<Dict>, questions: seq<Dict>) returns (rates: Option<map<string, string>>)
    requires |valid| > 0
    ensures rates.None? <==> QuestionsRaise(valid, questions, |questions|)
    ensures rates.Some? ==> rates.value == Rates(valid, questions, |questions|)
  {
    var acc := map[];
    for i := 1 to |questions| + 1
      invariant acc == Rates(valid, questions, i - 1)
      invariant !QuestionsRaise(valid, questions, i - 1)
    {
      var rate := QuestionRate(valid, questions, i);
      if rate.None? {
        QuestionsRaiseExtends(valid, questions, i, |questions|);
        return None;
      }
      assert RateValue(valid, questions)(i) == RateText(rate.value);
      acc := acc[SuccessKey(i) := RateText(rate.value)];
    }
    return Some(acc);
  }

  // ---------------------------------------------------------------------
  // `_is_answer_correct`

  /** `_is_answer_correct` (Supabase variant). */
  function IsAnswerCorrect(answer: Value): (correct: bool)
    ensures answer.Null? || answer.List? || answer.Object? ==> !correct
    ensures answer.Bool? ==> correct == answer.b
    ensures answer.Int? ==> (correct <==> answer.i == 1)
    ensures answer.Float? ==> (correct <==> answer.x == 1.0)
  {
    match answer
    case Null => false
    case Bool(b) => b
    case Int(n) => n == 1
    case Float(x, _) => x == 1.0
    case Str(s) => Strip(Lower(s)) in ["1", "true", "correct", "yes", "да"]
    case List(_, _) => false
    case Object(_, _) => false
  }

  /** An answer this variant accepts is accepted by the analysis service's variant too. */
  lemma AnswerCorrectStricterThanGemini(answer: Value)
    ensures IsAnswerCorrect(answer) ==> GeminiService.IsAnswerCorrect(answer)
  {
  }

  /** ... but not the other way round: a 2 and "правилно" are correct only there. */
  lemma AnswerCorrectDiffersFromGemini()
    ensures GeminiService.IsAnswerCorrect(Int(2)) && !IsAnswerCorrect(Int(2))
    ensures GeminiService.IsAnswerCorrect(Str("правилно")) && !IsAnswerCorrect(Str("правилно"))
  {
    assert Lower("правилно") == "правилно";
    StripNonBlank("правилно");
    assert Strip("правилно") == "правилно" by {
      StripFacts("правилно");
    }
  }
}
