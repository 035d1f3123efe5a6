/**
 * The Python `str` operations the backend relies on, over Dafny strings
 * (`seq<char>` of Unicode scalar values).
 */
module PyText {

  /** `str.isspace()` for one character; also what `\s` matches in a Python `re` pattern. */
  predicate IsSpace(c: char) {
    c == ' ' || ('\t' <= c <= '\r') || ('\U{1C}' <= c <= '\U{1F}')
    || c == '\U{85}' || c == '\U{A0}' || c == '\U{1680}'
    || ('\U{2000}' <= c <= '\U{200A}') || c == '\U{2028}' || c == '\U{2029}'
    || c == '\U{202F}' || c == '\U{205F}' || c == '\U{3000}'
  }

  /** `str.lower()` for one character: ASCII and the basic Cyrillic block. */
  function LowerChar(c: char): (r: char)
    ensures 'A' <= c <= 'Z' ==> r != c && 'a' <= r <= 'z'
    ensures !('A' <= c <= 'Z') && !('\U{400}' <= c <= '\U{42F}') ==> r == c
  {
    if 'A' <= c <= 'Z' then (c as int + 32) as char
    else if '\U{410}' <= c <= '\U{42F}' then (c as int + 32) as char
    else if '\U{400}' <= c <= '\U{40F}' then (c as int + 80) as char
    else c
  }

  function Lower(s: string): (r: string)
    ensures |r| == |s|
    ensures forall i :: 0 <= i < |s| ==> r[i] == LowerChar(s[i])
  {
    seq(|s|, i requires 0 <= i < |s| => LowerChar(s[i]))
  }

  lemma LowerConcat(a: string, b: string)
    ensures Lower(a + b) == Lower(a) + Lower(b)
  {
  }

  /** The number of leading characters of `s` that satisfy `drop`. */
  function LeadCount(s: string, drop: char -> bool): (n: nat)
    ensures n <= |s| && (n == |s| || !drop(s[n]))
    ensures forall i :: 0 <= i < n ==> drop(s[i])
  {
    if |s| > 0 && drop(s[0]) then 1 + LeadCount(s[1..], drop) else 0
  }

  /** A prefix made only of dropped characters is counted whole. */
  lemma {:induction false} LeadCountPrefix(d: string, t: string, drop: char -> bool)
    requires forall i :: 0 <= i < |d| ==> drop(d[i])
    ensures LeadCount(d + t, drop) == |d| + LeadCount(t, drop)
  {
    if |d| > 0 {
      assert (d + t)[0] == d[0] && (d + t)[1..] == d[1..] + t;
      LeadCountPrefix(d[1..], t, drop);
    } else {
      assert d + t == t;
    }
  }

  /** The number of trailing characters of `s` that satisfy `drop`. */
  function TrailCount(s: string, drop: char -> bool): (n: nat)
    ensures n <= |s| && (n == |s| || !drop(s[|s| - n - 1]))
    ensures forall i :: |s| - n <= i < |s| ==> drop(s[i])
  {
    if |s| > 0 && drop(s[|s| - 1]) then 1 + TrailCount(s[..|s| - 1], drop) else 0
  }

  /** `str.strip(chars)`: the longest slice of `s` that neither starts nor ends with a dropped character. */
  function StripBy(s: string, drop: char -> bool): (r: string)
    ensures LeadCount(s, drop) + |r| <= |s| && r == s[LeadCount(s, drop)..LeadCount(s, drop) + |r|]
    ensures r == [] || (!drop(r[0]) && !drop(r[|r| - 1]))
    ensures r == [] <==> forall i :: 0 <= i < |s| ==> drop(s[i])
  {
    var t := s[LeadCount(s, drop)..];
    t[..|t| - TrailCount(t, drop)]
  }

  /** `str.strip()` with no argument. */
  function Strip(s: string): (r: string)
    ensures |r| <= |s|
  {
    StripBy(s, IsSpace)
  }

  /** What `str.strip()` leaves: a slice of the text with no whitespace at either end, empty exactly for blank text. */
  lemma StripFacts(s: string)
    ensures var r := Strip(s);
      LeadCount(s, IsSpace) + |r| <= |s| && r == s[LeadCount(s, IsSpace)..LeadCount(s, IsSpace) + |r|]
      && (r == [] || (!IsSpace(r[0]) && !IsSpace(r[|r| - 1])))
      && (r == [] <==> forall i :: 0 <= i < |s| ==> IsSpace(s[i]))
  {
  }

  lemma StripIdempotent(s: string)
    ensures Strip(Strip(s)) == Strip(s)
  {
    var x := Strip(s);
    var t := x[LeadCount(x, IsSpace)..];
    var trail := TrailCount(t, IsSpace);
  }

  /** Stripping keeps only characters of the original text. */
  lemma StripSubset(s: string)
    ensures forall c :: c in Strip(s) ==> c in s
  {
    var x := Strip(s);
    var k := LeadCount(s, IsSpace);
    forall c | c in x ensures c in s {
      var i :| 0 <= i < |x| && x[i] == c;
      assert s[k + i] == c;
    }
  }

  predicate IsBlank(s: string) {
    Strip(s) == []
  }

  /** Stripped text that is not empty is not blank. */
  lemma StrippedNotBlank(s: string)
    requires Strip(s) != []
    ensures !IsBlank(Strip(s))
  {
    StripIdempotent(s);
  }

  /** Text without whitespace at either end strips to itself. */
  lemma StripTrimmed(s: string)
    requires |s| > 0 && !IsSpace(s[0]) && !IsSpace(s[|s| - 1])
    ensures Strip(s) == s
  {
    assert LeadCount(s, IsSpace) == 0;
    assert TrailCount(s, IsSpace) == 0;
  }

  /** Appending to text that is not blank leaves it not blank. */
  lemma NotBlankAppend(s: string, x: string)
    requires !IsBlank(s)
    ensures !IsBlank(s + x)
  {
    StripFacts(s);
    var i :| 0 <= i < |s| && !IsSpace(s[i]);
    assert (s + x)[i] == s[i];
    StripFacts(s + x);
  }

  lemma StripNonBlank(s: string)
    requires |s| > 0 && !IsSpace(s[0])
    ensures Strip(s) != []
  {
  }

  predicate StartsWith(s: string, p: string) {
    |p| <= |s| && s[..|p|] == p
  }

  predicate EndsWith(s: string, p: string) {
    |p| <= |s| && s[|s| - |p|..] == p
  }

  /** `p` occurs in `s` starting at index `i`. */
  predicate OccursAt(s: string, p: string, i: nat) {
    i + |p| <= |s| && s[i..i + |p|] == p
  }

  /** `p in s` for strings. */
  predicate Contains(s: string, p: string) {
    exists i :: 0 <= i <= |s| && OccursAt(s, p, i)
  }

  /** `s.replace(c, t)` for a single character `c`. */
  function ReplaceChar(s: string, c: char, t: string): (r: string)
    ensures c !in t ==> c !in r
    ensures c !in s ==> r == s
  {
    if |s| == 0 then "" else (if s[0] == c then t else [s[0]]) + ReplaceChar(s[1..], c, t)
  }

  /** `s.replace(c, '')`. */
  function RemoveChar(s: string, c: char): (r: string)
    ensures forall x :: x in r <==> x in s && x != c
  {
    if |s| == 0 then "" else (if s[0] == c then "" else [s[0]]) + RemoveChar(s[1..], c)
  }

  /** Removing a character the text does not hold changes nothing. */
  lemma {:induction false} RemoveAbsentChar(s: string, c: char)
    requires c !in s
    ensures RemoveChar(s, c) == s
  {
    if |s| > 0 {
      assert c !in s[1..];
      RemoveAbsentChar(s[1..], c);
      assert s == [s[0]] + s[1..];
    }
  }

  predicate IsDigit(c: char) {
    '0' <= c <= '9'
  }

  /** `str.isdigit()`, for ASCII digits. */
  predicate IsDigits(s: string) {
    |s| > 0 && forall i :: 0 <= i < |s| ==> IsDigit(s[i])
  }

  function DigitChar(d: nat): (c: char)
    requires d < 10
    ensures IsDigit(c) && c as int - '0' as int == d
  {
    (d + '0' as int) as char
  }

  /** `str(n)` for a natural number. */
  function NatToStr(n: nat): (r: string)
    ensures 1 <= |r| && (n >= 10 <==> |r| >= 2)
    ensures IsDigits(r)
  {
    if n < 10 then [DigitChar(n)] else NatToStr(n / 10) + [DigitChar(n % 10)]
  }

  lemma {:induction false} NatToStrInjective(a: nat, b: nat)
    requires NatToStr(a) == NatToStr(b)
    ensures a == b
  {
    var s := NatToStr(a);
    if a >= 10 && b >= 10 {
      assert s[|s| - 1] == DigitChar(a % 10) == DigitChar(b % 10);
      assert NatToStr(a / 10) == s[..|s| - 1] == NatToStr(b / 10);
      NatToStrInjective(a / 10, b / 10);
    } else if a < 10 && b < 10 {
      assert s[0] == DigitChar(a) == DigitChar(b);
    }
  }

  /** The digits `s` starts with. */
  function LeadingDigits(s: string): (d: string)
    ensures |d| <= |s| && d == s[..|d|]
    ensures forall i :: 0 <= i < |d| ==> IsDigit(d[i])
  {
    s[..LeadCount(s, IsDigit)]
  }

  /** `int(s)` for a run of digits. */
  function DigitsValue(s: string): (n: nat)
    requires forall i :: 0 <= i < |s| ==> IsDigit(s[i])
  {
    if |s| == 0 then 0
    else
      assert IsDigit(s[|s| - 1]);
      10 * DigitsValue(s[..|s| - 1]) + (s[|s| - 1] as int - '0' as int)
  }

  /** Reading back what `str` wrote gives the number. */
  lemma {:induction false} DigitsValueOfNatToStr(n: nat)
    ensures DigitsValue(NatToStr(n)) == n
  {
    if n >= 10 {
      var s := NatToStr(n);
      assert s[..|s| - 1] == NatToStr(n / 10);
      DigitsValueOfNatToStr(n / 10);
    }
  }

  /** `str(i)` for an integer. */
  function IntToStr(i: int): (r: string)
    ensures |r| >= 1
    ensures i >= 0 ==> IsDigits(r)
    ensures i < 0 ==> r[0] == '-' && IsDigits(r[1..])
  {
    if i < 0 then "-" + NatToStr(-i) else NatToStr(i)
  }

  /** `s.split(sep)`: the pieces between occurrences of `sep`, keeping empty ones. */
  function Split(s: string, sep: char): (r: seq<string>)
    ensures |r| >= 1
    ensures forall i :: 0 <= i < |r| ==> sep !in r[i]
  {
    if |s| == 0 then [""]
    else
      var rest := Split(s[1..], sep);
      if s[0] == sep then [""] + rest else [[s[0]] + rest[0]] + rest[1..]
  }

  /** `sep.join(parts)`. */
  function Join(sep: string, parts: seq<string>): string {
    if |parts| == 0 then ""
    else if |parts| == 1 then parts[0]
    else parts[0] + sep + Join(sep, parts[1..])
  }

  /** Splitting and joining again gives back the text. */
  lemma {:induction false} JoinSplit(s: string, sep: char)
    ensures Join([sep], Split(s, sep)) == s
  {
    if |s| > 0 {
      var rest := Split(s[1..], sep);
      JoinSplit(s[1..], sep);
      if s[0] == sep {
        assert Split(s, sep) == [""] + rest;
        assert Join([sep], [""] + rest) == [sep] + Join([sep], rest);
        assert s == [s[0]] + s[1..];
      } else {
        var parts := Split(s, sep);
        assert parts == [[s[0]] + rest[0]] + rest[1..];
        if |rest| == 1 {
          assert Join([sep], parts) == [s[0]] + rest[0];
        } else {
          assert Join([sep], rest) == rest[0] + [sep] + Join([sep], rest[1..]);
          assert Join([sep], parts) == [s[0]] + rest[0] + [sep] + Join([sep], rest[1..]);
        }
        assert s == [s[0]] + s[1..];
      }
    }
  }

  /** A join of pieces whose first piece starts with a non-space character is not blank. */
  lemma JoinNotBlank(sep: string, parts: seq<string>)
    requires |parts| > 0 && |parts[0]| > 0 && !IsSpace(parts[0][0])
    ensures Strip(Join(sep, parts)) != []
  {
    var j := Join(sep, parts);
    if |parts| > 1 {
      assert j == parts[0] + sep + Join(sep, parts[1..]);
    }
    assert j[0] == parts[0][0];
    StripNonBlank(j);
  }
}
