/** The pieces of JavaScript string and number semantics the bot relies on:
    the `\s` character class, `String.prototype.trim`, `toLowerCase`,
    `includes`, `Number(string)` and the decimal rendering of array indices. */
module JsText {

  datatype Option<+T> = None | Some(value: T) {
    function GetOr(default: T): T {
      match this
      case Some(v) => v
      case None => default
    }
  }

  /** LineTerminator of ECMAScript: the characters `.` in a regular expression
      does not match without the `s` flag. */
  predicate IsLineTerminator(c: char) {
    c == '\n' || c == '\r' || c == '\U{2028}' || c == '\U{2029}'
  }

  /** WhiteSpace plus LineTerminator: the set matched by `\s` and removed by `trim`. */
  predicate IsSpace(c: char) {
    || IsLineTerminator(c)
    || c == ' ' || c == '\t' || c == '\U{000B}' || c == '\U{000C}'
    || c == '\U{00A0}' || c == '\U{FEFF}' || c == '\U{1680}'
    || ('\U{2000}' <= c <= '\U{200A}')
    || c == '\U{202F}' || c == '\U{205F}' || c == '\U{3000}'
  }

  /** Number of whitespace characters at the front of `s`. */
  function LeadingSpaces(s: string): (k: nat)
    ensures k <= |s|
    ensures forall m :: 0 <= m < k ==> IsSpace(s[m])
    ensures k == |s| || !IsSpace(s[k])
  {
    if |s| > 0 && IsSpace(s[0]) then 1 + LeadingSpaces(s[1..]) else 0
  }

  /** Number of whitespace characters at the end of `s`. */
  function TrailingSpaces(s: string): (k: nat)
    ensures k <= |s|
    ensures forall m :: |s| - k <= m < |s| ==> IsSpace(s[m])
    ensures k == |s| || !IsSpace(s[|s| - 1 - k])
  {
    if |s| > 0 && IsSpace(s[|s| - 1]) then 1 + TrailingSpaces(s[..|s| - 1]) else 0
  }

  /** `s.trim()`: the longest infix of `s` that neither starts nor ends with whitespace,
      obtained by removing only whitespace. */
  function Trim(s: string): (r: string)
    ensures LeadingSpaces(s) + |r| <= |s|
    ensures r == s[LeadingSpaces(s)..LeadingSpaces(s) + |r|]
    ensures r == [] || (!IsSpace(r[0]) && !IsSpace(r[|r| - 1]))
    ensures forall m :: 0 <= m < LeadingSpaces(s) ==> IsSpace(s[m])
    ensures forall m :: LeadingSpaces(s) + |r| <= m < |s| ==> IsSpace(s[m])
  {
    var k := LeadingSpaces(s);
    var rest := s[k..];
    var t := TrailingSpaces(rest);
    assert forall m :: k + |rest| - t <= m < |s| ==> s[m] == rest[m - k];
    rest[..|rest| - t]
  }

  lemma {:induction false} TrimNoSpace(s: string)
    requires forall m :: 0 <= m < |s| ==> !IsSpace(s[m])
    ensures Trim(s) == s
  {
    var k := LeadingSpaces(s);
    assert k == 0;
    if |s| > 0 {
      assert TrailingSpaces(s) == 0;
    }
  }

  /** `toLowerCase` on the ASCII letters; every other character is kept. */
  function LowerChar(c: char): (d: char)
    ensures 'A' <= c <= 'Z' ==> 'a' <= d <= 'z'
    ensures !('A' <= c <= 'Z') ==> d == c
  {
    if 'A' <= c <= 'Z' then (c as int + 32) as char else c
  }

  function Lower(s: string): (r: string)
    ensures |r| == |s|
    ensures forall i :: 0 <= i < |s| ==> r[i] == LowerChar(s[i])
  {
    seq(|s|, i requires 0 <= i < |s| => LowerChar(s[i]))
  }

  /** `needle` occurs in `hay` starting at index `i`. */
  predicate OccursAt(hay: string, needle: string, i: int) {
    0 <= i && i + |needle| <= |hay| && hay[i..i + |needle|] == needle
  }

  /** `hay.includes(needle)`. */
  predicate Includes(hay: string, needle: string) {
    exists i | 0 <= i <= |hay| :: OccursAt(hay, needle, i)
  }

  /** A needle found in a part of a text is found in the whole text. */
  lemma {:induction false} IncludesInfix(pre: string, mid: string, post: string, needle: string)
    requires Includes(mid, needle)
    ensures Includes(pre + mid + post, needle)
  {
    var i :| 0 <= i <= |mid| && OccursAt(mid, needle, i);
    var hay := pre + mid + post;
    var j := |pre| + i;
    assert hay[j..j + |needle|] == mid[i..i + |needle|];
    assert OccursAt(hay, needle, j);
  }

  /** For a one-character needle, `includes` is plain membership. */
  lemma IncludesChar(hay: string, c: char)
    ensures Includes(hay, [c]) <==> c in hay
  {
    if c in hay {
      var i :| 0 <= i < |hay| && hay[i] == c;
      assert hay[i..i + 1] == [c];
      assert OccursAt(hay, [c], i);
    }
    if Includes(hay, [c]) {
      var i :| 0 <= i <= |hay| && OccursAt(hay, [c], i);
      assert hay[i..i + 1][0] == c;
    }
  }

  /** A comment lower-cased contains a lower-case letter exactly when the comment
      contains that letter in either case. */
  lemma {:induction false} LowerIncludesLetter(s: string, c: char)
    requires 'a' <= c <= 'z'
    ensures Includes(Lower(s), [c]) <==> (c in s || (c as int - 32) as char in s)
  {
    IncludesChar(Lower(s), c);
    var up := (c as int - 32) as char;
    if c in Lower(s) {
      var i :| 0 <= i < |s| && Lower(s)[i] == c;
      assert s[i] == c || s[i] == up;
    }
    if c in s {
      var i :| 0 <= i < |s| && s[i] == c;
      assert Lower(s)[i] == c;
    }
    if up in s {
      var i :| 0 <= i < |s| && s[i] == up;
      assert Lower(s)[i] == c;
    }
  }

  predicate IsDigit(c: char) { '0' <= c <= '9' }

  function DigitValue(c: char): nat
    requires IsDigit(c)
  {
    c as int - '0' as int
  }

  function DigitChar(d: nat): (c: char)
    requires d < 10
    ensures IsDigit(c) && DigitValue(c) == d
  {
    ('0' as int + d) as char
  }

  predicate AllDigits(s: string) {
    forall m :: 0 <= m < |s| ==> IsDigit(s[m])
  }

  /** The value of a string of decimal digits. */
  function DigitsValue(s: string): nat
    requires AllDigits(s)
  {
    if s == [] then 0 else 10 * DigitsValue(s[..|s| - 1]) + DigitValue(s[|s| - 1])
  }

  /** `String(n)` for a natural number: how `for...in` names the indices of a string. */
  function DecimalString(n: nat): (s: string)
    ensures |s| > 0 && AllDigits(s)
  {
    if n < 10 then [DigitChar(n)] else DecimalString(n / 10) + [DigitChar(n % 10)]
  }

  /** `Number(s)` on the inputs the bot compares with counts and issue numbers:
      surrounding whitespace is ignored, the empty string is 0, a run of decimal
      digits is its value, anything else is NaN (None). */
  function JsNumber(s: string): (r: Option<nat>)
    ensures AllDigits(Trim(s)) <==> r.Some?
    ensures r.Some? ==> r.value == DigitsValue(Trim(s))
    ensures (forall m | 0 <= m < |s| :: IsSpace(s[m])) ==> r == Some(0)
  {
    var t := Trim(s);
    if AllDigits(t) then Some(DigitsValue(t)) else None
  }

  /** `Number(String(n)) == n`: reading back the decimal rendering gives the number. */
  lemma {:induction false} DecimalRoundTrip(n: nat)
    ensures DigitsValue(DecimalString(n)) == n
    ensures JsNumber(DecimalString(n)) == Some(n)
  {
    var s := DecimalString(n);
    if n >= 10 {
      DecimalRoundTrip(n / 10);
      assert s[..|s| - 1] == DecimalString(n / 10);
    }
    forall m | 0 <= m < |s| ensures !IsSpace(s[m]) {
      assert IsDigit(s[m]);
    }
    TrimNoSpace(s);
  }

  /** Whitespace in front of a text that starts with a non-space is exactly what
      LeadingSpaces counts. */
  lemma {:induction false} LeadingOf(a: string, t: string)
    requires forall m :: 0 <= m < |a| ==> IsSpace(a[m])
    requires t != [] && !IsSpace(t[0])
    ensures LeadingSpaces(a + t) == |a|
  {
    if a != [] {
      assert (a + t)[1..] == a[1..] + t;
      LeadingOf(a[1..], t);
    }
  }

  /** Whitespace after a text that ends with a non-space is exactly what
      TrailingSpaces counts. */
  lemma {:induction false} TrailingOf(t: string, b: string)
    requires forall m :: 0 <= m < |b| ==> IsSpace(b[m])
    requires t != [] && !IsSpace(t[|t| - 1])
    ensures TrailingSpaces(t + b) == |b|
  {
    if b != [] {
      assert (t + b)[..|t + b| - 1] == t + b[..|b| - 1];
      TrailingOf(t, b[..|b| - 1]);
    }
  }

  /** Whitespace around a number does not change what `Number` reads. */
  lemma {:induction false} PaddedNumber(a: string, n: nat, b: string)
    requires forall m :: 0 <= m < |a| ==> IsSpace(a[m])
    requires forall m :: 0 <= m < |b| ==> IsSpace(b[m])
    ensures JsNumber(a + DecimalString(n) + b) == Some(n)
  {
    var s := DecimalString(n);
    var p := a + s + b;
    assert p == a + (s + b);
    LeadingOf(a, s + b);
    var rest := p[|a|..];
    assert rest == s + b;
    TrailingOf(s, b);
    assert rest[..|rest| - |b|] == s;
    assert Trim(p) == s;
    DecimalRoundTrip(n);
  }
}
