/** The JavaScript string built-ins the validators and dropdowns rely on:
    the `\s` character class, `trim()`, `toLowerCase()`/`toUpperCase()`,
    `includes()`, `charAt(0)`/`slice(1)` and the decimal rendering of a
    number inside a template literal. */
module JsText {

  /** ECMAScript WhiteSpace and LineTerminator code points: exactly what the
      regular-expression class `\s` matches and what `trim()` removes. */
  predicate IsSpace(c: char) {
    c in Whitespace
  }

  const Whitespace: set<char> := {
    '\t', '\n', '\U{000B}', '\U{000C}', '\r', ' ', '\U{00A0}', '\U{1680}',
    '\U{2000}', '\U{2001}', '\U{2002}', '\U{2003}', '\U{2004}', '\U{2005}',
    '\U{2006}', '\U{2007}', '\U{2008}', '\U{2009}', '\U{200A}',
    '\U{2028}', '\U{2029}', '\U{202F}', '\U{205F}', '\U{3000}', '\U{FEFF}'
  }

  /** Every character is matched by `\S`. */
  predicate NoSpace(s: string) {
    forall i :: 0 <= i < |s| ==> !IsSpace(s[i])
  }

  /** Every character is matched by `\s` (the empty string included). */
  predicate AllSpace(s: string) {
    forall i :: 0 <= i < |s| ==> IsSpace(s[i])
  }

  /** The index of the first non-whitespace character at or after `i`
      (`|s|` if there is none). */
  function SpacesFrom(s: string, i: nat): (n: nat)
    requires i <= |s|
    ensures i <= n <= |s|
    decreases |s| - i
  {
    if i < |s| && IsSpace(s[i]) then SpacesFrom(s, i + 1) else i
  }

  lemma {:induction false} SpacesFromSpec(s: string, i: nat)
    requires i <= |s|
    ensures forall k :: i <= k < SpacesFrom(s, i) ==> IsSpace(s[k])
    ensures SpacesFrom(s, i) == |s| || !IsSpace(s[SpacesFrom(s, i)])
    decreases |s| - i
  {
    if i < |s| && IsSpace(s[i]) {
      SpacesFromSpec(s, i + 1);
    }
  }

  /** The index just past the last non-whitespace character before `j`
      (`0` if there is none). */
  function SpacesBefore(s: string, j: nat): (n: nat)
    requires j <= |s|
    ensures n <= j
  {
    if j > 0 && IsSpace(s[j - 1]) then SpacesBefore(s, j - 1) else j
  }

  lemma {:induction false} SpacesBeforeSpec(s: string, j: nat)
    requires j <= |s|
    ensures forall k :: SpacesBefore(s, j) <= k < j ==> IsSpace(s[k])
    ensures SpacesBefore(s, j) == 0 || !IsSpace(s[SpacesBefore(s, j) - 1])
  {
    if j > 0 && IsSpace(s[j - 1]) {
      SpacesBeforeSpec(s, j - 1);
    }
  }

  /** `trimStart()`: drops the leading whitespace. */
  function TrimStart(s: string): string {
    s[SpacesFrom(s, 0)..]
  }

  /** What `trimStart()` keeps is a suffix of `s`, what it drops is all
      whitespace, and what it keeps does not start with whitespace. */
  lemma TrimStartSpec(s: string)
    ensures |TrimStart(s)| <= |s| && TrimStart(s) == s[|s| - |TrimStart(s)|..]
    ensures AllSpace(s[..|s| - |TrimStart(s)|])
    ensures TrimStart(s) == [] || !IsSpace(TrimStart(s)[0])
  {
    SpacesFromSpec(s, 0);
    var n := SpacesFrom(s, 0);
    assert forall k :: 0 <= k < n ==> s[..n][k] == s[k];
  }

  /** `trimEnd()`: drops the trailing whitespace. */
  function TrimEnd(s: string): string {
    s[..SpacesBefore(s, |s|)]
  }

  /** What `trimEnd()` keeps is a prefix of `s`, what it drops is all
      whitespace, and what it keeps does not end with whitespace. */
  lemma TrimEndSpec(s: string)
    ensures |TrimEnd(s)| <= |s| && TrimEnd(s) == s[..|TrimEnd(s)|]
    ensures AllSpace(s[|TrimEnd(s)|..])
    ensures TrimEnd(s) == [] || !IsSpace(TrimEnd(s)[|TrimEnd(s)| - 1])
  {
    SpacesBeforeSpec(s, |s|);
    var n := SpacesBefore(s, |s|);
    assert forall k :: 0 <= k < |s| - n ==> s[n..][k] == s[n + k];
  }

  /** `trim()`: removes the whitespace at both ends. */
  function Trim(s: string): string {
    TrimEnd(TrimStart(s))
  }

  /** What `trim()` leaves is empty exactly when `s` is all whitespace. */
  lemma TrimEmpty(s: string)
    ensures Trim(s) == [] <==> AllSpace(s)
  {
    var t := TrimStart(s);
    TrimStartSpec(s);
    TrimEndSpec(t);
    if Trim(s) == [] {
      assert t == t[|Trim(s)|..];
      assert s == s[..|s| - |t|] + t;
    }
  }

  /** `r` is the slice of `s` at `i`, with only whitespace before and after it. */
  ghost predicate SliceBetweenSpaces(s: string, r: string, i: int) {
    0 <= i && i + |r| <= |s| && s[i..i + |r|] == r
    && AllSpace(s[..i]) && AllSpace(s[i + |r|..])
  }

  /** What `trim()` leaves has no whitespace at either end, and is the slice
      of `s` that lies between a whitespace prefix and a whitespace suffix. */
  lemma TrimSlice(s: string)
    ensures Trim(s) == [] || (!IsSpace(Trim(s)[0]) && !IsSpace(Trim(s)[|Trim(s)| - 1]))
    ensures exists i :: SliceBetweenSpaces(s, Trim(s), i)
  {
    var t := TrimStart(s);
    var r := TrimEnd(t);
    TrimStartSpec(s);
    TrimEndSpec(t);
    var i := |s| - |t|;
    assert s[i..i + |r|] == t[..|r|] == r;
    assert s[i + |r|..] == t[|r|..];
    assert SliceBetweenSpaces(s, r, i);
  }

  /** A string without whitespace at its ends is its own trim. */
  lemma TrimUnchanged(s: string)
    requires s == [] || (!IsSpace(s[0]) && !IsSpace(s[|s| - 1]))
    ensures Trim(s) == s
  {
  }

  /** The ASCII part of `toLowerCase()` on one character. */
  function ToLowerChar(c: char): char {
    if 'A' <= c <= 'Z' then (c as int + 32) as char else c
  }

  /** The ASCII part of `toUpperCase()` on one character. */
  function ToUpperChar(c: char): char {
    if 'a' <= c <= 'z' then (c as int - 32) as char else c
  }

  /** `toLowerCase()`, character by character. */
  function ToLower(s: string): (r: string)
    ensures |r| == |s|
    ensures forall i :: 0 <= i < |s| ==> r[i] == ToLowerChar(s[i])
  {
    seq(|s|, i requires 0 <= i < |s| => ToLowerChar(s[i]))
  }

  /** `name.charAt(0).toUpperCase() + name.slice(1)`: the first character
      upper-cased, the rest unchanged, and "" for the empty name. */
  function Capitalize(name: string): (r: string)
    ensures |r| == |name|
    ensures name != [] ==> r[0] == ToUpperChar(name[0]) && r[1..] == name[1..]
  {
    if name == [] then [] else [ToUpperChar(name[0])] + name[1..]
  }

  /** `sub` occurs in `s` starting at index `i`. */
  ghost predicate OccursAt(s: string, sub: string, i: int) {
    0 <= i && i + |sub| <= |s| && s[i..i + |sub|] == sub
  }

  /** `s.includes(sub)`, searched left to right. */
  function Includes(s: string, sub: string): bool
    decreases |s|
  {
    if |sub| > |s| then false
    else if s[..|sub|] == sub then true
    else Includes(s[1..], sub)
  }

  /** The search answers true exactly when `sub` occurs somewhere in `s`. */
  lemma {:induction false} IncludesSpec(s: string, sub: string)
    ensures Includes(s, sub) <==> exists i :: OccursAt(s, sub, i)
    decreases |s|
  {
    if |sub| > |s| {
    } else if s[..|sub|] == sub {
      assert OccursAt(s, sub, 0);
    } else {
      forall i | OccursAt(s, sub, i) ensures i != 0 && OccursAt(s[1..], sub, i - 1) {
        assert s[1..][i - 1..i - 1 + |sub|] == s[i..i + |sub|];
      }
      IncludesSpec(s[1..], sub);
      if Includes(s[1..], sub) {
        var j :| OccursAt(s[1..], sub, j);
        assert s[j + 1..j + 1 + |sub|] == s[1..][j..j + |sub|];
        assert OccursAt(s, sub, j + 1);
      }
    }
  }

  /** The empty string is included in every string. */
  lemma IncludesEmpty(s: string)
    ensures Includes(s, "")
  {
    IncludesSpec(s, "");
    assert OccursAt(s, "", 0);
  }

  /** `text.toLowerCase().includes(query.toLowerCase())`, the search the
      dropdowns run over their option labels. */
  function MatchesQuery(text: string, query: string): bool {
    Includes(ToLower(text), ToLower(query))
  }

  /** A label matches exactly when the lower-cased query occurs somewhere in
      the lower-cased label; the empty query matches every label. */
  lemma MatchesQuerySpec(text: string, query: string)
    ensures MatchesQuery(text, query) <==> exists i :: OccursAt(ToLower(text), ToLower(query), i)
    ensures query == "" ==> MatchesQuery(text, query)
  {
    IncludesSpec(ToLower(text), ToLower(query));
    if query == "" {
      IncludesEmpty(ToLower(text));
    }
  }

  /** A character matched by `\d`. */
  predicate IsDigit(c: char) {
    '0' <= c <= '9'
  }

  /** Every character is matched by `\d` (the empty string included). */
  predicate AllDigits(s: string) {
    forall i :: 0 <= i < |s| ==> IsDigit(s[i])
  }

  function DigitChar(d: nat): (c: char)
    requires d < 10
    ensures IsDigit(c)
  {
    ('0' as int + d) as char
  }

  function DigitValue(c: char): (d: nat)
    requires IsDigit(c)
    ensures d < 10
  {
    c as int - '0' as int
  }

  /** The value of a string of decimal digits, most significant first. */
  function DecimalValue(s: string): nat
    requires AllDigits(s)
  {
    if s == [] then 0 else DecimalValue(s[..|s| - 1]) * 10 + DigitValue(s[|s| - 1])
  }

  /** A non-negative integer in a template literal: its shortest decimal
      rendering, without sign and without leading zeros. */
  function NatToDecimal(n: nat): (r: string)
    ensures |r| > 0 && AllDigits(r)
    ensures (r[0] == '0') ==> n == 0
  {
    if n < 10 then [DigitChar(n)] else NatToDecimal(n / 10) + [DigitChar(n % 10)]
  }

  /** Reading the rendering back gives the number: the rendering is
      injective, so distinct timestamps give distinct strings. */
  lemma {:induction false} DecimalRoundTrip(n: nat)
    ensures DecimalValue(NatToDecimal(n)) == n
  {
    if n >= 10 {
      var r := NatToDecimal(n);
      assert r[..|r| - 1] == NatToDecimal(n / 10);
      DecimalRoundTrip(n / 10);
    }
  }
}
