/** The two email patterns of the dashboard.

    The auth pages test the anchored `/^[^\s@]+@[^\s@]+\.[^\s@]+$/`; the
    member form tests the unanchored `/\S+@\S+\.\S+/`. For each, a ghost
    predicate gives the language of the expression (how a match splits the
    string), a function scans for it, and a lemma proves the two agree. */
module EmailPatterns {
  import opened JsText

  // ---------------------------------------------------------------------
  // /^[^\s@]+@[^\s@]+\.[^\s@]+$/

  /** A character of the class `[^\s@]`. */
  predicate LocalChar(c: char) {
    !IsSpace(c) && c != '@'
  }

  predicate AllLocal(s: string) {
    forall i :: 0 <= i < |s| ==> LocalChar(s[i])
  }

  /** The whole of `s` matches with the `@` at `p` and the `\.` at `q`:
      three non-empty runs of `[^\s@]` around them. */
  ghost predicate AnchoredSplit(s: string, p: int, q: int) {
    0 < p && p + 1 < q && q + 1 < |s|
    && s[p] == '@' && s[q] == '.'
    && AllLocal(s[..p]) && AllLocal(s[p + 1..q]) && AllLocal(s[q + 1..])
  }

  ghost predicate AnchoredMatch(s: string) {
    exists p, q :: AnchoredSplit(s, p, q)
  }

  /** Index of the first `c` in `s`, or `|s|` when there is none. */
  function IndexOf(s: string, c: char): (k: nat)
    ensures k <= |s|
    ensures k < |s| ==> s[k] == c
    ensures forall i :: 0 <= i < k ==> s[i] != c
  {
    if s == [] then 0
    else if s[0] == c then 0
    else 1 + IndexOf(s[1..], c)
  }

  /** A `.` strictly inside `r`: neither its first nor its last character. */
  predicate InnerDot(r: string) {
    exists j :: 1 <= j < |r| - 1 && r[j] == '.'
  }

  /** `validateEmail`: find the one `@`, then check the runs around it. */
  function ValidateEmail(s: string): bool {
    var p := IndexOf(s, '@');
    0 < p < |s| && AllLocal(s[..p]) && AllLocal(s[p + 1..]) && InnerDot(s[p + 1..])
  }

  /** The scan accepts exactly the language of the anchored pattern. */
  lemma ValidateEmailSpec(s: string)
    ensures ValidateEmail(s) <==> AnchoredMatch(s)
  {
    var p := IndexOf(s, '@');
    if ValidateEmail(s) {
      var r := s[p + 1..];
      var j :| 1 <= j < |r| - 1 && r[j] == '.';
      var q := p + 1 + j;
      assert s[p + 1..q] == r[..j];
      assert s[q + 1..] == r[j + 1..];
      assert AnchoredSplit(s, p, q);
    }
    if AnchoredMatch(s) {
      var p', q :| AnchoredSplit(s, p', q);
      assert p' == p by {
        assert s[p'] == '@';
        forall i | 0 <= i < p' ensures s[i] != '@' {
          assert s[i] == s[..p'][i];
        }
      }
      var r := s[p + 1..];
      forall i | 0 <= i < |r| ensures LocalChar(r[i]) {
        var k := p + 1 + i;
        if k < q {
          assert r[i] == s[p + 1..q][i];
        } else if k > q {
          assert r[i] == s[q + 1..][k - q - 1];
        }
      }
      assert r[q - p - 1] == '.';
    }
  }

  /** The pattern in the terms the dashboard's users see: exactly one `@`,
      no whitespace, something before the `@`, and after it a `.` that is
      neither its first nor its last character. */
  lemma ValidateEmailShape(s: string)
    ensures ValidateEmail(s) <==>
      (exists p :: 0 < p < |s| && s[p] == '@'
         && (forall i :: 0 <= i < |s| && i != p ==> s[i] != '@')
         && NoSpace(s) && InnerDot(s[p + 1..]))
  {
    var p := IndexOf(s, '@');
    if ValidateEmail(s) {
      forall i | 0 <= i < |s| && i != p ensures s[i] != '@' && !IsSpace(s[i]) {
        if i < p { assert s[i] == s[..p][i]; } else { assert s[i] == s[p + 1..][i - p - 1]; }
      }
      assert !IsSpace(s[p]);
    }
    if exists p' :: 0 < p' < |s| && s[p'] == '@'
         && (forall i :: 0 <= i < |s| && i != p' ==> s[i] != '@')
         && NoSpace(s) && InnerDot(s[p' + 1..]) {
      var p' :| 0 < p' < |s| && s[p'] == '@'
         && (forall i :: 0 <= i < |s| && i != p' ==> s[i] != '@')
         && NoSpace(s) && InnerDot(s[p' + 1..]);
      assert p' == p;
      assert AllLocal(s[..p]);
      assert AllLocal(s[p + 1..]);
    }
  }

  // ---------------------------------------------------------------------
  // /\S+@\S+\.\S+/

  /** A match of the unanchored pattern occupies `s[i..e]`, with the `@` at
      `p` and the `\.` at `q`, and three non-empty runs of `\S`. */
  ghost predicate UnanchoredAt(s: string, i: int, p: int, q: int, e: int) {
    0 <= i < p && p + 1 < q && q + 1 < e <= |s|
    && s[p] == '@' && s[q] == '.'
    && NoSpace(s[i..p]) && NoSpace(s[p + 1..q]) && NoSpace(s[q + 1..e])
  }

  ghost predicate UnanchoredMatch(s: string) {
    exists i, p, q, e :: UnanchoredAt(s, i, p, q, e)
  }

  /** From `k` on, a run of `\S` reaches a `.` at `q` that a `\S` follows. */
  ghost predicate DotAhead(s: string, k: int, q: int) {
    0 <= k <= q && q + 1 < |s| && NoSpace(s[k..q]) && s[q] == '.' && !IsSpace(s[q + 1])
  }

  /** Scans the run of `\S` from `k` for a `.` followed by a `\S`. */
  function DotRun(s: string, k: nat): bool
    decreases |s| - k
  {
    if k + 1 >= |s| then false
    else if s[k] == '.' && !IsSpace(s[k + 1]) then true
    else if IsSpace(s[k]) then false
    else DotRun(s, k + 1)
  }

  ghost predicate DotFrom(s: string, k: int) {
    exists q :: DotAhead(s, k, q)
  }

  lemma {:induction false} DotRunSpec(s: string, k: nat)
    ensures DotRun(s, k) <==> DotFrom(s, k)
    decreases |s| - k
  {
    if k + 1 >= |s| {
    } else if s[k] == '.' && !IsSpace(s[k + 1]) {
      assert DotAhead(s, k, k);
    } else if IsSpace(s[k]) {
    } else {
      forall q | DotAhead(s, k, q) ensures q != k && DotAhead(s, k + 1, q) {
        assert s[k + 1..q] == s[k..q][1..];
      }
      DotRunSpec(s, k + 1);
      if DotRun(s, k + 1) {
        var q :| DotAhead(s, k + 1, q);
        assert s[k..q] == [s[k]] + s[k + 1..q];
        assert DotAhead(s, k, q);
      }
    }
  }

  /** The shortest match with its `@` at `p`: one `\S` on each side of the
      `@`, then a `\S` run to a `.` and one `\S` after it. */
  ghost predicate AtAhead(s: string, p: int) {
    1 <= p && p + 1 < |s| && s[p] == '@' && !IsSpace(s[p - 1]) && !IsSpace(s[p + 1])
    && DotFrom(s, p + 2)
  }

  /** Tries each `@` from `p` on, left to right, as a regular-expression
      engine does for an unanchored pattern. */
  function SearchFrom(s: string, p: nat): bool
    decreases |s| - p
  {
    if p + 1 >= |s| then false
    else if 1 <= p && s[p] == '@' && !IsSpace(s[p - 1]) && !IsSpace(s[p + 1]) && DotRun(s, p + 2) then true
    else SearchFrom(s, p + 1)
  }

  lemma {:induction false} SearchFromSpec(s: string, p: nat)
    ensures SearchFrom(s, p) <==> exists p' :: p <= p' && AtAhead(s, p')
    decreases |s| - p
  {
    if p + 1 >= |s| {
    } else {
      DotRunSpec(s, p + 2);
      SearchFromSpec(s, p + 1);
      if 1 <= p && s[p] == '@' && !IsSpace(s[p - 1]) && !IsSpace(s[p + 1]) && DotRun(s, p + 2) {
        assert AtAhead(s, p);
      } else {
        forall p' | p <= p' && AtAhead(s, p') ensures p + 1 <= p' {
          if p' == p { DotRunSpec(s, p + 2); }
        }
      }
    }
  }

  /** The test `/\S+@\S+\.\S+/.test(value)`. */
  function MemberEmailValid(s: string): bool {
    SearchFrom(s, 0)
  }

  /** A match anywhere can be shrunk to the shortest match at its `@`. */
  lemma ShrinkMatch(s: string, i: int, p: int, q: int, e: int)
    requires UnanchoredAt(s, i, p, q, e)
    ensures AtAhead(s, p)
  {
    assert s[p - 1] == s[i..p][p - 1 - i];
    assert s[p + 1] == s[p + 1..q][0];
    assert s[q + 1] == s[q + 1..e][0];
    assert s[p + 2..q] == s[p + 1..q][1..];
    assert DotAhead(s, p + 2, q);
  }

  /** The shortest match at an `@` is a match. */
  lemma ShortestIsMatch(s: string, p: int, q: int)
    requires AtAhead(s, p) && DotAhead(s, p + 2, q)
    ensures UnanchoredAt(s, p - 1, p, q, q + 2)
  {
    assert s[p + 1..q] == [s[p + 1]] + s[p + 2..q];
    assert s[p - 1..p] == [s[p - 1]];
    assert s[q + 1..q + 2] == [s[q + 1]];
  }

  /** The scan accepts exactly the strings that contain a match of the
      pattern. */
  lemma MemberEmailValidSpec(s: string)
    ensures MemberEmailValid(s) <==> UnanchoredMatch(s)
  {
    SearchFromSpec(s, 0);
    if UnanchoredMatch(s) {
      var i, p, q, e :| UnanchoredAt(s, i, p, q, e);
      ShrinkMatch(s, i, p, q, e);
    }
    if MemberEmailValid(s) {
      var p :| 0 <= p && AtAhead(s, p);
      var q :| DotAhead(s, p + 2, q);
      ShortestIsMatch(s, p, q);
    }
  }

  /** Every address the auth pages accept is accepted by the member form,
      but not the other way round: "a b@c.d" passes only the member form. */
  lemma AnchoredImpliesUnanchored(s: string)
    requires ValidateEmail(s)
    ensures MemberEmailValid(s)
  {
    ValidateEmailSpec(s);
    MemberEmailValidSpec(s);
    var p, q :| AnchoredSplit(s, p, q);
    forall a, b | 0 <= a <= b <= |s| && AllLocal(s[a..b]) ensures NoSpace(s[a..b]) {
      assert forall k :: 0 <= k < b - a ==> LocalChar(s[a..b][k]);
    }
    assert s[0..p] == s[..p];
    assert s[q + 1..|s|] == s[q + 1..];
    assert UnanchoredAt(s, 0, p, q, |s|);
  }

  lemma MemberFormAcceptsMore()
    ensures MemberEmailValid("a b@c.d") && !ValidateEmail("a b@c.d")
  {
    var s := "a b@c.d";
    MemberEmailValidSpec(s);
    assert s[2..3] == "b" && s[4..5] == "c" && s[6..7] == "d";
    assert UnanchoredAt(s, 2, 3, 5, 7);
    assert s[..3] == "a b";
    assert !AllLocal(s[..3]) by { assert s[..3][1] == ' '; }
  }
}
