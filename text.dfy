/**
 * The string operations the web application relies on: lower- and
 * upper-casing, `String.prototype.includes`, and the regular-expression
 * replacement `s.replace(/\s+/g, '-')`.
 *
 * Case mapping is modelled on ASCII letters only; every other character is
 * left as it is.
 */
module Text {

  predicate IsAsciiUpper(c: char) { 'A' <= c <= 'Z' }

  predicate IsAsciiLower(c: char) { 'a' <= c <= 'z' }

  function LowerChar(c: char): (r: char)
    ensures !IsAsciiUpper(r)
    ensures !IsAsciiUpper(c) ==> r == c
    ensures IsAsciiUpper(c) ==> IsAsciiLower(r) && r as int == c as int + 32
  {
    if IsAsciiUpper(c) then (c as int + 32) as char else c
  }

  function UpperChar(c: char): (r: char)
    ensures !IsAsciiLower(r)
    ensures !IsAsciiLower(c) ==> r == c
    ensures IsAsciiLower(c) ==> IsAsciiUpper(r) && r as int == c as int - 32
  {
    if IsAsciiLower(c) then (c as int - 32) as char else c
  }

  /** `s.toLowerCase()` */
  function Lower(s: string): (r: string)
    ensures |r| == |s|
    ensures forall i :: 0 <= i < |r| ==> !IsAsciiUpper(r[i])
    ensures forall i :: 0 <= i < |r| ==> IsAsciiUpper(s[i]) || r[i] == s[i]
    ensures forall i :: 0 <= i < |r| && IsAsciiUpper(s[i]) ==> r[i] as int == s[i] as int + 32
  {
    seq(|s|, i requires 0 <= i < |s| => LowerChar(s[i]))
  }

  /** `s.toUpperCase()` */
  function Upper(s: string): (r: string)
    ensures |r| == |s|
    ensures forall i :: 0 <= i < |r| ==> !IsAsciiLower(r[i])
    ensures forall i :: 0 <= i < |r| ==> IsAsciiLower(s[i]) || r[i] == s[i]
    ensures forall i :: 0 <= i < |r| && IsAsciiLower(s[i]) ==> r[i] as int == s[i] as int - 32
  {
    seq(|s|, i requires 0 <= i < |s| => UpperChar(s[i]))
  }

  /** `c` and `d` are the same character, or the same ASCII letter in its two cases. */
  predicate SameIgnoringAsciiCase(c: char, d: char) {
    || c == d
    || (IsAsciiUpper(c) && d as int == c as int + 32)
    || (IsAsciiUpper(d) && c as int == d as int + 32)
  }

  /** The reference reading of a case-insensitive comparison, character by character. */
  predicate EqualIgnoringAsciiCase(a: string, b: string) {
    |a| == |b| && forall i :: 0 <= i < |a| ==> SameIgnoringAsciiCase(a[i], b[i])
  }

  /** Two strings lower-case to the same text exactly when they are equal up to ASCII case. */
  lemma LowerEqualIff(a: string, b: string)
    ensures Lower(a) == Lower(b) <==> EqualIgnoringAsciiCase(a, b)
  {
    if Lower(a) == Lower(b) {
      forall i | 0 <= i < |a| ensures SameIgnoringAsciiCase(a[i], b[i]) {
        assert LowerChar(a[i]) == Lower(a)[i] == Lower(b)[i] == LowerChar(b[i]);
      }
    }
    if EqualIgnoringAsciiCase(a, b) {
      assert forall i :: 0 <= i < |a| ==> Lower(a)[i] == Lower(b)[i];
    }
  }

  /** Two strings upper-case to the same text exactly when they are equal up to ASCII case. */
  lemma UpperEqualIff(a: string, b: string)
    ensures Upper(a) == Upper(b) <==> EqualIgnoringAsciiCase(a, b)
  {
    if Upper(a) == Upper(b) {
      forall i | 0 <= i < |a| ensures SameIgnoringAsciiCase(a[i], b[i]) {
        assert UpperChar(a[i]) == Upper(a)[i] == Upper(b)[i] == UpperChar(b[i]);
      }
    }
    if EqualIgnoringAsciiCase(a, b) {
      assert forall i :: 0 <= i < |a| ==> Upper(a)[i] == Upper(b)[i];
    }
  }

  /** The characters matched by `\s` in an ECMAScript regular expression. */
  predicate IsWhitespace(c: char) {
    || c == '\t' || c == '\n' || c == '\U{000B}' || c == '\U{000C}' || c == '\r'
    || c == ' ' || c == '\U{00A0}' || c == '\U{1680}'
    || ('\U{2000}' <= c <= '\U{200A}')
    || c == '\U{2028}' || c == '\U{2029}' || c == '\U{202F}' || c == '\U{205F}'
    || c == '\U{3000}' || c == '\U{FEFF}'
  }

  predicate NoWhitespace(s: string) {
    forall i :: 0 <= i < |s| ==> !IsWhitespace(s[i])
  }

  predicate AllWhitespace(s: string) {
    forall i :: 0 <= i < |s| ==> IsWhitespace(s[i])
  }

  /** `t` occurs in `s` starting at index `i`. */
  predicate OccursAt(s: string, t: string, i: nat) {
    i + |t| <= |s| && s[i..i + |t|] == t
  }

  /** `s.includes(t)`: the empty string is included in every string. */
  function Contains(s: string, t: string): (b: bool)
    ensures b <==> exists i: nat :: i <= |s| && OccursAt(s, t, i)
    decreases |s|
  {
    if |t| > |s| then false
    else if s[..|t|] == t then
      assert OccursAt(s, t, 0);
      true
    else
      var rest := Contains(s[1..], t);
      if rest then
        var i: nat :| i <= |s[1..]| && OccursAt(s[1..], t, i);
        assert s[1..][i..i + |t|] == s[i + 1..i + 1 + |t|];
        assert OccursAt(s, t, i + 1);
        true
      else
        assert forall i: nat :: 1 <= i <= |s| && OccursAt(s, t, i) ==> OccursAt(s[1..], t, i - 1) by {
          forall i: nat | 1 <= i <= |s| && OccursAt(s, t, i) ensures OccursAt(s[1..], t, i - 1) {
            assert s[1..][i - 1..i - 1 + |t|] == s[i..i + |t|];
          }
        }
        false
  }

  /** `s.replace(/\s+/g, '-')`: every maximal run of whitespace becomes one hyphen. */
  function HyphenateWhitespace(s: string): (r: string)
    ensures NoWhitespace(r)
    ensures NoWhitespace(s) ==> r == s
    ensures |r| <= |s|
  {
    CollapseRuns(s, false)
  }

  /**
   * Scans `s`; `inRun` says that the character before `s` was whitespace,
   * so a whitespace character here continues a run already replaced.
   */
  function CollapseRuns(s: string, inRun: bool): (r: string)
    ensures NoWhitespace(r)
    ensures NoWhitespace(s) ==> r == s
    ensures |r| <= |s|
  {
    if s == [] then []
    else if IsWhitespace(s[0]) then
      (if inRun then "" else "-") + CollapseRuns(s[1..], true)
    else
      [s[0]] + CollapseRuns(s[1..], false)
  }

  /** Text without whitespace passes through the scan unchanged. */
  lemma {:induction false} CollapseKeepsPlainPrefix(a: string, rest: string)
    requires NoWhitespace(a)
    ensures CollapseRuns(a + rest, false) == a + CollapseRuns(rest, false)
  {
    if a == [] {
      assert a + rest == rest;
    } else {
      var s, c, a' := a + rest, a[0], a[1..];
      assert s[0] == c && !IsWhitespace(c);
      assert s[1..] == a' + rest;
      assert NoWhitespace(a') by {
        forall i | 0 <= i < |a'| ensures !IsWhitespace(a'[i]) {
          assert a'[i] == a[i + 1];
        }
      }
      calc {
        CollapseRuns(s, false);
        [c] + CollapseRuns(a' + rest, false);
        { CollapseKeepsPlainPrefix(a', rest); }
        [c] + (a' + CollapseRuns(rest, false));
        { assert [c] + a' == a; }
        a + CollapseRuns(rest, false);
      }
    }
  }

  /** Inside a run, further whitespace adds nothing. */
  lemma {:induction false} CollapseSkipsRun(w: string, rest: string)
    requires AllWhitespace(w)
    ensures CollapseRuns(w + rest, true) == CollapseRuns(rest, true)
  {
    if w != [] {
      assert (w + rest)[1..] == w[1..] + rest;
      CollapseSkipsRun(w[1..], rest);
    } else {
      assert w + rest == rest;
    }
  }

  /**
   * A maximal run of whitespace, however long, becomes exactly one `-`, and
   * the text before it is kept as it is: together with the identity on text
   * without whitespace this determines the replacement on every string.
   */
  lemma HyphenateRun(a: string, w: string, b: string)
    requires NoWhitespace(a)
    requires w != [] && AllWhitespace(w)
    requires b == [] || !IsWhitespace(b[0])
    ensures HyphenateWhitespace(a + w + b) == a + "-" + HyphenateWhitespace(b)
  {
    assert a + w + b == a + (w + b);
    CollapseKeepsPlainPrefix(a, w + b);
    assert (w + b)[1..] == w[1..] + b;
    CollapseSkipsRun(w[1..], b);
  }
}
