/**
 * What a match card derives from its match: the team initials shown in the
 * badges, whether the match is live, finished or upcoming, and the slug of
 * the match page it links to.
 */
module MatchCard {
  import opened Wrappers
  import opened Text
  import opened Records

  // ---------------------------------------------------------------------
  // Initials
  // ---------------------------------------------------------------------

  /** `s.split(' ')`: the pieces between single spaces, empty ones included. */
  function Words(s: string): (words: seq<string>)
    ensures |words| >= 1
    ensures forall k :: 0 <= k < |words| ==> ' ' !in words[k]
  {
    if s == [] then [""]
    else if s[0] == ' ' then [""] + Words(s[1..])
    else
      var rest := Words(s[1..]);
      [[s[0]] + rest[0]] + rest[1..]
  }

  /** `words.join(' ')` */
  function Join(words: seq<string>): string
    requires |words| >= 1
  {
    if |words| == 1 then words[0] else words[0] + " " + Join(words[1..])
  }

  /** Joining the pieces with single spaces gives back the string. */
  lemma {:induction false} JoinWords(s: string)
    ensures Join(Words(s)) == s
  {
    if s != [] {
      JoinWords(s[1..]);
      var rest := Words(s[1..]);
      if s[0] != ' ' && |rest| > 1 {
        assert Words(s)[1..] == rest[1..];
      }
    }
  }

  /** `n[0]` joined by `join('')`: the first character, or nothing for an empty word. */
  function Head(word: string): string {
    if word == [] then [] else [word[0]]
  }

  /** `words.map(n => n[0]).join('')` */
  function Heads(words: seq<string>): string {
    if words == [] then [] else Head(words[0]) + Heads(words[1..])
  }

  /**
   * The reference reading: the characters of `s` that begin a word, that is,
   * that are not a space and follow a space or the start of the string
   * (`atStart` says whether the previous character was a space).
   */
  function WordStarts(s: string, atStart: bool): (r: string)
    ensures |r| <= |s|
    ensures forall k :: 0 <= k < |r| ==> r[k] != ' '
  {
    if s == [] then []
    else if s[0] == ' ' then WordStarts(s[1..], true)
    else (if atStart then [s[0]] else []) + WordStarts(s[1..], false)
  }

  /** The first characters of the pieces are exactly the characters that begin words. */
  lemma {:induction false} HeadsAreWordStarts(s: string)
    ensures Heads(Words(s)) == WordStarts(s, true)
    ensures Heads(Words(s)[1..]) == WordStarts(s, false)
  {
    if s != [] {
      HeadsAreWordStarts(s[1..]);
      if s[0] == ' ' {
        assert Words(s)[1..] == Words(s[1..]);
      } else {
        var rest := Words(s[1..]);
        assert Words(s)[1..] == rest[1..];
        assert Heads(rest) == Head(rest[0]) + Heads(rest[1..]);
      }
    }
  }

  /** No character begins a word exactly when the string is all spaces. */
  lemma {:induction false} NoWordStartsWhenBlank(s: string)
    ensures WordStarts(s, true) == [] <==> forall i :: 0 <= i < |s| ==> s[i] == ' '
  {
    if s != [] && s[0] == ' ' {
      NoWordStartsWhenBlank(s[1..]);
      assert forall i :: 1 <= i < |s| ==> s[i] == s[1..][i - 1];
    }
  }

  function Take2(s: string): (r: string)
    ensures |r| <= 2 && |r| <= |s| && r == s[..|r|]
    ensures |s| >= 2 ==> |r| == 2
    ensures |s| < 2 ==> r == s
  {
    if |s| <= 2 then s else s[..2]
  }

  /**
   * `name?.split(' ').map(n => n[0]).join('').slice(0, 2).toUpperCase() || '?'`:
   * one or two characters, none a lower-case letter.
   */
  function Initials(name: Option<string>): (r: string)
    ensures 1 <= |r| <= 2
    ensures forall k :: 0 <= k < |r| ==> !IsAsciiLower(r[k])
  {
    match name
    case None => "?"
    case Some(s) =>
      var t := Upper(Take2(Heads(Words(s))));
      if t == "" then "?" else t
  }

  /**
   * The initials are the upper-cased first two word starts of the name, and
   * `?` when the name is missing or contains nothing but spaces.
   */
  lemma InitialsOfName(name: Option<string>)
    ensures name.None? ==> Initials(name) == "?"
    ensures name.Some? && (forall i :: 0 <= i < |name.value| ==> name.value[i] == ' ') ==> Initials(name) == "?"
    ensures name.Some? && (exists i :: 0 <= i < |name.value| && name.value[i] != ' ') ==>
      Initials(name) == Upper(Take2(WordStarts(name.value, true)))
  {
    if name.Some? {
      HeadsAreWordStarts(name.value);
      NoWordStartsWhenBlank(name.value);
    }
  }

  // ---------------------------------------------------------------------
  // Status
  // ---------------------------------------------------------------------

  /** Seconds after kickoff during which a match counts as live. */
  const LiveWindow: int := 7200

  /** `match.ts` is truthy: present and not 0. */
  predicate HasKickoff(ts: Option<int>) {
    ts.Some? && ts.value != 0
  }

  predicate IsLive(ts: Option<int>, now: int) {
    HasKickoff(ts) && now >= ts.value && now <= ts.value + LiveWindow
  }

  predicate IsFinished(ts: Option<int>, now: int) {
    HasKickoff(ts) && now > ts.value + LiveWindow
  }

  predicate IsUpcoming(ts: Option<int>, now: int) {
    HasKickoff(ts) && now < ts.value
  }

  /** A match with a kickoff time is in exactly one state at any time; one without is in none. */
  lemma StatusIsExclusive(ts: Option<int>, now: int)
    ensures HasKickoff(ts) ==> IsLive(ts, now) || IsFinished(ts, now) || IsUpcoming(ts, now)
    ensures !(IsLive(ts, now) && IsFinished(ts, now))
    ensures !(IsLive(ts, now) && IsUpcoming(ts, now))
    ensures !(IsFinished(ts, now) && IsUpcoming(ts, now))
    ensures !HasKickoff(ts) ==> !IsLive(ts, now) && !IsFinished(ts, now) && !IsUpcoming(ts, now)
  {
  }

  // ---------------------------------------------------------------------
  // Slug
  // ---------------------------------------------------------------------

  predicate IsDigit(c: char) { '0' <= c <= '9' }

  predicate AllDigits(s: string) {
    forall i :: 0 <= i < |s| ==> IsDigit(s[i])
  }

  function DigitChar(d: nat): (c: char)
    requires d < 10
    ensures IsDigit(c)
  {
    ('0' as int + d) as char
  }

  /** The decimal digits of `n`, without leading zeros. */
  function NatText(n: nat): (t: string)
    ensures |t| >= 1 && AllDigits(t)
    ensures |t| > 1 ==> t[0] != '0'
  {
    if n < 10 then [DigitChar(n)] else NatText(n / 10) + [DigitChar(n % 10)]
  }

  /** `${n}` for an integer kickoff time. */
  function IntText(n: int): string {
    if n < 0 then "-" + NatText(-n) else NatText(n)
  }

  /** `${match.ts}`: the number in decimal, or `undefined` when it is missing. */
  function TsText(ts: Option<int>): string {
    match ts
    case Some(n) => IntText(n)
    case None => "undefined"
  }

  function ParseNat(t: string): nat
    requires AllDigits(t)
  {
    if t == [] then 0 else ParseNat(t[..|t| - 1]) * 10 + (t[|t| - 1] as int - '0' as int)
  }

  /** Reading the digits back gives the number. */
  lemma {:induction false} ParseNatText(n: nat)
    ensures ParseNat(NatText(n)) == n
  {
    if n >= 10 {
      ParseNatText(n / 10);
      var t := NatText(n);
      assert t[..|t| - 1] == NatText(n / 10);
    }
  }

  /**
   * The match page's slug:
   * `league/home-vs-away-ts`, each name passed through `slugify` (a parameter here)
   * after falling back to `match`, `home` and `away` when it is missing or empty.
   */
  function MatchSlug(m: MatchRecord, slugify: string -> string): string {
    slugify(TextOr(m.league, "match")) + "/" + slugify(TextOr(m.home, "home"))
      + "-vs-" + slugify(TextOr(m.away, "away")) + "-" + TsText(m.ts)
  }

  /** The part of `s` after its last `-` (all of `s` if it has none). */
  function AfterLastHyphen(s: string): (r: string)
    ensures '-' !in r
  {
    if s == [] then []
    else if s[|s| - 1] == '-' then []
    else AfterLastHyphen(s[..|s| - 1]) + [s[|s| - 1]]
  }

  lemma {:induction false} AfterLastHyphenOfSuffix(a: string, b: string)
    requires '-' !in b
    ensures AfterLastHyphen(a + "-" + b) == b
    decreases |b|
  {
    if b != [] {
      var b' := b[..|b| - 1];
      AfterLastHyphenOfSuffix(a, b');
      assert (a + "-" + b)[..|a + "-" + b| - 1] == a + "-" + b';
    } else {
      assert (a + "-" + b)[..|a| + 1 - 1] == a;
    }
  }

  /**
   * Whatever `slugify` does, the kickoff time of a match with a non-negative
   * `ts` can be read back from its slug: it is the part after the last `-`.
   */
  lemma SlugEndsWithKickoff(m: MatchRecord, slugify: string -> string)
    requires m.ts.Some? && m.ts.value >= 0
    ensures AllDigits(AfterLastHyphen(MatchSlug(m, slugify)))
    ensures ParseNat(AfterLastHyphen(MatchSlug(m, slugify))) == m.ts.value
  {
    var t := NatText(m.ts.value);
    var prefix := slugify(TextOr(m.league, "match")) + "/" + slugify(TextOr(m.home, "home"))
      + "-vs-" + slugify(TextOr(m.away, "away"));
    assert MatchSlug(m, slugify) == prefix + "-" + t;
    AfterLastHyphenOfSuffix(prefix, t);
    ParseNatText(m.ts.value);
  }

  /** A match without a kickoff time links to a slug ending in `-undefined`. */
  lemma SlugWithoutKickoff(m: MatchRecord, slugify: string -> string)
    requires m.ts.None?
    ensures AfterLastHyphen(MatchSlug(m, slugify)) == "undefined"
  {
    var prefix := slugify(TextOr(m.league, "match")) + "/" + slugify(TextOr(m.home, "home"))
      + "-vs-" + slugify(TextOr(m.away, "away"));
    assert MatchSlug(m, slugify) == prefix + "-" + "undefined";
    AfterLastHyphenOfSuffix(prefix, "undefined");
  }
}
