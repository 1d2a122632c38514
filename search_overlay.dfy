/**
 * The search overlay's suggestions: once the debounced search term has at
 * least two characters, the featured ("elite") leagues whose names contain
 * it are listed at once, and the matches the server returns for the term
 * supply the other leagues to suggest.
 */
module SearchSuggestions {
  import opened Wrappers
  import opened Text
  import opened Sequences
  import opened Records

  /** An entry of the featured league list; the list itself is a parameter. */
  datatype TopLeague = TopLeague(name: string, color: string, logo: string, accent: string)

  /** `l.name.toLowerCase().includes(term.toLowerCase())` */
  predicate NameHasTerm(name: string, term: string) {
    Contains(Lower(name), Lower(term))
  }

  function EliteFilter(term: string): TopLeague -> bool {
    (l: TopLeague) => NameHasTerm(l.name, term)
  }

  /** `TOP_LEAGUES.filter(...)`: the featured leagues whose names contain the term. */
  function EliteLeagues(top: seq<TopLeague>, term: string): seq<TopLeague> {
    Filter(top, EliteFilter(term))
  }

  /** A featured league is suggested exactly when its name contains the term; the list order is kept. */
  lemma EliteLeaguesSpec(top: seq<TopLeague>, term: string, l: TopLeague)
    ensures l in EliteLeagues(top, term) <==> l in top && NameHasTerm(l.name, term)
    ensures IsSubsequence(EliteLeagues(top, term), top)
  {
    FilterMembership(top, EliteFilter(term), l);
    FilterIsSubsequence(top, EliteFilter(term));
  }

  /** `elite.some(e => e.name === name)` */
  predicate IsEliteName(elite: seq<TopLeague>, name: string) {
    exists i :: 0 <= i < |elite| && elite[i].name == name
  }

  /** `fetchedMatches.map(m => m.league)`; a missing league is `undefined`. */
  function LeaguesOf(fetched: seq<MatchRecord>): (leagues: seq<Option<string>>)
    ensures |leagues| == |fetched|
    ensures forall i :: 0 <= i < |fetched| ==> leagues[i] == fetched[i].league
  {
    seq(|fetched|, i requires 0 <= i < |fetched| => fetched[i].league)
  }

  /** `Array.from(new Set(...))` of those leagues: each distinct value once, at its first occurrence. */
  function DistinctLeagues(fetched: seq<MatchRecord>): (names: seq<Option<string>>)
    ensures NoDuplicates(names)
    ensures forall k :: 0 <= k < |names| ==> exists i :: 0 <= i < |fetched| && fetched[i].league == names[k]
    ensures forall i :: 0 <= i < |fetched| ==> fetched[i].league in names
  {
    var leagues := LeaguesOf(fetched);
    var names := Dedup(leagues);
    assert forall k :: 0 <= k < |names| ==> exists i :: 0 <= i < |leagues| && leagues[i] == names[k];
    assert forall i :: 0 <= i < |fetched| ==> leagues[i] in names;
    names
  }

  predicate AllPresent(names: seq<Option<string>>) {
    forall i :: 0 <= i < |names| ==> names[i].Some?
  }

  function Present(names: seq<Option<string>>): (r: seq<string>)
    requires AllPresent(names)
    ensures |r| == |names|
    ensures forall i :: 0 <= i < |names| ==> names[i] == Some(r[i])
  {
    seq(|names|, i requires 0 <= i < |names| => names[i].value)
  }

  function OtherFilter(elite: seq<TopLeague>, term: string): string -> bool {
    (name: string) => !IsEliteName(elite, name) && NameHasTerm(name, term)
  }

  /**
   * `allLeagueNames.filter(name => !elite.some(...) && name.toLowerCase()...)`.
   * A missing league is never an elite name, so reaching it calls
   * `toLowerCase` on `undefined`, which throws: the result is then `None`.
   */
  function OtherLeagues(names: seq<Option<string>>, elite: seq<TopLeague>, term: string): Option<seq<string>> {
    if AllPresent(names) then Some(Filter(Present(names), OtherFilter(elite, term))) else None
  }

  /** The other leagues can be derived exactly when every fetched match has a league. */
  lemma OtherLeaguesDefined(fetched: seq<MatchRecord>, elite: seq<TopLeague>, term: string)
    ensures OtherLeagues(DistinctLeagues(fetched), elite, term).Some?
        <==> forall i :: 0 <= i < |fetched| ==> fetched[i].league.Some?
  {
    var names := DistinctLeagues(fetched);
    if forall i :: 0 <= i < |fetched| ==> fetched[i].league.Some? {
      forall k | 0 <= k < |names| ensures names[k].Some? {
        var i :| 0 <= i < |fetched| && fetched[i].league == names[k];
      }
    } else {
      var i :| 0 <= i < |fetched| && fetched[i].league.None?;
      assert fetched[i].league in names;
    }
  }

  /** The derived other leagues hold no repeats and keep the order of first appearance. */
  lemma OtherLeaguesDistinct(fetched: seq<MatchRecord>, elite: seq<TopLeague>, term: string)
    requires AllPresent(DistinctLeagues(fetched))
    ensures OtherLeagues(DistinctLeagues(fetched), elite, term).Some?
    ensures NoDuplicates(OtherLeagues(DistinctLeagues(fetched), elite, term).value)
    ensures IsSubsequence(OtherLeagues(DistinctLeagues(fetched), elite, term).value, Present(DistinctLeagues(fetched)))
  {
    var names := DistinctLeagues(fetched);
    var present := Present(names);
    assert NoDuplicates(present) by {
      forall i, j | 0 <= i < j < |present| ensures present[i] != present[j] {
        assert names[i] != names[j];
      }
    }
    FilterNoDuplicates(present, OtherFilter(elite, term));
    FilterIsSubsequence(present, OtherFilter(elite, term));
  }

  /**
   * A name is among the derived other leagues exactly when some fetched
   * match has that league, it is not a featured league's name, and it
   * contains the term.
   */
  lemma OtherLeaguesMembership(fetched: seq<MatchRecord>, elite: seq<TopLeague>, term: string, name: string)
    requires AllPresent(DistinctLeagues(fetched))
    ensures OtherLeagues(DistinctLeagues(fetched), elite, term).Some?
    ensures name in OtherLeagues(DistinctLeagues(fetched), elite, term).value <==>
      (exists i :: 0 <= i < |fetched| && fetched[i].league == Some(name))
      && !IsEliteName(elite, name) && NameHasTerm(name, term)
  {
    var names := DistinctLeagues(fetched);
    var present := Present(names);
    FilterMembership(present, OtherFilter(elite, term), name);
    if name in present {
      var k :| 0 <= k < |present| && present[k] == name;
      assert names[k] == Some(name);
    }
    if exists i :: 0 <= i < |fetched| && fetched[i].league == Some(name) {
      var i :| 0 <= i < |fetched| && fetched[i].league == Some(name);
      var k :| 0 <= k < |names| && names[k] == Some(name);
      assert present[k] == name;
    }
  }

  /** No league is suggested both as a featured league and as another league. */
  lemma OtherLeaguesAreNotElite(names: seq<Option<string>>, elite: seq<TopLeague>, term: string)
    requires OtherLeagues(names, elite, term).Some?
    ensures forall k, e :: 0 <= k < |OtherLeagues(names, elite, term).value| && 0 <= e < |elite| ==>
      OtherLeagues(names, elite, term).value[k] != elite[e].name
  {
    var other := OtherLeagues(names, elite, term).value;
    forall k, e | 0 <= k < |other| && 0 <= e < |elite| ensures other[k] != elite[e].name {
      assert OtherFilter(elite, term)(other[k]);
    }
  }

  class SearchOverlay {
    var matches: seq<MatchRecord>
    var loading: bool
    var elite: seq<TopLeague>
    var other: seq<string>

    constructor()
      ensures matches == [] && !loading && elite == [] && other == []
    {
      matches := [];
      loading := false;
      elite := [];
      other := [];
    }

    /**
     * The effect on the debounced term, up to the request: a term of two or
     * more characters starts loading; a shorter one clears every result.
     */
    method Search(term: string)
      modifies this
      ensures |term| > 1 ==> loading && matches == old(matches) && elite == old(elite) && other == old(other)
      ensures |term| <= 1 ==> !loading && matches == [] && elite == [] && other == []
    {
      if |term| > 1 {
        loading := true;
      } else {
        matches := [];
        elite := [];
        other := [];
        loading := false;
      }
    }

    /**
     * The parsed response for `term` (`data.matches`, if present). The
     * matches are shown even when deriving the other leagues throws; the
     * league suggestions change only when it does not.
     */
    method Respond(term: string, top: seq<TopLeague>, fetchedMatches: Option<seq<MatchRecord>>)
      modifies this
      ensures matches == fetchedMatches.GetOr([])
      ensures !loading
      ensures var o := OtherLeagues(DistinctLeagues(matches), EliteLeagues(top, term), term);
        if o.Some? then elite == EliteLeagues(top, term) && other == o.value
        else elite == old(elite) && other == old(other)
    {
      var found := EliteLeagues(top, term);
      var fetched := fetchedMatches.GetOr([]);
      matches := fetched;
      var o := OtherLeagues(DistinctLeagues(fetched), found, term);
      if o.Some? {
        elite, other := found, o.value;
      }
      loading := false;
    }

    /** The request or its parsing failed: only loading stops. */
    method Fail()
      modifies this`loading
      ensures !loading
    {
      loading := false;
    }
  }
}
