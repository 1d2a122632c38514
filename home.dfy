/**
 * The home page's client state: the infinite-scroll list of matches, the
 * league filter, and the "load more leagues" ranking of league counts.
 *
 * Each React state setter becomes an assignment to a field of `Home`; the
 * effects and callbacks become methods. The fetch itself is not modelled:
 * its parsed body is the argument of `Receive`.
 */
module HomePage {
  import opened Wrappers
  import opened Records
  import opened Sorting
  import opened Sequences
  import MatchesRoute

  /** Matches requested per page (`limit=12`). */
  const PageSize: int := 12

  /** League buttons added by one "Load More Leagues" click. */
  const LeagueBatch: int := 5

  /** `Math.min` */
  function Min(a: int, b: int): int { if a <= b then a else b }

  /** One `[name, count]` pair of `Object.entries(leagueStats)`. */
  datatype LeagueEntry = LeagueEntry(name: string, count: int)

  /**
   * The parsed JSON body of a response, as the page reads it. A failed
   * request answered with `{ error, matches: [] }` has no `page` and no
   * `totalPages`.
   */
  datatype PageResponse = PageResponse(
    matches: Option<seq<MatchRecord>>,
    page: Option<int>,
    totalPages: Option<int>,
    leagueStats: Option<seq<LeagueEntry>>)

  /** `data.page < data.totalPages`: false when either is missing (a comparison with `undefined`). */
  predicate MoreAvailable(data: PageResponse) {
    data.page.Some? && data.totalPages.Some? && data.page.value < data.totalPages.value
  }

  /** The comparator `(a, b) => b[1] - a[1]` as "`a` may stay before `b`": larger counts first. */
  function ByCountDescending(): (LeagueEntry, LeagueEntry) -> bool {
    (a: LeagueEntry, b: LeagueEntry) => b.count - a.count <= 0
  }

  /** `Object.entries(leagueStats).sort((a, b) => b[1] - a[1])` */
  function RankLeagues(entries: seq<LeagueEntry>): seq<LeagueEntry> {
    InsertionSort(entries, ByCountDescending())
  }

  /**
   * The ranking holds the same entries, by count from highest to lowest;
   * entries with equal counts keep their order in `leagueStats`.
   */
  lemma RankLeaguesOrdered(entries: seq<LeagueEntry>, key: LeagueEntry)
    ensures multiset(RankLeagues(entries)) == multiset(entries)
    ensures forall i, j :: 0 <= i < j < |RankLeagues(entries)| ==>
      RankLeagues(entries)[i].count >= RankLeagues(entries)[j].count
    ensures TiedWith(RankLeagues(entries), ByCountDescending(), key)
         == TiedWith(entries, ByCountDescending(), key)
  {
    var le := ByCountDescending();
    assert TotalPreorder(le);
    SortIsPermutation(entries, le);
    SortIsSorted(entries, le);
    SortIsStable(entries, le, key);
  }

  /**
   * `entries` lists the pairs of `stats`, as `Object.entries` does: each
   * name once, with its count, and every key of `stats` among them.
   */
  predicate EntriesOf(entries: seq<LeagueEntry>, stats: map<string, nat>) {
    && (forall i, j :: 0 <= i < j < |entries| ==> entries[i].name != entries[j].name)
    && (forall i :: 0 <= i < |entries| ==> entries[i].name in stats && stats[entries[i].name] == entries[i].count)
    && (forall name :: name in stats ==> exists i :: 0 <= i < |entries| && entries[i].name == name)
  }

  /**
   * Over the handler's statistics, the ranking shows every league that some
   * record names, once, with the number of records naming it, from the
   * most frequent league to the least frequent.
   */
  lemma RankingCountsLeagues(records: seq<MatchRecord>, entries: seq<LeagueEntry>)
    requires EntriesOf(entries, MatchesRoute.LeagueStats(records))
    ensures EntriesOf(RankLeagues(entries), MatchesRoute.LeagueStats(records))
    ensures forall i :: 0 <= i < |RankLeagues(entries)| ==>
      && RankLeagues(entries)[i].name != ""
      && RankLeagues(entries)[i].count == MatchesRoute.LeagueCount(records, RankLeagues(entries)[i].name) > 0
    ensures forall k :: 0 <= k < |records| && records[k].league.Some? && records[k].league.value != "" ==>
      exists i :: 0 <= i < |RankLeagues(entries)| && RankLeagues(entries)[i].name == records[k].league.value
    ensures forall i, j :: 0 <= i < j < |RankLeagues(entries)| ==>
      RankLeagues(entries)[i].count >= RankLeagues(entries)[j].count
  {
    var stats, ranked := MatchesRoute.LeagueStats(records), RankLeagues(entries);
    RankLeaguesOrdered(entries, LeagueEntry("", 0));
    PermutedEntries(entries, ranked, stats);
    MatchesRoute.LeagueStatsCounts(records);
    forall k | 0 <= k < |records| && records[k].league.Some? && records[k].league.value != ""
      ensures records[k].league.value in stats
    {
      MatchesRoute.LeagueCountPositive(records, records[k].league.value);
    }
  }

  /** Rearranging the pairs of a map gives pairs of the same map. */
  lemma PermutedEntries(entries: seq<LeagueEntry>, ranked: seq<LeagueEntry>, stats: map<string, nat>)
    requires EntriesOf(entries, stats) && multiset(ranked) == multiset(entries)
    ensures EntriesOf(ranked, stats)
  {
    forall i | 0 <= i < |ranked|
      ensures ranked[i].name in stats && stats[ranked[i].name] == ranked[i].count
    {
      assert ranked[i] in multiset(entries);
    }
    forall name | name in stats ensures exists i :: 0 <= i < |ranked| && ranked[i].name == name {
      var j :| 0 <= j < |entries| && entries[j].name == name;
      assert entries[j] in multiset(ranked);
    }
    PermutationNoDuplicates(entries, ranked);
  }

  /**
   * The body `NextResponse.json` sends for an envelope, as the page reads
   * it. A `null` page count is recorded as 0, which is what `page < null`
   * compares against; `entries` are the pairs of `leagueStats`.
   */
  function ResponseOf(env: MatchesRoute.Envelope, entries: seq<LeagueEntry>): PageResponse {
    PageResponse(
      Some(env.matches), Some(env.page), Some(env.totalPages.GetOr(0)),
      if env.leagueStats.Some? then Some(entries) else None)
  }

  /**
   * Against the handler, `hasMore` after a page is received says exactly
   * whether records lie beyond that page.
   */
  lemma HasMoreMeansRecordsBeyond(
    data: MatchesRoute.Dataset, q: MatchesRoute.Params, collate: MatchesRoute.Collation, entries: seq<LeagueEntry>)
    requires q.page >= 1 && q.limit >= 1
    ensures MoreAvailable(ResponseOf(MatchesRoute.Answer(data, q, collate), entries))
        <==> q.page * q.limit < MatchesRoute.Answer(data, q, collate).total
  {
    MatchesRoute.AnswerTotalPages(data, q, collate);
  }

  /**
   * The query string of
   * `fetch('/api/matches?page=...&limit=12&includeStats=true&league=...')`
   * for the league button `league` and the page `page`.
   */
  function Request(league: string, page: int, slugify: string -> string): (q: MatchesRoute.Params)
    ensures q.limit == PageSize && q.page == page && MatchesRoute.StatsRequested(q)
    ensures q.league == if league != "all" then Some(slugify(league)) else None
    ensures q.search.None? && q.sort.None?
  {
    MatchesRoute.Params(
      if league != "all" then Some(slugify(league)) else None,
      None, page, PageSize, None, Some("true"))
  }

  /**
   * Whatever the dataset, the handler answers the page's request with the
   * requested page, a limit of 12, the records sorted by kickoff time and
   * the league statistics of the whole dataset, so a response to page 1
   * always replaces the statistics in `Receive`. With no league selected
   * every record counts towards `total`.
   */
  lemma RequestAnswer(data: MatchesRoute.Dataset, league: string, page: int, slugify: string -> string,
                      collate: MatchesRoute.Collation, entries: seq<LeagueEntry>)
    ensures var env := MatchesRoute.Answer(data, Request(league, page, slugify), collate);
      && env.page == page && env.limit == PageSize
      && MatchesRoute.SortKey(Request(league, page, slugify)) == "time"
      && env.leagueStats == Some(MatchesRoute.LeagueStats(MatchesRoute.RecordsOf(data)))
      && ResponseOf(env, entries).leagueStats == Some(entries)
      && (league == "all" ==> env.total == |MatchesRoute.RecordsOf(data)|)
  {
    var q := Request(league, page, slugify);
    MatchesRoute.AnswerOrder(data, q, collate);
    assert |MatchesRoute.Ordered(data, q, collate)| == |MatchesRoute.Selected(MatchesRoute.RecordsOf(data), q)|;
  }

  class Home {
    var matches: seq<MatchRecord>
    var loading: bool
    var loadingMore: bool
    var page: int
    var hasMore: bool
    var leagueStats: seq<LeagueEntry>
    var activeLeague: string
    var visibleCount: int

    ghost predicate Valid()
      reads this
    {
      page >= 1 && visibleCount >= 0
    }

    /** The initial `useState` values. */
    constructor()
      ensures Valid()
      ensures matches == [] && loading && !loadingMore && page == 1 && hasMore
      ensures leagueStats == [] && activeLeague == "all" && visibleCount == LeagueBatch
    {
      matches := [];
      loading := true;
      loadingMore := false;
      page := 1;
      hasMore := true;
      leagueStats := [];
      activeLeague := "all";
      visibleCount := LeagueBatch;
    }

    /**
     * The start of `fetchMatches` in a run of the fetch effect: the first
     * page shows the full loader, later pages the small one. The request
     * goes out for the league and the page in state now; the closure keeps
     * that page, and `Receive` is given it back with the answer.
     */
    method BeginFetch(slugify: string -> string) returns (q: MatchesRoute.Params)
      modifies this`loading, this`loadingMore
      ensures q == Request(activeLeague, page, slugify)
      ensures page == 1 ==> loading && loadingMore == old(loadingMore)
      ensures page != 1 ==> loadingMore && loading == old(loading)
    {
      if page == 1 {
        loading := true;
      } else {
        loadingMore := true;
      }
      q := Request(activeLeague, page, slugify);
    }

    /**
     * A parsed response to a request for page `requested`, the page the
     * closure captured when it sent the request, whatever the page in state
     * is now: page 1 replaces the list (and the league counts when the
     * response has them), a later page appends to it; `hasMore` follows the
     * response; both loaders stop.
     */
    method Receive(requested: int, data: PageResponse)
      modifies this`matches, this`leagueStats, this`hasMore, this`loading, this`loadingMore
      ensures requested == 1 ==> matches == data.matches.GetOr([])
      ensures requested != 1 ==> matches == old(matches) + data.matches.GetOr([])
      ensures leagueStats == if requested == 1 && data.leagueStats.Some? then data.leagueStats.value
                             else old(leagueStats)
      ensures hasMore == MoreAvailable(data)
      ensures !loading && !loadingMore
    {
      if requested == 1 {
        matches := data.matches.GetOr([]);
        if data.leagueStats.Some? {
          leagueStats := data.leagueStats.value;
        }
      } else {
        matches := matches + data.matches.GetOr([]);
      }
      hasMore := MoreAvailable(data);
      loading := false;
      loadingMore := false;
    }

    /** A fetch or parse error: only the loaders stop (the `finally` block). */
    method FetchFailed()
      modifies this`loading, this`loadingMore
      ensures !loading && !loadingMore
    {
      loading := false;
      loadingMore := false;
    }

    /** The last card scrolls into view: the next page is requested when there is one and nothing is loading. */
    method Intersect()
      requires Valid()
      modifies this`page
      ensures Valid()
      ensures page == if hasMore && !loading && !loadingMore then old(page) + 1 else old(page)
    {
      if !(loading || loadingMore) && hasMore {
        page := page + 1;
      }
    }

    /**
     * A league button as the page runs it. The click only sets
     * `activeLeague`. In the render that follows, the fetch effect runs
     * first, with the new league and the page still in state, and then the
     * reset effect sets page 1, empties the list and sets `hasMore`. When
     * the reset changed the page, the fetch effect runs once more, for
     * page 1. Returns the requests sent, in order.
     */
    method SelectLeagueAsWritten(name: string, slugify: string -> string) returns (sent: seq<MatchesRoute.Params>)
      requires Valid()
      modifies this`activeLeague, this`page, this`matches, this`hasMore, this`loading, this`loadingMore
      ensures Valid()
      ensures activeLeague == name
      ensures name != old(activeLeague) ==> page == 1 && matches == [] && hasMore
      ensures name != old(activeLeague) ==>
        sent == [Request(name, old(page), slugify)]
                + (if old(page) != 1 then [Request(name, 1, slugify)] else [])
      ensures name != old(activeLeague) ==>
        loading && loadingMore == (old(loadingMore) || old(page) != 1)
      ensures name == old(activeLeague) ==>
        && sent == [] && page == old(page) && matches == old(matches) && hasMore == old(hasMore)
        && loading == old(loading) && loadingMore == old(loadingMore)
    {
      sent := [];
      if name != activeLeague {
        activeLeague := name;
        var stale := BeginFetch(slugify);
        sent := [stale];
        var before := page;
        page := 1;
        matches := [];
        hasMore := true;
        if before != 1 {
          var first := BeginFetch(slugify);
          sent := sent + [first];
        }
      }
    }

    /**
     * A league button as it is evidently meant to work: a different league
     * resets the list and the paging before anything is fetched, so the one
     * request sent asks for page 1 of the new league.
     */
    method SelectLeague(name: string, slugify: string -> string) returns (sent: seq<MatchesRoute.Params>)
      requires Valid()
      modifies this`activeLeague, this`page, this`matches, this`hasMore, this`loading, this`loadingMore
      ensures Valid()
      ensures activeLeague == name
      ensures name != old(activeLeague) ==>
        && page == 1 && matches == [] && hasMore
        && sent == [Request(name, 1, slugify)]
        && loading && loadingMore == old(loadingMore)
      ensures name == old(activeLeague) ==>
        && sent == [] && page == old(page) && matches == old(matches) && hasMore == old(hasMore)
        && loading == old(loading) && loadingMore == old(loadingMore)
    {
      sent := [];
      if name != activeLeague {
        activeLeague := name;
        page := 1;
        matches := [];
        hasMore := true;
        var first := BeginFetch(slugify);
        sent := [first];
      }
    }

    /** `sortedLeagues` */
    function SortedLeagues(): seq<LeagueEntry>
      reads this
    {
      RankLeagues(leagueStats)
    }

    /** `sortedLeagues.slice(0, visibleCount)`: the first `visibleCount` leagues of the ranking. */
    function DisplayedLeagues(): (shown: seq<LeagueEntry>)
      requires Valid()
      reads this
      ensures |shown| == Min(visibleCount, |leagueStats|)
      ensures shown == SortedLeagues()[..|shown|]
      ensures forall i, j :: 0 <= i < j < |shown| ==> shown[i].count >= shown[j].count
    {
      RankLeaguesOrdered(leagueStats, LeagueEntry("", 0));
      SortedLeagues()[..Min(visibleCount, |leagueStats|)]
    }

    /** `hasMoreLeaguesToLoad` */
    predicate HasMoreLeaguesToLoad()
      reads this
    {
      visibleCount < |SortedLeagues()|
    }

    /** "Load More Leagues": five more, but never past the number of leagues. */
    method LoadMore()
      requires Valid()
      modifies this`visibleCount
      ensures Valid()
      ensures visibleCount == Min(old(visibleCount) + LeagueBatch, |leagueStats|)
      ensures visibleCount <= |SortedLeagues()|
      ensures !HasMoreLeaguesToLoad() <==> visibleCount == |leagueStats|
    {
      visibleCount := Min(visibleCount + LeagueBatch, |SortedLeagues()|);
    }
  }

  /**
   * A late answer after a league change, as the page is written. The list
   * is on page `h.page >= 3` when a button selects a league with more than
   * one page of records but fewer than `h.page - 1` pages. The answer to
   * page 1 arrives first, then the answer to the request for page `h.page`
   * of the new league that the fetch effect sent before the reset. The list
   * then holds the first 12 records only, yet `hasMore` is false, so the
   * infinite scroll never asks for the others.
   */
  method StaleAnswerStopsScrolling(h: Home, data: MatchesRoute.Dataset, name: string,
                                   slugify: string -> string, collate: MatchesRoute.Collation,
                                   entries: seq<LeagueEntry>)
    requires h.Valid() && h.page >= 3 && name != h.activeLeague
    requires PageSize < |MatchesRoute.Ordered(data, Request(name, 1, slugify), collate)|
                      <= (h.page - 1) * PageSize
    modifies h
    ensures h.Valid() && h.activeLeague == name && h.page == 1
    ensures h.matches == MatchesRoute.Answer(data, Request(name, 1, slugify), collate).matches
    ensures |h.matches| == PageSize < |MatchesRoute.Ordered(data, Request(name, 1, slugify), collate)|
    ensures !h.hasMore
  {
    var sent := h.SelectLeagueAsWritten(name, slugify);
    var first, stale := sent[1], sent[0];
    assert MatchesRoute.Ordered(data, stale, collate) == MatchesRoute.Ordered(data, first, collate);
    MatchesRoute.AnswerPage(data, first, collate);
    MatchesRoute.AnswerPage(data, stale, collate);
    HasMoreMeansRecordsBeyond(data, stale, collate, entries);
    h.Receive(first.page, ResponseOf(MatchesRoute.Answer(data, first, collate), entries));
    h.Receive(stale.page, ResponseOf(MatchesRoute.Answer(data, stale, collate), entries));
  }

  /**
   * The same league change with `SelectLeague`: only page 1 is requested,
   * and once its answer arrives the list holds the first 12 records and
   * `hasMore` is true, so scrolling goes on to the rest.
   */
  method LeagueChangeKeepsScrolling(h: Home, data: MatchesRoute.Dataset, name: string,
                                    slugify: string -> string, collate: MatchesRoute.Collation,
                                    entries: seq<LeagueEntry>)
    requires h.Valid() && name != h.activeLeague
    requires PageSize < |MatchesRoute.Ordered(data, Request(name, 1, slugify), collate)|
    modifies h
    ensures h.Valid() && h.activeLeague == name && h.page == 1
    ensures h.matches == MatchesRoute.Answer(data, Request(name, 1, slugify), collate).matches
    ensures |h.matches| == PageSize < |MatchesRoute.Ordered(data, Request(name, 1, slugify), collate)|
    ensures h.hasMore
  {
    var sent := h.SelectLeague(name, slugify);
    var first := sent[0];
    MatchesRoute.AnswerPage(data, first, collate);
    HasMoreMeansRecordsBeyond(data, first, collate, entries);
    h.Receive(first.page, ResponseOf(MatchesRoute.Answer(data, first, collate), entries));
  }
}
