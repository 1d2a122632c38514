/**
 * The `GET /api/matches` handler: per-league statistics over the whole
 * dataset, the league filter, the text search, the stable sort, the page
 * slice and the response envelope.
 *
 * `Answer` is the specification of one request; `Get` computes it the way
 * the handler does, reassigning the working list filter by filter, counting
 * leagues in a loop and sorting an array in place.
 */
module MatchesRoute {
  import opened Wrappers
  import opened Text
  import opened Sequences
  import opened Sorting
  import opened Records

  /** The parsed `response.json`: `matches` may be missing. */
  datatype Dataset = Dataset(matches: Option<seq<MatchRecord>>, generatedAt: Option<string>)

  /**
   * The query parameters. `page` and `limit` arrive already parsed as
   * integers; the others are the raw strings, absent when not given.
   */
  datatype Params = Params(
    league: Option<string>,
    search: Option<string>,
    page: int,
    limit: int,
    sort: Option<string>,
    includeStats: Option<string>)

  /** The JSON body of a successful response. */
  datatype Envelope = Envelope(
    matches: seq<MatchRecord>,
    count: nat,
    total: nat,
    page: int,
    limit: int,
    totalPages: Option<int>,
    leagueStats: Option<map<string, nat>>,
    generatedAt: Option<string>)

  /** `data.matches || []` */
  function RecordsOf(data: Dataset): seq<MatchRecord> {
    data.matches.GetOr([])
  }

  /** `searchParams.get('sort') || 'time'` */
  function SortKey(p: Params): (sort: string)
    ensures sort != ""
  {
    match p.sort
    case Some(s) => if s != "" then s else "time"
    case None => "time"
  }

  /** `searchParams.get('search')?.toLowerCase()` */
  function SearchTerm(p: Params): Option<string> {
    match p.search
    case Some(s) => Some(Lower(s))
    case None => None
  }

  /** `searchParams.get('includeStats') === 'true'` */
  predicate StatsRequested(p: Params) {
    p.includeStats == Some("true")
  }

  // ---------------------------------------------------------------------
  // League statistics (over the unfiltered list)
  // ---------------------------------------------------------------------

  /** How many records name `league` as their league. */
  function LeagueCount(records: seq<MatchRecord>, league: string): (n: nat)
    ensures n <= |records|
  {
    if records == [] then 0
    else
      LeagueCount(records[..|records| - 1], league)
      + (if records[|records| - 1].league == Some(league) then 1 else 0)
  }

  /** A league is counted at all exactly when some record names it. */
  lemma {:induction false} LeagueCountPositive(records: seq<MatchRecord>, league: string)
    ensures LeagueCount(records, league) > 0
        <==> exists i :: 0 <= i < |records| && records[i].league == Some(league)
  {
    if records != [] {
      var init := records[..|records| - 1];
      LeagueCountPositive(init, league);
      if exists i :: 0 <= i < |records| && records[i].league == Some(league) {
        var i :| 0 <= i < |records| && records[i].league == Some(league);
        if i < |init| { assert init[i] == records[i]; }
      }
    }
  }

  /** The league names that `if (m.league)` lets through: present and non-empty. */
  function CountedLeagues(records: seq<MatchRecord>): set<string> {
    set i | 0 <= i < |records| && records[i].league.Some? && records[i].league.value != ""
      :: records[i].league.value
  }

  /** The `leagueStats` object the handler builds over `records`. */
  function LeagueStats(records: seq<MatchRecord>): (stats: map<string, nat>)
    ensures forall name :: name in stats ==> name != "" && 1 <= stats[name] <= |records|
  {
    var stats := map name | name in CountedLeagues(records) :: LeagueCount(records, name);
    assert forall name :: name in stats ==> stats[name] >= 1 by {
      forall name | name in stats ensures stats[name] >= 1 {
        LeagueCountPositive(records, name);
      }
    }
    stats
  }

  /**
   * Each non-empty league name that occurs maps to the number of records
   * naming it; nothing else is a key.
   */
  lemma LeagueStatsCounts(records: seq<MatchRecord>)
    ensures forall name :: name in LeagueStats(records) <==> name != "" && LeagueCount(records, name) > 0
    ensures forall name :: name in LeagueStats(records) ==> LeagueStats(records)[name] == LeagueCount(records, name)
  {
    forall name ensures name in LeagueStats(records) <==> name != "" && LeagueCount(records, name) > 0 {
      LeagueCountPositive(records, name);
    }
  }

  /** The `forEach` loop that fills `leagueStats`. */
  method CountLeagues(records: seq<MatchRecord>) returns (stats: map<string, nat>)
    ensures stats == LeagueStats(records)
  {
    stats := map[];
    for i := 0 to |records|
      invariant forall name :: name in stats <==> name != "" && LeagueCount(records[..i], name) > 0
      invariant forall name :: name in stats ==> stats[name] == LeagueCount(records[..i], name)
    {
      assert records[..i + 1][..i] == records[..i];
      var m := records[i];
      if m.league.Some? && m.league.value != "" {
        var name := m.league.value;
        stats := stats[name := (if name in stats then stats[name] else 0) + 1];
      }
    }
    assert records[..|records|] == records;
    LeagueStatsCounts(records);
    assert stats.Keys == LeagueStats(records).Keys;
  }

  // ---------------------------------------------------------------------
  // Filters
  // ---------------------------------------------------------------------

  /**
   * The league filter for a non-empty `league` parameter: the record's
   * league, lower-cased, equals the lower-cased parameter either with its
   * whitespace runs turned into hyphens or as it is.
   */
  predicate LeagueMatches(m: MatchRecord, league: string) {
    match m.league
    case Some(l) =>
      HyphenateWhitespace(Lower(l)) == Lower(league) || Lower(l) == Lower(league)
    case None => false
  }

  /** The search filter for a non-empty, already lower-cased term. */
  predicate SearchMatches(m: MatchRecord, term: string) {
    || (m.home.Some? && Contains(Lower(m.home.value), term))
    || (m.away.Some? && Contains(Lower(m.away.value), term))
    || (m.league.Some? && Contains(Lower(m.league.value), term))
  }

  function LeagueFilter(league: string): MatchRecord -> bool {
    m => LeagueMatches(m, league)
  }

  function SearchFilter(term: string): MatchRecord -> bool {
    m => SearchMatches(m, term)
  }

  /** `if (league) matches = matches.filter(...)` */
  function ByLeague(records: seq<MatchRecord>, league: Option<string>): seq<MatchRecord> {
    if league.Some? && league.value != "" then Filter(records, LeagueFilter(league.value))
    else records
  }

  /** `if (search) matches = matches.filter(...)` */
  function BySearch(records: seq<MatchRecord>, search: Option<string>): seq<MatchRecord> {
    if search.Some? && search.value != "" then Filter(records, SearchFilter(search.value))
    else records
  }

  /** The records left after both filters, in dataset order. */
  function Selected(records: seq<MatchRecord>, p: Params): seq<MatchRecord> {
    BySearch(ByLeague(records, p.league), SearchTerm(p))
  }

  /** Whether `m` passes the filters that `p` switches on. */
  predicate Wanted(m: MatchRecord, p: Params) {
    && (p.league.Some? && p.league.value != "" ==> LeagueMatches(m, p.league.value))
    && (SearchTerm(p).Some? && SearchTerm(p).value != "" ==> SearchMatches(m, SearchTerm(p).value))
  }

  // ---------------------------------------------------------------------
  // Sorting
  // ---------------------------------------------------------------------

  /**
   * A string comparison such as `localeCompare`: negative, zero or positive
   * as `x` sorts before, with or after `y`. The handler's `localeCompare` is a
   * parameter of the model.
   */
  type Collation = (string, string) -> int

  /**
   * What the sort needs of the string comparison, and what ECMAScript asks of
   * `localeCompare`: swapping the arguments turns a negative result into a
   * positive one and back, and "not after" is transitive.
   */
  ghost predicate ConsistentCollation(collate: Collation) {
    && (forall x, y :: collate(x, y) < 0 <==> collate(y, x) > 0)
    && (forall x, y, z :: collate(x, y) <= 0 && collate(y, z) <= 0 ==> collate(x, z) <= 0)
  }

  /** Code-point lexicographic order, one consistent collation. */
  function CodePointCompare(x: string, y: string): (r: int)
    ensures -1 <= r <= 1
    ensures r == 0 <==> x == y
  {
    if x == [] && y == [] then 0
    else if x == [] then -1
    else if y == [] then 1
    else if x[0] < y[0] then -1
    else if x[0] > y[0] then 1
    else
      assert x == [x[0]] + x[1..] && y == [y[0]] + y[1..];
      CodePointCompare(x[1..], y[1..])
  }

  lemma {:induction false} CodePointCompareAntisymmetric(x: string, y: string)
    ensures CodePointCompare(y, x) == -CodePointCompare(x, y)
  {
    if x != [] && y != [] && x[0] == y[0] {
      CodePointCompareAntisymmetric(x[1..], y[1..]);
    }
  }

  lemma {:induction false} CodePointCompareTransitive(x: string, y: string, z: string)
    requires CodePointCompare(x, y) <= 0 && CodePointCompare(y, z) <= 0
    ensures CodePointCompare(x, z) <= 0
  {
    if x != [] && y != [] && z != [] && x[0] == y[0] && y[0] == z[0] {
      CodePointCompareTransitive(x[1..], y[1..], z[1..]);
    }
  }

  function CodePointOrder(): Collation {
    (x: string, y: string) => CodePointCompare(x, y)
  }

  /** Code-point order meets what the sort asks of a string comparison. */
  lemma CodePointOrderIsConsistent()
    ensures ConsistentCollation(CodePointOrder())
  {
    var collate := CodePointOrder();
    forall x, y ensures collate(x, y) < 0 <==> collate(y, x) > 0 {
      CodePointCompareAntisymmetric(x, y);
    }
    forall x, y, z | collate(x, y) <= 0 && collate(y, z) <= 0 ensures collate(x, z) <= 0 {
      CodePointCompareTransitive(x, y, z);
    }
  }

  /** The sort keys compared as text. */
  predicate TextSort(sort: string) {
    sort == "league" || sort == "home" || sort == "away"
  }

  /** The comparator passed to `matches.sort`. */
  function Compare(sort: string, collate: Collation, a: MatchRecord, b: MatchRecord): int {
    if sort == "time" then TsOrZero(a) - TsOrZero(b)
    else if sort == "league" then collate(TextOrEmpty(a.league), TextOrEmpty(b.league))
    else if sort == "home" then collate(TextOrEmpty(a.home), TextOrEmpty(b.home))
    else if sort == "away" then collate(TextOrEmpty(a.away), TextOrEmpty(b.away))
    else 0
  }

  /** `a` may stay before `b`: `compare(a, b) <= 0`. */
  function Order(sort: string, collate: Collation): (MatchRecord, MatchRecord) -> bool {
    (a, b) => Compare(sort, collate, a, b) <= 0
  }

  /** The text key the comparator looks at. */
  function KeyText(sort: string, m: MatchRecord): string {
    if sort == "league" then TextOrEmpty(m.league)
    else if sort == "home" then TextOrEmpty(m.home)
    else TextOrEmpty(m.away)
  }

  /**
   * Every comparator the handler can use is a total preorder, provided the
   * string comparison is consistent when a text key is sorted on.
   */
  lemma CompareIsTotalPreorder(sort: string, collate: Collation)
    requires TextSort(sort) ==> ConsistentCollation(collate)
    ensures TotalPreorder(Order(sort, collate))
  {
    var le := Order(sort, collate);
    if TextSort(sort) {
      forall a, b ensures le(a, b) || le(b, a) {
        var x, y := KeyText(sort, a), KeyText(sort, b);
        assert collate(x, y) < 0 <==> collate(y, x) > 0;
      }
      forall a, b, c | le(a, b) && le(b, c) ensures le(a, c) {
        var x, y, z := KeyText(sort, a), KeyText(sort, b), KeyText(sort, c);
        assert collate(x, y) <= 0 && collate(y, z) <= 0;
      }
    }
  }

  /**
   * Two records tie under the comparator exactly when their `ts` (missing as
   * 0) are equal, or the string comparison of their text keys returns 0;
   * under any other key all records tie.
   */
  lemma TiedMeansSameKey(sort: string, collate: Collation, a: MatchRecord, b: MatchRecord)
    requires TextSort(sort) ==> ConsistentCollation(collate)
    ensures sort == "time" ==> (Tied(Order(sort, collate), a, b) <==> TsOrZero(a) == TsOrZero(b))
    ensures TextSort(sort) ==>
      (Tied(Order(sort, collate), a, b) <==> collate(KeyText(sort, a), KeyText(sort, b)) == 0)
    ensures sort != "time" && !TextSort(sort) ==> Tied(Order(sort, collate), a, b)
  {
    if TextSort(sort) {
      var x, y := KeyText(sort, a), KeyText(sort, b);
      assert collate(x, y) < 0 <==> collate(y, x) > 0;
      assert collate(y, x) < 0 <==> collate(x, y) > 0;
    }
  }

  /** The filtered list after `matches.sort(...)`. */
  function SortRecords(records: seq<MatchRecord>, sort: string, collate: Collation): seq<MatchRecord> {
    InsertionSort(records, Order(sort, collate))
  }

  // ---------------------------------------------------------------------
  // Pagination
  // ---------------------------------------------------------------------

  function Min(a: int, b: int): int { if a <= b then a else b }

  /**
   * How `slice` reads an index into a sequence of length `len`: a negative
   * index counts back from the end, and the result is clamped to `0..len`.
   */
  function SliceIndex(x: int, len: nat): (i: nat)
    ensures i <= len
    ensures 0 <= x ==> i == Min(x, len)
    ensures x < 0 && -x <= len ==> i == len + x
    ensures x < 0 && -x > len ==> i == 0
  {
    if x >= 0 then Min(x, len) else if len + x >= 0 then len + x else 0
  }

  /** `s.slice(start, end)` */
  function Slice<T>(s: seq<T>, start: int, end: int): (r: seq<T>)
    ensures var from, to := SliceIndex(start, |s|), SliceIndex(end, |s|);
      |r| == (if from < to then to - from else 0)
      && forall k :: 0 <= k < |r| ==> r[k] == s[from + k]
  {
    var from, to := SliceIndex(start, |s|), SliceIndex(end, |s|);
    if from < to then s[from..to] else []
  }

  /**
   * `Math.ceil(total / limit)` as it appears in the JSON body: `None` is the
   * `null` that `Infinity` and `NaN` (a zero limit) turn into.
   */
  function TotalPages(total: nat, limit: int): (pages: Option<int>)
    ensures pages.None? <==> limit == 0
    ensures limit > 0 ==> pages.value >= 0
    ensures limit < 0 ==> pages.value <= 0
  {
    if limit > 0 then Some((total + limit - 1) / limit)
    else if limit < 0 then Some(-(total / -limit))
    else None
  }

  /** For a positive limit, `TotalPages` is the least number of pages of `limit` records that hold `total` records. */
  lemma TotalPagesIsCeiling(total: nat, limit: int)
    requires limit >= 1
    ensures TotalPages(total, limit).Some? && TotalPages(total, limit).value >= 0
    ensures TotalPages(total, limit).value * limit >= total
    ensures TotalPages(total, limit).value == 0 || (TotalPages(total, limit).value - 1) * limit < total
  {
    var pages := (total + limit - 1) / limit;
    var rest := (total + limit - 1) % limit;
    assert total + limit - 1 == pages * limit + rest && 0 <= rest < limit;
    assert pages * limit - limit == (pages - 1) * limit;
  }

  // ---------------------------------------------------------------------
  // One request
  // ---------------------------------------------------------------------

  /** The filtered and sorted list that pages are cut from. */
  function Ordered(data: Dataset, p: Params, collate: Collation): seq<MatchRecord> {
    SortRecords(Selected(RecordsOf(data), p), SortKey(p), collate)
  }

  /** `(page - 1) * limit`: the index of the first record on page `p.page`. */
  function StartIndex(p: Params): int {
    (p.page - 1) * p.limit
  }

  /**
   * The response the handler builds for `p` over `data`, with `collate` as
   * `localeCompare`. `count` is the length of the page, which is never more
   * than `total` nor, for a non-negative limit, more than `limit`.
   */
  function Answer(data: Dataset, p: Params, collate: Collation): (env: Envelope)
    ensures env.count == |env.matches| <= env.total
    ensures p.limit >= 0 ==> env.count <= p.limit
  {
    var ordered := Ordered(data, p, collate);
    var items := Slice(ordered, StartIndex(p), StartIndex(p) + p.limit);
    Envelope(
      items, |items|, |ordered|, p.page, p.limit, TotalPages(|ordered|, p.limit),
      if StatsRequested(p) then Some(LeagueStats(RecordsOf(data))) else None,
      data.generatedAt)
  }

  /** Lines 31-45 of the handler: `matches` reassigned by each filter that is switched on. */
  method ApplyFilters(records: seq<MatchRecord>, p: Params) returns (matches: seq<MatchRecord>)
    ensures matches == Selected(records, p)
  {
    matches := records;
    if p.league.Some? && p.league.value != "" {
      matches := Filter(matches, LeagueFilter(p.league.value));
    }
    var search := SearchTerm(p);
    if search.Some? && search.value != "" {
      matches := Filter(matches, SearchFilter(search.value));
    }
  }

  /** `matches.sort(...)`: the working array sorted in place by the comparator for `sort`. */
  method SortMatches(matches: seq<MatchRecord>, sort: string, collate: Collation) returns (sorted: seq<MatchRecord>)
    ensures sorted == SortRecords(matches, sort, collate)
  {
    var a := new MatchRecord[|matches|](i requires 0 <= i < |matches| => matches[i]);
    assert a[..] == matches;
    SortInPlace(a, Order(sort, collate));
    sorted := a[..];
  }

  /** The handler, minus reading and parsing the file. */
  method Get(data: Dataset, p: Params, collate: Collation) returns (env: Envelope)
    ensures env == Answer(data, p, collate)
  {
    var matches := RecordsOf(data);

    var leagueStats: map<string, nat> := map[];
    var includeStats := p.includeStats == Some("true");
    if includeStats {
      leagueStats := CountLeagues(matches);
    }

    matches := ApplyFilters(matches, p);
    matches := SortMatches(matches, SortKey(p), collate);

    var total := |matches|;
    var startIndex := StartIndex(p);
    var paginated := Slice(matches, startIndex, startIndex + p.limit);

    env := Envelope(
      paginated, |paginated|, total, p.page, p.limit, TotalPages(total, p.limit),
      if includeStats then Some(leagueStats) else None,
      data.generatedAt);
  }

  // ---------------------------------------------------------------------
  // What a response promises
  // ---------------------------------------------------------------------

  /**
   * For a positive page and limit: `total` counts the filtered records; the
   * page is the run of the sorted list that starts at `(page - 1) * limit`,
   * holds at most `limit` records and is empty when it starts at or past the
   * end; `count` is its length.
   */
  lemma AnswerPage(data: Dataset, p: Params, collate: Collation)
    requires p.page >= 1 && p.limit >= 1
    ensures Answer(data, p, collate).total == |Selected(RecordsOf(data), p)| == |Ordered(data, p, collate)|
    ensures Answer(data, p, collate).count == |Answer(data, p, collate).matches| <= p.limit
    ensures Answer(data, p, collate).page == p.page && Answer(data, p, collate).limit == p.limit
    ensures StartIndex(p) >= 0
    ensures StartIndex(p) >= Answer(data, p, collate).total ==> Answer(data, p, collate).matches == []
    ensures StartIndex(p) < Answer(data, p, collate).total ==>
      Answer(data, p, collate).count == Min(p.limit, Answer(data, p, collate).total - StartIndex(p))
    ensures forall k :: 0 <= k < Answer(data, p, collate).count ==>
      Answer(data, p, collate).matches[k] == Ordered(data, p, collate)[StartIndex(p) + k]
  {
    MulMonotone(0, p.page - 1, p.limit);
  }

  /**
   * Paging outside the ordinary range: a zero limit gives an empty page and
   * a `null` page count; page 0 gives an empty page.
   */
  lemma AnswerUnusualPaging(data: Dataset, p: Params, collate: Collation)
    ensures p.limit == 0 ==> Answer(data, p, collate).matches == [] && Answer(data, p, collate).totalPages.None?
    ensures p.page == 0 && p.limit > 0 ==> Answer(data, p, collate).matches == []
  {
    if p.page == 0 && p.limit > 0 {
      assert StartIndex(p) + p.limit == 0;
    }
  }

  /**
   * A negative page counts back from the end of the sorted list, as `slice`
   * does with negative indices: the `limit` records that end `-page * limit`
   * records before the end.
   */
  lemma AnswerNegativePage(data: Dataset, p: Params, collate: Collation)
    requires p.page < 0 && p.limit > 0
    requires -StartIndex(p) <= |Ordered(data, p, collate)|
    ensures 0 <= |Ordered(data, p, collate)| + StartIndex(p)
              < |Ordered(data, p, collate)| + StartIndex(p) + p.limit <= |Ordered(data, p, collate)|
    ensures Answer(data, p, collate).matches
         == Ordered(data, p, collate)[|Ordered(data, p, collate)| + StartIndex(p)
                                     ..|Ordered(data, p, collate)| + StartIndex(p) + p.limit]
  {
    NegativePageEnd(p.page, p.limit);
    AnswerMatches(data, p, collate);
    SliceFromEnd(Ordered(data, p, collate), StartIndex(p), StartIndex(p) + p.limit);
  }

  lemma NegativePageEnd(page: int, limit: int)
    requires page < 0 && limit > 0
    ensures (page - 1) * limit + limit < 0
  {
    MulMonotone(page, -1, limit);
  }

  /** The page is the slice of the sorted list from `StartIndex(p)`. */
  lemma AnswerMatches(data: Dataset, p: Params, collate: Collation)
    ensures Answer(data, p, collate).matches
         == Slice(Ordered(data, p, collate), StartIndex(p), StartIndex(p) + p.limit)
  {
  }

  /** Two negative indices both count back from the end. */
  lemma SliceFromEnd<T>(s: seq<T>, start: int, end: int)
    requires start < end < 0 && -start <= |s|
    ensures 0 <= |s| + start < |s| + end <= |s|
    ensures Slice(s, start, end) == s[|s| + start..|s| + end]
  {
  }

  lemma MulMonotone(a: int, b: int, c: nat)
    requires a <= b
    ensures a * c <= b * c
  {
  }

  /**
   * `totalPages` is `ceil(total / limit)`, zero exactly for an empty result,
   * and the requested page is followed by another exactly when records lie
   * beyond it.
   */
  lemma AnswerTotalPages(data: Dataset, p: Params, collate: Collation)
    requires p.page >= 1 && p.limit >= 1
    ensures Answer(data, p, collate).totalPages.Some?
    ensures var env := Answer(data, p, collate); var pages := env.totalPages.value;
      && pages * p.limit >= env.total
      && (pages == 0 || (pages - 1) * p.limit < env.total)
      && (pages == 0 <==> env.total == 0)
      && (p.page < pages <==> p.page * p.limit < env.total)
  {
    PageBeyond(Answer(data, p, collate).total, p.limit, p.page);
  }

  /** The arithmetic behind `AnswerTotalPages`. */
  lemma PageBeyond(total: nat, limit: int, page: int)
    requires page >= 1 && limit >= 1
    ensures TotalPages(total, limit).Some?
    ensures var pages := TotalPages(total, limit).value;
      && pages * limit >= total
      && (pages == 0 || (pages - 1) * limit < total)
      && (pages == 0 <==> total == 0)
      && (page < pages <==> page * limit < total)
  {
    TotalPagesIsCeiling(total, limit);
    var pages := TotalPages(total, limit).value;
    if pages == 0 {
      assert total == 0;
    } else {
      MulMonotone(1, pages, limit);
    }
    if page < pages {
      MulMonotone(page, pages - 1, limit);
    } else {
      MulMonotone(pages, page, limit);
    }
  }

  /** Pages `1` to `n` of the same request, one after another. */
  function PagesUpTo(data: Dataset, p: Params, collate: Collation, n: nat): seq<MatchRecord> {
    if n == 0 then [] else PagesUpTo(data, p, collate, n - 1) + Answer(data, p.(page := n), collate).matches
  }

  /** For indices that do not count from the end, `slice` is the plain subsequence between them. */
  lemma SliceFromStart<T>(s: seq<T>, start: int, end: int)
    requires 0 <= start <= end
    ensures Min(start, |s|) <= Min(end, |s|)
    ensures Slice(s, start, end) == s[Min(start, |s|)..Min(end, |s|)]
  {
  }

  /** The first `n` slices of `limit` elements of `s`, one after another. */
  function SlicePages<T>(s: seq<T>, limit: int, n: nat): seq<T> {
    if n == 0 then [] else SlicePages(s, limit, n - 1) + Slice(s, (n - 1) * limit, (n - 1) * limit + limit)
  }

  lemma {:induction false} SlicePagesArePrefix<T>(s: seq<T>, limit: int, n: nat)
    requires limit >= 1
    ensures 0 <= n * limit
    ensures SlicePages(s, limit, n) == s[..Min(n * limit, |s|)]
  {
    MulMonotone(0, n, limit);
    if n > 0 {
      var from, to := (n - 1) * limit, n * limit;
      NextPageStart(n, limit);
      var i, j := Min(from, |s|), Min(to, |s|);
      calc {
        SlicePages(s, limit, n);
        SlicePages(s, limit, n - 1) + Slice(s, from, from + limit);
        { SlicePagesArePrefix(s, limit, n - 1); SliceFromStart(s, from, to); }
        s[..i] + s[i..j];
        s[..j];
      }
    }
  }

  lemma NextPageStart(n: nat, limit: int)
    requires n >= 1 && limit >= 1
    ensures 0 <= (n - 1) * limit && (n - 1) * limit + limit == n * limit
  {
    MulMonotone(0, n - 1, limit);
  }

  /** Each page of the same request is cut from the same sorted list. */
  lemma {:induction false} PagesUpToAreSlicePages(data: Dataset, p: Params, collate: Collation, n: nat)
    ensures PagesUpTo(data, p, collate, n) == SlicePages(Ordered(data, p, collate), p.limit, n)
  {
    if n > 0 {
      var ordered := Ordered(data, p, collate);
      calc {
        PagesUpTo(data, p, collate, n);
        PagesUpTo(data, p, collate, n - 1) + Answer(data, p.(page := n), collate).matches;
        { PagesUpToAreSlicePages(data, p, collate, n - 1); NthPage(data, p, collate, n); }
        SlicePages(ordered, p.limit, n - 1) + Slice(ordered, (n - 1) * p.limit, (n - 1) * p.limit + p.limit);
        SlicePages(ordered, p.limit, n);
      }
    }
  }

  /** Page `n` of a request is the `n`-th slice of `limit` records of its sorted list. */
  lemma NthPage(data: Dataset, p: Params, collate: Collation, n: nat)
    ensures Answer(data, p.(page := n), collate).matches
         == Slice(Ordered(data, p, collate), (n - 1) * p.limit, (n - 1) * p.limit + p.limit)
  {
    var q := p.(page := n);
    assert SearchTerm(q) == SearchTerm(p) && SortKey(q) == SortKey(p);
    assert StartIndex(q) == (n - 1) * p.limit;
  }

  /**
   * Paging through `totalPages` pages of a request with a positive limit
   * returns every filtered, sorted record exactly once, in order.
   */
  lemma PagesCoverAll(data: Dataset, p: Params, collate: Collation)
    requires p.limit >= 1
    ensures Answer(data, p, collate).totalPages.Some? && Answer(data, p, collate).totalPages.value >= 0
    ensures PagesUpTo(data, p, collate, Answer(data, p, collate).totalPages.value) == Ordered(data, p, collate)
  {
    var ordered := Ordered(data, p, collate);
    TotalPagesIsCeiling(|ordered|, p.limit);
    var pages := Answer(data, p, collate).totalPages.value;
    PagesUpToAreSlicePages(data, p, collate, pages);
    SlicePagesArePrefix(ordered, p.limit, pages);
    assert ordered[..|ordered|] == ordered;
  }

  /** A record survives the filters exactly when it is wanted; survivors keep dataset order. */
  lemma AnswerSelection(data: Dataset, p: Params, m: MatchRecord)
    ensures m in Selected(RecordsOf(data), p) <==> m in RecordsOf(data) && Wanted(m, p)
    ensures multiset(Selected(RecordsOf(data), p))[m]
         == if Wanted(m, p) then multiset(RecordsOf(data))[m] else 0
    ensures IsSubsequence(Selected(RecordsOf(data), p), RecordsOf(data))
  {
    var records := RecordsOf(data);
    var byLeague := ByLeague(records, p.league);
    var search := SearchTerm(p);
    if p.league.Some? && p.league.value != "" {
      FilterMembership(records, LeagueFilter(p.league.value), m);
      FilterMultiplicity(records, LeagueFilter(p.league.value), m);
      FilterIsSubsequence(records, LeagueFilter(p.league.value));
    } else {
      SubsequenceOfItself(records);
    }
    if search.Some? && search.value != "" {
      FilterMembership(byLeague, SearchFilter(search.value), m);
      FilterMultiplicity(byLeague, SearchFilter(search.value), m);
      FilterIsSubsequence(byLeague, SearchFilter(search.value));
      IsSubsequenceTransitive(Selected(records, p), byLeague, records);
    }
  }

  /** The league filter ignores the ASCII case of the `league` parameter. */
  lemma LeagueFilterIgnoresCase(m: MatchRecord, x: string, y: string)
    requires EqualIgnoringAsciiCase(x, y)
    ensures LeagueMatches(m, x) <==> LeagueMatches(m, y)
  {
    LowerEqualIff(x, y);
  }

  /**
   * Sorting `records` by `sort` gives a permutation of them, ordered by `ts`
   * (missing as 0) for `time`, by the string comparison of the text field
   * (missing as "") for `league`, `home` and `away` when that comparison is
   * consistent, and left as it is for any other key.
   */
  lemma SortRecordsOrder(records: seq<MatchRecord>, sort: string, collate: Collation)
    ensures multiset(SortRecords(records, sort, collate)) == multiset(records)
    ensures sort == "time" ==> forall i, j :: 0 <= i < j < |records| ==>
      TsOrZero(SortRecords(records, sort, collate)[i]) <= TsOrZero(SortRecords(records, sort, collate)[j])
    ensures TextSort(sort) && ConsistentCollation(collate) ==> forall i, j :: 0 <= i < j < |records| ==>
      collate(KeyText(sort, SortRecords(records, sort, collate)[i]),
              KeyText(sort, SortRecords(records, sort, collate)[j])) <= 0
    ensures sort != "time" && !TextSort(sort) ==> SortRecords(records, sort, collate) == records
  {
    var le := Order(sort, collate);
    SortIsPermutation(records, le);
    if !TextSort(sort) || ConsistentCollation(collate) {
      CompareIsTotalPreorder(sort, collate);
      SortIsSorted(records, le);
    }
    if sort != "time" && !TextSort(sort) {
      SortKeepsOrderWhenAllTie(records, le);
    }
  }

  /**
   * The sorted list is a permutation of the filtered list, ordered by the
   * comparator: by `ts` (missing as 0) for `time`, by the string comparison
   * of the text field (missing as "") for `league`, `home` and `away` when
   * that comparison is consistent; any other sort keeps the filtered order.
   */
  lemma AnswerOrder(data: Dataset, p: Params, collate: Collation)
    ensures multiset(Ordered(data, p, collate)) == multiset(Selected(RecordsOf(data), p))
    ensures SortKey(p) == "time" ==> forall i, j :: 0 <= i < j < |Ordered(data, p, collate)| ==>
      TsOrZero(Ordered(data, p, collate)[i]) <= TsOrZero(Ordered(data, p, collate)[j])
    ensures TextSort(SortKey(p)) && ConsistentCollation(collate) ==>
      forall i, j :: 0 <= i < j < |Ordered(data, p, collate)| ==>
        collate(KeyText(SortKey(p), Ordered(data, p, collate)[i]), KeyText(SortKey(p), Ordered(data, p, collate)[j])) <= 0
    ensures SortKey(p) != "time" && !TextSort(SortKey(p)) ==> Ordered(data, p, collate) == Selected(RecordsOf(data), p)
  {
    SortRecordsOrder(Selected(RecordsOf(data), p), SortKey(p), collate);
  }

  /** The sort is stable: records that tie under the comparator keep their filtered order. */
  lemma AnswerStable(data: Dataset, p: Params, collate: Collation, key: MatchRecord)
    requires TextSort(SortKey(p)) ==> ConsistentCollation(collate)
    ensures TiedWith(Ordered(data, p, collate), Order(SortKey(p), collate), key)
         == TiedWith(Selected(RecordsOf(data), p), Order(SortKey(p), collate), key)
  {
    CompareIsTotalPreorder(SortKey(p), collate);
    SortIsStable(Selected(RecordsOf(data), p), Order(SortKey(p), collate), key);
  }

  /**
   * `leagueStats` is present exactly when `includeStats` is the string
   * "true", and then counts every non-empty league over the whole dataset,
   * whatever the filters.
   */
  lemma AnswerStats(data: Dataset, p: Params, collate: Collation)
    ensures Answer(data, p, collate).leagueStats.Some? <==> p.includeStats == Some("true")
    ensures Answer(data, p, collate).leagueStats.Some? ==>
      forall name :: name in Answer(data, p, collate).leagueStats.value
        <==> name != "" && LeagueCount(RecordsOf(data), name) > 0
    ensures Answer(data, p, collate).leagueStats.Some? ==>
      forall name :: name in Answer(data, p, collate).leagueStats.value
        ==> Answer(data, p, collate).leagueStats.value[name] == LeagueCount(RecordsOf(data), name)
  {
    LeagueStatsCounts(RecordsOf(data));
  }

  /** Two requests over the same data that both ask for statistics get the same statistics. */
  lemma StatsIgnoreFilters(data: Dataset, p: Params, q: Params, collate: Collation)
    requires StatsRequested(p) && StatsRequested(q)
    ensures Answer(data, p, collate).leagueStats == Answer(data, q, collate).leagueStats
  {
  }

  /**
   * A dataset without records (or without a `matches` array) answers every
   * request with an empty page, `total` 0, `totalPages` 0 (`null` for a
   * zero limit) and, when asked for, empty statistics.
   */
  lemma AnswerEmpty(data: Dataset, p: Params, collate: Collation)
    requires RecordsOf(data) == []
    ensures Answer(data, p, collate).total == 0
    ensures Answer(data, p, collate).totalPages == if p.limit == 0 then None else Some(0)
    ensures Answer(data, p, collate).matches == [] && Answer(data, p, collate).count == 0
    ensures StatsRequested(p) ==> Answer(data, p, collate).leagueStats == Some(map[])
  {
    assert CountedLeagues([]) == {};
  }
}
