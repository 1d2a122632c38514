# Sports fixtures browser — verified model of its core

The application lists football (and other) fixtures read from a JSON
dataset. Its core is:

- the `GET /api/matches` handler, which counts matches per league over the
  whole dataset, filters by league and by a search term, sorts stably by
  kickoff time or by a text field, and cuts one page out of the result;
- the home page's client state: the infinite-scroll list of matches, the
  league selector that resets the paging, and the ranking of leagues by
  match count shown five at a time;
- the search overlay's effect, which suggests featured leagues whose names
  contain the term and derives the other leagues from the matches the
  handler returns;
- the match card's derived values: team initials, live/finished/upcoming
  status, and the slug of the match page.

The model is written in Dafny. Modules:

| module | file | models |
|---|---|---|
| `Wrappers` | `wrappers.dfy` | `Option` (a missing JSON field, `undefined`) |
| `Text` | `text.dfy` | `toLowerCase`/`toUpperCase` (ASCII letters), `includes`, `replace(/\s+/g, '-')` |
| `Sequences` | `sequences.dfy` | `filter`, `Array.from(new Set(...))`, subsequences |
| `Sorting` | `sorting.dfy` | the stable `Array.prototype.sort`: an insertion-sort specification and an in-place array sort proved equal to it |
| `Records` | `records.dfy` | the match record and its fallbacks for missing fields |
| `MatchesRoute` | `route.dfy` | the handler: `Answer` specifies a request, the method `Get` computes it |
| `HomePage` | `home.dfy` | class `Home`, one field per piece of React state |
| `SearchSuggestions` | `search_overlay.dfy` | class `SearchOverlay` and the league suggestions |
| `MatchCard` | `match_card.dfy` | initials, status, slug |

Facts about the handler that the model keeps as the code has them:

- The league filter compares lower-cased names only; it does no accent
  folding. A record's league matches when, lower-cased, it equals the
  lower-cased parameter either as it is or with each whitespace run turned
  into one hyphen.
- The handler has no date filter.
- A zero or negative `page` or `limit` goes through `slice` and `Math.ceil`
  unchanged. A negative start counts back from the end of the list, and a
  zero limit gives an empty page and a `null` page count.
- An empty dataset answers with `totalPages` 0, or `null` when the limit is 0.
- The statistics are taken over the whole dataset, whatever the filters.
- `localeCompare` is a parameter of the model. The sort's order and
  stability are proved for every string comparison that is consistent:
  swapping the arguments flips the sign, and "not after" is transitive.
  Code-point order is proved to be one such comparison.

## Model

| member | source | states |
|---|---|---|
| Text.Lower | app/api/matches/route.ts:9 | `toLowerCase` keeps the length, leaves no upper-case ASCII letter, maps each upper-case letter to the letter 32 code points later, and changes nothing else |
| Text.Upper | components/match-card.tsx:38 | `toUpperCase` keeps the length, leaves no lower-case ASCII letter, maps each lower-case letter to the letter 32 code points earlier, and changes nothing else |
| Text.LowerEqualIff | app/api/matches/route.ts:34-35 | two strings lower-case to the same text exactly when they agree character by character up to ASCII case |
| Text.UpperEqualIff | components/match-card.tsx:38 | two strings upper-case to the same text exactly when they agree character by character up to ASCII case |
| Text.Contains | app/api/matches/route.ts:41-43 | `includes` is true exactly when the term occurs at some position of the text |
| Text.HyphenateWhitespace | app/api/matches/route.ts:34 | `replace(/\s+/g, '-')` leaves no whitespace, is the identity on text without whitespace, and never lengthens |
| Text.HyphenateRun | app/api/matches/route.ts:34 | a maximal whitespace run of any length after text without whitespace becomes exactly one `-`, the text before it is kept, and the rest is processed alike |
| Sequences.FilterMembership | app/api/matches/route.ts:33-44 | an element is kept by `filter` exactly when it occurs in the input and satisfies the predicate |
| Sequences.FilterMultiplicity | app/api/matches/route.ts:33-44 | a kept element keeps all its occurrences; a rejected one keeps none |
| Sequences.FilterIsSubsequence | app/api/matches/route.ts:33-44 | `filter` keeps the relative order of the input |
| Sequences.FilterNoDuplicates | components/search-overlay.tsx:98-101 | filtering a list without repeats gives a list without repeats |
| Sequences.IsSubsequenceTransitive | app/api/matches/route.ts:32-45 | two filters in a row still keep dataset order |
| Sequences.Dedup | components/search-overlay.tsx:97 | `Array.from(new Set(xs))` has no repeats, holds only elements of `xs`, and holds every element of `xs` |
| Sequences.DedupFirstOccurrenceOrder | components/search-overlay.tsx:97 | the distinct values come in the order of their first occurrences |
| Sorting.SortIsPermutation | app/api/matches/route.ts:48-54 | sorting only reorders: same multiset |
| Sorting.SortIsSorted | app/api/matches/route.ts:48-54 | for a total preorder, every earlier element may precede every later one |
| Sorting.SortIsStable | app/api/matches/route.ts:48-54 | elements that compare equal keep their relative order |
| Sorting.SortKeepsOrderWhenAllTie | app/api/matches/route.ts:53 | a comparator that always returns 0 leaves the list unchanged |
| Sorting.InsertIntoPrefix | app/api/matches/route.ts:48 | one in-place insertion step places the next element as the specification's `Insert` does and leaves the rest of the array alone |
| Sorting.SortInPlace | app/api/matches/route.ts:48-54 | sorting the array in place yields exactly the stable insertion sort of its old contents |
| MatchesRoute.LeagueCount | app/api/matches/route.ts:24-28 | a league's count never exceeds the number of records |
| MatchesRoute.LeagueCountPositive | app/api/matches/route.ts:24-28 | a league's count is positive exactly when some record names it |
| MatchesRoute.LeagueStatsCounts | app/api/matches/route.ts:22-29 | the statistics have a key for exactly the non-empty leagues that occur, each mapped to its number of records |
| MatchesRoute.CountLeagues | app/api/matches/route.ts:22-29 | the counting loop builds exactly those statistics |
| MatchesRoute.CodePointCompare | app/api/matches/route.ts:50-52 | a consistent string comparison (code-point order, not a locale's collation) that shows `ConsistentCollation` can be met: it returns -1, 0 or 1, and 0 exactly for equal strings |
| MatchesRoute.CodePointCompareAntisymmetric | app/api/matches/route.ts:50-52 | swapping the arguments of the code-point comparison negates the result |
| MatchesRoute.CodePointCompareTransitive | app/api/matches/route.ts:50-52 | "not after" is transitive under code-point order |
| MatchesRoute.CodePointOrderIsConsistent | app/api/matches/route.ts:50-52 | code-point order is a consistent string comparison, so every sorting property below holds for it |
| MatchesRoute.CompareIsTotalPreorder | app/api/matches/route.ts:48-54 | every comparator the handler can pick, including the unknown-key `return 0`, is total and transitive, given a consistent `localeCompare` for the text keys |
| MatchesRoute.TiedMeansSameKey | app/api/matches/route.ts:48-54 | two records tie exactly when their `ts` (missing as 0) are equal, or `localeCompare` of their text keys (missing as "") returns 0; under an unknown key all records tie |
| MatchesRoute.SortRecordsOrder | app/api/matches/route.ts:48-54 | the sort permutes the list, ascending by `ts` for `time`, ascending by a consistent `localeCompare` of the text key for `league`, `home` and `away`, and unchanged for any other key |
| MatchesRoute.TotalPagesIsCeiling | app/api/matches/route.ts:67 | for a positive limit, `totalPages` is the least number of pages that holds every record |
| MatchesRoute.TotalPages | app/api/matches/route.ts:67 | `Math.ceil(total / limit)` in the JSON body is `null` exactly for a zero limit, never negative for a positive limit, and never positive for a negative one |
| MatchesRoute.ApplyFilters | app/api/matches/route.ts:31-45 | reassigning the list through the enabled filters yields the selected records |
| MatchesRoute.SortMatches | app/api/matches/route.ts:47-54 | sorting a fresh array in place yields the specified sorted list |
| MatchesRoute.Get | app/api/matches/route.ts:7-70 | the handler returns exactly the specified envelope for every dataset, every parameter value and every string comparison |
| MatchesRoute.Answer | app/api/matches/route.ts:19-70 | the specified envelope: `count` is the length of the page, never more than `total`, and never more than a non-negative `limit` |
| MatchesRoute.AnswerPage | app/api/matches/route.ts:56-66 | for positive page and limit, `total` counts the filtered records, the page is the run starting at `(page - 1) * limit` with at most `limit` records, it is empty past the end, and `count` is its length |
| MatchesRoute.AnswerUnusualPaging | app/api/matches/route.ts:57-67 | a zero limit gives an empty page and a `null` page count; page 0 gives an empty page |
| MatchesRoute.AnswerNegativePage | app/api/matches/route.ts:58-59 | a negative page returns the `limit` records that end `-page * limit` records before the end of the sorted list |
| MatchesRoute.AnswerTotalPages | app/api/matches/route.ts:67 | `totalPages` is the ceiling of `total / limit`, zero exactly when nothing matched, and `page < totalPages` exactly when records lie beyond the page |
| MatchesRoute.PagesCoverAll | app/api/matches/route.ts:56-67 | requesting pages 1 to `totalPages` with the same positive limit returns every filtered, sorted record exactly once, in order |
| MatchesRoute.SlicePagesArePrefix | app/api/matches/route.ts:58-59 | the first `n` slices of `limit` records are the first `n * limit` records |
| MatchesRoute.AnswerSelection | app/api/matches/route.ts:31-45 | a record survives exactly when it matches every enabled filter, with its multiplicity kept, in dataset order |
| MatchesRoute.LeagueFilterIgnoresCase | app/api/matches/route.ts:32-36 | two `league` parameters equal up to ASCII case select the same records |
| MatchesRoute.LeagueMatches | app/api/matches/route.ts:33-36 | the league filter: the lower-cased league, hyphenated or as it is, equals the lower-cased parameter; a record without a league never matches |
| MatchesRoute.SearchMatches | app/api/matches/route.ts:39-45 | the search filter: the lower-cased home, away or league name contains the lower-cased term |
| MatchesRoute.Compare | app/api/matches/route.ts:48-54 | the comparator: `ts` difference, `localeCompare` of a text field, or 0 |
| MatchesRoute.SortKey | app/api/matches/route.ts:12 | the sort key is never empty: the requested one, or `time` when it is missing or empty |
| MatchesRoute.AnswerOrder | app/api/matches/route.ts:47-54 | the sorted list is a permutation of the filtered one, ascending by `ts` (missing as 0), or by a consistent `localeCompare` of the text key (missing as ""), and unchanged for an unknown key |
| MatchesRoute.AnswerStable | app/api/matches/route.ts:48-54 | records that tie under the comparator keep their filtered order, for a consistent `localeCompare` |
| MatchesRoute.AnswerStats | app/api/matches/route.ts:21-29 | statistics are present exactly when `includeStats` is the string `true`, and they then count every non-empty league of the whole dataset |
| MatchesRoute.LeagueStats | app/api/matches/route.ts:22-29 | every key of the statistics is a non-empty league name whose count is at least 1 and at most the number of records |
| MatchesRoute.StatsIgnoreFilters | app/api/matches/route.ts:21-37 | two requests that ask for statistics over the same data get the same statistics, whatever their filters, sort and page |
| MatchesRoute.AnswerEmpty | app/api/matches/route.ts:19-68 | without records: total 0, an empty page, `totalPages` 0 (`null` for a zero limit), and empty statistics when asked for |
| HomePage.RankLeaguesOrdered | app/page.tsx:74 | the league ranking is a permutation of the entries, by count from highest to lowest, with equal counts in entry order |
| HomePage.RankLeagues | app/page.tsx:74 | `Object.entries(leagueStats).sort((a, b) => b[1] - a[1])` as the stable sort of the entries by descending count |
| HomePage.MoreAvailable | app/page.tsx:51 | `data.page < data.totalPages`, false when either is missing |
| HomePage.HasMoreMeansRecordsBeyond | app/page.tsx:51 | against the handler's answer, `hasMore` is set exactly when records lie beyond the received page |
| HomePage.Home.constructor | app/page.tsx:14-72 | the initial values of the `useState` calls on lines 14-20 and 72: no matches, loading, page 1, more to load, no statistics, league `all`, five leagues visible |
| HomePage.Request | app/page.tsx:40-41 | the request asks for the given page, 12 records and the statistics, filters by `slugify(activeLeague)` exactly when a league other than `all` is selected, and sends no search and no sort |
| HomePage.RequestAnswer | app/page.tsx:40-51 | for any dataset the handler answers the page's request with the requested page, limit 12, kickoff-time order and the statistics of the whole dataset, so a first page always replaces the statistics; with no league selected every record counts towards `total` |
| HomePage.RankingCountsLeagues | app/page.tsx:46-74 | when the entries are the pairs of the handler's statistics, the ranking lists every league some record names, once, with the number of records naming it, by descending count |
| HomePage.PermutedEntries | app/page.tsx:74 | sorting the pairs of `leagueStats` leaves exactly the pairs of `leagueStats`, each name once |
| HomePage.Home.BeginFetch | app/page.tsx:35-41 | the request goes out for the league and page in state, which the closure keeps; page 1 turns on the full loader, later pages the small one |
| HomePage.Home.Receive | app/page.tsx:44-56 | decided by the page the request was sent for, not the page in state: page 1 replaces the matches (and the statistics when present); later pages append; `hasMore` is `page < totalPages`, false when either is missing; both loaders stop |
| HomePage.Home.FetchFailed | app/page.tsx:52-57 | a failed fetch only stops the loaders |
| HomePage.Home.Intersect | app/page.tsx:23-32 | reaching the last card advances the page by one exactly when there is more and nothing is loading |
| HomePage.Home.SelectLeagueAsWritten | app/page.tsx:34-68 | a different league sends a request for the new league at the old page, then resets to page 1 with no matches and more to load, and, when the page was not 1, sends a second request for page 1; the same league changes nothing |
| HomePage.Home.SelectLeague | app/page.tsx:63-68 | a different league resets to page 1 with no matches and more to load, and only then sends its one request, for page 1 of the new league; the same league changes nothing |
| HomePage.StaleAnswerStopsScrolling | app/page.tsx:34-68 | after a league change from page 3 or later to a league with fewer pages, a late answer to the old-page request leaves the first 12 of more records shown with `hasMore` false |
| HomePage.LeagueChangeKeepsScrolling | app/page.tsx:63-68 | with the reset done before the fetch, the same league change shows the first 12 records with `hasMore` true |
| HomePage.Home.DisplayedLeagues | app/page.tsx:74-75 | the displayed leagues are the first `min(visibleCount, n)` of the ranking, by descending count |
| HomePage.Home.HasMoreLeaguesToLoad | app/page.tsx:76 | more leagues remain while fewer than all of them are visible |
| HomePage.Home.LoadMore | app/page.tsx:78-80 | five more leagues become visible, never more than there are; nothing is left to load exactly when all are shown |
| SearchSuggestions.EliteLeaguesSpec | components/search-overlay.tsx:85-87 | a featured league is suggested exactly when its lower-cased name contains the lower-cased term, in list order |
| SearchSuggestions.EliteLeagues | components/search-overlay.tsx:85-87 | the featured leagues whose lower-cased name contains the lower-cased term |
| SearchSuggestions.DistinctLeagues | components/search-overlay.tsx:97 | the distinct leagues have no repeats, each is some match's league, and every match's league is among them |
| SearchSuggestions.OtherLeaguesDefined | components/search-overlay.tsx:97-101 | deriving the other leagues succeeds exactly when every fetched match has a league (otherwise `toLowerCase` of `undefined` throws) |
| SearchSuggestions.OtherLeaguesDistinct | components/search-overlay.tsx:97-101 | the other leagues have no repeats and appear in order of first appearance |
| SearchSuggestions.OtherLeaguesMembership | components/search-overlay.tsx:97-101 | a name is another league exactly when a fetched match has it, it is not a featured name, and it contains the term |
| SearchSuggestions.OtherLeaguesAreNotElite | components/search-overlay.tsx:99 | no league appears both as featured and as another league |
| SearchSuggestions.OtherLeagues | components/search-overlay.tsx:97-101 | the distinct fetched leagues that are not featured and contain the term, or nothing when a league is missing and `toLowerCase` throws |
| SearchSuggestions.SearchOverlay.constructor | components/search-overlay.tsx:23-25 | the initial state: no matches, not loading, no suggestions |
| SearchSuggestions.SearchOverlay.Search | components/search-overlay.tsx:80-114 | a term of two or more characters starts loading and keeps the results; a shorter term clears matches and suggestions and stops loading |
| SearchSuggestions.SearchOverlay.Respond | components/search-overlay.tsx:92-105 | the fetched matches are shown; the suggestions become the featured and other leagues for the term when they can be derived, and are kept otherwise; loading stops |
| SearchSuggestions.SearchOverlay.Fail | components/search-overlay.tsx:106-109 | a failed request only stops loading |
| MatchCard.Words | components/match-card.tsx:38 | `split(' ')` yields at least one piece and no piece contains a space |
| MatchCard.JoinWords | components/match-card.tsx:38 | joining the pieces with single spaces gives back the name |
| MatchCard.HeadsAreWordStarts | components/match-card.tsx:38 | the first characters of the pieces are exactly the characters that begin a word of the name |
| MatchCard.NoWordStartsWhenBlank | components/match-card.tsx:38 | no character begins a word exactly when the name is all spaces |
| MatchCard.Initials | components/match-card.tsx:38-39 | initials are one or two characters with no lower-case letter |
| MatchCard.InitialsOfName | components/match-card.tsx:38-39 | initials are `?` for a missing or all-space name, and otherwise the upper-cased first two word starts |
| MatchCard.StatusIsExclusive | components/match-card.tsx:42-45 | a match with a truthy `ts` is exactly one of live, finished and upcoming; one without is none |
| MatchCard.IsLive | components/match-card.tsx:43 | a truthy `ts` with `now` from kickoff to two hours after it |
| MatchCard.IsFinished | components/match-card.tsx:44 | a truthy `ts` with `now` more than two hours after kickoff |
| MatchCard.IsUpcoming | components/match-card.tsx:45 | a truthy `ts` with `now` before kickoff |
| MatchCard.NatText | components/match-card.tsx:47 | the decimal text of the kickoff time is non-empty digits without a leading zero |
| MatchCard.ParseNatText | components/match-card.tsx:47 | reading the decimal text back gives the number |
| MatchCard.MatchSlug | components/match-card.tsx:47 | `league/home-vs-away-ts`, each name slugified after the `match`, `home` and `away` fallbacks |
| MatchCard.SlugEndsWithKickoff | components/match-card.tsx:47 | whatever `slugify` does, the part of the slug after its last `-` is the kickoff time in decimal |
| MatchCard.SlugWithoutKickoff | components/match-card.tsx:47 | a match without `ts` links to a slug ending in `-undefined` |

## Left out

- Reading and parsing `response.json` are not modelled. The parsed dataset is a parameter, and the 500 response for a failed read is left out.
- `parseInt` of `page` and `limit` is not modelled. A non-numeric value gives `NaN` in the source; the model takes integers.
- `localeCompare` is a parameter. Collation tables are not modelled; code-point order is a consistent comparison proved to meet `ConsistentCollation`, not the locale's order.
- MatchesRoute.AnswerStable: stated for a consistent `localeCompare` when a text key is sorted on. ECMAScript leaves the order for an inconsistent comparator to the implementation.
- MatchesRoute.AnswerOrder: the text-key ordering clause is stated for a consistent `localeCompare`, for the same reason; the permutation and the other keys need no assumption.
- MatchesRoute.AnswerStats: the statistics are a map, not a plain JavaScript object. A league named `__proto__` becomes no key in the source, and a league named after an inherited property (`constructor`, `toString`, `valueOf`, `hasOwnProperty`, ...) starts from that function, so its value becomes a string such as `function Object() { [native code] }1`. The model counts every such name like any other.
- MatchCard.SlugWithoutKickoff: a field is either present or missing. JSON `null` is not told apart from a missing field, so a `ts` of `null`, which the source writes as `-null`, reads as missing here and gives `-undefined`.
- `toLowerCase`/`toUpperCase` are modelled on ASCII letters only.
- Strings are sequences of characters, not UTF-16 code units, so `length` and `slice` of surrogate pairs are not modelled.
- `slugify` is an uninterpreted parameter. `lib/utils` is not part of this model.
- The featured-league list (`TOP_LEAGUES` in `lib/constants`) is a parameter.
- `fetch`, `await`, timers, the debounce, URL updates, the router and the `IntersectionObserver` are not modelled. Each response or event is a method call.
- HomePage.Home.Intersect: the guard of the observer callback is modelled. The lifetime of observers created by earlier renders, with their stale `hasMore`, is not.
- SearchSuggestions.SearchOverlay.Respond: a late response for an older term is applied like any other. The model does not order concurrent requests.
- HomePage.Home.SelectLeague: states the intended order, reset before fetch. The order the page has, with its extra request for the old page, is `HomePage.Home.SelectLeagueAsWritten` (see Findings).
- HomePage.Home.Receive: the statistics arrive as a sequence of `[name, count]` entries. `EntriesOf` ties their names and counts to the statistics; their order, which `Object.entries` gives with integer-like keys first, is taken as given.
- MatchCard.SlugEndsWithKickoff: stated for a non-negative `ts`. For a negative one the sign's `-` is the last hyphen, and very large numbers in exponent form are not modelled.
- `highlightText` and the presentational components (hero, header, footer, skeletons, theme) are not modelled. They carry no logic the handler or the state depends on.

## Findings

| source | as written | input that shows it | evidently intended | confidence | as-written member | corrected member |
|---|---|---|---|---|---|---|
| app/page.tsx:34-68 | the league buttons only set `activeLeague`; the fetch effect, declared first, runs with the new league and the old page before the reset effect sets page 1, and `fetchMatches` decides replace or append and `hasMore` from that old page | on page 3, select a league with 13 to 24 matches; the page-1 answer arrives before the answer for page 3 of the new league, which is empty and has `totalPages` 2, so it appends nothing and sets `hasMore` to false with 12 of the matches shown | a league change fetches page 1 of the new league only, so scrolling goes on to the rest | not executed | HomePage.StaleAnswerStopsScrolling | HomePage.LeagueChangeKeepsScrolling |
