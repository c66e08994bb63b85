# PAT Ranked Stats — verified model of the query-routing core

PAT Ranked Stats is a read-only dashboard over a libSQL table of ranked match
records. Almost all of it builds SQL text or renders pages. This project models
the logic that sits around the SQL:

- **Season filters** (`lib/seasons.ts`). The static season table, and how a
  request's `season` / `from` / `to` parameters resolve to a date filter. Also
  the half-open `AND date >= ? AND date < ?` clause appended to a query, whose
  values are pushed onto a shared argument list.
- **Player search endpoint** (`app/api/search/route.ts`). Which lookup a query
  takes: none, exact Steam ID, or by name. Also the `IN (?,?,…)` placeholder
  list, the id-to-match-count map built by a loop, and the merge that joins
  counts onto profile rows, drops players without matches, ranks them and keeps
  twenty.
- **Home-page search box** (`app/page.tsx`). Extracting a Steam ID from a
  pasted profile URL, and deciding whether a query clears the results, goes
  straight to a player page, or is searched for.
- **Leaderboard endpoint** (`app/api/leaderboards/route.ts`). Which ranking a
  `type` selects, its minimum-match threshold, its sort column, and the page
  window `offset = (page - 1) * 50`.
- **Leaderboards page** (`app/leaderboards/page.tsx`). The tab/page state with
  its Prev and Next buttons, the fetch life cycle, row numbering, and the BAN
  badge.

Database results are inputs. In the search endpoint the database is a record of
lookup functions, one per query the handler can issue. The handler returns its
response together with the queries it issued, so "no lookup" and "fallback only
when no profile matched" can be stated.

JavaScript strings are sequences of UTF-16 code units. Here a string is a
`seq<char>` of Unicode scalar values, and `.length` is modelled explicitly as
`JsStrings.Utf16Length`: a character outside the Basic Multilingual Plane counts
twice. `trim()` removes exactly JavaScript's WhiteSpace and LineTerminator code
points. String order (season bounds, `date >= ?`) is code-point order. That is
SQLite's BINARY collation on UTF-8, and JavaScript `<` on the ASCII dates used.

Files: `wrappers.dfy` (Option), `js_strings.dfy` (string semantics),
`seasons.dfy`, `search_route.dfy`, `home_page.dfy`, `leaderboards_route.dfy`,
`leaderboards_page.dfy`, and `search_flow.dfy` (how the search box and the
endpoint fit together).

## Model

| member | source | states |
|---|---|---|
| `JsStrings.Trim` | app/page.tsx:57 | `trim()` keeps a contiguous slice; everything removed is whitespace, and what is kept neither starts nor ends with whitespace |
| `JsStrings.Utf16Length` | app/page.tsx:61 | `.length` counts UTF-16 code units: between `\|s\|` and `2\|s\|` |
| `Seasons.KnownSeasonsContiguous` | lib/seasons.ts:2-8 | every known season starts before it ends, and each ends on the date the next one starts |
| `Seasons.SeasonsPartition` | lib/seasons.ts:3-7 | in a contiguous table, every date from the first start up to the last end lies in exactly one season |
| `Seasons.FindSeason` | lib/seasons.ts:17 | `find` returns the first entry with the id, and none exactly when no entry has it |
| `Seasons.GetSeasonFilter` | lib/seasons.ts:10-21 | a non-empty `from`/`to` pair is returned verbatim and `season` is ignored; otherwise a known season yields its first matching entry's bounds; otherwise the filter is empty. A lone `from` or `to` is ignored. The result has both bounds or neither |
| `Seasons.SeasonResolves` | lib/seasons.ts:16-18 | a known season id resolves to exactly that season's bounds, whatever a lone `from` or `to` says |
| `Seasons.DateArgs` | lib/seasons.ts:25-26 | the values pushed are `fromDate` then `toDate`, each only if set (non-empty) |
| `Seasons.DateClause` | lib/seasons.ts:24-27 | the appended text is `" AND date >= ?"` exactly when `from` is set, then `" AND date < ?"` exactly when `to` is set, with one `?` per value pushed |
| `Seasons.PlaceholdersMatchArgs` | lib/seasons.ts:25-26 | for any list of conditions, the placeholder count of the text equals the number of bound values |
| `Seasons.HalfOpen` | lib/seasons.ts:25-26 | a filter with both bounds admits exactly `from <= date < to`; its upper bound is not admitted |
| `Seasons.SeasonFilterAdmitsOneSeason` | lib/seasons.ts:3-26 | a date inside the known seasons' span passes the filter of exactly one season |
| `Seasons.AppendDateFilter` | lib/seasons.ts:23-28 | the returned SQL is `baseSql` followed by the clause; the argument list is the old list followed by the clause's values |
| `Seasons.QueryArgs.Push` | lib/seasons.ts:25 | `args.push` appends one value and keeps the earlier ones |
| `Seasons.QueryArgs.constructor` | lib/seasons.ts:23 | an argument list starts with the caller's values |
| `HomePage.FindProfileId` | app/page.tsx:54 | the unanchored profile-URL pattern matches at the returned index and at no earlier one; none means no match anywhere |
| `HomePage.ExtractSteamId` | app/page.tsx:52-58 | with a profile URL present, the 17 digits after the leftmost match; otherwise the input trimmed |
| `HomePage.ProfileUrlExtracted` | app/page.tsx:54-55 | any text may precede the URL and any text, digits included, may follow its 17 digits |
| `HomePage.ExampleUrl` | app/page.tsx:53-55 | the URL from the page's own comment, with extra digits after the ID, yields that ID |
| `HomePage.Search` | app/page.tsx:60-73 | fewer than two code units (untrimmed) clears the results, and nothing else does; a navigation goes to `/player/<id>` for a 17-digit id that differs from the trimmed query; any search is issued with the extracted string |
| `HomePage.NavigatesIffProfileUrl` | app/page.tsx:62-67 | the page navigates exactly when the query holds a profile URL, to the ID of the leftmost one |
| `HomePage.BareIdIsSearched` | app/page.tsx:64-69 | a bare 17-digit ID, padded or not, is searched for, not navigated to |
| `HomePage.MatchSurvivesTrim` | app/page.tsx:64 | a query holding a profile URL is never all digits once trimmed, so it differs from any extracted ID |
| `SearchRoute.RouteOf` | app/api/search/route.ts:7-11 | no lookup exactly when `q` is missing or shorter than two code units trimmed; the exact-id branch exactly for 10 to 17 digits; otherwise a name search on `%q%` |
| `SearchRoute.Placeholders` | app/api/search/route.ts:36 | `?` at every even position and `,` at every odd one, `2n-1` characters for `n` ids |
| `SearchRoute.PlaceholderCounts` | app/api/search/route.ts:36 | `n` question marks and `n-1` commas |
| `SearchRoute.CountMapOf` | app/api/search/route.ts:44-45 | an id has an entry exactly when some count row carries it |
| `SearchRoute.CountMapLastWins` | app/api/search/route.ts:45 | an id's entry is the count of the last row carrying it |
| `SearchRoute.BuildCountMap` | app/api/search/route.ts:44-45 | the `forEach` loop builds exactly `CountMapOf` |
| `SearchRoute.EnrichAll` | app/api/search/route.ts:47-53 | row `i` carries profile row `i`'s id, name and avatar and the map's count for that id, or 0 |
| `SearchRoute.Positive` | app/api/search/route.ts:54 | a row is kept exactly when its count is positive |
| `SearchRoute.PositiveKeepsTies` | app/api/search/route.ts:54 | the filter keeps rows in input order: for a positive count it keeps all rows with that count, in order, and it keeps none with a count of 0 or less |
| `SearchRoute.Insert` | app/api/search/route.ts:55 | inserting adds the element and loses none |
| `SearchRoute.SortByMatches` | app/api/search/route.ts:55 | the sort is a permutation of its input |
| `SearchRoute.SortNonIncreasing` | app/api/search/route.ts:55 | the sort orders by count, highest first |
| `SearchRoute.SortStable` | app/api/search/route.ts:55 | rows with equal counts keep their input order |
| `SearchRoute.TakeOfRanked` | app/api/search/route.ts:56 | cutting a ranked list keeps a sub-multiset, and nothing cut outranks anything kept |
| `SearchRoute.MergeLength` | app/api/search/route.ts:47-56 | the merge returns twenty rows, or every profile row with a positive count when there are fewer |
| `SearchRoute.MergeRowsFromProfiles` | app/api/search/route.ts:47-54 | every returned row has a positive count equal to its id's count, and carries the id, name and avatar of some profile row |
| `SearchRoute.MergeRanked` | app/api/search/route.ts:55-56 | the returned rows have non-increasing counts |
| `SearchRoute.MergeKeepsTop` | app/api/search/route.ts:55-56 | the returned rows are drawn from the candidates, and no candidate left out has a higher count than a returned row |
| `SearchRoute.MergeKeepsCandidateOrder` | app/api/search/route.ts:55-56 | for every count, the rows returned with it are the first of the filtered candidates with it, in their order; with at most twenty candidates they are all of them |
| `SearchRoute.MergeKeepsProfileOrderAmongTies` | app/api/search/route.ts:47-56 | for every positive count, the rows returned with it are the first of the profile rows with it, in profile-row order, and all of them when at most twenty rows have a positive count; no row is returned with a count of 0 or less |
| `SearchRoute.Get` | app/api/search/route.ts:6-72 | a short query issues no query and returns `[]`; an id-like query issues only the exact-id query; otherwise the profile query comes first, then the count query with one placeholder per profile id and the merge when profiles were found, and the feed fallback exactly when none were |
| `LeaderboardsRoute.ParseBoard` | app/api/leaderboards/route.ts:13-60 | exactly `winrate`, `elo`, `active` and `kdr` select a ranking |
| `LeaderboardsRoute.Offset` | app/api/leaderboards/route.ts:9-10 | `(page - 1) * 50`, unclamped: non-negative from page 1, at most -50 below it |
| `LeaderboardsRoute.Get` | app/api/leaderboards/route.ts:6-64 | a missing or empty `type` means `winrate` and a missing `page` means 1; an unrecognised type leaves the SQL text empty (`None`); otherwise limit 50, offset `(page-1)*50`, descending order, and the board's threshold and sort column |
| `LeaderboardsRoute.Thresholds` | app/api/leaderboards/route.ts:13-60 | win rate and KDR need 50 matches, peak ELO 5, activity none; they order by `win_rate`, `kdr`, `peak_elo` and `matches` |
| `LeaderboardsRoute.PagesTile` | app/api/leaderboards/route.ts:9-10 | pages from 1 tile the ranking: each position lies on exactly one page's window |
| `LeaderboardsPage.ShowsBanBadge` | app/leaderboards/page.tsx:34-37 | the badge shows exactly when `vac_banned` is present and non-zero or the game-ban count is positive; a player with no ban record shows none |
| `LeaderboardsPage.RowNumber` | app/leaderboards/page.tsx:74 | row `i` on page `p` is numbered route offset + `i` + 1, and is positive from page 1 |
| `LeaderboardsPage.RowNumbersDistinct` | app/leaderboards/page.tsx:74 | on pages from 1, a row number determines its page and row |
| `LeaderboardsPage.RequestMatchesNumbering` | app/leaderboards/page.tsx:28 | every request the page sends is answered by a ranking for its tab, with a non-negative offset at which the row numbering starts |
| `LeaderboardsPage.LeaderboardView.constructor` | app/leaderboards/page.tsx:21-24 | the page starts on the win-rate tab, page 1, with no rows, loading |
| `LeaderboardsPage.LeaderboardView.SelectTab` | app/leaderboards/page.tsx:47 | a tab click selects that tab and resets the page to 1 |
| `LeaderboardsPage.LeaderboardView.ClickPrev` | app/leaderboards/page.tsx:104-106 | Prev moves back one page, and does nothing on page 1 where it is disabled; the page never drops below 1 |
| `LeaderboardsPage.LeaderboardView.ClickNext` | app/leaderboards/page.tsx:112-114 | Next moves on one page only when the current page returned at least 50 rows |
| `LeaderboardsPage.LeaderboardView.StartFetch` | app/leaderboards/page.tsx:26-28 | the effect sets loading and requests the selected tab and page |
| `LeaderboardsPage.LeaderboardView.Receive` | app/leaderboards/page.tsx:29-30 | a response replaces the rows and stops loading; a body that is not an array counts as no rows |
| `LeaderboardsPage.LeaderboardView.FetchFailed` | app/leaderboards/page.tsx:31 | a failed fetch stops loading and keeps the previous rows |
| `SearchFlow.SentQueryIsTrimmed` | app/page.tsx:69 | what the page sends has no surrounding whitespace, so the endpoint's `trim()` leaves it unchanged |
| `SearchFlow.BareIdTakesExactLookup` | app/page.tsx:62-69 | a bare 17-digit ID typed into the box is searched for, and the endpoint answers it with the exact-id lookup |
| `SearchFlow.PaddedSingleCharacter` | app/page.tsx:61 | the page checks length before trimming and the endpoint after, so `" a"` is sent but looked up nowhere |

## Left out

- SQL execution is not modelled. This covers aggregation, `LIKE` matching, joins, `HAVING`, `ORDER BY`, `LIMIT` and `OFFSET` (app/api/leaderboards/route.ts:13-59, app/api/search/route.ts:12-19, 25-31, 37-43, 62-70). Query results are inputs. Each query is modelled by what it binds and by its threshold and sort column. SQLite's handling of a negative `OFFSET` is not modelled either.
- Executing the empty SQL text left by an unrecognised leaderboard `type` (app/api/leaderboards/route.ts:62) is not modelled. The database error or empty result it gives, and the response the handler then sends, are not part of this model.
- lib/db.ts, app/api/stats/route.ts, app/api/recent-matches/route.ts and app/layout.tsx are not part of this model. They construct the client, fan out counts, cap a limit, and lay out the page.
- Rendering, the home page's initial fetches (app/page.tsx:40-50), and the 300 ms debounce timer (app/page.tsx:75-78) are not part of this model.
- `window.location` navigation and the `fetch` of `/api/search` are side effects. `HomePage.Search` returns them as decision values instead.
- `encodeURIComponent` on the search text is not modelled. The endpoint is taken to receive the string the page sent.
- `parseInt` of `page` is not modelled, nor the NaN it gives for non-numeric text. `page` arrives as an already-parsed integer, or as missing.
- Floating-point ratios and display formatting are not modelled. This covers win rate, KDR, `toFixed` and SQL `ROUND`/`CAST`.
- Steam ids are taken as strings, so `String(r.steam_id)` is the identity. Counts are integers, so `Number(r.matches)` (line 45) is the identity, and `countMap[String(r.steam_id)] || 0` (line 51) is the count, or 0 when the map has no entry. JavaScript object-prototype keys in `countMap` cannot occur for digit ids and are not modelled.
- Leaderboards page: fetch responses that arrive out of order are not modelled. React's batching of `setTab`/`setPage` is not modelled either. The Prev and Next buttons are modelled as doing nothing while disabled.
- Grouping a player's matches into play sessions is not part of this model.
