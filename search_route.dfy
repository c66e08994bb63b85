/**
 * The player search endpoint (app/api/search/route.ts): which lookup a query
 * takes, the `IN (?,?,...)` placeholder list, the steam-id-to-match-count map,
 * and the merge that joins counts onto profile rows, drops players without
 * matches, ranks by match count and keeps the first twenty.
 *
 * Database results are inputs: the database is a set of lookup functions, one
 * per query the handler can issue.
 */
module SearchRoute {
  import opened Wrappers
  import opened JsStrings

  /** A `player_profiles` row: id, persona name and avatar. */
  datatype ProfileRow = ProfileRow(steamId: string, playerName: string, avatarUrl: Option<string>)

  /** A row of the per-player distinct-match count. */
  datatype CountRow = CountRow(steamId: string, matches: int)

  /** An element of the JSON array the endpoint returns. */
  datatype SearchResult = SearchResult(steamId: string, playerName: string, matches: int, avatarUrl: Option<string>)

  /** The lookups the handler can issue, as functions of their bound arguments. */
  datatype Database = Database(
    rowsForId: string -> seq<SearchResult>,        // feed rows for one exact steam_id
    profilesNamed: string -> seq<ProfileRow>,      // profiles whose name is LIKE the pattern
    matchCounts: seq<string> -> seq<CountRow>,     // match counts for a list of ids
    feedRowsNamed: string -> seq<SearchResult>)    // feed players whose name is LIKE the pattern

  /** A query the handler issued, with what it bound to its placeholders. */
  datatype Query =
    | ExactIdQuery(id: string)
    | ProfileNameQuery(pattern: string)
    | MatchCountQuery(placeholders: string, ids: seq<string>)
    | FeedNameQuery(pattern: string)

  /** The response body and the queries issued to produce it, in order. */
  datatype Response = Response(rows: seq<SearchResult>, queries: seq<Query>)

  /** At most this many merged results are returned. */
  const MaxResults: nat := 20

  /** `/^\d{10,17}$/`: ten to seventeen digits and nothing else. */
  predicate LooksLikeSteamId(t: string) {
    10 <= |t| <= 17 && AllDigits(t)
  }

  /** The `LIKE` pattern for a substring search. */
  function NamePattern(t: string): string {
    "%" + t + "%"
  }

  // ---------------------------------------------------------------------------
  // Placeholders

  /** `ids.map(() => "?").join(",")` for `n` ids. */
  function Placeholders(n: nat): (p: string)
    ensures |p| == (if n == 0 then 0 else 2 * n - 1)
    ensures forall i :: 0 <= i < |p| ==> p[i] == (if i % 2 == 0 then '?' else ',')
  {
    if n == 0 then ""
    else if n == 1 then "?"
    else Placeholders(n - 1) + ",?"
  }

  /** One `?` per id, separated by commas. */
  lemma {:induction false} PlaceholderCounts(n: nat)
    ensures Occurrences(Placeholders(n), '?') == n
    ensures Occurrences(Placeholders(n), ',') == (if n == 0 then 0 else n - 1)
  {
    if n > 1 {
      PlaceholderCounts(n - 1);
      OccurrencesAppend(Placeholders(n - 1), ",?", '?');
      OccurrencesAppend(Placeholders(n - 1), ",?", ',');
    }
  }

  // ---------------------------------------------------------------------------
  // The count map

  /** The count map after writing every row in order; a later row for an id overwrites an earlier one. */
  function CountMapOf(rows: seq<CountRow>): (m: map<string, int>)
    ensures forall id :: id in m <==> exists i :: 0 <= i < |rows| && rows[i].steamId == id
  {
    if rows == [] then map[]
    else
      var last := rows[|rows| - 1];
      var m := CountMapOf(rows[..|rows| - 1]);
      assert forall i :: 0 <= i < |rows| - 1 ==> rows[..|rows| - 1][i] == rows[i];
      m[last.steamId := last.matches]
  }

  /** The entry for an id is the count of the last row carrying that id. */
  lemma {:induction false} CountMapLastWins(rows: seq<CountRow>, i: nat)
    requires i < |rows|
    requires forall j :: i < j < |rows| ==> rows[j].steamId != rows[i].steamId
    ensures rows[i].steamId in CountMapOf(rows)
    ensures CountMapOf(rows)[rows[i].steamId] == rows[i].matches
  {
    if i < |rows| - 1 {
      var init := rows[..|rows| - 1];
      assert init[i] == rows[i];
      CountMapLastWins(init, i);
    }
  }

  /**
   * Builds the count map row by row: each row sets the entry for its id to its
   * count, so a later row for the same id overwrites an earlier one.
   */
  method BuildCountMap(rows: seq<CountRow>) returns (m: map<string, int>)
    ensures m == CountMapOf(rows)
  {
    m := map[];
    var i := 0;
    while i < |rows|
      invariant 0 <= i <= |rows|
      invariant m == CountMapOf(rows[..i])
    {
      assert rows[..i + 1][..i] == rows[..i];
      m := m[rows[i].steamId := rows[i].matches];
      i := i + 1;
    }
    assert rows[..|rows|] == rows;
  }

  /** `countMap[String(r.steam_id)] || 0`: the count for an id, 0 when it has none. */
  function MatchesOf(m: map<string, int>, id: string): int {
    if id in m then m[id] else 0
  }

  // ---------------------------------------------------------------------------
  // The merge pipeline: map, filter, sort, slice

  function Enrich(p: ProfileRow, m: map<string, int>): SearchResult {
    SearchResult(p.steamId, p.playerName, MatchesOf(m, p.steamId), p.avatarUrl)
  }

  /** A result built from a profile row, carrying that row's id, name and avatar. */
  predicate FromProfile(r: SearchResult, profiles: seq<ProfileRow>, m: map<string, int>) {
    exists p :: p in profiles && r == Enrich(p, m)
  }

  /** `profileResult.rows.map(...)`. */
  function EnrichAll(profiles: seq<ProfileRow>, m: map<string, int>): (rs: seq<SearchResult>)
    ensures |rs| == |profiles|
    ensures forall i :: 0 <= i < |rs| ==> rs[i] == Enrich(profiles[i], m)
  {
    if profiles == [] then [] else [Enrich(profiles[0], m)] + EnrichAll(profiles[1..], m)
  }

  /** `.filter(r => r.matches > 0)`. */
  function Positive(rs: seq<SearchResult>): (out: seq<SearchResult>)
    ensures |out| <= |rs|
    ensures forall r :: r in out <==> r in rs && r.matches > 0
  {
    if rs == [] then []
    else (if rs[0].matches > 0 then [rs[0]] else []) + Positive(rs[1..])
  }

  /** The number of rows with a positive count. */
  function CountPositive(rs: seq<SearchResult>): nat {
    if rs == [] then 0 else (if rs[0].matches > 0 then 1 else 0) + CountPositive(rs[1..])
  }

  lemma {:induction false} PositiveLength(rs: seq<SearchResult>)
    ensures |Positive(rs)| == CountPositive(rs)
  {
    if rs != [] {
      PositiveLength(rs[1..]);
    }
  }

  /** Ranked by match count, highest first. */
  predicate NonIncreasing(rs: seq<SearchResult>) {
    forall i, j :: 0 <= i < j < |rs| ==> rs[i].matches >= rs[j].matches
  }

  /**
   * Inserts `x` ahead of every element it ties with, as a stable sort does for
   * an element that came earlier in the input.
   */
  function Insert(x: SearchResult, s: seq<SearchResult>): (r: seq<SearchResult>)
    ensures multiset(r) == multiset(s) + multiset{x}
  {
    if s == [] || s[0].matches <= x.matches then [x] + s
    else
      assert s == [s[0]] + s[1..];
      [s[0]] + Insert(x, s[1..])
  }

  /**
   * `.sort((a, b) => b.matches - a.matches)`: JavaScript's sort is stable, so
   * rows with equal counts keep their input order.
   */
  function SortByMatches(rs: seq<SearchResult>): (r: seq<SearchResult>)
    ensures multiset(r) == multiset(rs)
  {
    if rs == [] then []
    else
      assert rs == [rs[0]] + rs[1..];
      Insert(rs[0], SortByMatches(rs[1..]))
  }

  lemma {:induction false} InsertNonIncreasing(x: SearchResult, s: seq<SearchResult>)
    requires NonIncreasing(s)
    ensures NonIncreasing(Insert(x, s))
  {
    if s != [] && s[0].matches > x.matches {
      var rest := Insert(x, s[1..]);
      assert Insert(x, s) == [s[0]] + rest;
      InsertNonIncreasing(x, s[1..]);
      forall k | 0 <= k < |rest| ensures s[0].matches >= rest[k].matches {
        assert rest[k] in multiset(rest);
        assert rest[k] in multiset(s[1..]) || rest[k] == x;
        if rest[k] != x {
          var j :| 0 <= j < |s[1..]| && s[1..][j] == rest[k];
          assert s[j + 1] == rest[k];
        }
      }
    }
  }

  /** The sort ranks by count. */
  lemma {:induction false} SortNonIncreasing(rs: seq<SearchResult>)
    ensures NonIncreasing(SortByMatches(rs))
  {
    if rs != [] {
      SortNonIncreasing(rs[1..]);
      InsertNonIncreasing(rs[0], SortByMatches(rs[1..]));
    }
  }

  /** The rows with count `k`, in order. */
  function WithMatches(rs: seq<SearchResult>, k: int): seq<SearchResult> {
    if rs == [] then [] else (if rs[0].matches == k then [rs[0]] else []) + WithMatches(rs[1..], k)
  }

  lemma {:induction false} InsertStable(x: SearchResult, s: seq<SearchResult>, k: int)
    ensures WithMatches(Insert(x, s), k)
         == (if x.matches == k then [x] else []) + WithMatches(s, k)
  {
    if s == [] || s[0].matches <= x.matches {
      assert ([x] + s)[1..] == s;
    } else {
      var r := [s[0]] + Insert(x, s[1..]);
      assert r[1..] == Insert(x, s[1..]);
      InsertStable(x, s[1..], k);
    }
  }

  /** The sort is stable: among rows with the same count, input order is kept. */
  lemma {:induction false} SortStable(rs: seq<SearchResult>, k: int)
    ensures WithMatches(SortByMatches(rs), k) == WithMatches(rs, k)
  {
    if rs != [] {
      SortStable(rs[1..], k);
      InsertStable(rs[0], SortByMatches(rs[1..]), k);
    }
  }

  lemma {:induction false} WithMatchesAppend(a: seq<SearchResult>, b: seq<SearchResult>, k: int)
    ensures WithMatches(a + b, k) == WithMatches(a, k) + WithMatches(b, k)
  {
    if a != [] {
      assert (a + b)[1..] == a[1..] + b;
      WithMatchesAppend(a[1..], b, k);
    } else {
      assert a + b == b;
    }
  }

  /**
   * The filter keeps rows in input order: for a positive count it keeps every
   * row with that count, in order, and it keeps no row with any other count.
   */
  lemma {:induction false} PositiveKeepsTies(rs: seq<SearchResult>, k: int)
    ensures WithMatches(Positive(rs), k) == (if k > 0 then WithMatches(rs, k) else [])
  {
    if rs != [] {
      var head := if rs[0].matches > 0 then [rs[0]] else [];
      WithMatchesAppend(head, Positive(rs[1..]), k);
      PositiveKeepsTies(rs[1..], k);
    }
  }

  /** `.slice(0, 20)`. */
  function Take(rs: seq<SearchResult>, n: nat): seq<SearchResult> {
    if |rs| <= n then rs else rs[..n]
  }

  /** The profile rows, counted, filtered, ranked and cut to twenty. */
  function MergeResults(profiles: seq<ProfileRow>, m: map<string, int>): seq<SearchResult> {
    Take(SortByMatches(Candidates(profiles, m)), MaxResults)
  }

  /** The rows that survive the filter: the profile rows with a positive count. */
  function Candidates(profiles: seq<ProfileRow>, m: map<string, int>): seq<SearchResult> {
    Positive(EnrichAll(profiles, m))
  }

  /**
   * Twenty rows, or every profile row with a positive count when there are
   * fewer than twenty of them.
   */
  lemma MergeLength(profiles: seq<ProfileRow>, m: map<string, int>)
    ensures |MergeResults(profiles, m)|
         == if CountPositive(EnrichAll(profiles, m)) < MaxResults
            then CountPositive(EnrichAll(profiles, m)) else MaxResults
  {
    PositiveLength(EnrichAll(profiles, m));
    assert |SortByMatches(Candidates(profiles, m))| == |Candidates(profiles, m)| by {
      assert |multiset(SortByMatches(Candidates(profiles, m)))| == |multiset(Candidates(profiles, m))|;
    }
  }

  /** Every returned row has a positive count and is some profile row with that id's count. */
  lemma MergeRowsFromProfiles(profiles: seq<ProfileRow>, m: map<string, int>)
    ensures forall r :: r in MergeResults(profiles, m) ==>
      r.matches > 0 && r.matches == MatchesOf(m, r.steamId) && FromProfile(r, profiles, m)
  {
    var sorted := SortByMatches(Candidates(profiles, m));
    forall r | r in MergeResults(profiles, m)
      ensures r.matches > 0 && r.matches == MatchesOf(m, r.steamId) && FromProfile(r, profiles, m)
    {
      assert r in sorted;
      assert r in multiset(sorted);
      assert r in Candidates(profiles, m);
      var e := EnrichAll(profiles, m);
      var i :| 0 <= i < |e| && e[i] == r;
      assert profiles[i] in profiles;
    }
  }

  /** The rows are ranked by count, highest first. */
  lemma MergeRanked(profiles: seq<ProfileRow>, m: map<string, int>)
    ensures NonIncreasing(MergeResults(profiles, m))
  {
    SortNonIncreasing(Candidates(profiles, m));
  }

  /** Cutting a ranked sequence keeps a sub-multiset, and nothing cut outranks what is kept. */
  lemma TakeOfRanked(s: seq<SearchResult>, n: nat)
    requires NonIncreasing(s)
    ensures multiset(Take(s, n)) <= multiset(s)
    ensures forall y, i ::
      y in multiset(s) - multiset(Take(s, n)) && 0 <= i < |Take(s, n)| ==> y.matches <= Take(s, n)[i].matches
  {
    var out := Take(s, n);
    var k := |out|;
    assert s == out + s[k..];
    assert multiset(s) == multiset(out) + multiset(s[k..]);
    forall y, i | y in multiset(s) - multiset(out) && 0 <= i < k
      ensures y.matches <= out[i].matches
    {
      assert y in multiset(s[k..]);
      var j :| 0 <= j < |s[k..]| && s[k..][j] == y;
      assert s[k + j] == y && s[i] == out[i];
    }
  }

  /**
   * The cut keeps the best rows: what is returned is drawn from the candidates,
   * and no candidate left out has a higher count than any row returned.
   */
  lemma MergeKeepsTop(profiles: seq<ProfileRow>, m: map<string, int>)
    ensures multiset(MergeResults(profiles, m)) <= multiset(Candidates(profiles, m))
    ensures forall y, i ::
      (y in multiset(Candidates(profiles, m)) - multiset(MergeResults(profiles, m)) && 0 <= i < |MergeResults(profiles, m)|)
      ==> y.matches <= MergeResults(profiles, m)[i].matches
  {
    var sorted := SortByMatches(Candidates(profiles, m));
    SortNonIncreasing(Candidates(profiles, m));
    TakeOfRanked(sorted, MaxResults);
  }

  /** The rows with a given count in a prefix are a prefix of those in the whole. */
  lemma {:induction false} WithMatchesPrefix(s: seq<SearchResult>, c: nat, k: int)
    requires c <= |s|
    ensures WithMatches(s[..c], k) <= WithMatches(s, k)
  {
    if c > 0 {
      assert s[..c][1..] == s[1..][..c - 1];
      WithMatchesPrefix(s[1..], c - 1, k);
    }
  }

  /**
   * For each count, the rows returned with it are the first of the candidates
   * with it, in candidate order, and all of them when the cut to twenty removes
   * nothing.
   */
  lemma MergeKeepsCandidateOrder(profiles: seq<ProfileRow>, m: map<string, int>, k: int)
    ensures WithMatches(MergeResults(profiles, m), k) <= WithMatches(Candidates(profiles, m), k)
    ensures CountPositive(EnrichAll(profiles, m)) <= MaxResults ==>
      WithMatches(MergeResults(profiles, m), k) == WithMatches(Candidates(profiles, m), k)
  {
    var sorted := SortByMatches(Candidates(profiles, m));
    PositiveLength(EnrichAll(profiles, m));
    assert |sorted| == |Candidates(profiles, m)| by {
      assert |multiset(sorted)| == |multiset(Candidates(profiles, m))|;
    }
    SortStable(Candidates(profiles, m), k);
    if |sorted| <= MaxResults {
      assert Take(sorted, MaxResults) == sorted;
    } else {
      WithMatchesPrefix(sorted, MaxResults, k);
    }
  }

  /**
   * Rows with equal counts appear in the order of their profile rows: for each
   * positive count, the rows returned with it are the first of the profile rows
   * with it, and all of them when the cut to twenty removes nothing; no row is
   * returned with a count of 0 or less.
   */
  lemma MergeKeepsProfileOrderAmongTies(profiles: seq<ProfileRow>, m: map<string, int>, k: int)
    ensures WithMatches(MergeResults(profiles, m), k)
         <= (if k > 0 then WithMatches(EnrichAll(profiles, m), k) else [])
    ensures CountPositive(EnrichAll(profiles, m)) <= MaxResults ==>
      WithMatches(MergeResults(profiles, m), k)
         == (if k > 0 then WithMatches(EnrichAll(profiles, m), k) else [])
  {
    MergeKeepsCandidateOrder(profiles, m, k);
    PositiveKeepsTies(EnrichAll(profiles, m), k);
  }

  // ---------------------------------------------------------------------------
  // The handler

  /** The branch `GET` takes for its `q` parameter. */
  datatype Route = NoLookup | ExactIdLookup(id: string) | NameLookup(pattern: string)

  /**
   * A missing query, or one shorter than two UTF-16 code units once trimmed,
   * needs no lookup; ten to seventeen digits are looked up as an exact id;
   * anything else is searched for by name, trimmed.
   */
  function RouteOf(q: Option<string>): (r: Route)
    ensures r.NoLookup? <==> q.None? || Utf16Length(Trim(q.value)) < 2
    ensures r.ExactIdLookup? ==> r.id == Trim(q.value) && |r.id| >= 10 && AllDigits(r.id)
    ensures r.ExactIdLookup? <==> q.Some? && LooksLikeSteamId(Trim(q.value))
    ensures r.NameLookup? ==> r.pattern == NamePattern(Trim(q.value))
  {
    if q.None? then NoLookup
    else
      var t := Trim(q.value);
      if Utf16Length(t) < 2 then NoLookup
      else if LooksLikeSteamId(t) then ExactIdLookup(t)
      else NameLookup(NamePattern(t))
  }

  /**
   * `GET /api/search?q=...`. A missing query, or one shorter than two UTF-16
   * code units once trimmed, returns `[]` without touching the database. Ten
   * to seventeen digits take the exact-id lookup alone. Anything else looks up
   * profiles by name; when that finds rows, their match counts are fetched
   * with one placeholder per id and merged, and only when it finds none is the
   * match feed searched by name instead.
   */
  method Get(q: Option<string>, db: Database) returns (resp: Response)
    ensures RouteOf(q).NoLookup? ==> resp == Response([], [])
    ensures RouteOf(q).ExactIdLookup? ==>
      resp == Response(db.rowsForId(RouteOf(q).id), [ExactIdQuery(RouteOf(q).id)])
    ensures RouteOf(q).NameLookup? ==>
      var pattern := RouteOf(q).pattern;
      var profiles := db.profilesNamed(pattern);
      && |resp.queries| == 2 && resp.queries[0] == ProfileNameQuery(pattern)
      && (resp.queries[1].FeedNameQuery? <==> profiles == [])
      && (profiles == [] ==> resp.rows == db.feedRowsNamed(pattern) && resp.queries[1] == FeedNameQuery(pattern))
      && (profiles != [] ==>
            var ids := seq(|profiles|, i requires 0 <= i < |profiles| => profiles[i].steamId);
            && resp.queries[1] == MatchCountQuery(Placeholders(|ids|), ids)
            && resp.rows == MergeResults(profiles, CountMapOf(db.matchCounts(ids))))
  {
    match RouteOf(q)
    case NoLookup =>
      resp := Response([], []);
    case ExactIdLookup(id) =>
      resp := Response(db.rowsForId(id), [ExactIdQuery(id)]);
    case NameLookup(pattern) =>
      var profiles := db.profilesNamed(pattern);
      if |profiles| > 0 {
        var ids := seq(|profiles|, i requires 0 <= i < |profiles| => profiles[i].steamId);
        var placeholders := Placeholders(|ids|);
        var counts := db.matchCounts(ids);
        var countMap := BuildCountMap(counts);
        resp := Response(MergeResults(profiles, countMap), [ProfileNameQuery(pattern), MatchCountQuery(placeholders, ids)]);
      } else {
        resp := Response(db.feedRowsNamed(pattern), [ProfileNameQuery(pattern), FeedNameQuery(pattern)]);
      }
  }
}
