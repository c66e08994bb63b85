/**
 * Season date ranges (lib/seasons.ts): the static season table, resolution of
 * a request's `season` / `from` / `to` parameters into a date filter, and the
 * half-open `date >= ? AND date < ?` condition appended to a query.
 */
module Seasons {
  import opened Wrappers
  import opened JsStrings

  datatype Season = Season(id: string, title: string, from: string, to: string)

  /** The known seasons, oldest first. */
  const KnownSeasons: seq<Season> := [
    Season("S50", "Season 50", "2025-01-01", "2026-01-23"),
    Season("S51", "Season 51", "2026-01-23", "2026-02-09"),
    Season("S52", "Season 52", "2026-02-09", "2026-02-23"),
    Season("S53", "Season 53", "2026-02-23", "2026-03-09"),
    Season("S54", "Season 54", "2026-03-09", "2026-03-23")
  ]

  /** A date lies in a season when `from <= date < to`. */
  predicate InSeason(s: Season, date: string) {
    AtMost(s.from, date) && Below(date, s.to)
  }

  /** Each season is non-empty and ends exactly where the next one starts. */
  predicate Contiguous(table: seq<Season>) {
    && (forall i :: 0 <= i < |table| ==> Below(table[i].from, table[i].to))
    && (forall i :: 0 <= i < |table| - 1 ==> table[i].to == table[i + 1].from)
  }

  /** Each known season starts strictly before it ends. */
  lemma KnownSeasonOrdered(i: nat)
    requires i < |KnownSeasons|
    ensures Below(KnownSeasons[i].from, KnownSeasons[i].to)
  {
    var s := KnownSeasons[i];
    // The first position at which the two ISO dates differ.
    var k := if i == 0 then 3 else if i == 1 || i == 3 then 6 else 8;
    assert s.from[..k] == s.to[..k] && s.from[k] < s.to[k] by {
      if i == 0 { assert s == Season("S50", "Season 50", "2025-01-01", "2026-01-23"); }
      else if i == 1 { assert s == Season("S51", "Season 51", "2026-01-23", "2026-02-09"); }
      else if i == 2 { assert s == Season("S52", "Season 52", "2026-02-09", "2026-02-23"); }
      else if i == 3 { assert s == Season("S53", "Season 53", "2026-02-23", "2026-03-09"); }
      else { assert s == Season("S54", "Season 54", "2026-03-09", "2026-03-23"); }
    }
    BelowAtFirstDifference(s.from, s.to, k);
  }

  /** Each known season but the last ends on the day the next one starts. */
  lemma KnownSeasonsAdjacent(i: nat)
    requires i < |KnownSeasons| - 1
    ensures KnownSeasons[i].to == KnownSeasons[i + 1].from
  {
    if i == 0 { assert KnownSeasons[0].to == "2026-01-23" && KnownSeasons[1].from == "2026-01-23"; }
    else if i == 1 { assert KnownSeasons[1].to == "2026-02-09" && KnownSeasons[2].from == "2026-02-09"; }
    else if i == 2 { assert KnownSeasons[2].to == "2026-02-23" && KnownSeasons[3].from == "2026-02-23"; }
    else { assert KnownSeasons[3].to == "2026-03-09" && KnownSeasons[4].from == "2026-03-09"; }
  }

  /** The known seasons follow one another without gap or overlap. */
  lemma KnownSeasonsContiguous()
    ensures Contiguous(KnownSeasons)
  {
    forall i | 0 <= i < |KnownSeasons| ensures Below(KnownSeasons[i].from, KnownSeasons[i].to) {
      KnownSeasonOrdered(i);
    }
    forall i | 0 <= i < |KnownSeasons| - 1 ensures KnownSeasons[i].to == KnownSeasons[i + 1].from {
      KnownSeasonsAdjacent(i);
    }
  }

  /** In a contiguous table an earlier season ends no later than a later one starts. */
  lemma {:induction false} EarlierEndsFirst(table: seq<Season>, i: nat, j: nat)
    requires Contiguous(table) && i < j < |table|
    ensures AtMost(table[i].to, table[j].from)
    decreases j - i
  {
    if i + 1 < j {
      EarlierEndsFirst(table, i + 1, j);
      assert Below(table[i].to, table[i + 1].to) by {
        assert table[i].to == table[i + 1].from;
      }
      BelowAtMostTransitive(table[i].to, table[i + 1].to, table[j].from);
    }
  }

  /** Some season of a contiguous table holds every date between its first start and last end. */
  lemma {:induction false} SomeSeasonHolds(table: seq<Season>, date: string) returns (k: nat)
    requires Contiguous(table) && |table| > 0
    requires AtMost(table[0].from, date) && Below(date, table[|table| - 1].to)
    ensures k < |table| && InSeason(table[k], date)
  {
    if Below(date, table[0].to) {
      k := 0;
    } else {
      AtMostIffNotBelow(table[0].to, date);
      assert Contiguous(table[1..]);
      var k' := SomeSeasonHolds(table[1..], date);
      k := k' + 1;
    }
  }

  /**
   * The seasons of a contiguous table partition the span they cover: every date
   * from the first season's start up to (not including) the last season's end
   * lies in exactly one season.
   */
  lemma SeasonsPartition(table: seq<Season>, date: string)
    requires Contiguous(table) && |table| > 0
    requires AtMost(table[0].from, date) && Below(date, table[|table| - 1].to)
    ensures exists k :: 0 <= k < |table| && InSeason(table[k], date)
    ensures forall i, j :: 0 <= i < j < |table| && InSeason(table[i], date) ==> !InSeason(table[j], date)
  {
    var k := SomeSeasonHolds(table, date);
    forall i, j | 0 <= i < j < |table| && InSeason(table[i], date)
      ensures !InSeason(table[j], date)
    {
      EarlierEndsFirst(table, i, j);
      BelowAtMostTransitive(date, table[i].to, table[j].from);
      AtMostIffNotBelow(table[j].from, date);
    }
  }

  /** The first season whose id is `id` (`KNOWN_SEASONS.find`). */
  function FindSeason(table: seq<Season>, id: string): (r: Option<nat>)
    ensures r.Some? ==> r.value < |table| && table[r.value].id == id
    ensures r.Some? ==> forall i :: 0 <= i < r.value ==> table[i].id != id
    ensures r.None? ==> forall i :: 0 <= i < |table| ==> table[i].id != id
  {
    if table == [] then None
    else if table[0].id == id then Some(0)
    else match FindSeason(table[1..], id)
      case None => None
      case Some(k) => Some(k + 1)
  }

  /** The date bounds a request resolves to; either may be absent. */
  datatype DateFilter = DateFilter(fromDate: Option<string>, toDate: Option<string>)

  const NoFilter := DateFilter(None, None)

  /** The query parameters `season`, `from` and `to`, each possibly missing. */
  datatype RangeParams = RangeParams(season: Option<string>, from: Option<string>, to: Option<string>)

  /** JavaScript truthiness of a possibly missing string. */
  predicate Truthy(s: Option<string>) {
    s.Some? && s.value != ""
  }

  /**
   * `getSeasonFilter`: an explicit non-empty `from`/`to` pair wins; otherwise a
   * known `season` yields the first matching table entry's bounds; otherwise
   * there is no filter. A lone `from` or `to` is ignored.
   */
  function GetSeasonFilter(p: RangeParams): (f: DateFilter)
    ensures Truthy(p.from) && Truthy(p.to) ==> f == DateFilter(p.from, p.to)
    ensures !(Truthy(p.from) && Truthy(p.to)) ==>
      if Truthy(p.season) && exists i :: 0 <= i < |KnownSeasons| && KnownSeasons[i].id == p.season.value
      then exists i :: 0 <= i < |KnownSeasons| && KnownSeasons[i].id == p.season.value
             && (forall j :: 0 <= j < i ==> KnownSeasons[j].id != p.season.value)
             && f == DateFilter(Some(KnownSeasons[i].from), Some(KnownSeasons[i].to))
      else f == NoFilter
    ensures f == NoFilter || (Truthy(f.fromDate) && Truthy(f.toDate))
  {
    if Truthy(p.from) && Truthy(p.to) then DateFilter(p.from, p.to)
    else if Truthy(p.season) then
      match FindSeason(KnownSeasons, p.season.value)
      case Some(k) => DateFilter(Some(KnownSeasons[k].from), Some(KnownSeasons[k].to))
      case None => NoFilter
    else NoFilter
  }

  /** A named season resolves to exactly its own bounds, whatever a lone `from` or `to` says. */
  lemma SeasonResolves(k: nat, from: Option<string>, to: Option<string>)
    requires k < |KnownSeasons| && !(Truthy(from) && Truthy(to))
    ensures GetSeasonFilter(RangeParams(Some(KnownSeasons[k].id), from, to))
         == DateFilter(Some(KnownSeasons[k].from), Some(KnownSeasons[k].to))
  {
    var id := KnownSeasons[k].id;
    var r := FindSeason(KnownSeasons, id);
    // Season ids are distinct, so the first match is entry k.
    assert r.Some? && r.value == k by {
      assert forall i, j :: 0 <= i < j < |KnownSeasons| ==> KnownSeasons[i].id != KnownSeasons[j].id;
    }
  }

  /** One condition of the date clause, with the value bound to its placeholder. */
  datatype Condition = OnOrAfter(bound: string) | Before(bound: string)

  /** The conditions `appendDateFilter` adds: a lower bound, then an upper bound, each only if set. */
  function DateConditions(f: DateFilter): seq<Condition> {
    (if Truthy(f.fromDate) then [OnOrAfter(f.fromDate.value)] else [])
    + (if Truthy(f.toDate) then [Before(f.toDate.value)] else [])
  }

  function Comparison(c: Condition): string {
    match c
    case OnOrAfter(_) => " AND date >= "
    case Before(_) => " AND date < "
  }

  /** `" AND date >= ?"` or `" AND date < ?"`. */
  function ConditionText(c: Condition): string {
    Comparison(c) + "?"
  }

  function ClauseText(cs: seq<Condition>): string {
    if cs == [] then "" else ConditionText(cs[0]) + ClauseText(cs[1..])
  }

  lemma {:induction false} ClauseTextAppend(xs: seq<Condition>, ys: seq<Condition>)
    ensures ClauseText(xs + ys) == ClauseText(xs) + ClauseText(ys)
  {
    if xs != [] {
      assert (xs + ys)[1..] == xs[1..] + ys;
      ClauseTextAppend(xs[1..], ys);
    } else {
      assert xs + ys == ys;
    }
  }

  function ClauseArgs(cs: seq<Condition>): seq<string> {
    if cs == [] then [] else [cs[0].bound] + ClauseArgs(cs[1..])
  }

  lemma {:induction false} ClauseArgsAppend(xs: seq<Condition>, ys: seq<Condition>)
    ensures ClauseArgs(xs + ys) == ClauseArgs(xs) + ClauseArgs(ys)
  {
    if xs != [] {
      assert (xs + ys)[1..] == xs[1..] + ys;
      ClauseArgsAppend(xs[1..], ys);
    } else {
      assert xs + ys == ys;
    }
  }

  /** Every condition's text holds exactly one placeholder. */
  lemma {:induction false} PlaceholdersMatchArgs(cs: seq<Condition>)
    ensures Occurrences(ClauseText(cs), '?') == |ClauseArgs(cs)| == |cs|
  {
    if cs != [] {
      assert Occurrences(ConditionText(cs[0]), '?') == 1 by {
        NoOccurrences(Comparison(cs[0]), '?');
        OccurrencesAppend(Comparison(cs[0]), "?", '?');
      }
      OccurrencesAppend(ConditionText(cs[0]), ClauseText(cs[1..]), '?');
      PlaceholdersMatchArgs(cs[1..]);
    }
  }

  /** The SQL text a filter appends, with one `?` per value pushed. */
  function DateClause(f: DateFilter): (text: string)
    ensures text == (if Truthy(f.fromDate) then " AND date >= ?" else "")
                  + (if Truthy(f.toDate) then " AND date < ?" else "")
    ensures Occurrences(text, '?') == |DateArgs(f)|
  {
    ClauseTextAppend(if Truthy(f.fromDate) then [OnOrAfter(f.fromDate.value)] else [],
                     if Truthy(f.toDate) then [Before(f.toDate.value)] else []);
    PlaceholdersMatchArgs(DateConditions(f));
    ClauseText(DateConditions(f))
  }

  /** The values a filter pushes onto the query arguments, in placeholder order. */
  function DateArgs(f: DateFilter): (args: seq<string>)
    ensures args == (if Truthy(f.fromDate) then [f.fromDate.value] else [])
                  + (if Truthy(f.toDate) then [f.toDate.value] else [])
  {
    ClauseArgsAppend(if Truthy(f.fromDate) then [OnOrAfter(f.fromDate.value)] else [],
                     if Truthy(f.toDate) then [Before(f.toDate.value)] else []);
    ClauseArgs(DateConditions(f))
  }

  /** What the appended clause admits, with `date` compared as SQLite compares text. */
  predicate Holds(c: Condition, date: string) {
    match c
    case OnOrAfter(b) => AtMost(b, date)
    case Before(b) => Below(date, b)
  }

  predicate Admits(f: DateFilter, date: string) {
    forall c :: c in DateConditions(f) ==> Holds(c, date)
  }

  /**
   * The filter is half-open: a filter with both bounds admits exactly the dates
   * `from <= date < to`, so the lower bound is admitted and the upper bound is not.
   */
  lemma HalfOpen(f: DateFilter, date: string)
    requires Truthy(f.fromDate) && Truthy(f.toDate)
    ensures Admits(f, date) <==> AtMost(f.fromDate.value, date) && Below(date, f.toDate.value)
    ensures Admits(f, f.toDate.value) == false
  {
    var cs := DateConditions(f);
    assert cs == [OnOrAfter(f.fromDate.value), Before(f.toDate.value)];
    assert Admits(f, date) <==> Holds(cs[0], date) && Holds(cs[1], date);
    BelowIrreflexive(f.toDate.value);
    assert !Holds(cs[1], f.toDate.value);
  }

  /** A season's filter admits exactly the dates of that season, and a date in the seasons' span is admitted by exactly one of them. */
  lemma SeasonFilterAdmitsOneSeason(date: string)
    requires AtMost(KnownSeasons[0].from, date) && Below(date, KnownSeasons[|KnownSeasons| - 1].to)
    ensures exists k :: (0 <= k < |KnownSeasons|
      && Admits(GetSeasonFilter(RangeParams(Some(KnownSeasons[k].id), None, None)), date))
    ensures forall i, j :: (0 <= i < j < |KnownSeasons|
      && Admits(GetSeasonFilter(RangeParams(Some(KnownSeasons[i].id), None, None)), date)
      ==> !Admits(GetSeasonFilter(RangeParams(Some(KnownSeasons[j].id), None, None)), date))
  {
    KnownSeasonsContiguous();
    SeasonsPartition(KnownSeasons, date);
    forall k | 0 <= k < |KnownSeasons|
      ensures Admits(GetSeasonFilter(RangeParams(Some(KnownSeasons[k].id), None, None)), date)
          <==> InSeason(KnownSeasons[k], date)
    {
      SeasonResolves(k, None, None);
      HalfOpen(DateFilter(Some(KnownSeasons[k].from), Some(KnownSeasons[k].to)), date);
    }
  }

  /** The argument list of a query under construction, which callers share and append to. */
  class QueryArgs {
    var values: seq<string>

    constructor (initial: seq<string>)
      ensures values == initial
    {
      values := initial;
    }

    method Push(v: string)
      modifies this
      ensures values == old(values) + [v]
    {
      values := values + [v];
    }
  }

  /**
   * `appendDateFilter`: extends `baseSql` with the filter's conditions and pushes
   * their values onto `args` in the same order, leaving earlier arguments alone.
   */
  method AppendDateFilter(baseSql: string, args: QueryArgs, f: DateFilter) returns (sql: string)
    modifies args
    ensures sql == baseSql + DateClause(f)
    ensures args.values == old(args.values) + DateArgs(f)
  {
    var lower: seq<Condition> := if Truthy(f.fromDate) then [OnOrAfter(f.fromDate.value)] else [];
    var upper: seq<Condition> := if Truthy(f.toDate) then [Before(f.toDate.value)] else [];
    ClauseTextAppend(lower, upper);
    sql := baseSql;
    if Truthy(f.fromDate) {
      sql := sql + " AND date >= ?";
      args.Push(f.fromDate.value);
    }
    assert sql == baseSql + ClauseText(lower);
    if Truthy(f.toDate) {
      sql := sql + " AND date < ?";
      args.Push(f.toDate.value);
    }
    assert sql == baseSql + ClauseText(lower) + ClauseText(upper);
  }
}
