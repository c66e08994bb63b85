/**
 * The leaderboard endpoint (app/api/leaderboards/route.ts): which ranking a
 * `type` selects, the minimum number of distinct matches a player needs to
 * appear in it, the column it is ordered by, and the page window.
 */
module LeaderboardsRoute {
  import opened Wrappers

  datatype Board = WinRate | PeakElo | MostActive | BestKdr

  /** Rows per page. */
  const PageSize: nat := 50

  /** The `type` value that selects each board. */
  function BoardName(b: Board): string {
    match b
    case WinRate => "winrate"
    case PeakElo => "elo"
    case MostActive => "active"
    case BestKdr => "kdr"
  }

  /** The board a `type` value selects, if any. */
  function ParseBoard(t: string): (b: Option<Board>)
    ensures b.Some? <==> t in {"winrate", "elo", "active", "kdr"}
  {
    if t == "winrate" then Some(WinRate)
    else if t == "elo" then Some(PeakElo)
    else if t == "active" then Some(MostActive)
    else if t == "kdr" then Some(BestKdr)
    else None
  }

  /** Board names and `type` values correspond one to one. */
  lemma ParseBoardName(b: Board, t: string)
    ensures ParseBoard(t) == Some(b) <==> t == BoardName(b)
  {
  }

  /** The `HAVING COUNT(DISTINCT match_id) >= n` threshold, absent when the query has none. */
  function MinimumMatches(b: Board): Option<nat> {
    match b
    case WinRate => Some(50)
    case PeakElo => Some(5)
    case MostActive => None
    case BestKdr => Some(50)
  }

  /** The column of the `ORDER BY ... DESC` clause. */
  function OrderColumn(b: Board): string {
    match b
    case WinRate => "win_rate"
    case PeakElo => "peak_elo"
    case MostActive => "matches"
    case BestKdr => "kdr"
  }

  /** What the selected SQL text asks for. Every board orders descending. */
  datatype RankingQuery = RankingQuery(
    board: Board, minMatches: Option<nat>, orderBy: string, descending: bool, limit: nat, offset: int)

  /** `offset = (page - 1) * limit`, not clamped: page 0 or below gives an offset of 0 or below. */
  function Offset(page: int): (o: int)
    ensures page >= 1 ==> o >= 0
    ensures page < 1 ==> o + PageSize <= 0
  {
    (page - 1) * PageSize
  }

  /**
   * `GET /api/leaderboards?type=...&page=...`. A missing or empty `type` means
   * `winrate` and a missing `page` means 1; an unrecognised `type` leaves the
   * query text empty (`None`). The `page` parameter arrives already parsed.
   */
  function Get(typeParam: Option<string>, page: Option<int>): (r: Option<RankingQuery>)
    ensures r.Some? <==> typeParam.None? || typeParam.value in {"", "winrate", "elo", "active", "kdr"}
    ensures r.Some? ==> r.value.limit == PageSize && r.value.offset == (page.GetOr(1) - 1) * PageSize
    ensures r.Some? ==> r.value.descending
    ensures r.Some? ==> r.value.minMatches == MinimumMatches(r.value.board) && r.value.orderBy == OrderColumn(r.value.board)
    ensures r.Some? ==> BoardName(r.value.board) == (if typeParam.None? || typeParam.value == "" then "winrate" else typeParam.value)
  {
    var t := if typeParam.None? || typeParam.value == "" then "winrate" else typeParam.value;
    match ParseBoard(t)
    case None => None
    case Some(b) => Some(RankingQuery(b, MinimumMatches(b), OrderColumn(b), true, PageSize, Offset(page.GetOr(1))))
  }

  /** Win-rate and KDR rankings need 50 matches, the peak-ELO ranking 5, the activity ranking none. */
  lemma Thresholds(page: Option<int>)
    ensures Get(Some("winrate"), page).value.minMatches == Some(50)
    ensures Get(Some("kdr"), page).value.minMatches == Some(50)
    ensures Get(Some("elo"), page).value.minMatches == Some(5)
    ensures Get(Some("active"), page).value.minMatches == None
    ensures Get(Some("winrate"), page).value.orderBy == "win_rate"
    ensures Get(Some("elo"), page).value.orderBy == "peak_elo"
    ensures Get(Some("active"), page).value.orderBy == "matches"
    ensures Get(Some("kdr"), page).value.orderBy == "kdr"
  {
  }

  /**
   * Consecutive pages tile the ranking: page `p` (from 1) holds exactly the
   * positions `Offset(p)` to `Offset(p) + 49`, and every position lies on
   * exactly one such page.
   */
  lemma PagesTile(position: nat)
    ensures var p := position / PageSize + 1;
      p >= 1 && Offset(p) <= position < Offset(p) + PageSize
    ensures forall p, q ::
      (1 <= p && 1 <= q && Offset(p) <= position < Offset(p) + PageSize && Offset(q) <= position < Offset(q) + PageSize)
      ==> p == q
  {
    var p := position / PageSize + 1;
    assert Offset(p) == (position / PageSize) * PageSize;
  }
}
