/**
 * The leaderboards page (app/leaderboards/page.tsx): the selected tab and
 * page, the rows last fetched, the row numbering, and the BAN badge.
 */
module LeaderboardsPage {
  import opened Wrappers
  import opened LeaderboardsRoute

  /** A leaderboard row as far as this page's logic reads it. */
  datatype Entry = Entry(
    steamId: string, playerName: string, matches: int,
    vacBanned: Option<int>, gameBans: Option<int>)

  /** A fetched JSON body: an array of rows, or anything else. */
  datatype Body = RowArray(rows: seq<Entry>) | NotAnArray

  /** The request the fetch effect sends: `/api/leaderboards?type=<tab>&page=<page>`. */
  datatype Request = Request(typeParam: string, page: int)

  /**
   * `BanBadge`: shown when `vac_banned` is truthy (present and non-zero) or the
   * number of game bans, 0 when missing, is positive.
   */
  function ShowsBanBadge(e: Entry): (shown: bool)
    ensures shown <==> (e.vacBanned.Some? && e.vacBanned.value != 0) || (e.gameBans.Some? && e.gameBans.value > 0)
    ensures e.vacBanned.None? && e.gameBans.None? ==> !shown
  {
    (e.vacBanned.Some? && e.vacBanned.value != 0) || e.gameBans.GetOr(0) > 0
  }

  /** The `#` column: row `i` (from 0) on page `page`. */
  function RowNumber(page: int, i: nat): (n: int)
    ensures n == Offset(page) + i + 1
    ensures page >= 1 ==> n >= 1
  {
    (page - 1) * PageSize + i + 1
  }

  /** Row numbers on pages from 1 never repeat: page and row index are determined by the number. */
  lemma RowNumbersDistinct(p: int, i: nat, q: int, j: nat)
    requires p >= 1 && q >= 1 && i < PageSize && j < PageSize
    requires RowNumber(p, i) == RowNumber(q, j)
    ensures p == q && i == j
  {
    PagesTile(RowNumber(p, i) - 1);
  }

  class LeaderboardView {
    var tab: Board
    var page: int
    var data: seq<Entry>
    var loading: bool

    /** The page number never drops below 1. */
    ghost predicate Valid()
      reads this
    {
      page >= 1
    }

    /** The first render: the win-rate tab, page 1, no rows, loading. */
    constructor ()
      ensures Valid()
      ensures tab == WinRate && page == 1 && data == [] && loading
    {
      tab := WinRate;
      page := 1;
      data := [];
      loading := true;
    }

    /** "Prev" is disabled on page 1. */
    function PrevEnabled(): bool
      reads this
    {
      page != 1
    }

    /** "Next" is enabled only when the current page came back full. */
    function NextEnabled(): bool
      reads this
    {
      |data| >= PageSize
    }

    /** Clicking a tab selects it and goes back to page 1. */
    method SelectTab(t: Board)
      requires Valid()
      modifies this
      ensures Valid()
      ensures tab == t && page == 1 && data == old(data) && loading == old(loading)
    {
      tab := t;
      page := 1;
    }

    /** Clicking "Prev": `max(1, page - 1)`, and nothing when the button is disabled. */
    method ClickPrev()
      requires Valid()
      modifies this
      ensures Valid()
      ensures page == (if old(page) > 1 then old(page) - 1 else old(page))
      ensures tab == old(tab) && data == old(data) && loading == old(loading)
    {
      if PrevEnabled() {
        page := if page - 1 > 1 then page - 1 else 1;
      }
    }

    /** Clicking "Next": one page on, and nothing when the button is disabled. */
    method ClickNext()
      requires Valid()
      modifies this
      ensures Valid()
      ensures page == (if old(|data|) >= PageSize then old(page) + 1 else old(page))
      ensures tab == old(tab) && data == old(data) && loading == old(loading)
    {
      if NextEnabled() {
        page := page + 1;
      }
    }

    /** The fetch effect, run on every change of tab or page: loading starts and the request is sent. */
    method StartFetch() returns (req: Request)
      requires Valid()
      modifies this
      ensures Valid()
      ensures loading && req == Request(BoardName(tab), page)
      ensures tab == old(tab) && page == old(page) && data == old(data)
    {
      loading := true;
      req := Request(BoardName(tab), page);
    }

    /** A response arrived: its rows are shown, a body that is not an array as no rows. */
    method Receive(body: Body)
      requires Valid()
      modifies this
      ensures Valid()
      ensures !loading && data == (if body.RowArray? then body.rows else [])
      ensures tab == old(tab) && page == old(page)
    {
      data := if body.RowArray? then body.rows else [];
      loading := false;
    }

    /** The fetch failed: loading stops and the previous rows stay. */
    method FetchFailed()
      requires Valid()
      modifies this
      ensures Valid()
      ensures !loading && data == old(data) && tab == old(tab) && page == old(page)
    {
      loading := false;
    }
  }

  /**
   * Every request the page sends is answered with a ranking query, for the
   * board of the selected tab, whose window starts where the page's row
   * numbering does: row `i` is numbered `offset + i + 1`, and the offset is
   * never negative.
   */
  lemma RequestMatchesNumbering(tab: Board, page: int, i: nat)
    requires page >= 1
    ensures var q := LeaderboardsRoute.Get(Some(BoardName(tab)), Some(page));
      && q.Some? && q.value.board == tab && q.value.offset >= 0
      && RowNumber(page, i) == q.value.offset + i + 1
  {
    ParseBoardName(tab, BoardName(tab));
  }
}
