/** The dashboard page: the overview bar chart, paged six bars at a time
    on narrow screens, and the searchable list of recent transactions. */
module Dashboard {
  import opened Wrappers
  import opened Seqs
  import opened Collection
  import Search

  /** `ITEMS_PER_PAGE`. */
  const ItemsPerPage := 6

  /** Below this window width the page is in its mobile layout. */
  const MobileBreakpoint := 768

  predicate IsMobile(windowWidth: int) {
    windowWidth < MobileBreakpoint
  }

  /** `Math.ceil(chartData.length / ITEMS_PER_PAGE)`: the fewest pages of
      six that hold `n` bars. */
  function TotalPages(n: nat): (r: nat)
    ensures r * ItemsPerPage >= n
    ensures n > 0 ==> (r - 1) * ItemsPerPage < n
    ensures n == 0 <==> r == 0
  {
    (n + ItemsPerPage - 1) / ItemsPerPage
  }

  /** `Array.prototype.slice(start, end)`: a negative index counts from the
      end of the list, and both ends are clamped to the list. */
  function JsSlice<T>(s: seq<T>, start: int, end: int): (r: seq<T>)
    ensures |r| <= |s|
    ensures 0 <= start <= end ==> r == s[Min(start, |s|)..Min(end, |s|)]
    ensures 0 <= end <= start || end == 0 ==> r == []
    ensures start <= end < 0 && -end <= |s| ==> r == s[Max(|s| + start, 0)..|s| + end]
  {
    var from := if start < 0 then Max(|s| + start, 0) else Min(start, |s|);
    var to := if end < 0 then Max(|s| + end, 0) else Min(end, |s|);
    if from < to then s[from..to] else []
  }

  function Min(a: int, b: int): int { if a < b then a else b }
  function Max(a: int, b: int): int { if a < b then b else a }

  /** `getCurrentData`: the whole chart on a wide screen, page `page` of it
      on a narrow one. Page -1, which the next button can reach, is always
      empty. */
  function CurrentData<T>(chart: seq<T>, mobile: bool, page: int): (r: seq<T>)
    ensures !mobile ==> r == chart
    ensures mobile ==> |r| <= ItemsPerPage
    ensures mobile && page == -1 ==> r == []
  {
    if !mobile then chart
    else JsSlice(chart, page * ItemsPerPage, page * ItemsPerPage + ItemsPerPage)
  }

  /** `handlePrevPage`: one page back, but never below the first. */
  function PrevPage(page: int): (r: int)
    ensures r >= 0
    ensures page >= 1 ==> r == page - 1
    ensures page <= 1 ==> r == 0
  {
    Max(0, page - 1)
  }

  /** `handleNextPage` as written: on an empty chart `totalPages - 1` is -1,
      and so is the new page. */
  function NextPageAsWritten(page: int, n: nat): (r: int)
    ensures r <= TotalPages(n) - 1
    ensures page >= -1 ==> r >= -1
    ensures n == 0 && page >= 0 ==> r == -1
  {
    Min(TotalPages(n) - 1, page + 1)
  }

  /** `handleNextPage` as intended: one page on, but never past the last
      page nor below the first. */
  function NextPage(page: int, n: nat): (r: int)
    ensures PageInRange(r, n)
  {
    Max(0, Min(TotalPages(n) - 1, page + 1))
  }

  /** `page` is a page of a chart of `n` bars; an empty chart has the one
      empty page 0. */
  predicate PageInRange(page: int, n: nat) {
    0 <= page && (page < TotalPages(n) || page == 0)
  }

  /** A page is the run of at most six bars that starts at six times its
      number. */
  lemma MobilePage<T>(chart: seq<T>, page: nat)
    ensures var r := CurrentData(chart, true, page);
      && |r| <= ItemsPerPage
      && (page * ItemsPerPage < |chart| ==> |r| > 0)
      && forall k :: 0 <= k < |r| ==> r[k] == chart[page * ItemsPerPage + k]
  {
  }

  /** Every bar is on exactly one page: bar `i` is bar `i % 6` of page
      `i / 6`, which is a page of the chart. */
  lemma EveryBarOnItsPage<T>(chart: seq<T>, i: nat)
    requires i < |chart|
    ensures i / ItemsPerPage < TotalPages(|chart|)
    ensures var r := CurrentData(chart, true, i / ItemsPerPage);
      i % ItemsPerPage < |r| && r[i % ItemsPerPage] == chart[i]
  {
    MobilePage(chart, i / ItemsPerPage);
  }

  /** Both buttons keep the page within the chart. */
  lemma PagingStaysInRange(page: int, n: nat)
    requires PageInRange(page, n)
    ensures PageInRange(PrevPage(page), n)
    ensures PageInRange(NextPage(page, n), n)
  {
  }

  /** Next moves one page on until the last page, where it stays. */
  lemma NextPageAdvances(page: int, n: nat)
    requires PageInRange(page, n)
    ensures page + 1 < TotalPages(n) ==> NextPage(page, n) == page + 1
    ensures page + 1 >= TotalPages(n) ==> NextPage(page, n) == page
  {
  }

  /** The code as written agrees with the intended next page whenever the
      chart has a bar, even on a page past the end of a chart that has
      shrunk. */
  lemma NextPageAgreesOnNonEmptyChart(page: int, n: nat)
    requires 0 <= page && n > 0
    ensures NextPageAsWritten(page, n) == NextPage(page, n)
  {
  }

  /** On an empty chart the next button, which is enabled on page 0, moves
      to page -1; when bars then arrive, page -1 of the narrow chart is the
      slice from -6 to 0, which is empty, although page 0, where the
      corrected button stays, holds the first bars. */
  lemma NextPageOnEmptyChart<T>(chart: seq<T>)
    requires |chart| > 0
    ensures NextPageAsWritten(0, 0) == -1
    ensures !PageInRange(NextPageAsWritten(0, 0), 0)
    ensures CurrentData(chart, true, NextPageAsWritten(0, 0)) == []
    ensures NextPage(0, 0) == 0
    ensures |CurrentData(chart, true, NextPage(0, 0))| == Min(|chart|, ItemsPerPage) > 0
  {
    MobilePage(chart, 0);
  }

  /** What the dashboard request answers: the transactions when they are
      an array, and the chart overview when there is one. */
  datatype DashboardResult = DashboardResult(transactions: Option<seq<Entity>>, overview: Option<seq<Entity>>)

  class Page {
    const windowWidth: int
    var currentPage: int
    var chartData: seq<Entity>
    var transactions: seq<Entity>
    var filteredTransactions: seq<Entity>

    /** The list on screen is the transactions with some left out, and the
        page number is never negative (with the corrected next button). */
    ghost predicate Valid()
      reads this
    {
      IsSubsequence(filteredTransactions, transactions) && 0 <= currentPage
    }

    /** The page as it mounts, before the request answers. The window width
        is read once and never updated. */
    constructor(windowWidth: int)
      ensures Valid()
      ensures this.windowWidth == windowWidth && currentPage == 0
      ensures chartData == [] && transactions == [] && filteredTransactions == []
    {
      this.windowWidth := windowWidth;
      currentPage := 0;
      chartData := [];
      transactions := [];
      filteredTransactions := [];
    }

    /** The bars the chart draws: the whole chart on a wide screen, at most
        six on a narrow one, and none on page -1. */
    function Bars(): (r: seq<Entity>)
      reads this
      ensures !IsMobile(windowWidth) ==> r == chartData
      ensures IsMobile(windowWidth) ==> |r| <= ItemsPerPage
      ensures IsMobile(windowWidth) && currentPage == -1 ==> r == []
      ensures IsMobile(windowWidth) && 0 <= currentPage && currentPage * ItemsPerPage < |chartData| ==>
        && 0 < |r|
        && forall k :: 0 <= k < |r| ==>
          currentPage * ItemsPerPage + k < |chartData| && r[k] == chartData[currentPage * ItemsPerPage + k]
    {
      MobilePage(chartData, if currentPage < 0 then 0 else currentPage);
      CurrentData(chartData, IsMobile(windowWidth), currentPage)
    }

    /** The answer to the dashboard request; `None` when the request or
        its decoding failed, which changes nothing. Transactions that are
        not an array empty both lists; a missing overview keeps the
        chart. */
    method LoadDashboard(response: Option<DashboardResult>)
      requires Valid()
      modifies this`transactions, this`filteredTransactions, this`chartData
      ensures Valid()
      ensures response.None? ==>
        && transactions == old(transactions)
        && filteredTransactions == old(filteredTransactions)
        && chartData == old(chartData)
      ensures response.Some? ==>
        && transactions == response.value.transactions.GetOr([])
        && filteredTransactions == transactions
        && chartData == response.value.overview.GetOr(old(chartData))
    {
      if response.Some? {
        var result := response.value;
        transactions := result.transactions.GetOr([]);
        filteredTransactions := transactions;
        SubsequenceReflexive(transactions);
        if result.overview.Some? {
          chartData := result.overview.value;
        }
      }
    }

    /** The transaction search; the same rule as the list pages. */
    method HandleSearch(text: string, field: string)
      requires Valid()
      modifies this`filteredTransactions
      ensures Valid()
      ensures Search.HandleSearch(transactions, text, field).Some? ==>
        filteredTransactions == Search.HandleSearch(transactions, text, field).value
      ensures Search.HandleSearch(transactions, text, field).None? ==>
        filteredTransactions == old(filteredTransactions)
    {
      var r := Search.HandleSearch(transactions, text, field);
      if r.Some? {
        filteredTransactions := r.value;
      }
    }

    method HandlePrevPage()
      requires Valid()
      modifies this`currentPage
      ensures Valid() && currentPage == PrevPage(old(currentPage))
    {
      currentPage := PrevPage(currentPage);
    }

    /** The next button, corrected so that an empty chart keeps page 0
        (the code as written moves to page -1: `NextPageAsWritten`). */
    method HandleNextPage()
      requires Valid()
      modifies this`currentPage
      ensures Valid() && currentPage == NextPage(old(currentPage), |chartData|)
      ensures |chartData| > 0 ==> currentPage == NextPageAsWritten(old(currentPage), |chartData|)
    {
      if |chartData| > 0 {
        NextPageAgreesOnNonEmptyChart(currentPage, |chartData|);
      }
      currentPage := NextPage(currentPage, |chartData|);
    }
  }
}
