/**
 * The pagination state the three list pages share: the search box, the
 * current page, the window they request and the "Showing a to b of n"
 * footer with its Previous and Next buttons.
 */
module ListPage {
  import opened Wrappers
  import Client
  import Api
  import Crud
  import Js

  const ItemsPerPage := 12

  /** The request parameters for a page: the search term, `skip = (page - 1) * 12` and `limit = 12`. */
  function Window(search: string, page: int): Client.ListParams {
    Client.PageParams(search, (page - 1) * ItemsPerPage, ItemsPerPage)
  }

  /** `data?.total || 0`. */
  function TotalOf(total: Option<nat>): nat {
    if total.Some? then total.value else 0
  }

  /** `Math.ceil(total / 12)`. */
  function TotalPages(total: nat): nat {
    Api.CeilDiv(total, ItemsPerPage)
  }

  /** The footer is shown only when there is more than one page. */
  predicate ShowPagination(total: nat) {
    TotalPages(total) > 1
  }

  /** The first and last ordinal of the footer's "Showing a to b of n". */
  function RangeFirst(page: int): int {
    (page - 1) * ItemsPerPage + 1
  }

  function RangeLast(page: int, total: nat): int {
    Crud.Min(page * ItemsPerPage, total)
  }

  /** The Previous button's updater, `Math.max(prev - 1, 1)`. */
  function PreviousPage(page: int): int {
    Crud.Max(page - 1, 1)
  }

  /** The Next button's updater, `Math.min(prev + 1, totalPages)`. */
  function NextPage(page: int, totalPages: nat): int {
    Crud.Min(page + 1, totalPages)
  }

  lemma OnePageHoldsTwelve(total: nat)
    ensures TotalPages(total) <= 1 <==> total <= ItemsPerPage
    ensures ShowPagination(total) <==> total > ItemsPerPage
  {
    var t := TotalPages(total);
    if t >= 2 {
      assert (t - 1) * ItemsPerPage >= ItemsPerPage;
    }
  }

  /** Previous and Next keep a page inside `[1, totalPages]`, and Next pulls a page beyond the end back to the last one. */
  lemma NavigationInBounds(page: int, totalPages: nat)
    requires totalPages >= 1
    ensures 1 <= page <= totalPages ==> 1 <= PreviousPage(page) <= totalPages && 1 <= NextPage(page, totalPages) <= totalPages
    ensures page > 1 ==> PreviousPage(page) == page - 1
    ensures PreviousPage(1) == 1
    ensures page < totalPages ==> NextPage(page, totalPages) == page + 1
    ensures page >= totalPages ==> NextPage(page, totalPages) == totalPages
  {
  }

  lemma {:induction false} MulStep(a: int, b: int)
    requires 0 <= a < b
    ensures (a + 1) * ItemsPerPage <= b * ItemsPerPage
  {
    Api.MulMonotone(a + 1, b, ItemsPerPage);
  }

  /** On a page between 1 and the last, the footer's range is well formed and counts the page's items. */
  lemma RangeWellFormed(page: int, total: nat)
    requires 1 <= page <= TotalPages(total)
    ensures 1 <= RangeFirst(page) <= RangeLast(page, total) <= total
    ensures RangeLast(page, total) - RangeFirst(page) + 1 <= ItemsPerPage
    ensures page < TotalPages(total) ==> RangeLast(page, total) - RangeFirst(page) + 1 == ItemsPerPage
    ensures page == TotalPages(total) ==> RangeLast(page, total) == total
  {
    var t := TotalPages(total);
    MulStep(page - 1, t);
    if page < t {
      MulStep(page, t);
      assert page * ItemsPerPage <= (t - 1) * ItemsPerPage;
    }
  }

  /** Consecutive pages tile the list: each page's range starts right after the previous one ends. */
  lemma RangesTile(page: int, total: nat)
    requires 1 <= page < TotalPages(total)
    ensures RangeLast(page, total) + 1 == RangeFirst(page + 1)
  {
    RangeWellFormed(page, total);
  }

  /** The items a server honouring `skip` and `limit` returns for the window are those the footer numbers. */
  lemma RangeShowsWindow<T>(xs: seq<T>, search: string, page: int)
    requires 1 <= page <= TotalPages(|xs|)
    ensures var w := Window(search, page);
            w.skip >= 0 && w.limit >= 0 &&
            Crud.Page(xs, w.skip, w.limit) == xs[RangeFirst(page) - 1..RangeLast(page, |xs|)]
  {
    RangeWellFormed(page, |xs|);
    var w := Window(search, page);
    var r := Crud.Page(xs, w.skip, w.limit);
    assert r == xs[RangeFirst(page) - 1..RangeLast(page, |xs|)];
  }

  /** A card's `books_count || 0`, on the Authors and Categories pages alike. */
  function BooksCountShown(booksCount: Option<int>): (r: int)
    ensures r == if booksCount.Some? then booksCount.value else 0
  {
    Js.OrZero(booksCount)
  }

  /** A list page's `currentPage` and `searchTerm` state. */
  class PageState {
    var searchTerm: string
    var currentPage: int

    ghost predicate Valid()
      reads this
    {
      currentPage >= 1
    }

    constructor()
      ensures Valid() && searchTerm == "" && currentPage == 1
    {
      searchTerm := "";
      currentPage := 1;
    }

    /** The request parameters of the current state. */
    function Params(): Client.ListParams
      reads this
    {
      Window(searchTerm, currentPage)
    }

    /** The search box's `onChange`: the term changes, the page does not. */
    method TypeSearch(text: string)
      requires Valid()
      modifies this
      ensures searchTerm == text && currentPage == old(currentPage)
      ensures Valid()
    {
      searchTerm := text;
    }

    /** Submitting the search form goes back to the first page. */
    method SubmitSearch()
      modifies this
      ensures currentPage == 1 && searchTerm == old(searchTerm)
      ensures Valid()
    {
      currentPage := 1;
    }

    method Previous()
      requires Valid()
      modifies this
      ensures currentPage == PreviousPage(old(currentPage)) && searchTerm == old(searchTerm)
      ensures Valid() && currentPage <= old(currentPage)
    {
      currentPage := Crud.Max(currentPage - 1, 1);
    }

    /** Next exists only while the footer is shown, so `totalPages > 1`. */
    method Next(totalPages: nat)
      requires Valid() && totalPages > 1
      modifies this
      ensures currentPage == NextPage(old(currentPage), totalPages) && searchTerm == old(searchTerm)
      ensures Valid()
      ensures 1 <= currentPage <= totalPages
      ensures old(currentPage) <= totalPages ==> old(currentPage) <= currentPage
    {
      currentPage := Crud.Min(currentPage + 1, totalPages);
    }
  }
}
