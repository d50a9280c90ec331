/**
 * The book list page: its list query, the stock badge on each card and the
 * delete button.
 */
module BooksPage {
  import opened Wrappers
  import opened Decimal
  import Js
  import Hooks
  import ListPage

  /** The query the page runs for its state. */
  function ListQuery(search: string, page: int): Hooks.QueryHook {
    Hooks.UseBooks(ListPage.Window(search, page))
  }

  /** Each page of each search is cached under its own key. */
  lemma PagesCachedApart(search: string, p1: int, p2: int)
    requires p1 != p2
    ensures Hooks.Key(ListQuery(search, p1)) != Hooks.Key(ListQuery(search, p2))
  {
    assert Hooks.Key(ListQuery(search, p1))[1] != Hooks.Key(ListQuery(search, p2))[1];
  }

  datatype Badge = Green | Yellow | Red

  /** The badge colour: more than ten in stock is green, some is yellow, none is red. */
  function StockBadge(stock: int): Badge {
    if stock > 10 then Green else if stock > 0 then Yellow else Red
  }

  /** The badge text: "`N` in stock" or "Out of stock". */
  function StockLabel(stock: int): string {
    if stock > 0 then IntToString(stock) + " in stock" else "Out of stock"
  }

  /** The colour and the text agree, and an in-stock text carries the count. */
  lemma BadgeMatchesLabel(stock: int)
    ensures StockBadge(stock) == Red <==> StockLabel(stock) == "Out of stock"
    ensures StockBadge(stock) == Green <==> stock > 10
    ensures stock > 0 ==> ParseInt(StockLabel(stock)[..|StockLabel(stock)| - 9]) == Some(stock)
  {
    if stock > 0 {
      var text := StockLabel(stock);
      IntToStringHasNoChar(stock, 'O');
      assert text[0] == IntToString(stock)[0];
      assert text[0] != 'O';
      assert text[..|text| - 9] == IntToString(stock);
      IntRoundTrip(stock);
    }
  }

  /** `book.author?.name || 'Unknown Author'` and `book.category?.name || 'Uncategorized'`. */
  function AuthorLine(authorName: Option<string>): (r: string)
    ensures authorName.Some? && authorName.value != "" ==> r == "by " + authorName.value
    ensures authorName.None? || authorName.value == "" ==> r == "by Unknown Author"
  {
    "by " + Js.OrElse(authorName, "Unknown Author")
  }

  function CategoryLine(categoryName: Option<string>): (r: string)
    ensures categoryName.Some? && categoryName.value != "" ==> r == categoryName.value
    ensures categoryName.None? || categoryName.value == "" ==> r == "Uncategorized"
  {
    Js.OrElse(categoryName, "Uncategorized")
  }

  /**
   * The delete button: after confirmation it awaits the delete mutation and
   * asks for a refetch only when the mutation succeeded; a failure was already
   * reported by the mutation hook.
   */
  method HandleDelete(client: Hooks.QueryClient, bookId: int, confirmed: bool, outcome: Hooks.Outcome)
    returns (refetch: bool)
    modifies client
    ensures refetch <==> confirmed && outcome.Succeeded?
    ensures !confirmed ==> client.entries == old(client.entries) && client.toasts == old(client.toasts)
    ensures confirmed && outcome.Succeeded? ==>
      client.entries == Hooks.MarkStaleAll(old(client.entries), Hooks.Invalidations(Hooks.DeleteBook(bookId))) &&
      client.toasts == old(client.toasts) + [Hooks.Success("Book deleted successfully!")]
    ensures confirmed && outcome.Failed? ==>
      client.entries == old(client.entries) &&
      client.toasts == old(client.toasts) + [Hooks.ErrorToast(outcome.detail, "Failed to delete book")]
  {
    refetch := false;
    if confirmed {
      client.Settle(Hooks.DeleteBook(bookId), outcome);
      refetch := outcome.Succeeded?;
    }
  }
}
