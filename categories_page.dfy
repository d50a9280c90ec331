/**
 * The category list page: its list query, the description and book count on
 * each card, and the delete button, which goes through the delete mutation.
 */
module CategoriesPage {
  import opened Wrappers
  import Js
  import Hooks
  import ListPage

  function ListQuery(search: string, page: int): Hooks.QueryHook {
    Hooks.UseCategories(ListPage.Window(search, page))
  }

  /** `description || 'No description available'`. */
  function DescriptionText(description: Option<string>): (r: string)
    ensures description.Some? && description.value != "" ==> r == description.value
    ensures description.None? || description.value == "" ==> r == "No description available"
  {
    Js.OrElse(description, "No description available")
  }

  /**
   * The delete button: after confirmation it awaits the delete mutation and
   * asks for a refetch only when the mutation succeeded.
   */
  method HandleDelete(client: Hooks.QueryClient, categoryId: int, confirmed: bool, outcome: Hooks.Outcome)
    returns (refetch: bool)
    modifies client
    ensures refetch <==> confirmed && outcome.Succeeded?
    ensures !confirmed ==> client.entries == old(client.entries) && client.toasts == old(client.toasts)
    ensures confirmed && outcome.Succeeded? ==>
      client.entries == Hooks.MarkStaleAll(old(client.entries), Hooks.Invalidations(Hooks.DeleteCategory(categoryId))) &&
      client.toasts == old(client.toasts) + [Hooks.Success("Category deleted successfully!")]
    ensures confirmed && outcome.Failed? ==>
      client.entries == old(client.entries) &&
      client.toasts == old(client.toasts) + [Hooks.ErrorToast(outcome.detail, "Failed to delete category")]
  {
    refetch := false;
    if confirmed {
      client.Settle(Hooks.DeleteCategory(categoryId), outcome);
      refetch := outcome.Succeeded?;
    }
  }

  /** A successful delete makes every cached category list and book list stale. */
  lemma DeleteRefreshesLists(categoryId: int, params: Hooks.QueryHook)
    requires params.UseCategories? || params.UseBooks?
    ensures Hooks.Invalidates(Hooks.DeleteCategory(categoryId), Hooks.Key(params))
  {
    Hooks.InvalidationTable(Hooks.DeleteCategory(categoryId), params);
  }
}
