/**
 * The author list page: its list query, the biography preview and book
 * count on each card, and the delete button, which sends no request.
 */
module AuthorsPage {
  import opened Wrappers
  import Js
  import Hooks
  import ListPage

  function ListQuery(search: string, page: int): Hooks.QueryHook {
    Hooks.UseAuthors(ListPage.Window(search, page))
  }

  const PreviewLength := 100

  /** `biography ? biography.substring(0, 100) + '...' : 'No biography available'`. */
  function BiographyText(biography: Option<string>): (text: string)
    ensures biography.Some? && biography.value != "" ==>
      4 <= |text| <= PreviewLength + 3 && text[|text| - 3..] == "..." &&
      text[..|text| - 3] <= biography.value &&
      (|biography.value| <= PreviewLength ==> text[..|text| - 3] == biography.value) &&
      (|biography.value| > PreviewLength ==> |text| == PreviewLength + 3)
    ensures biography.None? || biography.value == "" ==> text == "No biography available"
  {
    if biography.Some? && biography.value != "" then
      var b := biography.value;
      (if |b| <= PreviewLength then b else b[..PreviewLength]) + "..."
    else "No biography available"
  }

  /**
   * The delete button: after confirmation it reports success and asks for a
   * refetch without sending any request, so the cache is untouched.
   */
  method HandleDelete(client: Hooks.QueryClient, authorId: int, confirmed: bool) returns (refetch: bool)
    modifies client
    ensures refetch == confirmed
    ensures client.entries == old(client.entries)
    ensures confirmed ==> client.toasts == old(client.toasts) + [Hooks.Success("Author deleted successfully")]
    ensures !confirmed ==> client.toasts == old(client.toasts)
  {
    refetch := false;
    if confirmed {
      client.toasts := client.toasts + [Hooks.Success("Author deleted successfully")];
      refetch := true;
    }
  }

  /** The page's message differs from the one the delete-author mutation would show. */
  lemma StubMessageDiffers(id: int)
    ensures Hooks.SuccessText(Hooks.DeleteAuthor(id)) != "Author deleted successfully"
  {
    assert |Hooks.SuccessText(Hooks.DeleteAuthor(id))| != |"Author deleted successfully"|;
  }
}
