/**
 * The data hooks of the front end: the cache key, freshness window and
 * `enabled` gate of each query hook, and what each mutation does to the
 * shared query cache and to the notification log when it settles.
 */
module Hooks {
  import opened Wrappers
  import Client
  import Http
  import Js

  // ---------------------------------------------------------------------
  // Query keys.

  /** One component of a query key: a tag, the list parameters, a route id, or search text. */
  datatype KeyPart = Tag(name: string) | Params(params: Client.ListParams) | Id(id: Option<int>) | Text(text: string)

  type QueryKey = seq<KeyPart>

  /** A query hook as called by a page, with its argument. An absent route id is `None`. */
  datatype QueryHook =
    | UseBooks(params: Client.ListParams)
    | UseBook(id: Option<int>)
    | UseAuthors(params: Client.ListParams)
    | UseAuthor(id: Option<int>)
    | UseCategories(params: Client.ListParams)
    | UseCategory(id: Option<int>)
    | UseSearchBooks(query: string)
    | UseHealthCheck

  const Minute := 60 * 1000

  function Key(h: QueryHook): QueryKey {
    match h
    case UseBooks(p) => [Tag("books"), Params(p)]
    case UseBook(id) => [Tag("book"), Id(id)]
    case UseAuthors(p) => [Tag("authors"), Params(p)]
    case UseAuthor(id) => [Tag("author"), Id(id)]
    case UseCategories(p) => [Tag("categories"), Params(p)]
    case UseCategory(id) => [Tag("category"), Id(id)]
    case UseSearchBooks(q) => [Tag("search"), Text(q)]
    case UseHealthCheck => [Tag("health")]
  }

  /** How long, in milliseconds, fetched data counts as fresh; react-query's default is 0. */
  function StaleTime(h: QueryHook): nat {
    match h
    case UseBooks(_) => 5 * Minute
    case UseAuthors(_) => 10 * Minute
    case UseCategories(_) => 10 * Minute
    case UseSearchBooks(_) => 5 * Minute
    case UseHealthCheck => 10 * 1000
    case _ => 0
  }

  /** JavaScript truthiness of a route id: absent and `0` are falsy. */
  predicate Truthy(id: Option<int>) {
    id.Some? && id.value != 0
  }

  /** The `enabled` option: detail hooks need an id, the search hook a non-empty query. */
  predicate Enabled(h: QueryHook) {
    match h
    case UseBook(id) => Truthy(id)
    case UseAuthor(id) => Truthy(id)
    case UseCategory(id) => Truthy(id)
    case UseSearchBooks(q) => q != ""
    case _ => true
  }

  predicate KeepPreviousData(h: QueryHook) {
    h.UseBooks? || h.UseAuthors? || h.UseCategories?
  }

  /** The polling interval in milliseconds; only the health check polls. */
  function RefetchInterval(h: QueryHook): Option<nat> {
    if h.UseHealthCheck? then Some(30000) else None
  }

  /** The request the hook's query function sends, when the hook is enabled. */
  function QueryRequest(h: QueryHook): (r: Option<Client.Operation>)
    ensures r.Some? <==> Enabled(h)
  {
    if !Enabled(h) then None
    else
      match h
      case UseBooks(p) => Some(Client.GetBooks(p))
      case UseBook(id) => Some(Client.GetBook(id.value))
      case UseAuthors(p) => Some(Client.GetAuthors(p))
      case UseAuthor(id) => Some(Client.GetAuthor(id.value))
      case UseCategories(p) => Some(Client.GetCategories(p))
      case UseCategory(id) => Some(Client.GetCategory(id.value))
      case UseSearchBooks(q) => Some(Client.SearchBooks(q))
      case UseHealthCheck => Some(Client.HealthCheck)
  }

  /** Distinct hook calls never share a cache entry. */
  lemma KeysDistinct(h1: QueryHook, h2: QueryHook)
    requires Key(h1) == Key(h2)
    ensures h1 == h2
  {
    assert Key(h1)[0] == Key(h2)[0];
    if |Key(h1)| > 1 {
      assert Key(h1)[1] == Key(h2)[1];
    }
  }

  /** Queries only read: the request of an enabled hook is a GET, and it reaches a declared route. */
  lemma QueriesAreReads(h: QueryHook)
    requires Enabled(h)
    ensures Client.ApiCall(QueryRequest(h).value).verb == Http.GET
    ensures Client.Routed(Client.ApiCall(QueryRequest(h).value))
  {
    Client.ClientRoutesServed(QueryRequest(h).value);
  }

  // ---------------------------------------------------------------------
  // Freshness.

  /** A cache entry: the data last fetched and whether it has been invalidated since. */
  datatype Entry = Entry(data: string, invalidated: bool)

  /** Cached data is stale once invalidated or once it is at least `StaleTime` old. */
  predicate IsStale(h: QueryHook, e: Entry, age: nat) {
    e.invalidated || age >= StaleTime(h)
  }

  /** Detail hooks keep no freshness window; lists, search and health keep theirs until invalidated; only health polls. */
  lemma Freshness(h: QueryHook, e: Entry, age: nat)
    ensures (h.UseBook? || h.UseAuthor? || h.UseCategory?) ==> IsStale(h, e, age)
    ensures h.UseBooks? && !e.invalidated ==> (IsStale(h, e, age) <==> age >= 300000)
    ensures (h.UseAuthors? || h.UseCategories?) && !e.invalidated ==> (IsStale(h, e, age) <==> age >= 600000)
    ensures h.UseSearchBooks? && !e.invalidated ==> (IsStale(h, e, age) <==> age >= 300000)
    ensures h.UseHealthCheck? && !e.invalidated ==> (IsStale(h, e, age) <==> age >= 10000)
    ensures h.UseHealthCheck? ==> RefetchInterval(h) == Some(30000) && StaleTime(h) < RefetchInterval(h).value
    ensures !h.UseHealthCheck? ==> RefetchInterval(h).None?
  {
  }

  // ---------------------------------------------------------------------
  // Mutations.

  datatype Mutation =
    | CreateBook(data: Client.Payload)
    | UpdateBook(id: int, data: Client.Payload)
    | DeleteBook(id: int)
    | UpdateBookStock(id: int, quantityChange: int)
    | CreateAuthor(data: Client.Payload)
    | UpdateAuthor(id: int, data: Client.Payload)
    | DeleteAuthor(id: int)
    | CreateCategory(data: Client.Payload)
    | UpdateCategory(id: int, data: Client.Payload)
    | DeleteCategory(id: int)

  /** The request the mutation function sends. */
  function MutationRequest(m: Mutation): Client.Operation {
    match m
    case CreateBook(d) => Client.CreateBook(d)
    case UpdateBook(id, d) => Client.UpdateBook(id, d)
    case DeleteBook(id) => Client.DeleteBook(id)
    case UpdateBookStock(id, n) => Client.UpdateBookStock(id, n)
    case CreateAuthor(d) => Client.CreateAuthor(d)
    case UpdateAuthor(id, d) => Client.UpdateAuthor(id, d)
    case DeleteAuthor(id) => Client.DeleteAuthor(id)
    case CreateCategory(d) => Client.CreateCategory(d)
    case UpdateCategory(id, d) => Client.UpdateCategory(id, d)
    case DeleteCategory(id) => Client.DeleteCategory(id)
  }

  /** Mutations write: their request is never a GET, and it reaches a declared route. */
  lemma MutationsAreWrites(m: Mutation)
    ensures Client.ApiCall(MutationRequest(m)).verb != Http.GET
    ensures Client.Routed(Client.ApiCall(MutationRequest(m)))
  {
    Client.ClientRoutesServed(MutationRequest(m));
  }

  /** The key prefixes `onSuccess` invalidates, in the order it invalidates them. */
  function Invalidations(m: Mutation): seq<QueryKey> {
    match m
    case CreateBook(_) => [[Tag("books")]]
    case UpdateBook(id, _) => [[Tag("books")], [Tag("book"), Id(Some(id))]]
    case DeleteBook(_) => [[Tag("books")]]
    case UpdateBookStock(id, _) => [[Tag("books")], [Tag("book"), Id(Some(id))]]
    case CreateAuthor(_) => [[Tag("authors")]]
    case UpdateAuthor(id, _) => [[Tag("authors")], [Tag("author"), Id(Some(id))]]
    case DeleteAuthor(_) => [[Tag("authors")], [Tag("books")]]
    case CreateCategory(_) => [[Tag("categories")]]
    case UpdateCategory(id, _) => [[Tag("categories")], [Tag("category"), Id(Some(id))]]
    case DeleteCategory(_) => [[Tag("categories")], [Tag("books")]]
  }

  function SuccessText(m: Mutation): string {
    match m
    case CreateBook(_) => "Book created successfully!"
    case UpdateBook(_, _) => "Book updated successfully!"
    case DeleteBook(_) => "Book deleted successfully!"
    case UpdateBookStock(_, _) => "Stock updated successfully!"
    case CreateAuthor(_) => "Author created successfully!"
    case UpdateAuthor(_, _) => "Author updated successfully!"
    case DeleteAuthor(_) => "Author deleted successfully!"
    case CreateCategory(_) => "Category created successfully!"
    case UpdateCategory(_, _) => "Category updated successfully!"
    case DeleteCategory(_) => "Category deleted successfully!"
  }

  function FallbackText(m: Mutation): string {
    match m
    case CreateBook(_) => "Failed to create book"
    case UpdateBook(_, _) => "Failed to update book"
    case DeleteBook(_) => "Failed to delete book"
    case UpdateBookStock(_, _) => "Failed to update stock"
    case CreateAuthor(_) => "Failed to create author"
    case UpdateAuthor(_, _) => "Failed to update author"
    case DeleteAuthor(_) => "Failed to delete author"
    case CreateCategory(_) => "Failed to create category"
    case UpdateCategory(_, _) => "Failed to update category"
    case DeleteCategory(_) => "Failed to delete category"
  }

  /** Some prefix the mutation invalidates covers the key. */
  predicate Invalidates(m: Mutation, key: QueryKey) {
    exists j :: 0 <= j < |Invalidations(m)| && Invalidations(m)[j] <= key
  }

  /** Which hooks' cached data a successful mutation makes stale, hook by hook. */
  predicate Refreshes(m: Mutation, h: QueryHook) {
    match h
    case UseBooks(_) =>
      m.CreateBook? || m.UpdateBook? || m.DeleteBook? || m.UpdateBookStock? || m.DeleteAuthor? || m.DeleteCategory?
    case UseBook(id) => (m.UpdateBook? || m.UpdateBookStock?) && id == Some(m.id)
    case UseAuthors(_) => m.CreateAuthor? || m.UpdateAuthor? || m.DeleteAuthor?
    case UseAuthor(id) => m.UpdateAuthor? && id == Some(m.id)
    case UseCategories(_) => m.CreateCategory? || m.UpdateCategory? || m.DeleteCategory?
    case UseCategory(id) => m.UpdateCategory? && id == Some(m.id)
    case UseSearchBooks(_) => false
    case UseHealthCheck => false
  }

  lemma {:induction false} TagPrefix(tag: string, key: QueryKey)
    requires |key| >= 1
    ensures [Tag(tag)] <= key <==> key[0] == Tag(tag)
  {
  }

  lemma {:induction false} IdPrefix(tag: string, id: int, key: QueryKey)
    requires |key| == 2
    ensures [Tag(tag), Id(Some(id))] <= key <==> key[0] == Tag(tag) && key[1] == Id(Some(id))
  {
    assert key == [key[0], key[1]];
  }

  /** What each invalidated prefix covers: a one-part prefix matches the tag, a two-part one the whole key. */
  lemma PrefixCovers(m: Mutation, key: QueryKey)
    requires 1 <= |key| <= 2
    ensures forall j | 0 <= j < |Invalidations(m)| ::
      Invalidations(m)[j] <= key <==>
        (if |Invalidations(m)[j]| == 1 then key[0] == Invalidations(m)[j][0]
         else |key| == 2 && key[0] == Invalidations(m)[j][0] && key[1] == Invalidations(m)[j][1])
  {
    var inv := Invalidations(m);
    forall j | 0 <= j < |inv|
      ensures inv[j] <= key <==> (if |inv[j]| == 1 then key[0] == inv[j][0] else |key| == 2 && key[0] == inv[j][0] && key[1] == inv[j][1])
    {
      if |inv[j]| == 1 {
        TagPrefix(inv[j][0].name, key);
      } else if |key| == 2 {
        IdPrefix(inv[j][0].name, inv[j][1].id.value, key);
      }
    }
  }

  /** A hook the table refreshes is covered by one of the mutation's prefixes. */
  lemma RefreshedIsInvalidated(m: Mutation, h: QueryHook)
    requires Refreshes(m, h)
    ensures Invalidates(m, Key(h))
  {
    PrefixCovers(m, Key(h));
    var j := if h.UseBook? || h.UseAuthor? || h.UseCategory? then 1
             else if m.DeleteAuthor? || m.DeleteCategory? then (if h.UseBooks? then 1 else 0)
             else 0;
    assert Invalidations(m)[j] <= Key(h);
  }

  /** The invalidation table as written: a successful mutation invalidates a hook's key exactly when the table says so. */
  lemma InvalidationTable(m: Mutation, h: QueryHook)
    ensures Invalidates(m, Key(h)) <==> Refreshes(m, h)
  {
    if Refreshes(m, h) {
      RefreshedIsInvalidated(m, h);
    } else {
      PrefixCovers(m, Key(h));
    }
  }

  /** Deleting a book leaves that book's cached detail fresh. */
  lemma DeleteBookKeepsDetail(id: int, other: Mutation)
    requires other == DeleteBook(id)
    ensures !Invalidates(other, Key(UseBook(Some(id))))
    ensures Invalidates(other, Key(UseBooks(Client.NoParams)))
  {
    InvalidationTable(other, UseBook(Some(id)));
    InvalidationTable(other, UseBooks(Client.NoParams));
  }

  /** Search results and the health check are never invalidated by a mutation. */
  lemma SearchAndHealthNeverInvalidated(m: Mutation, q: string)
    ensures !Invalidates(m, Key(UseSearchBooks(q)))
    ensures !Invalidates(m, Key(UseHealthCheck))
  {
    InvalidationTable(m, UseSearchBooks(q));
    InvalidationTable(m, UseHealthCheck);
  }

  // ---------------------------------------------------------------------
  // The shared query cache and the notification log.

  /** A toast: a success text, an error text, or the validation-error list passed to `toast.error` as it is. */
  datatype Toast = Success(text: string) | Failure(text: string) | FailureList(errors: seq<string>)

  /**
   * The `detail` of an error response: the text of an `HTTPException`, or
   * the list of validation errors of a 422. A response without one (a plain
   * 500 body, or no response at all) has no detail.
   */
  datatype Detail = DetailText(text: string) | DetailList(errors: seq<string>)

  /**
   * `toast.error(error.response?.data?.detail || fallback)`: an absent or empty
   * text gives the fallback; a list is truthy even when empty, so it is passed on
   * and the fallback is never shown for it.
   */
  function ErrorToast(detail: Option<Detail>, fallback: string): (t: Toast)
    ensures t.FailureList? <==> detail.Some? && detail.value.DetailList?
    ensures detail.Some? && detail.value.DetailList? ==> t.errors == detail.value.errors
    ensures detail.None? || detail == Some(DetailText("")) ==> t == Failure(fallback)
    ensures detail.Some? && detail.value.DetailText? && detail.value.text != "" ==> t == Failure(detail.value.text)
  {
    match detail
    case Some(DetailList(errors)) => FailureList(errors)
    case Some(DetailText(text)) => Failure(Js.OrElse(Some(text), fallback))
    case None => Failure(fallback)
  }

  /** The entries with a key under `prefix` marked invalidated; the rest as they were. */
  function MarkStale(entries: map<QueryKey, Entry>, prefix: QueryKey): (r: map<QueryKey, Entry>)
    ensures r.Keys == entries.Keys
    ensures forall k :: k in r ==> r[k].data == entries[k].data
    ensures forall k :: k in r ==> (r[k].invalidated <==> entries[k].invalidated || prefix <= k)
  {
    map k | k in entries :: if prefix <= k then entries[k].(invalidated := true) else entries[k]
  }

  /** `MarkStale` for each prefix in turn. */
  function MarkStaleAll(entries: map<QueryKey, Entry>, prefixes: seq<QueryKey>): (r: map<QueryKey, Entry>)
    ensures r.Keys == entries.Keys
    ensures forall k :: k in r ==> r[k].data == entries[k].data
    ensures forall k :: k in r ==>
      (r[k].invalidated <==> entries[k].invalidated || exists j :: 0 <= j < |prefixes| && prefixes[j] <= k)
    decreases |prefixes|
  {
    if |prefixes| == 0 then entries
    else MarkStale(MarkStaleAll(entries, prefixes[..|prefixes| - 1]), prefixes[|prefixes| - 1])
  }

  /** The outcome of a mutation's request: success, or failure with the server's `detail` if any. */
  datatype Outcome = Succeeded | Failed(detail: Option<Detail>)

  class QueryClient {
    var entries: map<QueryKey, Entry>
    var toasts: seq<Toast>

    constructor()
      ensures entries == map[] && toasts == []
    {
      entries := map[];
      toasts := [];
    }

    /** A query's fetch completed: its entry holds the new data and is fresh. */
    method Store(h: QueryHook, data: string)
      modifies this
      ensures entries == old(entries)[Key(h) := Entry(data, false)]
      ensures toasts == old(toasts)
    {
      entries := entries[Key(h) := Entry(data, false)];
    }

    /** `invalidateQueries(prefix)`: every entry whose key starts with `prefix` is marked invalidated. */
    method InvalidateQueries(prefix: QueryKey)
      modifies this
      ensures entries == MarkStale(old(entries), prefix)
      ensures toasts == old(toasts)
    {
      entries := MarkStale(entries, prefix);
    }

    /** `onSuccess`: the mutation's prefixes are invalidated in order, then its success message is shown. */
    method OnSuccess(m: Mutation)
      modifies this
      ensures entries == MarkStaleAll(old(entries), Invalidations(m))
      ensures toasts == old(toasts) + [Success(SuccessText(m))]
    {
      var prefixes := Invalidations(m);
      for i := 0 to |prefixes|
        invariant entries == MarkStaleAll(old(entries), prefixes[..i])
        invariant toasts == old(toasts)
      {
        assert prefixes[..i + 1][..i] == prefixes[..i];
        InvalidateQueries(prefixes[i]);
      }
      assert prefixes[..|prefixes|] == prefixes;
      toasts := toasts + [Success(SuccessText(m))];
    }

    /** `onError`: only a message, `error.response?.data?.detail || fallback`; the cache is untouched. */
    method OnError(m: Mutation, detail: Option<Detail>)
      modifies this
      ensures entries == old(entries)
      ensures toasts == old(toasts) + [ErrorToast(detail, FallbackText(m))]
    {
      toasts := toasts + [ErrorToast(detail, FallbackText(m))];
    }

    /** A mutation settles: its success or its error callback runs. */
    method Settle(m: Mutation, outcome: Outcome)
      modifies this
      ensures outcome.Succeeded? ==> entries == MarkStaleAll(old(entries), Invalidations(m))
      ensures outcome.Failed? ==> entries == old(entries)
      ensures |toasts| == |old(toasts)| + 1 && toasts[..|old(toasts)|] == old(toasts)
      ensures toasts[|old(toasts)|] == if outcome.Succeeded? then Success(SuccessText(m))
                                       else ErrorToast(outcome.detail, FallbackText(m))
    {
      if outcome.Succeeded? {
        OnSuccess(m);
      } else {
        OnError(m, outcome.detail);
      }
    }
  }

  /** After a successful mutation a hook's entry is invalidated exactly when it was, or the table refreshes it. */
  lemma SuccessRefreshesExactly(entries: map<QueryKey, Entry>, m: Mutation, h: QueryHook)
    requires Key(h) in entries
    ensures var after := MarkStaleAll(entries, Invalidations(m));
            Key(h) in after && after[Key(h)].data == entries[Key(h)].data &&
            (after[Key(h)].invalidated <==> entries[Key(h)].invalidated || Refreshes(m, h))
  {
    InvalidationTable(m, h);
    StaleAfter(entries, Invalidations(m), Key(h));
  }

  lemma StaleAfter(entries: map<QueryKey, Entry>, prefixes: seq<QueryKey>, key: QueryKey)
    requires key in entries
    ensures var after := MarkStaleAll(entries, prefixes);
            key in after && after[key].data == entries[key].data &&
            (after[key].invalidated <==> entries[key].invalidated || exists j :: 0 <= j < |prefixes| && prefixes[j] <= key)
  {
  }
}
