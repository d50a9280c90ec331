# Book Store Service: a verified model

This project models the Book Store Service in Dafny. The service is a FastAPI backend over a
SQLAlchemy catalogue of authors, categories and books, with a many-to-many book/category
association. Its React frontend reaches the backend through an axios client and react-query hooks.

Each core file of the service is one module:

- `Models` (models.dfy) holds the rows and the association between books and categories.
- `Schemas` (schemas.dfy) holds the request bodies and their defaults. It also computes the
  fields an update body sets, which is what pydantic's `dict(exclude_unset=True)` gives.
- `Crud` (crud.dfy) holds the database and its operations. The class `Catalogue` has one map per
  table, the association set, and one id counter per table. The methods update those fields in
  place. A partial update runs one `for` loop (`AssignFields`) over the set fields, applying them
  in the same way `setattr` does. The result is proved equal to a field-by-field reference
  (`Patched*`). The book search
  query is built one criterion at a time, and is proved equivalent to a declarative search
  predicate.
- `Api` (api.dfy) holds the endpoint handlers. They turn a missing row into a 404 with
  "<Kind> not found", and a failed commit into a 500. A book response whose author is not
  stored fails `BookResponse` validation, which is also a 500. The module also has the pagination
  arithmetic of `GET /books/` (skip, `pages = ceil(total / size)`), the validation of that
  endpoint's query parameters (422), and the route table the server dispatches on.
- `Client` (client.dfy) holds the base URL and the request each `api.*` method issues. It proves
  that every request reaches a server route with the right path and query parameters. It also
  models the response interceptor's error classification.
- `Hooks` (hooks.dfy) holds the react-query hooks: keys, stale times, `enabled`, and the
  invalidation table of every mutation. The class `QueryClient` holds the cache entries and the
  toasts shown. Invalidation is modelled as react-query does it: by key prefix.
- `ListPage` (list_page.dfy) holds the paging state and arithmetic that the Books, Authors and
  Categories pages share (class `PageState`). `BooksPage`, `AuthorsPage` and `CategoriesPage` hold
  what each page renders and its delete handler.
- The helper modules are:
  - `Wrappers`: Option and Result.
  - `Decimal`: integer to decimal text and back.
  - `TextMatch`: ASCII case-insensitive `ilike '%p%'`.
  - `UriComponent`: `encodeURIComponent` on the client and the server's percent-decoding.
  - `Http`: HTTP methods, and splitting a request target into its path and query.
  - `Js`: JavaScript's `a || b` on strings and numbers.

Some choices affect what the model shows:

- Rows are listed in ascending id order, and ids come from a per-table counter starting at 1.
  The source issues `offset`/`limit` without `order_by`, so this order is a modelling choice.
- Prices are integers (cents). Unique constraints are modelled explicitly. A violation is an
  `IntegrityError` that leaves the database unchanged.
- Where the service and its design notes disagree, the model follows the code:
  - `update_book_stock` clamps the stock at 0 instead of rejecting the change.
  - The interceptor's "Server error" branch fires for status 500 exactly, not for every 5xx.
  - Deleting a book, author or category does not invalidate that row's detail query.
  - The Authors page's delete button calls no API at all.
  - Its success toast reads "Author deleted successfully" without the "!" that the hook's toast
    has.
  - `GET /search/books/` filters on the title only. Its `q` parameter is described as searching
    title, author or description, and the Books page's search box as searching title, author or
    category; `Api.SearchBooks` follows the title-only query.

## Model

| member | source | states |
|---|---|---|
| Models.BooksBy | app/models.py:24-43 | an author's books are exactly the rows whose `author_id` is that author |
| Models.AssociationSymmetric | app/models.py:7-12 | a category is among a book's categories iff the book is among that category's books (the two `back_populates` sides agree) |
| Models.CategoriesOfIff | app/models.py:30 | a book's categories are exactly the association rows for that book |
| Schemas.AuthorUpdateData | app/schemas.py:35-38 | the update data holds a field iff the body sets it, with the value the body gives |
| Schemas.CategoryUpdateData | app/schemas.py:40-42 | the update data holds a field iff the body sets it, with the value the body gives |
| Schemas.EmptyUpdatesCarryNothing | app/schemas.py:35-52 | an update body that sets nothing yields no fields to assign and no category list |
| Schemas.Defaults | app/schemas.py:15-94 | a new book defaults to stock 0, no categories, no description and no date; pagination defaults to page 1 of size 10; a search with no arguments has every filter unset |
| Crud.Page | app/crud.py:123 | `offset(skip).limit(limit)`: at most `limit` rows, exactly `min(limit, n - skip)` of them, taken in order from position `skip` |
| Crud.AssignFields | app/crud.py:24-25 | the `setattr` loop leaves the row obtained by assigning the given fields one after the other, in order |
| Crud.AuthorUpdateIsPatch | app/crud.py:20-28 | assigning the set fields one by one gives the old author with exactly the body's set fields replaced |
| Crud.CategoryUpdateIsPatch | app/crud.py:52-60 | assigning the set fields one by one gives the old category with exactly the body's set fields replaced |
| Crud.BookUpdateIsPatch | app/crud.py:149-157 | assigning the set book fields one by one gives the old book with exactly the body's set scalar fields replaced |
| Crud.EmptyUpdateKeepsRow | app/crud.py:149-164 | an update that sets nothing leaves an author, category or book row as it was |
| Crud.Keys | app/crud.py:17-18 | the listing order visits only stored ids, in strictly ascending order |
| Crud.KeysComplete | app/crud.py:17-18 | every stored id appears in the listing order |
| Crud.Rows | app/crud.py:17-18 | a full listing is the stored rows in id order |
| Crud.RowsComplete | app/crud.py:17-18 | every stored row appears in the full listing |
| Crud.BookQuery | app/crud.py:104-121 | a book passes the criteria the query builds iff it matches every filter the search sets (title, author name, category name, price bounds, in stock or not) |
| Crud.SearchAsCriteria | app/crud.py:104-121 | a book matches a search iff it meets each criterion the search sets, one criterion at a time |
| Crud.Filter | app/crud.py:104-121 | filtering keeps exactly the rows satisfying the predicate |
| Crud.MatchingComplete | app/crud.py:93-123 | every stored book that matches the search is among the search's results before paging |
| Crud.EmptySearchMatchesAll | app/crud.py:104-105 | no search, an empty search or an empty title matches every book |
| Crud.LinksTo | app/crud.py:78-80 | the association rows created for a book are exactly the pairs (book, c) with c requested and c an existing category |
| Crud.AdjustedStock | app/crud.py:177-179 | the new stock is never negative; it is old + change when that is not negative, else 0 |
| Crud.AdjustedStockIsClamp | app/crud.py:177-179 | the new stock is `max(0, old + change)`; adding and then removing a non-negative amount restores a non-negative stock |
| Crud.Catalogue.CreateAuthor | app/crud.py:7-12 | a duplicate email fails and leaves the database unchanged; otherwise the author is stored under the next id with the body's fields |
| Crud.Catalogue.GetAuthor | app/crud.py:14-15 | found iff the id is stored, and then it is that row |
| Crud.Catalogue.GetAuthors | app/crud.py:17-18 | at most `limit` stored authors, in id order, starting at position `skip` |
| Crud.Catalogue.UpdateAuthor | app/crud.py:20-28 | an unknown id returns none and changes nothing; a clashing email fails with nothing changed; otherwise the row becomes the patched author |
| Crud.Catalogue.DeleteAuthor | app/crud.py:30-36 | returns true iff the id was stored; removes only that author |
| Crud.Catalogue.CreateCategory | app/crud.py:39-44 | a duplicate name fails and leaves the database unchanged; otherwise the category is stored under the next id |
| Crud.Catalogue.GetCategory | app/crud.py:46-47 | found iff the id is stored, and then it is that row |
| Crud.Catalogue.GetCategories | app/crud.py:49-50 | at most `limit` stored categories, in id order, starting at position `skip` |
| Crud.Catalogue.UpdateCategory | app/crud.py:52-60 | an unknown id returns none and changes nothing; a clashing name fails with nothing changed; otherwise the row becomes the patched category |
| Crud.Catalogue.DeleteCategory | app/crud.py:62-68 | returns true iff the id was stored; removes that category and its association rows only |
| Crud.Catalogue.CreateBook | app/crud.py:71-85 | a duplicate ISBN fails and leaves the database unchanged; otherwise the book is stored under the next id, linked to the requested categories that exist |
| Crud.Catalogue.GetBook | app/crud.py:87-91 | found iff the id is stored, and then it is that row |
| Crud.Catalogue.GetBooks | app/crud.py:93-123 | the page at `skip`/`limit` of the stored books matching the search, in id order |
| Crud.Catalogue.GetBooksCount | app/crud.py:125-147 | the number of stored books matching the same search as `GetBooks` |
| Crud.Catalogue.UpdateBook | app/crud.py:149-164 | an unknown id returns none; a clashing ISBN fails; otherwise the row becomes the patched book and, when a category list is given, its links become exactly the existing categories listed |
| Crud.Catalogue.DeleteBook | app/crud.py:166-172 | returns true iff the id was stored; removes that book and its association rows only |
| Crud.Catalogue.UpdateBookStock | app/crud.py:174-182 | an unknown id returns none and changes nothing; otherwise only that book's stock changes, to the clamped sum |
| Api.HealthCheck | app/main.py:42-44 | the health body reports status "healthy" for service "book-store-service" |
| Api.RequireFound | app/main.py:56-61 | a missing row becomes a 404 "<Kind> not found"; a found row passes through |
| Api.RequireDeleted | app/main.py:70-75 | a successful delete gives "<Kind> deleted successfully", otherwise a 404 "<Kind> not found" |
| Api.Committed | app/main.py:47-49 | a commit error becomes a 500; a stored row passes through |
| Api.Updated | app/main.py:63-68 | a commit error gives a 500, a missing row a 404 "<Kind> not found", and otherwise the updated row |
| Api.CeilDiv | app/main.py:139 | `ceil(n / d)`: the least page count whose pages hold all n rows, 0 exactly when n is 0 |
| Api.Offset | app/main.py:125 | `skip = (page - 1) * size`, so `skip + size == page * size` |
| Api.PagesCover | app/main.py:125-139 | every page up to `pages` is non-empty, the pages before the last are full, and every page beyond `pages` is empty |
| Api.InvalidQuery | app/main.py:115-121 | a query breaking `page >= 1`, `1 <= size <= 100` or a non-negative price bound is rejected with 422 |
| Api.AsBookResponse | app/schemas.py:71-80 | a book is returned iff its `author_id` names a stored author, since `BookResponse.author` is required; otherwise the response fails with a 500 |
| Api.AsBookResponses | app/schemas.py:96-97 | a list of books is returned unchanged iff every book in it has a stored author; one book without an author makes the whole response a 500 |
| Api.HandleCreateAuthor | app/main.py:47-49 | a duplicate email gives 500 with nothing changed; otherwise the response is the author with the body's fields under the next id, stored there, and no other table or counter changes |
| Api.ReadAuthors | app/main.py:51-54 | the authors in id order from position `skip`: exactly `min(limit, n - skip)` of them (none past the end), each the stored row |
| Api.ReadAuthor | app/main.py:56-61 | the stored author, or 404 "Author not found" exactly when the id is unknown |
| Api.HandleUpdateAuthor | app/main.py:63-68 | 404 with nothing changed for an unknown id, 500 with nothing changed for a clashing email, otherwise success with the patched author, which replaces the row; nothing else changes |
| Api.HandleDeleteAuthor | app/main.py:70-75 | the success message iff the id was stored, else 404; only that author is removed, and books, categories, links and counters stay |
| Api.HandleCreateCategory | app/main.py:78-80 | a duplicate name gives 500 with nothing changed; otherwise the response is the category with the body's fields under the next id, stored there, and nothing else changes |
| Api.ReadCategories | app/main.py:82-85 | the categories in id order from position `skip`: exactly `min(limit, n - skip)` of them (none past the end), each the stored row |
| Api.ReadCategory | app/main.py:87-92 | the stored category, or 404 "Category not found" exactly when the id is unknown |
| Api.HandleUpdateCategory | app/main.py:94-99 | 404 with nothing changed for an unknown id, 500 with nothing changed for a clashing name, otherwise success with the patched category, which replaces the row; nothing else changes |
| Api.HandleDeleteCategory | app/main.py:101-106 | the success message iff the id was stored, else 404; the category and exactly its association rows are removed, and nothing else changes |
| Api.HandleCreateBook | app/main.py:109-111 | a duplicate ISBN gives 500 with nothing changed; otherwise the body's book is stored under the next id, linked to exactly the requested categories that exist, and the response is that book iff its author exists, else a 500 with the row kept |
| Api.ReadBooks | app/main.py:113-147 | a 422 for a query out of bounds; otherwise a 500 iff a book on the page has no stored author, and else items are the page of matching books, the total counts all of them and `pages` is `ceil(total / size)` |
| Api.ReadBook | app/main.py:149-154 | 404 "Book not found" exactly when the id is unknown, 500 when the book's author is not stored, and otherwise the stored book |
| Api.HandleUpdateBook | app/main.py:156-161 | 404 with nothing changed for an unknown id, 500 with nothing changed for a clashing ISBN; otherwise the row becomes the patched book, its links are replaced by the existing listed categories when a list is given, and the response is the book iff its author exists, else a 500 |
| Api.HandleDeleteBook | app/main.py:163-168 | the success message iff the id was stored, else 404; the book and exactly its association rows are removed, and nothing else changes |
| Api.HandleUpdateBookStock | app/main.py:170-179 | 404 with nothing changed for an unknown id; otherwise only that book's stock changes, to `max(0, old + change)`, and the response is the book iff its author exists, else a 500 |
| Api.SearchBooks | app/main.py:182-190 | the first 100 stored books whose title contains `q` ignoring case, or a 500 exactly when one of them has no stored author |
| Decimal.IntRoundTrip | frontend/src/api/client.js:50 | the decimal text of an id, as interpolated in a URL, parses back to that id on the server |
| UriComponent.UnquoteEncode | frontend/src/api/client.js:72 | decoding the `encodeURIComponent` of a search text gives back its UTF-8 bytes |
| UriComponent.EncodedIsSafe | frontend/src/api/client.js:72 | an encoded search text consists only of unreserved characters, `%` and hex digits, so it stays one query value |
| UriComponent.EncodeUnreserved | frontend/src/api/client.js:72 | text made of unreserved characters is left unchanged by the encoding |
| TextMatch.ILikeIgnoresCase | app/crud.py:106 | `ilike` matching does not depend on letter case |
| TextMatch.ILikeOccurrence | app/crud.py:106 | a title containing the pattern at some position matches `'%pattern%'` |
| Client.BaseUrl | frontend/src/api/client.js:5 | the configured URL when it is set and non-empty, else `http://localhost:8000` |
| Client.BodiesPassThrough | frontend/src/api/client.js:47-76 | exactly create and update calls carry a body, and it is the caller's data; only the list calls carry params |
| Client.ClientRoutesServed | frontend/src/api/client.js:47-76 | every request the client issues is served by a server route with the same method: its path matches the route's segments, and its integer path and query parameters parse |
| Client.StockServed | frontend/src/api/client.js:54-55 | the stock request reaches `PATCH /books/{book_id}/stock` and the server reads back the same `quantity_change` |
| Client.SearchServed | frontend/src/api/client.js:72 | the search request reaches `GET /search/books/`, and the server decodes `q` to the UTF-8 bytes of the text typed |
| Client.OnResponseError | frontend/src/api/client.js:30-43 | the interceptor rejects with the same error it received, after logging its class |
| Client.ClassifyPrecedence | frontend/src/api/client.js:33-41 | 404 is "not found", 500 is "server error", and otherwise ECONNREFUSED, then NETWORK_ERROR, decide; each class holds iff its branch is the first to apply |
| Js.OrElse | frontend/src/pages/Books.js:136 | `s || fallback`: a non-empty string is kept, a missing or empty one is replaced, and a non-empty fallback never shows empty |
| Js.OrZero | frontend/src/pages/Authors.js:139 | `n || 0`: a given number is shown as it is and a missing one as 0 |
| Hooks.QueryRequest | frontend/src/hooks/useApi.js:20-30 | a query issues a request iff it is enabled (`!!id` for a detail, `!!query` for search) |
| Hooks.Freshness | frontend/src/hooks/useApi.js:15-320 | detail queries are always stale; book lists and search stay fresh for 5 minutes, author and category lists for 10, health for 10 seconds, unless invalidated; only health polls, every 30 seconds |
| Hooks.KeysDistinct | frontend/src/hooks/useApi.js:8 | two hooks share a cache key only when they are the same query with the same arguments |
| Hooks.QueriesAreReads | frontend/src/hooks/useApi.js:6-31 | every enabled query issues a GET that a server route serves |
| Hooks.MutationsAreWrites | frontend/src/hooks/useApi.js:33-113 | every mutation issues a non-GET request that a server route serves |
| Hooks.InvalidationTable | frontend/src/hooks/useApi.js:41-289 | a mutation marks a hook's cache entry stale iff an independent hook-by-hook table says the mutation refreshes it (the lists of its kind, books lists after an author or category delete, and the detail of the row it updated), as the `onSuccess` blocks list them |
| Hooks.DeleteBookKeepsDetail | frontend/src/hooks/useApi.js:83-84 | deleting a book invalidates the book lists but not that book's detail query |
| Hooks.SearchAndHealthNeverInvalidated | frontend/src/hooks/useApi.js:298 | no mutation invalidates search results or the health check |
| Hooks.MarkStale | frontend/src/hooks/useApi.js:43 | `invalidateQueries(prefix)` keeps every key and its data, and marks stale exactly the keys with that prefix |
| Hooks.MarkStaleAll | frontend/src/hooks/useApi.js:63-64 | several invalidations in a row mark stale exactly the keys with one of the prefixes |
| Hooks.QueryClient.Store | frontend/src/hooks/useApi.js:11 | a fetched result is cached fresh under the hook's key |
| Hooks.QueryClient.InvalidateQueries | frontend/src/hooks/useApi.js:43 | the cache becomes `MarkStale` of the old cache; no toast |
| Hooks.QueryClient.OnSuccess | frontend/src/hooks/useApi.js:62-66 | the cache becomes `MarkStaleAll` of the mutation's invalidations and one success toast is added |
| Hooks.QueryClient.OnError | frontend/src/hooks/useApi.js:67-69 | the cache is unchanged and one error toast is added: the server's detail text when non-empty, the validation-error list as it is, else the fixed fallback |
| Hooks.ErrorToast | frontend/src/hooks/useApi.js:46-48 | `detail || fallback`: a validation-error list is always passed on, a non-empty text is shown, and an absent or empty detail shows the fallback |
| Hooks.QueryClient.Settle | frontend/src/hooks/useApi.js:56-71 | one toast is appended; on success the cache is invalidated as the table says, on failure it is unchanged |
| Hooks.SuccessRefreshesExactly | frontend/src/hooks/useApi.js:62-65 | after a successful mutation a cached query is stale iff it was stale before or the table says the mutation refreshes it |
| ListPage.OnePageHoldsTwelve | frontend/src/pages/Books.js:22 | there is at most one page iff there are at most 12 results, and pagination shows iff there are more |
| ListPage.NavigationInBounds | frontend/src/pages/Books.js:183-190 | Previous and Next keep a page inside 1..totalPages; Previous steps back except at 1, and Next steps on except at the last page |
| ListPage.RangeWellFormed | frontend/src/pages/Books.js:179 | "Showing a to b of total" has 1 <= a <= b <= total, at most 12 results, exactly 12 before the last page, and b = total on the last |
| ListPage.RangesTile | frontend/src/pages/Books.js:179 | consecutive pages' ranges meet with no gap and no overlap |
| ListPage.RangeShowsWindow | frontend/src/pages/Books.js:12-16 | the rows a server would return for the page's skip and limit are exactly the results the range text names |
| ListPage.PageState.TypeSearch | frontend/src/pages/Books.js:82 | typing replaces the search text and keeps the page |
| ListPage.PageState.SubmitSearch | frontend/src/pages/Books.js:24-28 | submitting a search goes back to page 1 |
| ListPage.PageState.Previous | frontend/src/pages/Books.js:183 | the page becomes `max(page - 1, 1)` and never grows |
| ListPage.PageState.Next | frontend/src/pages/Books.js:190 | the page becomes `min(page + 1, totalPages)`, always within 1..totalPages, and never moves back from a page within range |
| ListPage.BooksCountShown | frontend/src/pages/Authors.js:139 | a card's book count, or 0 when it is missing (the same expression is at frontend/src/pages/Categories.js:140) |
| BooksPage.PagesCachedApart | frontend/src/pages/Books.js:12-16 | different pages of the same search have different cache keys |
| BooksPage.BadgeMatchesLabel | frontend/src/pages/Books.js:145-150 | the badge is red iff the label says "Out of stock", green iff the stock is above 10, and the label's number is the stock |
| BooksPage.AuthorLine | frontend/src/pages/Books.js:136 | "by" and the author's name, or "by Unknown Author" when the name is missing or empty |
| BooksPage.CategoryLine | frontend/src/pages/Books.js:139 | the category's name, or "Uncategorized" when it is missing or empty |
| BooksPage.HandleDelete | frontend/src/pages/Books.js:30-39 | nothing happens unless confirmed; a confirmed delete refetches iff the mutation succeeded, with the hook's cache and toast effects |
| AuthorsPage.BiographyText | frontend/src/pages/Authors.js:135 | a biography shows its first 100 characters followed by "...", and a missing or empty one shows "No biography available" |
| AuthorsPage.HandleDelete | frontend/src/pages/Authors.js:28-38 | a confirmed delete changes no cache entry, shows "Author deleted successfully" and refetches; an unconfirmed one does nothing |
| AuthorsPage.StubMessageDiffers | frontend/src/pages/Authors.js:32 | the page's toast differs from the one the delete hook would show |
| CategoriesPage.HandleDelete | frontend/src/pages/Categories.js:30-39 | nothing happens unless confirmed; a confirmed delete refetches iff the mutation succeeded, with the hook's cache and toast effects |
| CategoriesPage.DescriptionText | frontend/src/pages/Categories.js:136 | the description, or "No description available" when it is missing or empty |
| CategoriesPage.DeleteRefreshesLists | frontend/src/hooks/useApi.js:284-285 | deleting a category invalidates every category list and every book list |

## Left out

- Timestamps (`created_at`, `updated_at`) are left out because the database server fills them.
- Column lengths (`String(255)`, `String(13)`, `String(100)`) are not enforced.
- Foreign keys are not enforced, so a book may be stored with an `author_id` that names no author, and deleting an author leaves its books' `author_id` as it was; the ORM's nullify-on-delete behaviour is not modelled. The 500 that such a book then causes in every book response is modelled.
- Ids are never reused. A real database might reuse them.
- Prices are whole numbers of cents rather than floats.
- Explicit `null` in an update body is modelled only for the optional columns `biography`, `description` and `published_date`.
- Validation of `EmailStr` and of the other pydantic fields is left out. Ill-typed bodies never reach the handlers.
- The optional joins of `get_books` show each book once. The duplicate rows a SQL join could produce for a book in several matching categories are not modelled.
- `ilike` treats `%` and `_` inside the search text as ordinary characters, and folds case for ASCII letters only.
- Crud.Catalogue.GetAuthors: negative `skip`/`limit` are rejected by type (`nat`). The handlers for `/authors/` and `/categories/` pass them through unchecked, and what the database then does is not modelled.
- Crud.Catalogue.GetCategories: negative `skip`/`limit` are rejected by type (`nat`), as for `GetAuthors`.
- Api.ReadAuthors: negative `skip`/`limit`, which the endpoint accepts as `int`, are excluded by type (`nat`).
- Api.ReadCategories: negative `skip`/`limit`, which the endpoint accepts as `int`, are excluded by type (`nat`).
- Api.InvalidQuery: only the status 422 is stated. FastAPI's error body is not modelled.
- The root endpoint's welcome body, CORS and the uvicorn entry point are left out as configuration.
- The server routes on path segments and on the query parameters a route needs. Query parameters a route ignores are ignored.
- Both sides of the network are left out:
  - axios transport, timeouts and headers;
  - the request and response logging;
  - how axios serialises `params`.
  The list calls' params are carried as data.
- The list pages send `search`/`skip`/`limit`, while `GET /books/` reads `page`/`size`. The pages also read `.items`/`.total` from `/authors/` and `/categories/`, which return plain lists, and read `book.stock` and `book.category`, which the response does not have. The model covers each side separately: the pages' arithmetic on the fields they read, and the server's contract on the fields it sends.
- Page ids are integers. The strings that `useParams` may yield for the detail hooks are not modelled.
- JavaScript numbers are modelled as unbounded integers.
- `substring(0, 100)` counts Unicode characters, not UTF-16 code units.
- react-query's internals are left out: background refetching, request deduplication, timers, retries, and keeping previous data while fetching. Staleness is a predicate over an entry's age and its invalidated flag.
- `window.confirm` and the mutation's outcome are parameters of the delete handlers. Toasts are a log of messages.
- Hooks.ErrorToast: how react-hot-toast renders a validation-error list passed to `toast.error` is not modelled; the log records the list. Each validation error is an opaque text.
- AuthorsPage.HandleDelete: its `catch` branch cannot run because the `try` calls nothing that throws, so the branch is not modelled.
- Client.ClassifyPrecedence: axios reports a network failure with the code `ERR_NETWORK`, so the `NETWORK_ERROR` branch it models never fires in practice. The model keeps the code's comparison as written.
- Rendering (markup, styling, icons, links) is left out.
