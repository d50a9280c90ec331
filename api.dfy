/**
 * The HTTP endpoints of the service. Each handler calls the catalogue store.
 * A missing row or a failed delete becomes a 404 with the detail
 * "<Kind> not found". A unique-constraint violation is an unhandled
 * exception and so a 500. The book listing turns page and size into an
 * offset and counts the pages.
 */
module Api {
  import opened Wrappers
  import opened Models
  import opened Schemas
  import opened Crud
  import opened Http
  import Decimal

  datatype HttpError = HttpError(status: int, detail: string)

  datatype Message = Message(message: string)

  datatype Health = Health(status: string, service: string)

  /** The response of an unhandled exception. */
  const InternalServerError := HttpError(500, "Internal Server Error")

  /** Largest page size `read_books` accepts. */
  const MaxPageSize := 100

  function HealthCheck(): (h: Health)
    ensures h.status == "healthy" && h.service == "book-store-service"
  {
    Health("healthy", "book-store-service")
  }

  /** A handler's 404 when the store found nothing. */
  function RequireFound<T>(r: Option<T>, kind: string): (res: Result<T, HttpError>)
    ensures res.Ok? <==> r.Some?
    ensures r.Some? ==> res.value == r.value
    ensures r.None? ==> res.error == HttpError(404, kind + " not found")
  {
    match r
    case Some(v) => Ok(v)
    case None => Err(HttpError(404, kind + " not found"))
  }

  /** A delete handler's answer to the store's boolean. */
  function RequireDeleted(deleted: bool, kind: string): (res: Result<Message, HttpError>)
    ensures res.Ok? <==> deleted
    ensures deleted ==> res.value == Message(kind + " deleted successfully")
    ensures !deleted ==> res.error == HttpError(404, kind + " not found")
  {
    if deleted then Ok(Message(kind + " deleted successfully")) else Err(HttpError(404, kind + " not found"))
  }

  /** The texts of the messages of each kind. */
  lemma AuthorTexts()
    ensures "Author" + " not found" == "Author not found"
    ensures "Author" + " deleted successfully" == "Author deleted successfully"
  {
  }

  lemma CategoryTexts()
    ensures "Category" + " not found" == "Category not found"
    ensures "Category" + " deleted successfully" == "Category deleted successfully"
  {
  }

  lemma BookTexts()
    ensures "Book" + " not found" == "Book not found"
    ensures "Book" + " deleted successfully" == "Book deleted successfully"
  {
  }

  /** A database error escapes the handler. */
  function Committed<T>(r: Result<T, DbError>): (res: Result<T, HttpError>)
    ensures res.Ok? <==> r.Ok?
    ensures r.Ok? ==> res.value == r.value
    ensures r.Err? ==> res.error == InternalServerError
  {
    match r
    case Ok(v) => Ok(v)
    case Err(_) => Err(InternalServerError)
  }

  /** An update's answer: the store's error first, then the 404 for a missing row. */
  function Updated<T>(r: Result<Option<T>, DbError>, kind: string): (res: Result<T, HttpError>)
    ensures r.Err? ==> res == Err(InternalServerError)
    ensures r.Ok? && r.value.None? ==> res == Err(HttpError(404, kind + " not found"))
    ensures r.Ok? && r.value.Some? ==> res == Ok(r.value.value)
  {
    match r
    case Err(_) => Err(InternalServerError)
    case Ok(o) => RequireFound(o, kind)
  }

  // ---------------------------------------------------------------------
  // Pagination arithmetic of `read_books`.

  /** `math.ceil(n / d)`. */
  function CeilDiv(n: nat, d: nat): (r: nat)
    requires d > 0
    ensures r * d >= n
    ensures r > 0 ==> (r - 1) * d < n
    ensures r == 0 <==> n == 0
  {
    if n == 0 then 0 else 1 + CeilDiv(if n <= d then 0 else n - d, d)
  }

  /** The offset of a page: `(page - 1) * size`. */
  function Offset(page: int, size: int): (skip: nat)
    requires page >= 1 && size >= 1
    ensures skip + size == page * size
  {
    (page - 1) * size
  }

  /** Pages 1 to `CeilDiv(|xs|, size)` are non-empty, each full but the last, and the pages after them are empty. */
  lemma {:induction false} PagesCover<T>(xs: seq<T>, size: nat, page: int)
    requires size >= 1 && page >= 1
    ensures page <= CeilDiv(|xs|, size) ==> |Page(xs, Offset(page, size), size)| > 0
    ensures page < CeilDiv(|xs|, size) ==> |Page(xs, Offset(page, size), size)| == size
    ensures page > CeilDiv(|xs|, size) ==> Page(xs, Offset(page, size), size) == []
  {
    var pages := CeilDiv(|xs|, size);
    var skip := Offset(page, size);
    if page <= pages {
      assert (page - 1) * size <= (pages - 1) * size by {
        MulMonotone(page - 1, pages - 1, size);
      }
    }
    if page < pages {
      assert page * size <= (pages - 1) * size by {
        MulMonotone(page, pages - 1, size);
      }
    }
    if page > pages {
      assert pages * size <= (page - 1) * size by {
        MulMonotone(pages, page - 1, size);
      }
    }
  }

  lemma MulMonotone(a: int, b: int, c: nat)
    requires 0 <= a <= b
    ensures a * c <= b * c
  {
  }

  /** `PaginatedResponse`'s meaning: the page `page` of the matches, their number, and the page count. */
  predicate DescribesPage(r: PaginatedResponse, matches: seq<Book>, page: int, size: int)
    requires page >= 1 && size >= 1
  {
    && r.items == Page(matches, Offset(page, size), size)
    && r.total == |matches|
    && r.page == page && r.size == size
    && r.pages == CeilDiv(|matches|, size)
  }

  /** Query bounds of `read_books`: `page >= 1`, `1 <= size <= 100`, non-negative price bounds. */
  predicate BookQueryValid(page: int, size: int, minPrice: Option<int>, maxPrice: Option<int>) {
    && page >= 1
    && 1 <= size <= MaxPageSize
    && (minPrice.Some? ==> minPrice.value >= 0)
    && (maxPrice.Some? ==> maxPrice.value >= 0)
  }

  /** The request validation error; the detail names the first parameter out of bounds. */
  function InvalidQuery(page: int, size: int, minPrice: Option<int>, maxPrice: Option<int>): (e: HttpError)
    requires !BookQueryValid(page, size, minPrice, maxPrice)
    ensures e.status == 422
  {
    HttpError(422, if page < 1 then "page" else if !(1 <= size <= MaxPageSize) then "size"
                   else if minPrice.Some? && minPrice.value < 0 then "min_price" else "max_price")
  }

  // ---------------------------------------------------------------------
  // Response validation.

  /**
   * `response_model=BookResponse`: the nested `author` is a required
   * `AuthorResponse`, so a book whose `author_id` names no stored author
   * fails response validation, which the server answers with a 500. Any
   * change the handler committed before stays committed.
   */
  function AsBookResponse(b: Book, authors: map<int, Author>): (res: Result<Book, HttpError>)
    ensures res.Ok? <==> b.authorId in authors
    ensures res.Ok? ==> res.value == b
    ensures res.Err? ==> res.error == InternalServerError
  {
    if b.authorId in authors then Ok(b) else Err(InternalServerError)
  }

  /** `List[BookResponse]` and `PaginatedResponse.items`: one book without its author fails the whole response. */
  function AsBookResponses(bs: seq<Book>, authors: map<int, Author>): (res: Result<seq<Book>, HttpError>)
    ensures res.Ok? <==> forall i :: 0 <= i < |bs| ==> bs[i].authorId in authors
    ensures res.Ok? ==> res.value == bs
    ensures res.Err? ==> res.error == InternalServerError
  {
    if forall i :: 0 <= i < |bs| ==> bs[i].authorId in authors then Ok(bs) else Err(InternalServerError)
  }

  // ---------------------------------------------------------------------
  // Handlers.

  method HandleCreateAuthor(db: Catalogue, author: AuthorCreate) returns (res: Result<Author, HttpError>)
    requires db.Valid()
    modifies db
    ensures db.Valid()
    ensures EmailInUse(old(db.authors), author.email, None) ==> res == Err(InternalServerError) && unchanged(db)
    ensures !EmailInUse(old(db.authors), author.email, None) ==>
      && res == Ok(Author(old(db.nextAuthorId), author.name, author.biography, author.email))
      && res.value.id !in old(db.authors)
      && db.authors == old(db.authors)[res.value.id := res.value]
      && db.nextAuthorId == old(db.nextAuthorId) + 1
      && db.categories == old(db.categories) && db.books == old(db.books) && db.links == old(db.links)
      && db.nextCategoryId == old(db.nextCategoryId) && db.nextBookId == old(db.nextBookId)
  {
    var r := db.CreateAuthor(author);
    res := Committed(r);
  }

  /** `GET /authors/`: the page of authors at `skip`/`limit`, in id order. */
  function ReadAuthors(db: Catalogue, skip: nat := 0, limit: nat := 100): (r: seq<Author>)
    requires db.Valid()
    reads db
    ensures var all := Rows(db.authors, db.nextAuthorId);
      && |r| == (if skip >= |all| then 0 else Min(limit, |all| - skip))
      && forall i :: 0 <= i < |r| ==> r[i] == all[skip + i]
    ensures forall i :: 0 <= i < |r| ==> r[i].id in db.authors && db.authors[r[i].id] == r[i]
    ensures forall i, j :: 0 <= i < j < |r| ==> r[i].id < r[j].id
  {
    db.GetAuthors(skip, limit)
  }

  function ReadAuthor(db: Catalogue, id: int): (res: Result<Author, HttpError>)
    requires db.Valid()
    reads db
    ensures res.Ok? <==> id in db.authors
    ensures res.Ok? ==> res.value == db.authors[id] && res.value.id == id
    ensures res.Err? ==> res.error == HttpError(404, "Author not found")
  {
    RequireFound(db.GetAuthor(id), "Author")
  }

  method HandleUpdateAuthor(db: Catalogue, id: int, author: AuthorUpdate) returns (res: Result<Author, HttpError>)
    requires db.Valid()
    modifies db
    ensures db.Valid()
    ensures id !in old(db.authors) ==> res == Err(HttpError(404, "Author not found")) && unchanged(db)
    ensures id in old(db.authors) && author.email.Some? && EmailInUse(old(db.authors), author.email.value, Some(id)) ==>
      res == Err(InternalServerError) && unchanged(db)
    ensures id in old(db.authors) && !(author.email.Some? && EmailInUse(old(db.authors), author.email.value, Some(id))) ==>
      && res == Ok(PatchedAuthor(old(db.authors)[id], author))
      && db.authors == old(db.authors)[id := res.value]
      && db.categories == old(db.categories) && db.books == old(db.books) && db.links == old(db.links)
      && db.nextAuthorId == old(db.nextAuthorId) && db.nextCategoryId == old(db.nextCategoryId)
      && db.nextBookId == old(db.nextBookId)
  {
    var r := db.UpdateAuthor(id, author);
    res := Updated(r, "Author");
    AuthorTexts();
  }

  method HandleDeleteAuthor(db: Catalogue, id: int) returns (res: Result<Message, HttpError>)
    requires db.Valid()
    modifies db
    ensures db.Valid()
    ensures res.Ok? <==> id in old(db.authors)
    ensures res.Ok? ==> res.value == Message("Author deleted successfully")
    ensures res.Err? ==> res.error == HttpError(404, "Author not found")
    ensures db.authors == old(db.authors) - {id}
    ensures db.categories == old(db.categories) && db.books == old(db.books) && db.links == old(db.links)
    ensures db.nextAuthorId == old(db.nextAuthorId) && db.nextCategoryId == old(db.nextCategoryId)
    ensures db.nextBookId == old(db.nextBookId)
  {
    var deleted := db.DeleteAuthor(id);
    res := RequireDeleted(deleted, "Author");
    AuthorTexts();
  }

  method HandleCreateCategory(db: Catalogue, category: CategoryCreate) returns (res: Result<Category, HttpError>)
    requires db.Valid()
    modifies db
    ensures db.Valid()
    ensures CategoryNameInUse(old(db.categories), category.name, None) ==> res == Err(InternalServerError) && unchanged(db)
    ensures !CategoryNameInUse(old(db.categories), category.name, None) ==>
      && res == Ok(Category(old(db.nextCategoryId), category.name, category.description))
      && res.value.id !in old(db.categories)
      && db.categories == old(db.categories)[res.value.id := res.value]
      && db.nextCategoryId == old(db.nextCategoryId) + 1
      && db.authors == old(db.authors) && db.books == old(db.books) && db.links == old(db.links)
      && db.nextAuthorId == old(db.nextAuthorId) && db.nextBookId == old(db.nextBookId)
  {
    var r := db.CreateCategory(category);
    res := Committed(r);
  }

  /** `GET /categories/`: the page of categories at `skip`/`limit`, in id order. */
  function ReadCategories(db: Catalogue, skip: nat := 0, limit: nat := 100): (r: seq<Category>)
    requires db.Valid()
    reads db
    ensures var all := Rows(db.categories, db.nextCategoryId);
      && |r| == (if skip >= |all| then 0 else Min(limit, |all| - skip))
      && forall i :: 0 <= i < |r| ==> r[i] == all[skip + i]
    ensures forall i :: 0 <= i < |r| ==> r[i].id in db.categories && db.categories[r[i].id] == r[i]
    ensures forall i, j :: 0 <= i < j < |r| ==> r[i].id < r[j].id
  {
    db.GetCategories(skip, limit)
  }

  function ReadCategory(db: Catalogue, id: int): (res: Result<Category, HttpError>)
    requires db.Valid()
    reads db
    ensures res.Ok? <==> id in db.categories
    ensures res.Ok? ==> res.value == db.categories[id] && res.value.id == id
    ensures res.Err? ==> res.error == HttpError(404, "Category not found")
  {
    RequireFound(db.GetCategory(id), "Category")
  }

  method HandleUpdateCategory(db: Catalogue, id: int, category: CategoryUpdate) returns (res: Result<Category, HttpError>)
    requires db.Valid()
    modifies db
    ensures db.Valid()
    ensures id !in old(db.categories) ==> res == Err(HttpError(404, "Category not found")) && unchanged(db)
    ensures id in old(db.categories) && category.name.Some? && CategoryNameInUse(old(db.categories), category.name.value, Some(id)) ==>
      res == Err(InternalServerError) && unchanged(db)
    ensures id in old(db.categories) && !(category.name.Some? && CategoryNameInUse(old(db.categories), category.name.value, Some(id))) ==>
      && res == Ok(PatchedCategory(old(db.categories)[id], category))
      && db.categories == old(db.categories)[id := res.value]
      && db.authors == old(db.authors) && db.books == old(db.books) && db.links == old(db.links)
      && db.nextAuthorId == old(db.nextAuthorId) && db.nextCategoryId == old(db.nextCategoryId)
      && db.nextBookId == old(db.nextBookId)
  {
    var r := db.UpdateCategory(id, category);
    res := Updated(r, "Category");
    CategoryTexts();
  }

  method HandleDeleteCategory(db: Catalogue, id: int) returns (res: Result<Message, HttpError>)
    requires db.Valid()
    modifies db
    ensures db.Valid()
    ensures res.Ok? <==> id in old(db.categories)
    ensures res.Ok? ==> res.value == Message("Category deleted successfully")
    ensures res.Err? ==> res.error == HttpError(404, "Category not found")
    ensures db.categories == old(db.categories) - {id}
    ensures db.links == set l | l in old(db.links) && l.categoryId != id
    ensures db.authors == old(db.authors) && db.books == old(db.books)
    ensures db.nextAuthorId == old(db.nextAuthorId) && db.nextCategoryId == old(db.nextCategoryId)
    ensures db.nextBookId == old(db.nextBookId)
  {
    var deleted := db.DeleteCategory(id);
    res := RequireDeleted(deleted, "Category");
    CategoryTexts();
  }

  /**
   * `POST /books/`: a duplicate ISBN is a 500 with nothing stored. Otherwise the
   * book is stored with its links, and the response is the stored book when its
   * author exists, else a 500 (the row stays).
   */
  method HandleCreateBook(db: Catalogue, book: BookCreate) returns (res: Result<Book, HttpError>)
    requires db.Valid()
    modifies db
    ensures db.Valid()
    ensures IsbnInUse(old(db.books), book.isbn, None) ==> res == Err(InternalServerError) && unchanged(db)
    ensures !IsbnInUse(old(db.books), book.isbn, None) ==>
      && old(db.nextBookId) !in old(db.books)
      && db.books == old(db.books)[old(db.nextBookId) := Book(old(db.nextBookId), book.title, book.isbn, book.description,
                                                               book.price, book.stockQuantity, book.publishedDate, book.authorId)]
      && CategoriesOf(db.links, old(db.nextBookId)) == (set c | c in book.categoryIds && c in db.categories)
      && db.links == old(db.links) + LinksTo(old(db.nextBookId), book.categoryIds, old(db.categories))
      && db.nextBookId == old(db.nextBookId) + 1
      && db.authors == old(db.authors) && db.categories == old(db.categories)
      && db.nextAuthorId == old(db.nextAuthorId) && db.nextCategoryId == old(db.nextCategoryId)
      && (res.Ok? <==> book.authorId in db.authors)
      && (res.Ok? ==> res.value == db.books[old(db.nextBookId)])
      && (res.Err? ==> res.error == InternalServerError)
  {
    var r := db.CreateBook(book);
    if r.Err? {
      return Err(InternalServerError);
    }
    res := AsBookResponse(r.value, db.authors);
    ghost var id := r.value.id;
    assert forall l :: l in old(db.links) ==> l.bookId != id;
    forall c ensures c in CategoriesOf(db.links, id) <==> c in book.categoryIds && c in db.categories {
      CategoriesOfIff(db.links, id, c);
    }
  }

  /** `GET /books/`: the bounds, then the page of matches, their count and the page count. */
  method ReadBooks(db: Catalogue, page: int := 1, size: int := 10, title: Option<string> := None,
                   authorName: Option<string> := None, categoryName: Option<string> := None,
                   minPrice: Option<int> := None, maxPrice: Option<int> := None, inStock: Option<bool> := None)
    returns (res: Result<PaginatedResponse, HttpError>)
    requires db.Valid()
    ensures !BookQueryValid(page, size, minPrice, maxPrice) ==> res == Err(InvalidQuery(page, size, minPrice, maxPrice))
    ensures BookQueryValid(page, size, minPrice, maxPrice) ==>
      var items := Page(db.Matching(Some(BookSearch(title, authorName, categoryName, minPrice, maxPrice, inStock))),
                        Offset(page, size), size);
      && (res.Ok? <==> forall i :: 0 <= i < |items| ==> items[i].authorId in db.authors)
      && (res.Err? ==> res.error == InternalServerError)
    ensures res.Ok? ==>
      DescribesPage(res.value, db.Matching(Some(BookSearch(title, authorName, categoryName, minPrice, maxPrice, inStock))), page, size)
  {
    if !BookQueryValid(page, size, minPrice, maxPrice) {
      return Err(InvalidQuery(page, size, minPrice, maxPrice));
    }
    var skip := Offset(page, size);
    var search := Some(BookSearch(title, authorName, categoryName, minPrice, maxPrice, inStock));
    var books := db.GetBooks(skip, size, search);
    var total := db.GetBooksCount(search);
    var pages := CeilDiv(total, size);
    var items := AsBookResponses(books, db.authors);
    if items.Err? {
      return Err(items.error);
    }
    res := Ok(PaginatedResponse(items.value, total, page, size, pages));
  }

  /** `GET /books/{id}`: 404 for an unknown id, 500 for a book whose author is gone, else the book. */
  function ReadBook(db: Catalogue, id: int): (res: Result<Book, HttpError>)
    requires db.Valid()
    reads db
    ensures res.Ok? <==> id in db.books && db.books[id].authorId in db.authors
    ensures res.Ok? ==> res.value == db.books[id] && res.value.id == id
    ensures id !in db.books ==> res == Err(HttpError(404, "Book not found"))
    ensures id in db.books && db.books[id].authorId !in db.authors ==> res == Err(InternalServerError)
  {
    BookTexts();
    match RequireFound(db.GetBook(id), "Book")
    case Err(e) => Err(e)
    case Ok(b) => AsBookResponse(b, db.authors)
  }

  method HandleUpdateBook(db: Catalogue, id: int, book: BookUpdate) returns (res: Result<Book, HttpError>)
    requires db.Valid()
    modifies db
    ensures db.Valid()
    ensures id !in old(db.books) ==> res == Err(HttpError(404, "Book not found")) && unchanged(db)
    ensures id in old(db.books) && book.isbn.Some? && IsbnInUse(old(db.books), book.isbn.value, Some(id)) ==>
      res == Err(InternalServerError) && unchanged(db)
    ensures id in old(db.books) && !(book.isbn.Some? && IsbnInUse(old(db.books), book.isbn.value, Some(id))) ==>
      && db.books == old(db.books)[id := PatchedBook(old(db.books)[id], book)]
      && db.links == (if book.categoryIds.None? then old(db.links)
                      else (set l | l in old(db.links) && l.bookId != id) + LinksTo(id, book.categoryIds.value, old(db.categories)))
      && db.authors == old(db.authors) && db.categories == old(db.categories)
      && db.nextAuthorId == old(db.nextAuthorId) && db.nextCategoryId == old(db.nextCategoryId)
      && db.nextBookId == old(db.nextBookId)
      && (res.Ok? <==> db.books[id].authorId in db.authors)
      && (res.Ok? ==> res.value == db.books[id])
      && (res.Err? ==> res.error == InternalServerError)
  {
    var r := db.UpdateBook(id, book);
    BookTexts();
    match r
    case Err(_) => res := Err(InternalServerError);
    case Ok(found) =>
      res := RequireFound(found, "Book");
      if res.Ok? {
        res := AsBookResponse(res.value, db.authors);
      }
  }

  method HandleDeleteBook(db: Catalogue, id: int) returns (res: Result<Message, HttpError>)
    requires db.Valid()
    modifies db
    ensures db.Valid()
    ensures res.Ok? <==> id in old(db.books)
    ensures res.Ok? ==> res.value == Message("Book deleted successfully")
    ensures res.Err? ==> res.error == HttpError(404, "Book not found")
    ensures db.books == old(db.books) - {id}
    ensures db.links == set l | l in old(db.links) && l.bookId != id
    ensures db.authors == old(db.authors) && db.categories == old(db.categories)
    ensures db.nextAuthorId == old(db.nextAuthorId) && db.nextCategoryId == old(db.nextCategoryId)
    ensures db.nextBookId == old(db.nextBookId)
  {
    var deleted := db.DeleteBook(id);
    res := RequireDeleted(deleted, "Book");
    BookTexts();
  }

  /** `PATCH /books/{id}/stock`: 404 for an unknown id; otherwise the stock is clamped and the book returned if its author exists. */
  method HandleUpdateBookStock(db: Catalogue, id: int, quantityChange: int) returns (res: Result<Book, HttpError>)
    requires db.Valid()
    modifies db
    ensures db.Valid()
    ensures id !in old(db.books) ==> res == Err(HttpError(404, "Book not found")) && unchanged(db)
    ensures id in old(db.books) ==>
      && id in db.books
      && db.books[id].stockQuantity == Max(0, old(db.books)[id].stockQuantity + quantityChange)
      && db.books == old(db.books)[id := old(db.books)[id].(stockQuantity := db.books[id].stockQuantity)]
      && db.authors == old(db.authors) && db.categories == old(db.categories) && db.links == old(db.links)
      && db.nextAuthorId == old(db.nextAuthorId) && db.nextCategoryId == old(db.nextCategoryId)
      && db.nextBookId == old(db.nextBookId)
      && (res.Ok? <==> db.books[id].authorId in db.authors)
      && (res.Ok? ==> res.value == db.books[id])
      && (res.Err? ==> res.error == InternalServerError)
  {
    var r := db.UpdateBookStock(id, quantityChange);
    res := RequireFound(r, "Book");
    BookTexts();
    if res.Ok? {
      AdjustedStockIsClamp(old(db.books)[id].stockQuantity, quantityChange);
      res := AsBookResponse(res.value, db.authors);
    }
  }

  /** `GET /search/books/?q=`: the title search with the store's default offset 0 and limit 100. */
  method SearchBooks(db: Catalogue, q: string) returns (res: Result<seq<Book>, HttpError>)
    requires db.Valid()
    ensures var found := Page(db.Matching(Some(BookSearch(title := Some(q)))), 0, 100);
      && (res.Ok? <==> forall i :: 0 <= i < |found| ==> found[i].authorId in db.authors)
      && (res.Ok? ==> res.value == found)
      && (res.Err? ==> res.error == InternalServerError)
    ensures res.Ok? ==> |res.value| <= 100
    ensures res.Ok? ==> forall i :: 0 <= i < |res.value| ==>
      res.value[i].id in db.books && (q != "" ==> TextMatch.ILike(res.value[i].title, q))
  {
    var books := db.GetBooks(search := Some(BookSearch(title := Some(q))));
    res := AsBookResponses(books, db.authors);
  }

  // ---------------------------------------------------------------------
  // The route table declared by the endpoint decorators.

  /** A path segment: a literal or an `int` path parameter. */
  datatype Segment = Lit(text: string) | IntParam(name: string)

  /** A route: its method, its path split at `/`, and its required `int` and `str` query parameters. */
  datatype Route = Route(verb: HttpMethod, path: seq<Segment>, intQuery: seq<string>, textQuery: seq<string>)

  function CollectionRoute(verb: HttpMethod, name: string): Route {
    Route(verb, [Lit(""), Lit(name), Lit("")], [], [])
  }

  function ItemRoute(verb: HttpMethod, name: string, param: string): Route {
    Route(verb, [Lit(""), Lit(name), IntParam(param)], [], [])
  }

  const RootRoute := Route(GET, [Lit(""), Lit("")], [], [])
  const HealthRoute := Route(GET, [Lit(""), Lit("health")], [], [])
  const StockRoute := Route(PATCH, [Lit(""), Lit("books"), IntParam("book_id"), Lit("stock")], ["quantity_change"], [])
  const SearchRoute := Route(GET, [Lit(""), Lit("search"), Lit("books"), Lit("")], [], ["q"])

  /** The `i`-th route, in the order the endpoints are declared. */
  function RouteAt(i: int): Route {
    match i
    case 0 => RootRoute
    case 1 => HealthRoute
    case 2 => CollectionRoute(POST, "authors")
    case 3 => CollectionRoute(GET, "authors")
    case 4 => ItemRoute(GET, "authors", "author_id")
    case 5 => ItemRoute(PUT, "authors", "author_id")
    case 6 => ItemRoute(DELETE, "authors", "author_id")
    case 7 => CollectionRoute(POST, "categories")
    case 8 => CollectionRoute(GET, "categories")
    case 9 => ItemRoute(GET, "categories", "category_id")
    case 10 => ItemRoute(PUT, "categories", "category_id")
    case 11 => ItemRoute(DELETE, "categories", "category_id")
    case 12 => CollectionRoute(POST, "books")
    case 13 => CollectionRoute(GET, "books")
    case 14 => ItemRoute(GET, "books", "book_id")
    case 15 => ItemRoute(PUT, "books", "book_id")
    case 16 => ItemRoute(DELETE, "books", "book_id")
    case 17 => StockRoute
    case _ => SearchRoute
  }

  lemma StockAndSearchRoutes()
    ensures RouteAt(17) == StockRoute && RouteAt(18) == SearchRoute
  {
  }

  /** The number of declared routes. */
  const RouteCount := 19

  predicate SegmentMatches(s: Segment, part: string) {
    match s
    case Lit(text) => part == text
    case IntParam(_) => Decimal.ParseInt(part).Some?
  }

  predicate PathMatches(path: seq<Segment>, parts: seq<string>) {
    |path| == |parts| && forall k :: 0 <= k < |path| ==> SegmentMatches(path[k], parts[k])
  }

  /** The raw value of the first `name=value` pair of a query string. */
  function QueryParam(query: string, name: string): Option<string> {
    FirstValue(Split(query, '&'), name)
  }

  function FirstValue(pairs: seq<string>, name: string): Option<string> {
    if |pairs| == 0 then None
    else
      var i := IndexOf(pairs[0], '=');
      if i < |pairs[0]| && pairs[0][..i] == name then Some(pairs[0][i + 1..]) else FirstValue(pairs[1..], name)
  }

  /** A request target reaches the route: same method, path matching segment by segment, required query parameters present and typed. */
  predicate Serves(r: Route, verb: HttpMethod, target: string) {
    && r.verb == verb
    && PathMatches(r.path, Split(PathOf(target), '/'))
    && (forall n :: n in r.intQuery ==>
          QueryParam(QueryOf(target), n).Some? && Decimal.ParseInt(QueryParam(QueryOf(target), n).value).Some?)
    && (forall n :: n in r.textQuery ==> QueryParam(QueryOf(target), n).Some?)
  }

  /** `Serves` from its parts: the path's segments and each required parameter's raw value. */
  lemma ServesFrom(r: Route, verb: HttpMethod, target: string, parts: seq<string>)
    requires r.verb == verb && Split(PathOf(target), '/') == parts && PathMatches(r.path, parts)
    requires forall n :: n in r.intQuery ==>
      QueryParam(QueryOf(target), n).Some? && Decimal.ParseInt(QueryParam(QueryOf(target), n).value).Some?
    requires forall n :: n in r.textQuery ==> QueryParam(QueryOf(target), n).Some?
    ensures Serves(r, verb, target)
  {
  }

  /** The value of the only parameter of a query string `name=value`. */
  lemma SingleParam(name: string, value: string)
    requires '=' !in name && '&' !in name && '&' !in value
    ensures QueryParam(name + "=" + value, name) == Some(value)
  {
    var pair := name + "=" + value;
    assert pair == Join([pair], '&');
    SplitJoin([pair], '&') by {
      assert forall k :: 0 <= k < |pair| ==> pair[k] != '&' by {
        forall k | 0 <= k < |pair| ensures pair[k] != '&' {
          if k < |name| {
            assert pair[k] == name[k];
          } else if k > |name| {
            assert pair[k] == value[k - |name| - 1];
          }
        }
      }
    }
    assert pair[|name|] == '=';
    assert forall k :: 0 <= k < |name| ==> pair[k] == name[k];
    assert IndexOf(pair, '=') == |name|;
    assert pair[..|name|] == name;
    assert pair[|name| + 1..] == value;
  }
}
