/**
 * Request records of the API with their defaults, the search criteria and
 * the paginated listing. An update record holds `None` for a field the
 * client did not send; a nullable field the client sent as `null` is
 * `Some(None)`.
 */
module Schemas {
  import opened Wrappers
  import opened Models

  datatype AuthorCreate = AuthorCreate(name: string, email: string, biography: Option<string> := None)

  datatype CategoryCreate = CategoryCreate(name: string, description: Option<string> := None)

  datatype BookCreate = BookCreate(
    title: string,
    isbn: string,
    price: int,
    authorId: int,
    description: Option<string> := None,
    stockQuantity: int := 0,
    publishedDate: Option<int> := None,
    categoryIds: seq<int> := [])

  datatype AuthorUpdate = AuthorUpdate(
    name: Option<string> := None,
    biography: Option<Option<string>> := None,
    email: Option<string> := None)

  datatype CategoryUpdate = CategoryUpdate(
    name: Option<string> := None,
    description: Option<Option<string>> := None)

  datatype BookUpdate = BookUpdate(
    title: Option<string> := None,
    isbn: Option<string> := None,
    description: Option<Option<string>> := None,
    price: Option<int> := None,
    stockQuantity: Option<int> := None,
    publishedDate: Option<Option<int>> := None,
    authorId: Option<int> := None,
    categoryIds: Option<seq<int>> := None)

  /** Every criterion is optional; an absent one does not filter. */
  datatype BookSearch = BookSearch(
    title: Option<string> := None,
    authorName: Option<string> := None,
    categoryName: Option<string> := None,
    minPrice: Option<int> := None,
    maxPrice: Option<int> := None,
    inStock: Option<bool> := None)

  datatype PaginationParams = PaginationParams(page: int := 1, size: int := 10)

  datatype PaginatedResponse = PaginatedResponse(items: seq<Book>, total: nat, page: int, size: int, pages: nat)

  /** One entry of `update.dict(exclude_unset=True)` for each record kind. */
  datatype AuthorField = SetName(name: string) | SetBiography(biography: Option<string>) | SetEmail(email: string)

  datatype CategoryField = SetCategoryName(name: string) | SetCategoryDescription(description: Option<string>)

  datatype BookField =
    | SetTitle(title: string)
    | SetIsbn(isbn: string)
    | SetDescription(description: Option<string>)
    | SetPrice(price: int)
    | SetStockQuantity(stockQuantity: int)
    | SetPublishedDate(publishedDate: Option<int>)
    | SetAuthorId(authorId: int)

  /** A one-entry field list when the field was sent, the empty list otherwise. */
  function Sent<F>(present: bool, field: F): seq<F> {
    if present then [field] else []
  }

  /** The fields the client sent, in declaration order. */
  function AuthorUpdateData(u: AuthorUpdate): (data: seq<AuthorField>)
    ensures forall n :: SetName(n) in data <==> u.name == Some(n)
    ensures forall b :: SetBiography(b) in data <==> u.biography == Some(b)
    ensures forall e :: SetEmail(e) in data <==> u.email == Some(e)
  {
    Sent(u.name.Some?, SetName(Or(u.name, "")))
    + (Sent(u.biography.Some?, SetBiography(Or(u.biography, None)))
    + Sent(u.email.Some?, SetEmail(Or(u.email, ""))))
  }

  function CategoryUpdateData(u: CategoryUpdate): (data: seq<CategoryField>)
    ensures forall n :: SetCategoryName(n) in data <==> u.name == Some(n)
    ensures forall d :: SetCategoryDescription(d) in data <==> u.description == Some(d)
  {
    Sent(u.name.Some?, SetCategoryName(Or(u.name, "")))
    + Sent(u.description.Some?, SetCategoryDescription(Or(u.description, None)))
  }

  /** The column fields the client sent; `category_ids` is handled apart from them. */
  function BookUpdateData(u: BookUpdate): seq<BookField> {
    Sent(u.title.Some?, SetTitle(Or(u.title, "")))
    + (Sent(u.isbn.Some?, SetIsbn(Or(u.isbn, "")))
    + (Sent(u.description.Some?, SetDescription(Or(u.description, None)))
    + (Sent(u.price.Some?, SetPrice(Or(u.price, 0)))
    + (Sent(u.stockQuantity.Some?, SetStockQuantity(Or(u.stockQuantity, 0)))
    + (Sent(u.publishedDate.Some?, SetPublishedDate(Or(u.publishedDate, None)))
    + Sent(u.authorId.Some?, SetAuthorId(Or(u.authorId, 0))))))))
  }

  /** An update with no field set is valid and carries nothing. */
  lemma EmptyUpdatesCarryNothing()
    ensures AuthorUpdateData(AuthorUpdate()) == []
    ensures CategoryUpdateData(CategoryUpdate()) == []
    ensures BookUpdateData(BookUpdate()) == [] && BookUpdate().categoryIds.None?
  {
  }

  /** Defaults of the create and pagination records. */
  lemma Defaults(title: string, isbn: string, price: int, authorId: int)
    ensures BookCreate(title, isbn, price, authorId).stockQuantity == DefaultStockQuantity
    ensures BookCreate(title, isbn, price, authorId).categoryIds == []
    ensures BookCreate(title, isbn, price, authorId).description.None?
    ensures BookCreate(title, isbn, price, authorId).publishedDate.None?
    ensures PaginationParams() == PaginationParams(1, 10)
    ensures BookSearch() == BookSearch(None, None, None, None, None, None)
  {
  }
}
