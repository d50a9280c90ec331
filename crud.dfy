/**
 * The catalogue store and its create/read/update/delete operations.
 * The database is a `Catalogue` object: one map per table from primary key
 * to row, the association table as a set of links, and one id counter per
 * table. Listings run in ascending id order, which is insertion order.
 */
module Crud {
  import opened Wrappers
  import opened Models
  import opened Schemas
  import opened TextMatch

  /** A commit that violates a unique constraint; the transaction is discarded. */
  datatype DbError = IntegrityError(constraint: string)

  function Min(a: int, b: int): int { if a <= b then a else b }

  function Max(a: int, b: int): int { if a >= b then a else b }

  /** `.offset(skip).limit(limit)`. */
  function Page<T>(xs: seq<T>, skip: nat, limit: nat): (r: seq<T>)
    ensures |r| <= limit && |r| <= |xs|
    ensures |r| == if skip >= |xs| then 0 else Min(limit, |xs| - skip)
    ensures forall i :: 0 <= i < |r| ==> r[i] == xs[skip + i]
  {
    if skip >= |xs| then [] else xs[skip..Min(skip + limit, |xs|)]
  }

  // ---------------------------------------------------------------------
  // Partial updates: the `setattr` loop over the fields the client sent.

  /** The rows obtained by applying `fields` one after the other with `assign`. */
  function ApplyFields<R, F>(row: R, fields: seq<F>, assign: (R, F) -> R): R
    decreases |fields|
  {
    if |fields| == 0 then row else ApplyFields(assign(row, fields[0]), fields[1..], assign)
  }

  /** The `for key, value in data.items(): setattr(row, key, value)` loop. */
  method AssignFields<R, F>(row: R, data: seq<F>, assign: (R, F) -> R) returns (r: R)
    ensures r == ApplyFields(row, data, assign)
  {
    r := row;
    for i := 0 to |data|
      invariant ApplyFields(r, data[i..], assign) == ApplyFields(row, data, assign)
    {
      assert data[i..][1..] == data[i + 1..];
      r := assign(r, data[i]);
    }
    assert data[|data|..] == [];
  }

  lemma {:induction false} ApplyFieldsAppend<R, F>(row: R, xs: seq<F>, ys: seq<F>, assign: (R, F) -> R)
    ensures ApplyFields(row, xs + ys, assign) == ApplyFields(ApplyFields(row, xs, assign), ys, assign)
    decreases |xs|
  {
    if |xs| == 0 {
      assert xs + ys == ys;
    } else {
      assert (xs + ys)[0] == xs[0];
      assert (xs + ys)[1..] == xs[1..] + ys;
      ApplyFieldsAppend(assign(row, xs[0]), xs[1..], ys, assign);
    }
  }

  lemma ApplyOptional<R, F>(row: R, present: bool, field: F, rest: seq<F>, assign: (R, F) -> R)
    ensures ApplyFields(row, Sent(present, field) + rest, assign)
         == ApplyFields(if present then assign(row, field) else row, rest, assign)
  {
    var xs := Sent(present, field);
    ApplyFieldsAppend(row, xs, rest, assign);
    if present {
      assert ApplyFields(row, xs, assign) == ApplyFields(assign(row, field), [], assign);
    }
  }

  function SetAuthorField(a: Author, f: AuthorField): Author {
    match f
    case SetName(n) => a.(name := n)
    case SetBiography(b) => a.(biography := b)
    case SetEmail(e) => a.(email := e)
  }

  function SetCategoryField(c: Category, f: CategoryField): Category {
    match f
    case SetCategoryName(n) => c.(name := n)
    case SetCategoryDescription(d) => c.(description := d)
  }

  function SetBookField(b: Book, f: BookField): Book {
    match f
    case SetTitle(t) => b.(title := t)
    case SetIsbn(i) => b.(isbn := i)
    case SetDescription(d) => b.(description := d)
    case SetPrice(p) => b.(price := p)
    case SetStockQuantity(q) => b.(stockQuantity := q)
    case SetPublishedDate(d) => b.(publishedDate := d)
    case SetAuthorId(a) => b.(authorId := a)
  }

  /** Reference meaning of a partial update: a field the update carries is replaced, every other field is kept. */
  function PatchedAuthor(a: Author, u: AuthorUpdate): Author {
    Author(a.id, Or(u.name, a.name), Or(u.biography, a.biography), Or(u.email, a.email))
  }

  function PatchedCategory(c: Category, u: CategoryUpdate): Category {
    Category(c.id, Or(u.name, c.name), Or(u.description, c.description))
  }

  function PatchedBook(b: Book, u: BookUpdate): Book {
    Book(b.id, Or(u.title, b.title), Or(u.isbn, b.isbn), Or(u.description, b.description), Or(u.price, b.price),
         Or(u.stockQuantity, b.stockQuantity), Or(u.publishedDate, b.publishedDate), Or(u.authorId, b.authorId))
  }

  /** Assigning the sent fields one by one gives the field-wise patch. */
  lemma AuthorUpdateIsPatch(a: Author, u: AuthorUpdate)
    ensures ApplyFields(a, AuthorUpdateData(u), SetAuthorField) == PatchedAuthor(a, u)
  {
    var f := SetAuthorField;
    var e := Sent(u.email.Some?, SetEmail(Or(u.email, "")));
    var a1 := if u.name.Some? then f(a, SetName(Or(u.name, ""))) else a;
    var a2 := if u.biography.Some? then f(a1, SetBiography(Or(u.biography, None))) else a1;
    ApplyOptional(a, u.name.Some?, SetName(Or(u.name, "")), Sent(u.biography.Some?, SetBiography(Or(u.biography, None))) + e, f);
    ApplyOptional(a1, u.biography.Some?, SetBiography(Or(u.biography, None)), e, f);
    assert e == e + [];
    ApplyOptional(a2, u.email.Some?, SetEmail(Or(u.email, "")), [], f);
  }

  lemma CategoryUpdateIsPatch(c: Category, u: CategoryUpdate)
    ensures ApplyFields(c, CategoryUpdateData(u), SetCategoryField) == PatchedCategory(c, u)
  {
    var f := SetCategoryField;
    var d := Sent(u.description.Some?, SetCategoryDescription(Or(u.description, None)));
    var c1 := if u.name.Some? then f(c, SetCategoryName(Or(u.name, ""))) else c;
    ApplyOptional(c, u.name.Some?, SetCategoryName(Or(u.name, "")), d, f);
    assert d == d + [];
    ApplyOptional(c1, u.description.Some?, SetCategoryDescription(Or(u.description, None)), [], f);
  }

  lemma ApplyOptionalTo<R, F>(row: R, present: bool, field: F, rest: seq<F>, assign: (R, F) -> R, next: R)
    requires next == if present then assign(row, field) else row
    ensures ApplyFields(row, Sent(present, field) + rest, assign) == ApplyFields(next, rest, assign)
  {
    ApplyOptional(row, present, field, rest, assign);
  }

  lemma BookTitleStep(b: Book, u: BookUpdate, rest: seq<BookField>)
    ensures ApplyFields(b, Sent(u.title.Some?, SetTitle(Or(u.title, ""))) + rest, SetBookField)
         == ApplyFields(b.(title := Or(u.title, b.title)), rest, SetBookField)
  {
    ApplyOptionalTo(b, u.title.Some?, SetTitle(Or(u.title, "")), rest, SetBookField, b.(title := Or(u.title, b.title)));
  }

  lemma BookIsbnStep(b: Book, u: BookUpdate, rest: seq<BookField>)
    ensures ApplyFields(b, Sent(u.isbn.Some?, SetIsbn(Or(u.isbn, ""))) + rest, SetBookField)
         == ApplyFields(b.(isbn := Or(u.isbn, b.isbn)), rest, SetBookField)
  {
    ApplyOptionalTo(b, u.isbn.Some?, SetIsbn(Or(u.isbn, "")), rest, SetBookField, b.(isbn := Or(u.isbn, b.isbn)));
  }

  lemma BookDescriptionStep(b: Book, u: BookUpdate, rest: seq<BookField>)
    ensures ApplyFields(b, Sent(u.description.Some?, SetDescription(Or(u.description, None))) + rest, SetBookField)
         == ApplyFields(b.(description := Or(u.description, b.description)), rest, SetBookField)
  {
    ApplyOptionalTo(b, u.description.Some?, SetDescription(Or(u.description, None)), rest, SetBookField, b.(description := Or(u.description, b.description)));
  }

  lemma BookPriceStep(b: Book, u: BookUpdate, rest: seq<BookField>)
    ensures ApplyFields(b, Sent(u.price.Some?, SetPrice(Or(u.price, 0))) + rest, SetBookField)
         == ApplyFields(b.(price := Or(u.price, b.price)), rest, SetBookField)
  {
    ApplyOptionalTo(b, u.price.Some?, SetPrice(Or(u.price, 0)), rest, SetBookField, b.(price := Or(u.price, b.price)));
  }

  lemma BookStockStep(b: Book, u: BookUpdate, rest: seq<BookField>)
    ensures ApplyFields(b, Sent(u.stockQuantity.Some?, SetStockQuantity(Or(u.stockQuantity, 0))) + rest, SetBookField)
         == ApplyFields(b.(stockQuantity := Or(u.stockQuantity, b.stockQuantity)), rest, SetBookField)
  {
    ApplyOptionalTo(b, u.stockQuantity.Some?, SetStockQuantity(Or(u.stockQuantity, 0)), rest, SetBookField, b.(stockQuantity := Or(u.stockQuantity, b.stockQuantity)));
  }

  lemma BookDateStep(b: Book, u: BookUpdate, rest: seq<BookField>)
    ensures ApplyFields(b, Sent(u.publishedDate.Some?, SetPublishedDate(Or(u.publishedDate, None))) + rest, SetBookField)
         == ApplyFields(b.(publishedDate := Or(u.publishedDate, b.publishedDate)), rest, SetBookField)
  {
    ApplyOptionalTo(b, u.publishedDate.Some?, SetPublishedDate(Or(u.publishedDate, None)), rest, SetBookField, b.(publishedDate := Or(u.publishedDate, b.publishedDate)));
  }

  lemma BookAuthorStep(b: Book, u: BookUpdate, rest: seq<BookField>)
    ensures ApplyFields(b, Sent(u.authorId.Some?, SetAuthorId(Or(u.authorId, 0))) + rest, SetBookField)
         == ApplyFields(b.(authorId := Or(u.authorId, b.authorId)), rest, SetBookField)
  {
    ApplyOptionalTo(b, u.authorId.Some?, SetAuthorId(Or(u.authorId, 0)), rest, SetBookField, b.(authorId := Or(u.authorId, b.authorId)));
  }

  lemma BookUpdateIsPatch(b: Book, u: BookUpdate)
    ensures ApplyFields(b, BookUpdateData(u), SetBookField) == PatchedBook(b, u)
  {
    var d7 := Sent(u.authorId.Some?, SetAuthorId(Or(u.authorId, 0)));
    var t6 := Sent(u.publishedDate.Some?, SetPublishedDate(Or(u.publishedDate, None))) + d7;
    var t5 := Sent(u.stockQuantity.Some?, SetStockQuantity(Or(u.stockQuantity, 0))) + t6;
    var t4 := Sent(u.price.Some?, SetPrice(Or(u.price, 0))) + t5;
    var t3 := Sent(u.description.Some?, SetDescription(Or(u.description, None))) + t4;
    var t2 := Sent(u.isbn.Some?, SetIsbn(Or(u.isbn, ""))) + t3;
    var b1 := b.(title := Or(u.title, b.title));
    var b2 := b1.(isbn := Or(u.isbn, b.isbn));
    var b3 := b2.(description := Or(u.description, b.description));
    var b4 := b3.(price := Or(u.price, b.price));
    var b5 := b4.(stockQuantity := Or(u.stockQuantity, b.stockQuantity));
    var b6 := b5.(publishedDate := Or(u.publishedDate, b.publishedDate));
    BookTitleStep(b, u, t2);
    BookIsbnStep(b1, u, t3);
    BookDescriptionStep(b2, u, t4);
    BookPriceStep(b3, u, t5);
    BookStockStep(b4, u, t6);
    BookDateStep(b5, u, d7);
    assert d7 == d7 + [];
    BookAuthorStep(b6, u, []);
  }

  // ---------------------------------------------------------------------
  // Listing order: keys drawn from a counter, listed in ascending order.

  /** The keys of `m` below `next`, ascending. */
  function Keys<T>(m: map<int, T>, next: int): (ks: seq<int>)
    ensures forall i :: 0 <= i < |ks| ==> ks[i] in m && 1 <= ks[i] < next
    ensures forall i, j :: 0 <= i < j < |ks| ==> ks[i] < ks[j]
    decreases next
  {
    if next <= 1 then [] else Keys(m, next - 1) + (if next - 1 in m then [next - 1] else [])
  }

  /** Every key drawn from the counter is listed. */
  lemma {:induction false} KeysComplete<T>(m: map<int, T>, next: int, k: int)
    requires k in m && 1 <= k < next
    ensures k in Keys(m, next)
    decreases next
  {
    if k < next - 1 {
      KeysComplete(m, next - 1, k);
    }
  }

  /** The rows of a table in ascending key order. */
  function Rows<T>(m: map<int, T>, next: int): (r: seq<T>)
    ensures |r| == |Keys(m, next)|
    ensures forall i :: 0 <= i < |r| ==> r[i] == m[Keys(m, next)[i]]
  {
    var ks := Keys(m, next);
    seq(|ks|, i requires 0 <= i < |ks| => m[ks[i]])
  }

  // ---------------------------------------------------------------------
  // The book query: one criterion per filter the search adds.

  /** A snapshot of the tables a query reads. */
  datatype Tables = Tables(authors: map<int, Author>, categories: map<int, Category>, links: set<Link>)

  datatype Criterion =
    | TitleLike(pattern: string)
    | AuthorNameLike(pattern: string)
    | CategoryNameLike(pattern: string)
    | PriceAtLeast(bound: int)
    | PriceAtMost(bound: int)
    | InStock
    | OutOfStock

  /** A book passes one `filter`; the author and category filters go through an inner join. */
  predicate Holds(c: Criterion, b: Book, t: Tables) {
    match c
    case TitleLike(p) => ILike(b.title, p)
    case AuthorNameLike(p) => b.authorId in t.authors && ILike(t.authors[b.authorId].name, p)
    case CategoryNameLike(p) =>
      exists k :: k in CategoriesOf(t.links, b.id) && k in t.categories && ILike(t.categories[k].name, p)
    case PriceAtLeast(m) => b.price >= m
    case PriceAtMost(m) => b.price <= m
    case InStock => b.stockQuantity > 0
    case OutOfStock => b.stockQuantity == 0
  }

  predicate HoldsAll(q: seq<Criterion>, b: Book, t: Tables) {
    forall i :: 0 <= i < |q| ==> Holds(q[i], b, t)
  }

  /** A text criterion is applied only when it is a non-empty string. */
  predicate Given(s: Option<string>) {
    s.Some? && s.value != ""
  }

  /** Reference meaning of a search: each criterion that is given constrains the book, the others do not. */
  predicate MatchesSearch(b: Book, search: Option<BookSearch>, t: Tables) {
    match search
    case None => true
    case Some(s) =>
      && (Given(s.title) ==> ILike(b.title, s.title.value))
      && (Given(s.authorName) ==> b.authorId in t.authors && ILike(t.authors[b.authorId].name, s.authorName.value))
      && (Given(s.categoryName) ==>
            exists k :: k in CategoriesOf(t.links, b.id) && k in t.categories
                     && ILike(t.categories[k].name, s.categoryName.value))
      && (s.minPrice.Some? ==> b.price >= s.minPrice.value)
      && (s.maxPrice.Some? ==> b.price <= s.maxPrice.value)
      && (s.inStock == Some(true) ==> b.stockQuantity > 0)
      && (s.inStock == Some(false) ==> b.stockQuantity == 0)
  }

  lemma AddCriterion(q: seq<Criterion>, c: Criterion, b: Book, t: Tables)
    ensures HoldsAll(q + [c], b, t) <==> HoldsAll(q, b, t) && Holds(c, b, t)
  {
    if HoldsAll(q + [c], b, t) {
      forall i | 0 <= i < |q| ensures Holds(q[i], b, t) {
        assert (q + [c])[i] == q[i];
      }
      assert (q + [c])[|q|] == c;
    }
  }

  /** Adding a filter when `present` narrows the query by exactly that criterion. */
  lemma Refined(q: seq<Criterion>, q': seq<Criterion>, present: bool, c: Criterion, b: Book, t: Tables)
    requires q' == if present then q + [c] else q
    ensures HoldsAll(q', b, t) <==> HoldsAll(q, b, t) && (present ==> Holds(c, b, t))
  {
    AddCriterion(q, c, b, t);
  }

  /** The search, read as the criteria it gives. */
  lemma SearchAsCriteria(s: BookSearch, b: Book, t: Tables)
    ensures MatchesSearch(b, Some(s), t) <==>
      && (Given(s.title) ==> Holds(TitleLike(Or(s.title, "")), b, t))
      && (Given(s.authorName) ==> Holds(AuthorNameLike(Or(s.authorName, "")), b, t))
      && (Given(s.categoryName) ==> Holds(CategoryNameLike(Or(s.categoryName, "")), b, t))
      && (s.minPrice.Some? ==> Holds(PriceAtLeast(Or(s.minPrice, 0)), b, t))
      && (s.maxPrice.Some? ==> Holds(PriceAtMost(Or(s.maxPrice, 0)), b, t))
      && (s.inStock.Some? ==> Holds(if s.inStock == Some(true) then InStock else OutOfStock, b, t))
  {
    if s.inStock.Some? {
      if s.inStock.value {
        assert s.inStock == Some(true);
      } else {
        assert s.inStock == Some(false);
      }
    }
  }

  /** Builds the query of `get_books` and `get_books_count` filter by filter. */
  method BookQuery(search: Option<BookSearch>) returns (q: seq<Criterion>)
    ensures forall b, t :: HoldsAll(q, b, t) <==> MatchesSearch(b, search, t)
  {
    q := [];
    if search.Some? {
      var s := search.value;
      var q0 := q;
      if Given(s.title) {
        q := q + [TitleLike(s.title.value)];
      }
      ghost var q1 := q;
      if Given(s.authorName) {
        q := q + [AuthorNameLike(s.authorName.value)];
      }
      ghost var q2 := q;
      if Given(s.categoryName) {
        q := q + [CategoryNameLike(s.categoryName.value)];
      }
      ghost var q3 := q;
      if s.minPrice.Some? {
        q := q + [PriceAtLeast(s.minPrice.value)];
      }
      ghost var q4 := q;
      if s.maxPrice.Some? {
        q := q + [PriceAtMost(s.maxPrice.value)];
      }
      ghost var q5 := q;
      if s.inStock.Some? {
        if s.inStock.value {
          q := q + [InStock];
        } else {
          q := q + [OutOfStock];
        }
      }
      forall b, t ensures HoldsAll(q, b, t) <==> MatchesSearch(b, search, t) {
        assert HoldsAll(q0, b, t);
        SearchAsCriteria(s, b, t);
        Refined(q0, q1, Given(s.title), TitleLike(Or(s.title, "")), b, t);
        Refined(q1, q2, Given(s.authorName), AuthorNameLike(Or(s.authorName, "")), b, t);
        Refined(q2, q3, Given(s.categoryName), CategoryNameLike(Or(s.categoryName, "")), b, t);
        Refined(q3, q4, s.minPrice.Some?, PriceAtLeast(Or(s.minPrice, 0)), b, t);
        Refined(q4, q5, s.maxPrice.Some?, PriceAtMost(Or(s.maxPrice, 0)), b, t);
        Refined(q5, q, s.inStock.Some?, if s.inStock == Some(true) then InStock else OutOfStock, b, t);
      }
    }
  }

  /** The rows satisfying `p`, in their original order. */
  function Filter<T(==)>(xs: seq<T>, p: T -> bool): (r: seq<T>)
    ensures |r| <= |xs|
    ensures forall i :: 0 <= i < |r| ==> r[i] in xs && p(r[i])
    ensures forall i :: 0 <= i < |xs| && p(xs[i]) ==> xs[i] in r
  {
    if |xs| == 0 then [] else (if p(xs[0]) then [xs[0]] else []) + Filter(xs[1..], p)
  }

  lemma {:induction false} FilterSame<T>(xs: seq<T>, p: T -> bool, p': T -> bool)
    requires forall i :: 0 <= i < |xs| ==> p(xs[i]) == p'(xs[i])
    ensures Filter(xs, p) == Filter(xs, p')
    decreases |xs|
  {
    if |xs| > 0 {
      assert forall i :: 0 <= i < |xs| - 1 ==> xs[1..][i] == xs[i + 1];
      FilterSame(xs[1..], p, p');
    }
  }

  /** The books of `rows` that a search matches. */
  function MatchingBooks(rows: seq<Book>, search: Option<BookSearch>, t: Tables): seq<Book> {
    Filter(rows, (b: Book) => MatchesSearch(b, search, t))
  }

  // ---------------------------------------------------------------------
  // Uniqueness checks made by the database at commit.

  predicate EmailInUse(authors: map<int, Author>, email: string, except: Option<int>) {
    exists k :: k in authors && Some(k) != except && authors[k].email == email
  }

  predicate CategoryNameInUse(categories: map<int, Category>, name: string, except: Option<int>) {
    exists k :: k in categories && Some(k) != except && categories[k].name == name
  }

  predicate IsbnInUse(books: map<int, Book>, isbn: string, except: Option<int>) {
    exists k :: k in books && Some(k) != except && books[k].isbn == isbn
  }

  /** The association rows linking `bookId` to those of `ids` that name a stored category. */
  function LinksTo(bookId: int, ids: seq<int>, categories: map<int, Category>): (r: set<Link>)
    ensures forall l :: l in r <==> l.bookId == bookId && l.categoryId in ids && l.categoryId in categories
  {
    set c | c in ids && c in categories :: Link(bookId, c)
  }

  /** Stock after `stock_quantity += change`, reset to zero when it went negative. */
  function AdjustedStock(stock: int, change: int): (r: int)
    ensures r >= 0
    ensures stock + change >= 0 ==> r == stock + change
    ensures stock + change < 0 ==> r == 0
  {
    if stock + change < 0 then 0 else stock + change
  }

  /** The adjustment is `max(0, stock + change)`, and taking back a restock restores a non-negative stock. */
  lemma AdjustedStockIsClamp(stock: int, change: int)
    ensures AdjustedStock(stock, change) == Max(0, stock + change)
    ensures stock >= 0 && change >= 0 ==> AdjustedStock(AdjustedStock(stock, change), -change) == stock
  {
  }

  /** Every stored row appears in the listing. */
  lemma RowsComplete<T>(m: map<int, T>, next: int, k: int)
    requires k in m && 1 <= k < next
    ensures m[k] in Rows(m, next)
  {
    KeysComplete(m, next, k);
    var ks := Keys(m, next);
    var i :| 0 <= i < |ks| && ks[i] == k;
    assert Rows(m, next)[i] == m[k];
  }

  /** A stored book that the search matches is listed. */
  lemma MatchingComplete(books: map<int, Book>, next: int, k: int, search: Option<BookSearch>, t: Tables)
    requires k in books && 1 <= k < next && MatchesSearch(books[k], search, t)
    ensures books[k] in MatchingBooks(Rows(books, next), search, t)
  {
    RowsComplete(books, next, k);
    var rows := Rows(books, next);
    var i :| 0 <= i < |rows| && rows[i] == books[k];
  }

  /** A search with no criterion, or only an empty title, lists every book. */
  lemma EmptySearchMatchesAll(b: Book, t: Tables)
    ensures MatchesSearch(b, None, t)
    ensures MatchesSearch(b, Some(BookSearch()), t)
    ensures MatchesSearch(b, Some(BookSearch(title := Some(""))), t)
  {
  }

  /** An update that sets no field leaves the row as it is. */
  lemma EmptyUpdateKeepsRow(a: Author, c: Category, b: Book)
    ensures PatchedAuthor(a, AuthorUpdate()) == a
    ensures PatchedCategory(c, CategoryUpdate()) == c
    ensures PatchedBook(b, BookUpdate()) == b
  {
  }

  /** Replacing a stored author by its patch keeps the rows keyed and the emails unique. */
  lemma AuthorPatchKeepsValid(authors: map<int, Author>, next: int, id: int, u: AuthorUpdate)
    requires AuthorsKeyed(authors, next) && EmailsUnique(authors) && id in authors
    requires !(u.email.Some? && EmailInUse(authors, u.email.value, Some(id)))
    ensures AuthorsKeyed(authors[id := PatchedAuthor(authors[id], u)], next)
    ensures EmailsUnique(authors[id := PatchedAuthor(authors[id], u)])
  {
  }

  /** Replacing a stored book by its patch keeps the rows keyed and the ISBNs unique. */
  lemma BookPatchKeepsValid(books: map<int, Book>, next: int, id: int, u: BookUpdate)
    requires BooksKeyed(books, next) && IsbnsUnique(books) && id in books
    requires !(u.isbn.Some? && IsbnInUse(books, u.isbn.value, Some(id)))
    ensures BooksKeyed(books[id := PatchedBook(books[id], u)], next)
    ensures IsbnsUnique(books[id := PatchedBook(books[id], u)])
  {
  }

  /** The database of the service. */
  class Catalogue {
    var authors: map<int, Author>
    var categories: map<int, Category>
    var books: map<int, Book>
    var links: set<Link>
    var nextAuthorId: int
    var nextCategoryId: int
    var nextBookId: int

    /** Rows are keyed by their id, and the unique and association constraints hold. */
    ghost predicate Valid()
      reads this
    {
      && 1 <= nextAuthorId && 1 <= nextCategoryId && 1 <= nextBookId
      && AuthorsKeyed(authors, nextAuthorId)
      && CategoriesKeyed(categories, nextCategoryId)
      && BooksKeyed(books, nextBookId)
      && EmailsUnique(authors)
      && CategoryNamesUnique(categories)
      && IsbnsUnique(books)
      && LinksResolve(links, books, categories)
    }

    constructor ()
      ensures Valid()
      ensures authors == map[] && categories == map[] && books == map[] && links == {}
    {
      authors, categories, books, links := map[], map[], map[], {};
      nextAuthorId, nextCategoryId, nextBookId := 1, 1, 1;
    }

    function Snapshot(): Tables
      reads this
    {
      Tables(authors, categories, links)
    }

    // Authors

    method CreateAuthor(author: AuthorCreate) returns (r: Result<Author, DbError>)
      requires Valid()
      modifies this
      ensures Valid()
      ensures EmailInUse(old(authors), author.email, None) ==> r.Err? && unchanged(this)
      ensures !EmailInUse(old(authors), author.email, None) ==>
        && r == Ok(Author(old(nextAuthorId), author.name, author.biography, author.email))
        && r.value.id !in old(authors)
        && authors == old(authors)[r.value.id := r.value]
        && nextAuthorId == old(nextAuthorId) + 1
        && categories == old(categories) && books == old(books) && links == old(links)
        && nextCategoryId == old(nextCategoryId) && nextBookId == old(nextBookId)
    {
      if EmailInUse(authors, author.email, None) {
        return Err(IntegrityError("authors.email"));
      }
      var a := Author(nextAuthorId, author.name, author.biography, author.email);
      authors := authors[a.id := a];
      nextAuthorId := nextAuthorId + 1;
      r := Ok(a);
    }

    function GetAuthor(id: int): (r: Option<Author>)
      requires Valid()
      reads this
      ensures r.Some? <==> id in authors
      ensures r.Some? ==> r.value == authors[id] && r.value.id == id
    {
      if id in authors then Some(authors[id]) else None
    }

    /** `offset(skip).limit(limit)` over the authors in ascending id order. */
    function GetAuthors(skip: nat := 0, limit: nat := 100): (r: seq<Author>)
      requires Valid()
      reads this
      ensures |r| <= limit
      ensures forall i :: 0 <= i < |r| ==> r[i].id in authors && authors[r[i].id] == r[i]
      ensures forall i, j :: 0 <= i < j < |r| ==> r[i].id < r[j].id
      ensures forall i :: 0 <= i < |r| ==> skip + i < |Rows(authors, nextAuthorId)| && r[i] == Rows(authors, nextAuthorId)[skip + i]
    {
      Page(Rows(authors, nextAuthorId), skip, limit)
    }

    method UpdateAuthor(id: int, author: AuthorUpdate) returns (r: Result<Option<Author>, DbError>)
      requires Valid()
      modifies this
      ensures Valid()
      ensures id !in old(authors) ==> r == Ok(None) && unchanged(this)
      ensures id in old(authors) && author.email.Some? && EmailInUse(old(authors), author.email.value, Some(id)) ==>
        r.Err? && unchanged(this)
      ensures id in old(authors) && !(author.email.Some? && EmailInUse(old(authors), author.email.value, Some(id))) ==>
        && r == Ok(Some(PatchedAuthor(old(authors)[id], author)))
        && authors == old(authors)[id := r.value.value]
        && categories == old(categories) && books == old(books) && links == old(links)
        && nextAuthorId == old(nextAuthorId) && nextCategoryId == old(nextCategoryId) && nextBookId == old(nextBookId)
    {
      if id !in authors {
        return Ok(None);
      }
      if author.email.Some? && EmailInUse(authors, author.email.value, Some(id)) {
        return Err(IntegrityError("authors.email"));
      }
      var a := AssignFields(authors[id], AuthorUpdateData(author), SetAuthorField);
      AuthorUpdateIsPatch(authors[id], author);
      AuthorPatchKeepsValid(authors, nextAuthorId, id, author);
      authors := authors[id := a];
      r := Ok(Some(a));
    }

    method DeleteAuthor(id: int) returns (deleted: bool)
      requires Valid()
      modifies this
      ensures Valid()
      ensures deleted <==> id in old(authors)
      ensures authors == old(authors) - {id}
      ensures categories == old(categories) && books == old(books) && links == old(links)
      ensures nextAuthorId == old(nextAuthorId) && nextCategoryId == old(nextCategoryId) && nextBookId == old(nextBookId)
    {
      deleted := id in authors;
      if deleted {
        authors := authors - {id};
      }
    }
    // Categories

    method CreateCategory(category: CategoryCreate) returns (r: Result<Category, DbError>)
      requires Valid()
      modifies this
      ensures Valid()
      ensures CategoryNameInUse(old(categories), category.name, None) ==> r.Err? && unchanged(this)
      ensures !CategoryNameInUse(old(categories), category.name, None) ==>
        && r == Ok(Category(old(nextCategoryId), category.name, category.description))
        && r.value.id !in old(categories)
        && categories == old(categories)[r.value.id := r.value]
        && nextCategoryId == old(nextCategoryId) + 1
        && authors == old(authors) && books == old(books) && links == old(links)
        && nextAuthorId == old(nextAuthorId) && nextBookId == old(nextBookId)
    {
      if CategoryNameInUse(categories, category.name, None) {
        return Err(IntegrityError("categories.name"));
      }
      var c := Category(nextCategoryId, category.name, category.description);
      categories := categories[c.id := c];
      nextCategoryId := nextCategoryId + 1;
      r := Ok(c);
    }

    function GetCategory(id: int): (r: Option<Category>)
      requires Valid()
      reads this
      ensures r.Some? <==> id in categories
      ensures r.Some? ==> r.value == categories[id] && r.value.id == id
    {
      if id in categories then Some(categories[id]) else None
    }

    function GetCategories(skip: nat := 0, limit: nat := 100): (r: seq<Category>)
      requires Valid()
      reads this
      ensures |r| <= limit
      ensures forall i :: 0 <= i < |r| ==> r[i].id in categories && categories[r[i].id] == r[i]
      ensures forall i, j :: 0 <= i < j < |r| ==> r[i].id < r[j].id
      ensures forall i :: 0 <= i < |r| ==> skip + i < |Rows(categories, nextCategoryId)| && r[i] == Rows(categories, nextCategoryId)[skip + i]
    {
      Page(Rows(categories, nextCategoryId), skip, limit)
    }

    method UpdateCategory(id: int, category: CategoryUpdate) returns (r: Result<Option<Category>, DbError>)
      requires Valid()
      modifies this
      ensures Valid()
      ensures id !in old(categories) ==> r == Ok(None) && unchanged(this)
      ensures id in old(categories) && category.name.Some? && CategoryNameInUse(old(categories), category.name.value, Some(id)) ==>
        r.Err? && unchanged(this)
      ensures id in old(categories) && !(category.name.Some? && CategoryNameInUse(old(categories), category.name.value, Some(id))) ==>
        && r == Ok(Some(PatchedCategory(old(categories)[id], category)))
        && categories == old(categories)[id := r.value.value]
        && authors == old(authors) && books == old(books) && links == old(links)
        && nextAuthorId == old(nextAuthorId) && nextCategoryId == old(nextCategoryId) && nextBookId == old(nextBookId)
    {
      if id !in categories {
        return Ok(None);
      }
      if category.name.Some? && CategoryNameInUse(categories, category.name.value, Some(id)) {
        return Err(IntegrityError("categories.name"));
      }
      var c := AssignFields(categories[id], CategoryUpdateData(category), SetCategoryField);
      CategoryUpdateIsPatch(categories[id], category);
      categories := categories[id := c];
      r := Ok(Some(c));
    }

    /** Deleting a category also deletes its association rows. */
    method DeleteCategory(id: int) returns (deleted: bool)
      requires Valid()
      modifies this
      ensures Valid()
      ensures deleted <==> id in old(categories)
      ensures categories == old(categories) - {id}
      ensures links == set l | l in old(links) && l.categoryId != id
      ensures authors == old(authors) && books == old(books)
      ensures nextAuthorId == old(nextAuthorId) && nextCategoryId == old(nextCategoryId) && nextBookId == old(nextBookId)
    {
      deleted := id in categories;
      if deleted {
        categories := categories - {id};
        links := set l | l in links && l.categoryId != id;
      } else {
        assert forall l :: l in links ==> l.categoryId != id;
        links := set l | l in links && l.categoryId != id;
      }
    }

    // Books

    method CreateBook(book: BookCreate) returns (r: Result<Book, DbError>)
      requires Valid()
      modifies this
      ensures Valid()
      ensures IsbnInUse(old(books), book.isbn, None) ==> r.Err? && unchanged(this)
      ensures !IsbnInUse(old(books), book.isbn, None) ==>
        && r == Ok(Book(old(nextBookId), book.title, book.isbn, book.description, book.price,
                        book.stockQuantity, book.publishedDate, book.authorId))
        && r.value.id !in old(books)
        && books == old(books)[r.value.id := r.value]
        && links == old(links) + LinksTo(r.value.id, book.categoryIds, old(categories))
        && nextBookId == old(nextBookId) + 1
        && authors == old(authors) && categories == old(categories)
        && nextAuthorId == old(nextAuthorId) && nextCategoryId == old(nextCategoryId)
    {
      if IsbnInUse(books, book.isbn, None) {
        return Err(IntegrityError("books.isbn"));
      }
      var b := Book(nextBookId, book.title, book.isbn, book.description, book.price,
                    book.stockQuantity, book.publishedDate, book.authorId);
      books := books[b.id := b];
      if |book.categoryIds| > 0 {
        links := links + LinksTo(b.id, book.categoryIds, categories);
      }
      nextBookId := nextBookId + 1;
      r := Ok(b);
    }

    function GetBook(id: int): (r: Option<Book>)
      requires Valid()
      reads this
      ensures r.Some? <==> id in books
      ensures r.Some? ==> r.value == books[id] && r.value.id == id
    {
      if id in books then Some(books[id]) else None
    }

    /** The stored books a search matches, in ascending id order. */
    function Matching(search: Option<BookSearch>): seq<Book>
      reads this
    {
      MatchingBooks(Rows(books, nextBookId), search, Snapshot())
    }

    method GetBooks(skip: nat := 0, limit: nat := 100, search: Option<BookSearch> := None) returns (r: seq<Book>)
      requires Valid()
      ensures r == Page(Matching(search), skip, limit)
      ensures |r| <= limit
      ensures forall i :: 0 <= i < |r| ==> r[i].id in books && books[r[i].id] == r[i] && MatchesSearch(r[i], search, Snapshot())
    {
      var q := BookQuery(search);
      var t := Snapshot();
      var rows := Rows(books, nextBookId);
      FilterSame(rows, (b: Book) => HoldsAll(q, b, t), (b: Book) => MatchesSearch(b, search, t));
      r := Page(Filter(rows, (b: Book) => HoldsAll(q, b, t)), skip, limit);
    }

    method GetBooksCount(search: Option<BookSearch> := None) returns (n: nat)
      requires Valid()
      ensures n == |Matching(search)|
    {
      var q := BookQuery(search);
      var t := Snapshot();
      var rows := Rows(books, nextBookId);
      FilterSame(rows, (b: Book) => HoldsAll(q, b, t), (b: Book) => MatchesSearch(b, search, t));
      n := |Filter(rows, (b: Book) => HoldsAll(q, b, t))|;
    }

    method UpdateBook(id: int, book: BookUpdate) returns (r: Result<Option<Book>, DbError>)
      requires Valid()
      modifies this
      ensures Valid()
      ensures id !in old(books) ==> r == Ok(None) && unchanged(this)
      ensures id in old(books) && book.isbn.Some? && IsbnInUse(old(books), book.isbn.value, Some(id)) ==>
        r.Err? && unchanged(this)
      ensures id in old(books) && !(book.isbn.Some? && IsbnInUse(old(books), book.isbn.value, Some(id))) ==>
        && r == Ok(Some(PatchedBook(old(books)[id], book)))
        && books == old(books)[id := r.value.value]
        && links == (if book.categoryIds.None? then old(links)
                     else (set l | l in old(links) && l.bookId != id) + LinksTo(id, book.categoryIds.value, old(categories)))
        && authors == old(authors) && categories == old(categories)
        && nextAuthorId == old(nextAuthorId) && nextCategoryId == old(nextCategoryId) && nextBookId == old(nextBookId)
    {
      if id !in books {
        return Ok(None);
      }
      if book.isbn.Some? && IsbnInUse(books, book.isbn.value, Some(id)) {
        return Err(IntegrityError("books.isbn"));
      }
      var b := AssignFields(books[id], BookUpdateData(book), SetBookField);
      BookUpdateIsPatch(books[id], book);
      BookPatchKeepsValid(books, nextBookId, id, book);
      if book.categoryIds.Some? {
        links := (set l | l in links && l.bookId != id) + LinksTo(id, book.categoryIds.value, categories);
      }
      books := books[id := b];
      r := Ok(Some(b));
    }

    /** Deleting a book also deletes its association rows. */
    method DeleteBook(id: int) returns (deleted: bool)
      requires Valid()
      modifies this
      ensures Valid()
      ensures deleted <==> id in old(books)
      ensures books == old(books) - {id}
      ensures links == set l | l in old(links) && l.bookId != id
      ensures authors == old(authors) && categories == old(categories)
      ensures nextAuthorId == old(nextAuthorId) && nextCategoryId == old(nextCategoryId) && nextBookId == old(nextBookId)
    {
      deleted := id in books;
      if deleted {
        books := books - {id};
      } else {
        assert forall l :: l in links ==> l.bookId != id;
      }
      links := set l | l in links && l.bookId != id;
    }

    method UpdateBookStock(id: int, quantityChange: int) returns (r: Option<Book>)
      requires Valid()
      modifies this
      ensures Valid()
      ensures id !in old(books) ==> r.None? && unchanged(this)
      ensures id in old(books) ==>
        && r == Some(old(books)[id].(stockQuantity := AdjustedStock(old(books)[id].stockQuantity, quantityChange)))
        && books == old(books)[id := r.value]
        && authors == old(authors) && categories == old(categories) && links == old(links)
        && nextAuthorId == old(nextAuthorId) && nextCategoryId == old(nextCategoryId) && nextBookId == old(nextBookId)
    {
      if id !in books {
        return None;
      }
      var b := books[id];
      var stock := b.stockQuantity + quantityChange;
      if stock < 0 {
        stock := 0;
      }
      b := b.(stockQuantity := stock);
      books := books[id := b];
      r := Some(b);
    }
  }
}
