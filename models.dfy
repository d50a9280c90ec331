/**
 * The three catalogue tables and the book/category association table.
 * Prices are integer cents; the published date is an opaque timestamp.
 * Non-null columns (title, price, author name, category name) are plain
 * fields, nullable ones are `Option`s.
 */
module Models {
  import opened Wrappers

  datatype Author = Author(id: int, name: string, biography: Option<string>, email: string)

  datatype Category = Category(id: int, name: string, description: Option<string>)

  datatype Book = Book(
    id: int,
    title: string,
    isbn: string,
    description: Option<string>,
    price: int,
    stockQuantity: int,
    publishedDate: Option<int>,
    authorId: int)

  /** A row of the `book_category` association table. */
  datatype Link = Link(bookId: int, categoryId: int)

  /** Value of `stock_quantity` when an insert does not give one. */
  const DefaultStockQuantity := 0

  /** Every row is stored under its own primary key, and keys were drawn from 1 up to `next`. */
  ghost predicate AuthorsKeyed(authors: map<int, Author>, next: int) {
    forall k :: k in authors ==> 1 <= k < next && authors[k].id == k
  }

  ghost predicate CategoriesKeyed(categories: map<int, Category>, next: int) {
    forall k :: k in categories ==> 1 <= k < next && categories[k].id == k
  }

  ghost predicate BooksKeyed(books: map<int, Book>, next: int) {
    forall k :: k in books ==> 1 <= k < next && books[k].id == k
  }

  /** `authors.email` is unique. */
  ghost predicate EmailsUnique(authors: map<int, Author>) {
    forall a, b :: a in authors && b in authors && authors[a].email == authors[b].email ==> a == b
  }

  /** `categories.name` is unique. */
  ghost predicate CategoryNamesUnique(categories: map<int, Category>) {
    forall a, b :: a in categories && b in categories && categories[a].name == categories[b].name ==> a == b
  }

  /** `books.isbn` is unique. */
  ghost predicate IsbnsUnique(books: map<int, Book>) {
    forall a, b :: a in books && b in books && books[a].isbn == books[b].isbn ==> a == b
  }

  /** Association rows refer to stored books and categories. */
  ghost predicate LinksResolve(links: set<Link>, books: map<int, Book>, categories: map<int, Category>) {
    forall l :: l in links ==> l.bookId in books && l.categoryId in categories
  }

  /** `Book.categories`: the categories linked to a book. */
  function CategoriesOf(links: set<Link>, bookId: int): set<int> {
    set l | l in links && l.bookId == bookId :: l.categoryId
  }

  /** `Category.books`: the books linked to a category. */
  function BooksIn(links: set<Link>, categoryId: int): set<int> {
    set l | l in links && l.categoryId == categoryId :: l.bookId
  }

  /** `Author.books`: the books whose `author_id` is the author's id. */
  function BooksBy(books: map<int, Book>, authorId: int): (r: set<int>)
    ensures forall b :: b in r <==> b in books && books[b].authorId == authorId
  {
    set b | b in books && books[b].authorId == authorId
  }

  /** The two sides of the many-to-many relationship agree (`back_populates`). */
  lemma AssociationSymmetric(links: set<Link>, bookId: int, categoryId: int)
    ensures categoryId in CategoriesOf(links, bookId) <==> bookId in BooksIn(links, categoryId)
  {
    if categoryId in CategoriesOf(links, bookId) {
      var l :| l in links && l.bookId == bookId && l.categoryId == categoryId;
      assert l == Link(bookId, categoryId);
    }
    if bookId in BooksIn(links, categoryId) {
      var l :| l in links && l.categoryId == categoryId && l.bookId == bookId;
      assert l == Link(bookId, categoryId);
    }
  }

  lemma CategoriesOfIff(links: set<Link>, bookId: int, categoryId: int)
    ensures categoryId in CategoriesOf(links, bookId) <==> Link(bookId, categoryId) in links
  {
    if categoryId in CategoriesOf(links, bookId) {
      var l :| l in links && l.bookId == bookId && l.categoryId == categoryId;
      assert l == Link(bookId, categoryId);
    }
  }
}
