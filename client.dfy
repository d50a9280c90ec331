/**
 * The HTTP client of the single-page front end: its configuration, the
 * request each API operation sends, and the classification its response
 * interceptor applies to a failed request before rejecting it unchanged.
 */
module Client {
  import opened Wrappers
  import opened Http
  import opened Decimal
  import opened UriComponent
  import Api

  const DefaultBaseUrl := "http://localhost:8000"

  const TimeoutMs := 10000

  const ContentType := "application/json"

  /** `process.env.REACT_APP_API_URL || 'http://localhost:8000'`: an unset or empty variable falls back. */
  function BaseUrl(env: Option<string>): (url: string)
    ensures env.Some? && env.value != "" ==> url == env.value
    ensures env.None? || env.value == "" ==> url == DefaultBaseUrl
  {
    if env.Some? && env.value != "" then env.value else DefaultBaseUrl
  }

  /** The `params` object of a list request: none, or the list pages' search term and window. */
  datatype ListParams = NoParams | PageParams(search: string, skip: int, limit: int)

  /** A request body, passed through as given. */
  datatype Payload = Payload(json: string)

  datatype Operation =
    | GetBooks(params: ListParams)
    | GetBook(id: int)
    | CreateBook(data: Payload)
    | UpdateBook(id: int, data: Payload)
    | DeleteBook(id: int)
    | UpdateBookStock(id: int, quantityChange: int)
    | GetAuthors(params: ListParams)
    | GetAuthor(id: int)
    | CreateAuthor(data: Payload)
    | UpdateAuthor(id: int, data: Payload)
    | DeleteAuthor(id: int)
    | GetCategories(params: ListParams)
    | GetCategory(id: int)
    | CreateCategory(data: Payload)
    | UpdateCategory(id: int, data: Payload)
    | DeleteCategory(id: int)
    | SearchBooks(query: string)
    | HealthCheck

  /** A request relative to the base URL; `params` are serialised into the query string by the transport. */
  datatype Request = Request(verb: HttpMethod, url: string, params: ListParams, body: Option<Payload>)

  /** The URL of a resource collection, `/<name>/`. */
  function Collection(name: string): string {
    "/" + name + "/"
  }

  /** The URL of one item of a collection, `/<name>/<id>`. */
  function Item(name: string, id: int): string {
    Collection(name) + IntToString(id)
  }

  /** A two-level URL under a collection, `/<name>/<part>/<sub>`. */
  function Nested(name: string, part: string, sub: string): string {
    Collection(name) + part + "/" + sub
  }

  /** A URL with one query parameter, `<path>?<key>=<value>`. */
  function WithParam(path: string, key: string, value: string): string {
    path + "?" + (key + "=" + value)
  }

  /** The `api` object: the method, URL, parameters and body of each operation. */
  function ApiCall(op: Operation): Request {
    match op
    case GetBooks(p) => Request(GET, Collection("books"), p, None)
    case GetBook(id) => Request(GET, Item("books", id), NoParams, None)
    case CreateBook(d) => Request(POST, Collection("books"), NoParams, Some(d))
    case UpdateBook(id, d) => Request(PUT, Item("books", id), NoParams, Some(d))
    case DeleteBook(id) => Request(DELETE, Item("books", id), NoParams, None)
    case UpdateBookStock(id, n) =>
      Request(PATCH, WithParam(Nested("books", IntToString(id), "stock"), "quantity_change", IntToString(n)), NoParams, None)
    case GetAuthors(p) => Request(GET, Collection("authors"), p, None)
    case GetAuthor(id) => Request(GET, Item("authors", id), NoParams, None)
    case CreateAuthor(d) => Request(POST, Collection("authors"), NoParams, Some(d))
    case UpdateAuthor(id, d) => Request(PUT, Item("authors", id), NoParams, Some(d))
    case DeleteAuthor(id) => Request(DELETE, Item("authors", id), NoParams, None)
    case GetCategories(p) => Request(GET, Collection("categories"), p, None)
    case GetCategory(id) => Request(GET, Item("categories", id), NoParams, None)
    case CreateCategory(d) => Request(POST, Collection("categories"), NoParams, Some(d))
    case UpdateCategory(id, d) => Request(PUT, Item("categories", id), NoParams, Some(d))
    case DeleteCategory(id) => Request(DELETE, Item("categories", id), NoParams, None)
    case SearchBooks(q) => Request(GET, WithParam(Nested("search", "books", ""), "q", EncodeUriComponent(q)), NoParams, None)
    case HealthCheck => Request(GET, "/health", NoParams, None)
  }

  /** Only creates and updates send a body, and it is the caller's data unchanged. */
  lemma BodiesPassThrough(op: Operation)
    ensures ApiCall(op).body.Some? <==>
      op.CreateBook? || op.UpdateBook? || op.CreateAuthor? || op.UpdateAuthor? || op.CreateCategory? || op.UpdateCategory?
    ensures ApiCall(op).body.Some? ==> ApiCall(op).body.value == op.data
    ensures ApiCall(op).params != NoParams ==> op.GetBooks? || op.GetAuthors? || op.GetCategories?
  {
  }

  // ---------------------------------------------------------------------
  // Every request the client sends reaches a route the server declares.

  lemma {:induction false} JoinAvoids(parts: seq<string>, sep: char, c: char)
    requires |parts| >= 1 && c != sep
    requires forall k :: 0 <= k < |parts| ==> c !in parts[k]
    ensures c !in Join(parts, sep)
    decreases |parts|
  {
    if |parts| > 1 {
      JoinAvoids(parts[1..], sep, c);
    }
  }

  lemma Join2(a: string, b: string)
    ensures Join([a, b], '/') == a + "/" + b
  {
    assert [a, b][1..] == [b];
  }

  lemma Join3(a: string, b: string, c: string)
    ensures Join([a, b, c], '/') == a + "/" + b + "/" + c
  {
    assert [a, b, c][1..] == [b, c];
    Join2(b, c);
    assert a + "/" + (b + "/" + c) == a + "/" + b + "/" + c;
  }

  lemma Join4(a: string, b: string, c: string, d: string)
    ensures Join([a, b, c, d], '/') == a + "/" + b + "/" + c + "/" + d
  {
    assert [a, b, c, d][1..] == [b, c, d];
    Join3(b, c, d);
    assert a + "/" + (b + "/" + c + "/" + d) == a + "/" + b + "/" + c + "/" + d;
  }

  /** The server's view of a path with no query string: its `/`-separated parts. */
  lemma PathParts(url: string, parts: seq<string>)
    requires |parts| >= 1 && url == Join(parts, '/')
    requires forall k :: 0 <= k < |parts| ==> '/' !in parts[k] && '?' !in parts[k]
    ensures '?' !in url && PathOf(url) == url
    ensures Split(url, '/') == parts && Split(PathOf(url), '/') == parts && QueryOf(url) == ""
  {
    JoinAvoids(parts, '/', '?');
    PathWithoutQuery(url);
    SplitJoin(parts, '/');
  }

  lemma IdPart(id: int)
    ensures '/' !in IntToString(id) && '?' !in IntToString(id) && '&' !in IntToString(id)
    ensures ParseInt(IntToString(id)) == Some(id)
  {
    IntToStringHasNoChar(id, '/');
    IntToStringHasNoChar(id, '?');
    IntToStringHasNoChar(id, '&');
    IntRoundTrip(id);
  }

  /** A target `path?name=value` splits into the path's parts and the one parameter. */
  lemma WithQuery(target: string, parts: seq<string>, name: string, value: string)
    requires |parts| >= 1
    requires forall k :: 0 <= k < |parts| ==> '/' !in parts[k] && '?' !in parts[k]
    requires '=' !in name && '&' !in name && '&' !in value
    requires target == WithParam(Join(parts, '/'), name, value)
    ensures Split(PathOf(target), '/') == parts
    ensures Api.QueryParam(QueryOf(target), name) == Some(value)
  {
    var path := Join(parts, '/');
    PathParts(path, parts);
    PathAndQuery(path, name + "=" + value);
    Api.SingleParam(name, value);
  }

  /** The `/`-separated parts of a two-level URL. */
  lemma NestedJoin(name: string, part: string, sub: string)
    ensures Nested(name, part, sub) == Join(["", name, part, sub], '/')
  {
    Join4("", name, part, sub);
    assert Nested(name, part, sub) == "" + "/" + name + "/" + part + "/" + sub;
  }

  /** A route whose path has four segments, one of them an `int` parameter, and one required `int` query parameter. */
  lemma ParamRouteServes(verb: HttpMethod, url: string, a: string, b: string, i: string, c: string, param: string, key: string)
    requires Split(PathOf(url), '/') == [a, b, i, c] && Decimal.ParseInt(i).Some?
    requires Api.QueryParam(QueryOf(url), key).Some? && Decimal.ParseInt(Api.QueryParam(QueryOf(url), key).value).Some?
    ensures Api.Serves(Api.Route(verb, [Api.Lit(a), Api.Lit(b), Api.IntParam(param), Api.Lit(c)], [key], []), verb, url)
  {
    var parts := [a, b, i, c];
    var route := Api.Route(verb, [Api.Lit(a), Api.Lit(b), Api.IntParam(param), Api.Lit(c)], [key], []);
    assert Api.SegmentMatches(route.path[2], parts[2]);
    assert Api.PathMatches(route.path, parts);
    Api.ServesFrom(route, verb, url, parts);
  }

  /** A two-level URL with one query parameter splits into its four parts and the parameter. */
  lemma NestedWithQuery(name: string, part: string, sub: string, key: string, value: string)
    requires '/' !in name && '?' !in name && '/' !in part && '?' !in part && '/' !in sub && '?' !in sub
    requires '=' !in key && '&' !in key && '&' !in value
    ensures var target := WithParam(Nested(name, part, sub), key, value);
            Split(PathOf(target), '/') == ["", name, part, sub] &&
            Api.QueryParam(QueryOf(target), key) == Some(value)
  {
    var parts := ["", name, part, sub];
    assert forall k :: 0 <= k < |parts| ==> '/' !in parts[k] && '?' !in parts[k];
    NestedJoin(name, part, sub);
    WithQuery(WithParam(Nested(name, part, sub), key, value), parts, key, value);
  }

  lemma StockRouteServes(url: string, i: string, q: string)
    requires Split(PathOf(url), '/') == ["", "books", i, "stock"] && Decimal.ParseInt(i).Some?
    requires Api.QueryParam(QueryOf(url), "quantity_change") == Some(q) && Decimal.ParseInt(q).Some?
    ensures Api.Serves(Api.StockRoute, PATCH, url)
  {
    ParamRouteServes(PATCH, url, "", "books", i, "stock", "book_id", "quantity_change");
  }

  /** The stock change reaches `PATCH /books/{book_id}/stock`, and the server reads back the same quantity. */
  lemma StockServed(id: int, n: int)
    ensures var target := WithParam(Nested("books", IntToString(id), "stock"), "quantity_change", IntToString(n));
            Api.Serves(Api.StockRoute, PATCH, target) &&
            Api.QueryParam(QueryOf(target), "quantity_change") == Some(IntToString(n))
  {
    var i, q := IntToString(id), IntToString(n);
    IdPart(id);
    IdPart(n);
    StockNamesPlain();
    NestedWithQuery("books", i, "stock", "quantity_change", q);
    StockRouteServes(WithParam(Nested("books", i, "stock"), "quantity_change", q), i, q);
  }

  lemma EncodedHasNoAmpersand(q: string)
    ensures '&' !in EncodeUriComponent(q)
  {
    var e := EncodeUriComponent(q);
    EncodedIsSafe(q);
    forall k | 0 <= k < |e| ensures e[k] != '&' {
      assert SafeInQuery(e[k]);
    }
  }

  /** A route whose path has four literal segments, and one required `str` query parameter. */
  lemma TextRouteServes(verb: HttpMethod, url: string, a: string, b: string, c: string, d: string, key: string)
    requires Split(PathOf(url), '/') == [a, b, c, d] && Api.QueryParam(QueryOf(url), key).Some?
    ensures Api.Serves(Api.Route(verb, [Api.Lit(a), Api.Lit(b), Api.Lit(c), Api.Lit(d)], [], [key]), verb, url)
  {
    var parts := [a, b, c, d];
    var route := Api.Route(verb, [Api.Lit(a), Api.Lit(b), Api.Lit(c), Api.Lit(d)], [], [key]);
    assert Api.PathMatches(route.path, parts);
    Api.ServesFrom(route, verb, url, parts);
  }

  lemma SearchRouteServes(url: string)
    requires Split(PathOf(url), '/') == ["", "search", "books", ""] && Api.QueryParam(QueryOf(url), "q").Some?
    ensures Api.Serves(Api.SearchRoute, GET, url)
  {
    TextRouteServes(GET, url, "", "search", "books", "", "q");
  }

  lemma SearchNamesPlain()
    ensures '/' !in "search" && '?' !in "search" && '/' !in "books" && '?' !in "books"
    ensures '/' !in "" && '?' !in "" && '=' !in "q" && '&' !in "q"
  {
  }

  lemma StockNamesPlain()
    ensures '/' !in "books" && '?' !in "books" && '/' !in "stock" && '?' !in "stock"
    ensures '=' !in "quantity_change" && '&' !in "quantity_change"
  {
  }

  /** The server's view of the search URL: its path parts and its `q` parameter. */
  lemma SearchParts(q: string)
    ensures var target := WithParam(Nested("search", "books", ""), "q", EncodeUriComponent(q));
            Split(PathOf(target), '/') == ["", "search", "books", ""] &&
            Api.QueryParam(QueryOf(target), "q") == Some(EncodeUriComponent(q))
  {
    EncodedHasNoAmpersand(q);
    SearchNamesPlain();
    NestedWithQuery("search", "books", "", "q", EncodeUriComponent(q));
  }

  /** The search text reaches the server as the `q` parameter, which decodes to the text's UTF-8 bytes. */
  lemma SearchServed(q: string)
    ensures var target := WithParam(Nested("search", "books", ""), "q", EncodeUriComponent(q));
            var value := Api.QueryParam(QueryOf(target), "q");
            Api.Serves(Api.SearchRoute, GET, target) && value.Some? && Unquote(value.value) == Utf8String(q)
  {
    SearchParts(q);
    SearchRouteServes(WithParam(Nested("search", "books", ""), "q", EncodeUriComponent(q)));
    UnquoteEncode(q);
  }

  /** Some declared route serves the request. */
  ghost predicate Routed(r: Request) {
    exists i :: 0 <= i < Api.RouteCount && Api.Serves(Api.RouteAt(i), r.verb, r.url)
  }

  lemma RoutedBy(r: Request, i: nat)
    requires i < Api.RouteCount && Api.Serves(Api.RouteAt(i), r.verb, r.url)
    ensures Routed(r)
  {
  }

  /** The server's path segments of a collection URL. */
  lemma CollectionParts(name: string)
    requires '/' !in name && '?' !in name
    ensures Split(PathOf(Collection(name)), '/') == ["", name, ""]
  {
    var url := Collection(name);
    assert url == "" + "/" + name + "/" + "";
    Join3("", name, "");
    PathParts(url, ["", name, ""]);
  }

  /** The server's path segments of an item URL. */
  lemma ItemParts(name: string, id: int)
    requires '/' !in name && '?' !in name
    ensures Split(PathOf(Item(name, id)), '/') == ["", name, IntToString(id)]
  {
    var url := Item(name, id);
    assert url == "" + "/" + name + "/" + IntToString(id);
    IdPart(id);
    Join3("", name, IntToString(id));
    PathParts(url, ["", name, IntToString(id)]);
  }

  lemma CollectionRouteServes(verb: HttpMethod, url: string, name: string)
    requires Split(PathOf(url), '/') == ["", name, ""]
    ensures Api.Serves(Api.CollectionRoute(verb, name), verb, url)
  {
    var parts := ["", name, ""];
    var route := Api.CollectionRoute(verb, name);
    assert Api.PathMatches(route.path, parts);
    Api.ServesFrom(route, verb, url, parts);
  }

  lemma ItemRouteServes(verb: HttpMethod, url: string, name: string, id: int, param: string)
    requires Split(PathOf(url), '/') == ["", name, IntToString(id)]
    ensures Api.Serves(Api.ItemRoute(verb, name, param), verb, url)
  {
    IdPart(id);
    var parts := ["", name, IntToString(id)];
    var route := Api.ItemRoute(verb, name, param);
    assert Api.SegmentMatches(route.path[2], parts[2]);
    assert Api.PathMatches(route.path, parts);
    Api.ServesFrom(route, verb, url, parts);
  }

  /** A collection URL `/<name>/` is served by route `i`. */
  lemma CollectionServed(r: Request, name: string, i: nat)
    requires '/' !in name && '?' !in name && r.url == Collection(name)
    requires i < Api.RouteCount && Api.RouteAt(i) == Api.CollectionRoute(r.verb, name)
    ensures Routed(r)
  {
    CollectionParts(name);
    CollectionRouteServes(r.verb, r.url, name);
    RoutedBy(r, i);
  }

  /** An item URL `/<name>/<id>` is served by route `i`. */
  lemma ItemServed(r: Request, name: string, id: int, param: string, i: nat)
    requires '/' !in name && '?' !in name && r.url == Item(name, id)
    requires i < Api.RouteCount && Api.RouteAt(i) == Api.ItemRoute(r.verb, name, param)
    ensures Routed(r)
  {
    ItemParts(name, id);
    ItemRouteServes(r.verb, r.url, name, id, param);
    RoutedBy(r, i);
  }

  lemma GetBooksRouted(p: ListParams)
    ensures Routed(ApiCall(GetBooks(p)))
  {
    var r := ApiCall(GetBooks(p));
    CollectionServed(r, "books", 13);
  }

  lemma GetBookRouted(id: int)
    ensures Routed(ApiCall(GetBook(id)))
  {
    var r := ApiCall(GetBook(id));
    ItemServed(r, "books", id, "book_id", 14);
  }

  lemma CreateBookRouted(d: Payload)
    ensures Routed(ApiCall(CreateBook(d)))
  {
    var r := ApiCall(CreateBook(d));
    CollectionServed(r, "books", 12);
  }

  lemma UpdateBookRouted(id: int, d: Payload)
    ensures Routed(ApiCall(UpdateBook(id, d)))
  {
    var r := ApiCall(UpdateBook(id, d));
    ItemServed(r, "books", id, "book_id", 15);
  }

  lemma DeleteBookRouted(id: int)
    ensures Routed(ApiCall(DeleteBook(id)))
  {
    var r := ApiCall(DeleteBook(id));
    ItemServed(r, "books", id, "book_id", 16);
  }

  lemma GetAuthorsRouted(p: ListParams)
    ensures Routed(ApiCall(GetAuthors(p)))
  {
    var r := ApiCall(GetAuthors(p));
    CollectionServed(r, "authors", 3);
  }

  lemma GetAuthorRouted(id: int)
    ensures Routed(ApiCall(GetAuthor(id)))
  {
    var r := ApiCall(GetAuthor(id));
    ItemServed(r, "authors", id, "author_id", 4);
  }

  lemma CreateAuthorRouted(d: Payload)
    ensures Routed(ApiCall(CreateAuthor(d)))
  {
    var r := ApiCall(CreateAuthor(d));
    CollectionServed(r, "authors", 2);
  }

  lemma UpdateAuthorRouted(id: int, d: Payload)
    ensures Routed(ApiCall(UpdateAuthor(id, d)))
  {
    var r := ApiCall(UpdateAuthor(id, d));
    ItemServed(r, "authors", id, "author_id", 5);
  }

  lemma DeleteAuthorRouted(id: int)
    ensures Routed(ApiCall(DeleteAuthor(id)))
  {
    var r := ApiCall(DeleteAuthor(id));
    ItemServed(r, "authors", id, "author_id", 6);
  }

  lemma GetCategoriesRouted(p: ListParams)
    ensures Routed(ApiCall(GetCategories(p)))
  {
    var r := ApiCall(GetCategories(p));
    CollectionServed(r, "categories", 8);
  }

  lemma GetCategoryRouted(id: int)
    ensures Routed(ApiCall(GetCategory(id)))
  {
    var r := ApiCall(GetCategory(id));
    ItemServed(r, "categories", id, "category_id", 9);
  }

  lemma CreateCategoryRouted(d: Payload)
    ensures Routed(ApiCall(CreateCategory(d)))
  {
    var r := ApiCall(CreateCategory(d));
    CollectionServed(r, "categories", 7);
  }

  lemma UpdateCategoryRouted(id: int, d: Payload)
    ensures Routed(ApiCall(UpdateCategory(id, d)))
  {
    var r := ApiCall(UpdateCategory(id, d));
    ItemServed(r, "categories", id, "category_id", 10);
  }

  lemma DeleteCategoryRouted(id: int)
    ensures Routed(ApiCall(DeleteCategory(id)))
  {
    var r := ApiCall(DeleteCategory(id));
    ItemServed(r, "categories", id, "category_id", 11);
  }

  lemma StockRouted(id: int, n: int)
    ensures Routed(ApiCall(UpdateBookStock(id, n)))
  {
    var r := ApiCall(UpdateBookStock(id, n));
    assert r.verb == PATCH && r.url == WithParam(Nested("books", IntToString(id), "stock"), "quantity_change", IntToString(n));
    StockServed(id, n);
    Api.StockAndSearchRoutes();
    RoutedBy(r, 17);
  }

  lemma SearchRouted(q: string)
    ensures Routed(ApiCall(SearchBooks(q)))
  {
    var r := ApiCall(SearchBooks(q));
    assert r.verb == GET && r.url == WithParam(Nested("search", "books", ""), "q", EncodeUriComponent(q));
    SearchServed(q);
    Api.StockAndSearchRoutes();
    RoutedBy(r, 18);
  }

  lemma HealthParts(url: string)
    requires url == "" + "/" + "health"
    ensures Split(PathOf(url), '/') == ["", "health"]
  {
    Join2("", "health");
    PathParts(url, ["", "health"]);
  }

  lemma HealthServed(r: Request)
    requires r.verb == GET && r.url == "" + "/" + "health"
    ensures Routed(r)
  {
    HealthParts(r.url);
    var route := Api.Route(GET, [Api.Lit(""), Api.Lit("health")], [], []);
    assert Api.PathMatches(route.path, ["", "health"]);
    Api.ServesFrom(route, GET, r.url, ["", "health"]);
    RoutedBy(r, 1);
  }

  lemma HealthRouted()
    ensures Routed(ApiCall(HealthCheck))
  {
    var r := ApiCall(HealthCheck);
    assert r.url == "" + "/" + "health";
    HealthServed(r);
  }

  /** Every request of the `api` object reaches a route the server declares. */
  lemma ClientRoutesServed(op: Operation)
    ensures Routed(ApiCall(op))
  {
    match op
    case GetBooks(p) => GetBooksRouted(p);
    case GetBook(id) => GetBookRouted(id);
    case CreateBook(d) => CreateBookRouted(d);
    case UpdateBook(id, d) => UpdateBookRouted(id, d);
    case DeleteBook(id) => DeleteBookRouted(id);
    case GetAuthors(p) => GetAuthorsRouted(p);
    case GetAuthor(id) => GetAuthorRouted(id);
    case CreateAuthor(d) => CreateAuthorRouted(d);
    case UpdateAuthor(id, d) => UpdateAuthorRouted(id, d);
    case DeleteAuthor(id) => DeleteAuthorRouted(id);
    case GetCategories(p) => GetCategoriesRouted(p);
    case GetCategory(id) => GetCategoryRouted(id);
    case CreateCategory(d) => CreateCategoryRouted(d);
    case UpdateCategory(id, d) => UpdateCategoryRouted(id, d);
    case DeleteCategory(id) => DeleteCategoryRouted(id);
    case UpdateBookStock(id, n) => StockRouted(id, n);
    case SearchBooks(q) => SearchRouted(q);
    case HealthCheck => HealthRouted();
  }

  // ---------------------------------------------------------------------
  // The response interceptor.

  /** What reaches the interceptor: the response status if a response arrived, and the error code. */
  datatype AxiosError = AxiosError(status: Option<int>, code: Option<string>, message: string)

  datatype ErrorClass = ResourceNotFound | ServerError | ConnectionRefused | NetworkError | Unclassified

  /** The first matching branch of the interceptor's chain. */
  function Classify(e: AxiosError): ErrorClass {
    if e.status == Some(404) then ResourceNotFound
    else if e.status == Some(500) then ServerError
    else if e.code == Some("ECONNREFUSED") then ConnectionRefused
    else if e.code == Some("NETWORK_ERROR") then NetworkError
    else Unclassified
  }

  /** The interceptor's outcome: the class it logs and the error it rejects with. */
  datatype Rejection = Rejection(logged: ErrorClass, error: AxiosError)

  function OnResponseError(e: AxiosError): (r: Rejection)
    ensures r.error == e
    ensures r.logged == Classify(e)
  {
    Rejection(Classify(e), e)
  }

  /** The precedence of the chain: a status decides before a code, and only exactly 500 counts as a server error. */
  lemma ClassifyPrecedence(e: AxiosError)
    ensures Classify(e) == ResourceNotFound <==> e.status == Some(404)
    ensures Classify(e) == ServerError <==> e.status == Some(500)
    ensures Classify(e) == ConnectionRefused <==>
      e.status != Some(404) && e.status != Some(500) && e.code == Some("ECONNREFUSED")
    ensures Classify(e) == NetworkError <==>
      e.status != Some(404) && e.status != Some(500) && e.code == Some("NETWORK_ERROR")
    ensures Classify(e) == Unclassified <==>
      e.status != Some(404) && e.status != Some(500) && e.code != Some("ECONNREFUSED") && e.code != Some("NETWORK_ERROR")
  {
  }
}
