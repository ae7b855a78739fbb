/**
 * The request paths that the TMDB service definition builds (src/services/TMDB.js):
 * the constant genre-list path and the `getMovies` query, which picks one of
 * three templates from the JavaScript type and truthiness of its
 * `genreIdOrCategoryName` argument. A parser for those paths gives the
 * partner of the builder: every path reads back as the listing and page it
 * was built from.
 */
module Tmdb {
  import opened Wrappers
  import Decimal

  /** A JavaScript value as the query function may receive it. Numbers are whole numbers or NaN. */
  datatype JsValue = Str(s: string) | Num(n: int) | NaN | Bool(b: bool) | Null | Undefined | Obj

  /** JavaScript truthiness: "", 0, NaN, false, null and undefined are falsy. */
  predicate Truthy(v: JsValue) {
    match v
    case Str(s) => s != ""
    case Num(n) => n != 0
    case NaN => false
    case Bool(b) => b
    case Null => false
    case Undefined => false
    case Obj => true
  }

  /** The `typeof` operator (note that `typeof null` is "object"). */
  function TypeOf(v: JsValue): string {
    match v
    case Str(_) => "string"
    case Num(_) => "number"
    case NaN => "number"
    case Bool(_) => "boolean"
    case Null => "object"
    case Undefined => "undefined"
    case Obj => "object"
  }

  /** What a template literal `${v}` inserts for v. */
  function JsText(v: JsValue): string {
    match v
    case Str(s) => s
    case Num(n) => Decimal.IntToString(n)
    case NaN => "NaN"
    case Bool(b) => if b then "true" else "false"
    case Null => "null"
    case Undefined => "undefined"
    case Obj => "[object Object]"
  }

  /** The `page` field of a request descriptor: a whole number, or missing. */
  datatype Page = PageNumber(n: int) | PageUndefined

  function PageText(p: Page): (t: string)
    ensures |t| >= 1 && forall k :: 0 <= k < |t| ==> t[k] != '='
  {
    match p
    case PageNumber(n) => Decimal.IntToString(n)
    case PageUndefined => "undefined"
  }

  /** The argument object `{ genreIdOrCategoryName, page }` of the `getMovies` query. */
  datatype MoviesQuery = MoviesQuery(genreIdOrCategoryName: JsValue, page: Page)

  /** What a path asks the remote API for: a named category, or a genre by id. */
  datatype Listing = CategoryListing(name: string) | GenreListing(genreId: int)

  datatype CatalogRequest = CatalogRequest(listing: Listing, page: Page)

  const PopularCategory: string := "popular"

  predicate StartsWith(s: string, prefix: string) {
    |prefix| <= |s| && s[..|prefix|] == prefix
  }

  predicate EndsWith(s: string, suffix: string) {
    |suffix| <= |s| && s[|s| - |suffix|..] == suffix
  }

  /** The path of the `getGenres` query; it takes no argument. */
  function GenresPath(apiKey: string): (r: string)
    ensures r == "genre/movie/list?api_key=" + apiKey
  {
    "genre/movie/list?api_key=" + apiKey
  }

  /** The category test of the `getMovies` query. */
  predicate IsCategoryArgument(v: JsValue) {
    Truthy(v) && TypeOf(v) == "string"
  }

  /** The genre test of the `getMovies` query. */
  predicate IsGenreArgument(v: JsValue) {
    Truthy(v) && TypeOf(v) == "number"
  }

  /** The common tail `page=${page}&api_key=${tmdbApikey}` of the three `getMovies` templates. */
  function PageAndKey(page: Page, apiKey: string): string {
    "page=" + PageText(page) + "&api_key=" + apiKey
  }

  /** The `getMovies` query: category path, else genre-discovery path, else popular movies. */
  function MoviesPath(q: MoviesQuery, apiKey: string): (r: string)
    ensures q.genreIdOrCategoryName.Str? && q.genreIdOrCategoryName.s != "" ==>
      r == "movie/" + q.genreIdOrCategoryName.s + "?" + PageAndKey(q.page, apiKey)
    ensures q.genreIdOrCategoryName.Num? && q.genreIdOrCategoryName.n != 0 ==>
      r == "discover/movie?with_genres=" + Decimal.IntToString(q.genreIdOrCategoryName.n)
           + "&" + PageAndKey(q.page, apiKey)
    ensures !(q.genreIdOrCategoryName.Str? && q.genreIdOrCategoryName.s != "") &&
            !(q.genreIdOrCategoryName.Num? && q.genreIdOrCategoryName.n != 0) ==>
      r == "movie/popular?" + PageAndKey(q.page, apiKey)
  {
    var v := q.genreIdOrCategoryName;
    if IsCategoryArgument(v) then
      "movie/" + JsText(v) + "?" + PageAndKey(q.page, apiKey)
    else if IsGenreArgument(v) then
      "discover/movie?with_genres=" + JsText(v) + "&" + PageAndKey(q.page, apiKey)
    else
      "movie/popular?" + PageAndKey(q.page, apiKey)
  }

  /** The listing a descriptor stands for; the default is the "popular" category. */
  function Classify(v: JsValue): Listing {
    match v
    case Str(s) => if s != "" then CategoryListing(s) else CategoryListing(PopularCategory)
    case Num(n) => if n != 0 then GenreListing(n) else CategoryListing(PopularCategory)
    case _ => CategoryListing(PopularCategory)
  }

  /** The part of a listing's path before the page: the resource and the separator. */
  function ListingPrefix(l: Listing): string {
    match l
    case CategoryListing(c) => "movie/" + c + "?"
    case GenreListing(n) => "discover/movie?with_genres=" + Decimal.IntToString(n) + "&"
  }

  /** The endpoint template of each listing. */
  function ListingPath(l: Listing, page: Page, apiKey: string): string {
    ListingPrefix(l) + PageAndKey(page, apiKey)
  }

  /** The index of the last occurrence of c in s. */
  function LastIndexOf(s: string, c: char): (r: Option<nat>)
    ensures r.Some? ==> r.value < |s| && s[r.value] == c &&
                        forall j :: r.value < j < |s| ==> s[j] != c
    ensures r.None? ==> forall j :: 0 <= j < |s| ==> s[j] != c
  {
    if |s| == 0 then None
    else if s[|s| - 1] == c then Some(|s| - 1)
    else LastIndexOf(s[..|s| - 1], c)
  }

  function ParsePage(t: string): Option<Page> {
    if t == "undefined" then Some(PageUndefined)
    else match Decimal.ParseInt(t)
      case None => None
      case Some(n) => Some(PageNumber(n))
  }

  /**
   * Splits a path into the text before the page parameter, the separator
   * in front of `page=`, and the page; the path must end with the key.
   */
  function SplitPageAndKey(path: string, apiKey: string): Option<(string, char, Page)> {
    var tail := "&api_key=" + apiKey;
    if !EndsWith(path, tail) then None
    else
      var body := path[..|path| - |tail|];
      match LastIndexOf(body, '=')
      case None => None
      case Some(i) =>
        var head := body[..i];
        if |head| < 5 || head[|head| - 4..] != "page" then None
        else match ParsePage(body[i + 1..])
          case None => None
          case Some(page) => Some((head[..|head| - 5], head[|head| - 5], page))
  }

  /** Reads a `getMovies` path back into the request it asks for; None if it is not one. */
  function ParseMoviesPath(path: string, apiKey: string): Option<CatalogRequest> {
    match SplitPageAndKey(path, apiKey)
    case None => None
    case Some((pre, sep, page)) =>
      if sep == '?' && StartsWith(pre, "movie/") then
        Some(CatalogRequest(CategoryListing(pre[6..]), page))
      else if sep == '&' && StartsWith(pre, "discover/movie?with_genres=") then
        match Decimal.ParseInt(pre[27..])
        case None => None
        case Some(n) => Some(CatalogRequest(GenreListing(n), page))
      else None
  }

  lemma {:induction false} LastIndexOfSplit(head: string, t: string)
    requires forall k :: 0 <= k < |t| ==> t[k] != '='
    ensures LastIndexOf(head + "=" + t, '=') == Some(|head|)
    decreases |t|
  {
    var s := head + "=" + t;
    if |t| > 0 {
      assert s[|s| - 1] == t[|t| - 1];
      assert s[..|s| - 1] == head + "=" + t[..|t| - 1];
      LastIndexOfSplit(head, t[..|t| - 1]);
    }
  }

  lemma ParsePageText(p: Page)
    ensures ParsePage(PageText(p)) == Some(p)
  {
    match p
    case PageNumber(n) =>
      Decimal.ParseIntToString(n);
      assert PageText(p)[0] != 'u';
    case PageUndefined =>
  }

  /** The splitter takes apart exactly what the templates put together. */
  lemma SplitOfTemplate(pre: string, sep: char, page: Page, apiKey: string)
    ensures SplitPageAndKey(pre + [sep] + PageAndKey(page, apiKey), apiKey) == Some((pre, sep, page))
  {
    var t := PageText(page);
    var path := pre + [sep] + PageAndKey(page, apiKey);
    var head := pre + [sep] + "page";
    var body := head + "=" + t;
    var tail := "&api_key=" + apiKey;
    assert "page=" + t == "page" + "=" + t;
    assert path == body + tail;
    assert path[..|path| - |tail|] == body;
    LastIndexOfSplit(head, t);
    assert body[..|head|] == head;
    assert body[|head| + 1..] == t;
    assert head[|head| - 4..] == "page";
    assert head[..|head| - 5] == pre;
    ParsePageText(page);
  }

  /** Every path of a listing reads back as that listing and page. */
  lemma ParseListingPath(l: Listing, page: Page, apiKey: string)
    ensures ParseMoviesPath(ListingPath(l, page, apiKey), apiKey) == Some(CatalogRequest(l, page))
  {
    match l
    case CategoryListing(c) =>
      var pre := "movie/" + c;
      assert ListingPath(l, page, apiKey) == pre + ['?'] + PageAndKey(page, apiKey);
      SplitOfTemplate(pre, '?', page, apiKey);
      assert pre[..6] == "movie/";
      assert pre[6..] == c;
    case GenreListing(n) =>
      var digits := Decimal.IntToString(n);
      var pre := "discover/movie?with_genres=" + digits;
      assert ListingPath(l, page, apiKey) == pre + ['&'] + PageAndKey(page, apiKey);
      SplitOfTemplate(pre, '&', page, apiKey);
      assert pre[..27] == "discover/movie?with_genres=";
      assert pre[27..] == digits;
      Decimal.ParseIntToString(n);
  }

  /** The `getMovies` path is the template of the listing the descriptor stands for. */
  lemma MoviesPathIsListingPath(q: MoviesQuery, apiKey: string)
    ensures MoviesPath(q, apiKey) == ListingPath(Classify(q.genreIdOrCategoryName), q.page, apiKey)
  {
  }

  /** Round trip: a `getMovies` path reads back as the listing and the page it was built from. */
  lemma ParseMoviesPathRoundTrip(q: MoviesQuery, apiKey: string)
    ensures ParseMoviesPath(MoviesPath(q, apiKey), apiKey)
            == Some(CatalogRequest(Classify(q.genreIdOrCategoryName), q.page))
  {
    MoviesPathIsListingPath(q, apiKey);
    ParseListingPath(Classify(q.genreIdOrCategoryName), q.page, apiKey);
  }

  /**
   * Two descriptors give the same path exactly when they stand for the same
   * listing and the same page; so the path determines the request.
   */
  lemma MoviesPathInjective(q1: MoviesQuery, q2: MoviesQuery, apiKey: string)
    ensures MoviesPath(q1, apiKey) == MoviesPath(q2, apiKey) <==>
            Classify(q1.genreIdOrCategoryName) == Classify(q2.genreIdOrCategoryName) && q1.page == q2.page
  {
    ParseMoviesPathRoundTrip(q1, apiKey);
    ParseMoviesPathRoundTrip(q2, apiKey);
    MoviesPathIsListingPath(q1, apiKey);
    MoviesPathIsListingPath(q2, apiKey);
  }

  /** Every `getMovies` path ends with the page, verbatim after `page=`, and then the key. */
  lemma PageAndKeySuffix(q: MoviesQuery, apiKey: string)
    ensures EndsWith(MoviesPath(q, apiKey), "page=" + PageText(q.page) + "&api_key=" + apiKey)
  {
  }

  /** Falsy values and values of any other type than string and number give the popular-movies path. */
  lemma DefaultPath(q: MoviesQuery, apiKey: string)
    requires !Truthy(q.genreIdOrCategoryName) ||
             (TypeOf(q.genreIdOrCategoryName) != "string" && TypeOf(q.genreIdOrCategoryName) != "number")
    ensures MoviesPath(q, apiKey) == "movie/popular?" + PageAndKey(q.page, apiKey)
    ensures Classify(q.genreIdOrCategoryName) == CategoryListing(PopularCategory)
  {
  }

  /**
   * Exactly one template applies: the string test is tried before the number
   * test, so a genre-discovery path is produced exactly when the genre test
   * succeeds, and a `movie/` path otherwise.
   */
  lemma ExactlyOneTemplate(q: MoviesQuery, apiKey: string)
    ensures var r := MoviesPath(q, apiKey);
            (StartsWith(r, "discover/movie?with_genres=") <==> IsGenreArgument(q.genreIdOrCategoryName)) &&
            (StartsWith(r, "movie/") <==> !IsGenreArgument(q.genreIdOrCategoryName)) &&
            !(IsCategoryArgument(q.genreIdOrCategoryName) && IsGenreArgument(q.genreIdOrCategoryName))
  {
    var r := MoviesPath(q, apiKey);
    var v := q.genreIdOrCategoryName;
    if IsGenreArgument(v) {
      assert r[..27] == "discover/movie?with_genres=";
      assert r[0] == 'd';
    } else {
      assert r[..6] == "movie/";
      assert r[0] == 'm';
    }
  }

  /** The category "popular" and the default produce the same path. */
  lemma PopularCategoryIsDefault(page: Page, apiKey: string)
    ensures MoviesPath(MoviesQuery(Str(PopularCategory), page), apiKey)
            == MoviesPath(MoviesQuery(Undefined, page), apiKey)
  {
  }

  /** The genre-list path is never a `getMovies` path. */
  lemma GenresPathIsNotAMoviesPath(q: MoviesQuery, apiKey: string)
    ensures GenresPath(apiKey) != MoviesPath(q, apiKey)
  {
    var g := GenresPath(apiKey);
    var tail := "&api_key=" + apiKey;
    assert g[|g| - |tail|] == '?';
    assert !EndsWith(g, tail);
    ParseMoviesPathRoundTrip(q, apiKey);
  }
}
