/**
 * The movie-detail page (src/components/MovieInformation/Movieinformation.jsx):
 * whether the shown movie is in the user's favorite list and watchlist, the
 * two toggle actions that post a change and then flip the local flag, and
 * the choice of cast members shown under "Top Cast".
 */
module MovieInformation {
  import opened Wrappers
  import Decimal

  // ---------------------------------------------------------------------
  // Membership of the shown movie in a fetched list
  // ---------------------------------------------------------------------

  /** The value of an `id` as `===` compares it: a number, `null`, or `undefined`. */
  datatype JsId = IdNumber(n: int) | IdNull | IdUndefined

  /** An element of a list's `results`; its `id` may be null or missing (undefined). */
  datatype ListedMovie = ListedMovie(id: JsId)

  /** A fetched list page; `results` may be missing, and an entry may be null (None). */
  datatype ListPage = ListPage(results: Option<seq<Option<ListedMovie>>>)

  datatype CastMember = CastMember(id: int, name: string, character: string, profilePath: Option<string>)

  /** The fetched movie: its id and `credits.cast`. */
  datatype MovieDetails = MovieDetails(id: int, cast: seq<CastMember>)

  /** `movie?.id` for an entry of `results`: undefined for a null entry. */
  function EntryId(e: Option<ListedMovie>): JsId {
    match e
    case None => IdUndefined
    case Some(m) => m.id
  }

  /** `data?.id`: undefined while the movie has not been fetched. */
  function MovieId(data: Option<MovieDetails>): JsId {
    match data
    case None => IdUndefined
    case Some(d) => IdNumber(d.id)
  }

  /** The index of the element `Array.prototype.find` returns: the first whose id is `===` target. */
  function FindIndex(results: seq<Option<ListedMovie>>, target: JsId): (r: Option<nat>)
    ensures r.Some? ==> r.value < |results| && EntryId(results[r.value]) == target &&
                        forall j :: 0 <= j < r.value ==> EntryId(results[j]) != target
    ensures r.None? ==> forall j :: 0 <= j < |results| ==> EntryId(results[j]) != target
    decreases |results|
  {
    if |results| == 0 then None
    else if EntryId(results[0]) == target then Some(0)
    else match FindIndex(results[1..], target)
      case None => None
      case Some(k) => Some(k + 1)
  }

  /** `!!list?.results?.find((movie) => movie?.id === data?.id)`: the found entry, if any, made boolean. */
  function IsListed(list: Option<ListPage>, data: Option<MovieDetails>): (r: bool)
    ensures r ==> list.Some? && list.value.results.Some? &&
                  exists i :: 0 <= i < |list.value.results.value| &&
                    list.value.results.value[i].Some? && EntryId(list.value.results.value[i]) == MovieId(data)
    ensures list.None? || list.value.results.None? ==> !r
  {
    match list
    case None => false
    case Some(page) =>
      match page.results
      case None => false
      case Some(rs) =>
        match FindIndex(rs, MovieId(data))
        case None => false
        case Some(i) => rs[i].Some?
  }

  /** The list has results and one of them is a movie with the given id. */
  predicate ListContains(list: Option<ListPage>, id: int) {
    list.Some? && list.value.results.Some? &&
    exists i :: 0 <= i < |list.value.results.value| && list.value.results.value[i] == Some(ListedMovie(IdNumber(id)))
  }

  /** For a fetched movie the flag is true exactly when some entry has the movie's id. */
  lemma ListedIffContains(list: Option<ListPage>, d: MovieDetails)
    ensures IsListed(list, Some(d)) <==> ListContains(list, d.id)
  {
  }

  /** A missing list, or a list without results, gives false whatever the movie. */
  lemma MissingListNotListed(list: Option<ListPage>, data: Option<MovieDetails>)
    requires list.None? || list.value.results.None?
    ensures !IsListed(list, data)
  {
  }

  /**
   * Before the movie is fetched, `data?.id` is undefined: the flag is true
   * exactly when the first entry whose `movie?.id` is undefined is a real entry
   * without an `id` field rather than a null entry. An entry whose id is `null`
   * does not match, since `null === undefined` is false.
   */
  lemma NotFetchedListed(list: Option<ListPage>)
    ensures IsListed(list, None) <==>
      list.Some? && list.value.results.Some? &&
      exists i :: 0 <= i < |list.value.results.value| &&
        list.value.results.value[i] == Some(ListedMovie(IdUndefined)) &&
        forall j :: 0 <= j < i ==> EntryId(list.value.results.value[j]) != IdUndefined
  {
  }

  /** Before the movie is fetched, a list of non-null entries that all have an `id` field (a number or null) never marks it. */
  lemma NotFetchedNotListed(list: Option<ListPage>)
    requires list.Some? && list.value.results.Some?
    requires forall j :: 0 <= j < |list.value.results.value| ==> EntryId(list.value.results.value[j]) != IdUndefined
    ensures !IsListed(list, None)
  {
  }

  // ---------------------------------------------------------------------
  // Top Cast
  // ---------------------------------------------------------------------

  /** `character.profile_path` is truthy: present and not the empty string. */
  predicate HasProfile(c: CastMember) {
    c.profilePath.Some? && c.profilePath.value != ""
  }

  /** `character.profile_path && <Grid …/>`: a cell for a member with a picture, a falsy value otherwise. */
  function CastCell(c: CastMember): Option<CastMember> {
    if HasProfile(c) then Some(c) else None
  }

  /** `cast.map(...)` */
  function CastCells(cast: seq<CastMember>): seq<Option<CastMember>> {
    seq(|cast|, i requires 0 <= i < |cast| => CastCell(cast[i]))
  }

  /** `s.slice(0, n)`: the first n elements, or all of them when there are fewer. */
  function SliceToN<T>(s: seq<T>, n: nat): (r: seq<T>) {
    if |s| <= n then s else s[..n]
  }

  /** React renders the cells that hold an element and skips the falsy ones. */
  function Rendered(cells: seq<Option<CastMember>>): (r: seq<CastMember>)
    ensures |r| <= |cells|
    ensures forall x :: x in r ==> Some(x) in cells
  {
    if |cells| == 0 then []
    else
      var rest := Rendered(cells[1..]);
      assert forall x :: Some(x) in cells[1..] ==> Some(x) in cells;
      match cells[0]
      case None => rest
      case Some(x) => [x] + rest
  }

  /** Reference definition: the members with a picture, in cast order. */
  function WithProfile(cast: seq<CastMember>): (r: seq<CastMember>)
    ensures |r| <= |cast|
    ensures forall x :: x in r ==> x in cast && HasProfile(x)
  {
    if |cast| == 0 then []
    else
      var rest := WithProfile(cast[1..]);
      assert forall x :: x in cast[1..] ==> x in cast;
      if HasProfile(cast[0]) then [cast[0]] + rest else rest
  }

  /** The reference filter keeps every member with a picture. */
  lemma {:induction false} WithProfileKeepsProfiled(cast: seq<CastMember>, x: CastMember)
    requires x in cast && HasProfile(x)
    ensures x in WithProfile(cast)
    decreases |cast|
  {
    if cast[0] != x {
      WithProfileKeepsProfiled(cast[1..], x);
    }
  }

  /** The "Top Cast" row: nothing until the movie is fetched, then the map, `.slice(0, 6)`, and render. */
  function TopCast(data: Option<MovieDetails>): (r: seq<CastMember>)
    ensures |r| <= 6
    ensures forall x :: x in r ==> HasProfile(x) && data.Some? && x in data.value.cast
    ensures data.None? ==> r == []
  {
    match data
    case None => []
    case Some(d) =>
      var cells := SliceToN(CastCells(d.cast), 6);
      assert forall x :: Some(x) in cells ==> x in d.cast && HasProfile(x) by {
        forall x | Some(x) in cells ensures x in d.cast && HasProfile(x) {
          var i :| 0 <= i < |cells| && cells[i] == Some(x);
          assert CastCell(d.cast[i]) == Some(x);
        }
      }
      Rendered(cells)
  }

  lemma {:induction false} RenderedCells(cast: seq<CastMember>)
    ensures Rendered(CastCells(cast)) == WithProfile(cast)
    decreases |cast|
  {
    if |cast| > 0 {
      assert CastCells(cast)[1..] == CastCells(cast[1..]);
      RenderedCells(cast[1..]);
    }
  }

  /**
   * The slice is taken after the map, so the row shows the members with a
   * picture among the first six, in cast order.
   */
  lemma TopCastIsProfiledAmongFirstSix(d: MovieDetails)
    ensures TopCast(Some(d)) == WithProfile(SliceToN(d.cast, 6))
  {
    assert SliceToN(CastCells(d.cast), 6) == CastCells(SliceToN(d.cast, 6));
    RenderedCells(SliceToN(d.cast, 6));
  }

  lemma {:induction false} WithProfileAllProfiled(cast: seq<CastMember>)
    requires forall i :: 0 <= i < |cast| ==> HasProfile(cast[i])
    ensures WithProfile(cast) == cast
    decreases |cast|
  {
    if |cast| > 0 {
      WithProfileAllProfiled(cast[1..]);
    }
  }

  /** When the first six all have pictures, exactly those six are shown. */
  lemma TopCastFirstSixProfiled(d: MovieDetails)
    requires |d.cast| >= 6
    requires forall i :: 0 <= i < 6 ==> HasProfile(d.cast[i])
    ensures TopCast(Some(d)) == d.cast[..6]
  {
    TopCastIsProfiledAmongFirstSix(d);
    assert SliceToN(d.cast, 6) == d.cast[..6];
    WithProfileAllProfiled(d.cast[..6]);
  }

  /**
   * The row may show fewer than six although six members have pictures:
   * when the first member has none and the next six do, only five are shown.
   */
  lemma TopCastMayShowFewer(id: int, bare: CastMember, six: seq<CastMember>)
    requires !HasProfile(bare)
    requires |six| == 6 && forall i :: 0 <= i < 6 ==> HasProfile(six[i])
    ensures |WithProfile([bare] + six)| == 6
    ensures TopCast(Some(MovieDetails(id, [bare] + six))) == six[..5]
  {
    var d := MovieDetails(id, [bare] + six);
    WithProfileRest(bare, six);
    WithProfileAllProfiled(six);
    TopCastIsProfiledAmongFirstSix(d);
    assert SliceToN(d.cast, 6) == [bare] + six[..5];
    WithProfileRest(bare, six[..5]);
    WithProfileAllProfiled(six[..5]);
  }

  lemma WithProfileRest(bare: CastMember, rest: seq<CastMember>)
    requires !HasProfile(bare)
    ensures WithProfile([bare] + rest) == WithProfile(rest)
  {
  }

  // ---------------------------------------------------------------------
  // Favorite / watchlist toggles
  // ---------------------------------------------------------------------

  datatype ListKind = Favorite | Watchlist

  function OtherKind(k: ListKind): ListKind {
    match k
    case Favorite => Watchlist
    case Watchlist => Favorite
  }

  /** The account sub-resource of a list, which is also the name of the boolean in the body. */
  function ListName(k: ListKind): string {
    match k
    case Favorite => "favorite"
    case Watchlist => "watchlist"
  }

  /** What a toggle reads from its surroundings: `user.id`, the API key, the stored session id, the route's `id`. */
  datatype PostContext = PostContext(accountId: int, apiKey: string, sessionId: Option<string>, routeId: string)

  /** A POST to a list: its URL and the body `{ media_type, media_id, favorite|watchlist }`. */
  datatype ListRequest = ListRequest(kind: ListKind, url: string, mediaType: string, mediaId: string, desired: bool)

  /** `localStorage.getItem('session_id')` in a template: a missing item renders as "null". */
  function SessionText(sessionId: Option<string>): string {
    match sessionId
    case None => "null"
    case Some(s) => s
  }

  function PostUrl(k: ListKind, ctx: PostContext): string {
    "https://api.themoviedb.org/3/account/" + Decimal.IntToString(ctx.accountId) + "/" + ListName(k)
    + "?api_key=" + ctx.apiKey + "&session_id=" + SessionText(ctx.sessionId)
  }

  /** The request a toggle sends, given the flag's value when the toggle starts. */
  function ToggleRequest(k: ListKind, ctx: PostContext, current: bool): ListRequest {
    ListRequest(k, PostUrl(k, ctx), "movie", ctx.routeId, !current)
  }

  /** The two local flags `isMovieFavorited` and `isMovieWatchlisted`. */
  datatype Flags = Flags(favorited: bool, watchlisted: bool)

  function Flag(f: Flags, k: ListKind): bool {
    match k
    case Favorite => f.favorited
    case Watchlist => f.watchlisted
  }

  /** `setIsMovie…((prev) => !prev)`: negates one flag and keeps the other. */
  function Flip(f: Flags, k: ListKind): (g: Flags)
    ensures Flag(g, k) == !Flag(f, k)
    ensures Flag(g, OtherKind(k)) == Flag(f, OtherKind(k))
  {
    match k
    case Favorite => f.(favorited := !f.favorited)
    case Watchlist => f.(watchlisted := !f.watchlisted)
  }

  /** One button press; `posted` says whether the awaited POST resolved (a rejection skips the flip). */
  datatype Click = Click(kind: ListKind, posted: bool)

  function Step(f: Flags, c: Click): Flags {
    if c.posted then Flip(f, c.kind) else f
  }

  /** The flags after a run of presses, in order. */
  function Run(f: Flags, clicks: seq<Click>): Flags
    decreases |clicks|
  {
    if |clicks| == 0 then f else Run(Step(f, clicks[0]), clicks[1..])
  }

  /** The number of presses of kind k whose POST resolved. */
  function Flips(clicks: seq<Click>, k: ListKind): nat
    decreases |clicks|
  {
    if |clicks| == 0 then 0
    else (if clicks[0].posted && clicks[0].kind == k then 1 else 0) + Flips(clicks[1..], k)
  }

  /** A flag ends up negated exactly when an odd number of its own toggles went through. */
  lemma {:induction false} RunParity(f: Flags, clicks: seq<Click>, k: ListKind)
    ensures Flag(Run(f, clicks), k) == (Flag(f, k) != (Flips(clicks, k) % 2 == 1))
    decreases |clicks|
  {
    if |clicks| > 0 {
      var c := clicks[0];
      RunParity(Step(f, c), clicks[1..], k);
      if c.posted && c.kind != k {
        assert k == OtherKind(c.kind) by { match k case Favorite => case Watchlist => }
      }
    }
  }

  /** Two completed toggles of the same list restore both flags. */
  lemma ToggleTwiceRestores(f: Flags, k: ListKind)
    ensures Run(f, [Click(k, true), Click(k, true)]) == f
  {
    var c := Click(k, true);
    assert [c, c][1..] == [c];
    assert [c][1..] == [];
    assert Run(f, [c, c]) == Run(Step(Step(f, c), c), []);
  }

  /** Toggles of one list never change the other list's flag. */
  lemma {:induction false} OtherListUnchanged(f: Flags, clicks: seq<Click>, k: ListKind)
    requires forall i :: 0 <= i < |clicks| ==> clicks[i].kind != k
    ensures Flag(Run(f, clicks), k) == Flag(f, k)
  {
    RunParity(f, clicks, k);
    NoFlips(clicks, k);
  }

  lemma {:induction false} NoFlips(clicks: seq<Click>, k: ListKind)
    requires forall i :: 0 <= i < |clicks| ==> clicks[i].kind != k
    ensures Flips(clicks, k) == 0
    decreases |clicks|
  {
    if |clicks| > 0 {
      NoFlips(clicks[1..], k);
    }
  }

  /** What the component does, in order: posts sent and flags set. */
  datatype Event = Posted(request: ListRequest) | FlagSet(kind: ListKind, value: bool)

  /** The state the component keeps with `useState`, and the actions that change it. */
  class MovieInformationView {
    var isMovieFavorited: bool
    var isMovieWatchlisted: bool
    /** The observable steps so far, oldest first. */
    ghost var events: seq<Event>

    function State(): Flags
      reads this
    {
      Flags(isMovieFavorited, isMovieWatchlisted)
    }

    /** `useState(false)` for both flags. */
    constructor ()
      ensures State() == Flags(false, false) && events == []
    {
      isMovieFavorited := false;
      isMovieWatchlisted := false;
      events := [];
    }

    /** The effect that runs when the favorite list or the movie changes. */
    method SyncFavorited(favoriteMovies: Option<ListPage>, data: Option<MovieDetails>)
      modifies this
      ensures isMovieFavorited == IsListed(favoriteMovies, data)
      ensures isMovieWatchlisted == old(isMovieWatchlisted)
      ensures events == old(events) + [FlagSet(Favorite, isMovieFavorited)]
    {
      isMovieFavorited := IsListed(favoriteMovies, data);
      events := events + [FlagSet(Favorite, isMovieFavorited)];
    }

    /** The effect that runs when the watchlist or the movie changes. */
    method SyncWatchlisted(watchlistMovies: Option<ListPage>, data: Option<MovieDetails>)
      modifies this
      ensures isMovieWatchlisted == IsListed(watchlistMovies, data)
      ensures isMovieFavorited == old(isMovieFavorited)
      ensures events == old(events) + [FlagSet(Watchlist, isMovieWatchlisted)]
    {
      isMovieWatchlisted := IsListed(watchlistMovies, data);
      events := events + [FlagSet(Watchlist, isMovieWatchlisted)];
    }

    /**
     * `addToFavorites`: post the negation of the current flag, then, once the
     * post has resolved, flip the flag. A rejected post leaves the flags alone.
     */
    method AddToFavorites(ctx: PostContext, posted: bool) returns (request: ListRequest)
      modifies this
      ensures request.kind == Favorite && request.url == PostUrl(Favorite, ctx)
      ensures request.mediaType == "movie" && request.mediaId == ctx.routeId
      ensures request.desired == !old(isMovieFavorited)
      ensures State() == Step(old(State()), Click(Favorite, posted))
      ensures isMovieWatchlisted == old(isMovieWatchlisted)
      ensures posted ==> isMovieFavorited == request.desired
      ensures events == old(events) + [Posted(request)] +
                        (if posted then [FlagSet(Favorite, isMovieFavorited)] else [])
    {
      request := ToggleRequest(Favorite, ctx, isMovieFavorited);
      events := events + [Posted(request)];
      if posted {
        isMovieFavorited := !isMovieFavorited;
        events := events + [FlagSet(Favorite, isMovieFavorited)];
      }
    }

    /** `addToWatchlist`: the same protocol for the watchlist flag. */
    method AddToWatchlist(ctx: PostContext, posted: bool) returns (request: ListRequest)
      modifies this
      ensures request.kind == Watchlist && request.url == PostUrl(Watchlist, ctx)
      ensures request.mediaType == "movie" && request.mediaId == ctx.routeId
      ensures request.desired == !old(isMovieWatchlisted)
      ensures State() == Step(old(State()), Click(Watchlist, posted))
      ensures isMovieFavorited == old(isMovieFavorited)
      ensures posted ==> isMovieWatchlisted == request.desired
      ensures events == old(events) + [Posted(request)] +
                        (if posted then [FlagSet(Watchlist, isMovieWatchlisted)] else [])
    {
      request := ToggleRequest(Watchlist, ctx, isMovieWatchlisted);
      events := events + [Posted(request)];
      if posted {
        isMovieWatchlisted := !isMovieWatchlisted;
        events := events + [FlagSet(Watchlist, isMovieWatchlisted)];
      }
    }
  }
}
