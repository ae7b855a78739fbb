# Filmpire: catalog paths and favorite/watchlist state, in Dafny

Filmpire is a React client for The Movie Database (TMDB). This project models the two parts of it
that hold logic of their own:

- **The catalog request paths** (`src/services/TMDB.js`). `getGenres` always asks for
  `genre/movie/list?api_key=KEY`. `getMovies` turns `{ genreIdOrCategoryName, page }` into one of three
  templates, using JavaScript `typeof` and truthiness:
  - a truthy string gives `movie/{c}?page={page}&api_key=KEY`;
  - otherwise a truthy number gives `discover/movie?with_genres={n}&page={page}&api_key=KEY`;
  - anything else gives `movie/popular?page={page}&api_key=KEY`.

  The argument is modelled as a JavaScript value (`Tmdb.JsValue`: string, whole number, NaN, boolean,
  null, undefined, object), with `Truthy`, `TypeOf` and template-literal text written out. The page is a
  whole number or undefined.

  A parser (`Tmdb.ParseMoviesPath`) reads a path back into the listing it asks for: a category by name,
  or a genre by id. Every path reads back to the listing its descriptor stands for, plus the page. So
  two descriptors give the same path exactly when they mean the same listing and page. The category
  `"popular"` and the default share one path. Whole numbers are rendered and parsed in module `Decimal`.
- **The movie page's list state** (`src/components/MovieInformation/Movieinformation.jsx`).
  - Two flags record whether the shown movie is in the favorite list and in the watchlist. Each is
    derived as `!!list?.results?.find(m => m?.id === data?.id)`; the model keeps null entries, null ids,
    missing ids and a movie that is not fetched yet.
  - `addToFavorites` and `addToWatchlist` POST the negation of their flag, then flip that flag once
    the POST resolves. They are a class (`MovieInformationView`) with the two `useState` fields and a
    ghost log of events, so "post first, then flip" is stated. Each POST appears as a `ListRequest`
    record. Whether the awaited POST resolved is a parameter.
  - Pure functions (`Flip`, `Step`, `Run`) give the same state machine for multi-step lemmas about
    parity, toggling twice, and independence of the two flags.
  - The "Top Cast" row maps the cast to cells, takes `.slice(0, 6)`, and renders the truthy cells. It
    is proved equal to "the members with a picture among the first six". A lemma shows this can be
    fewer than six even when six members have pictures.

Three behaviours of the code are worth stating plainly, and the model keeps each of them:

- A missing `page` renders as `page=undefined` (src/services/TMDB.js:18, 23, 26).
- Any non-empty string is accepted as a category (src/services/TMDB.js:17).
- The flag flips only after the awaited POST resolves, and not at all if it rejects
  (src/components/MovieInformation/Movieinformation.jsx:39-45).

## Model

| member | source | states |
|---|---|---|
| `Tmdb.GenresPath` | src/services/TMDB.js:10-12 | the definition is the constant `genre/movie/list?api_key=` followed by the key; the query takes no argument |
| `Tmdb.MoviesPath` | src/services/TMDB.js:15-27 | a non-empty string c gives `movie/c?` + page tail; a non-zero number n gives `discover/movie?with_genres=n&` + page tail; every other value (`""`, `0`, NaN, booleans, null, undefined, objects) gives `movie/popular?` + page tail |
| `Tmdb.ParseMoviesPathRoundTrip` | src/services/TMDB.js:15-27 | every `getMovies` path parses back to the listing its descriptor stands for (category name, genre id, or the popular category) and to its page |
| `Tmdb.MoviesPathInjective` | src/services/TMDB.js:15-27 | two descriptors give the same path if and only if they stand for the same listing and the same page |
| `Tmdb.MoviesPathIsListingPath` | src/services/TMDB.js:17-26 | the path is the template of the tagged listing (category or genre) that the descriptor's type and truthiness select |
| `Tmdb.PageAndKeySuffix` | src/services/TMDB.js:18-26 | every `getMovies` path ends with `page=` followed by the page's text verbatim, then `&api_key=` and the key |
| `Tmdb.DefaultPath` | src/services/TMDB.js:17-26 | a falsy value, or a value that is neither a string nor a number, gives the popular-movies path |
| `Tmdb.ExactlyOneTemplate` | src/services/TMDB.js:17-26 | the string and number tests never both hold; the path starts with `discover/movie?with_genres=` exactly when the number test passes, and with `movie/` otherwise |
| `Tmdb.PopularCategoryIsDefault` | src/services/TMDB.js:17-26 | the category string "popular" and the default give the same path |
| `Tmdb.GenresPathIsNotAMoviesPath` | src/services/TMDB.js:10-12 | the constant genre-list path `genre/movie/list?api_key=KEY` equals no `getMovies` path |
| `Decimal.ParseIntToString` | src/services/TMDB.js:23 | the decimal text a template gives for a whole number parses back to that number |
| `Decimal.IntToStringInjective` | src/services/TMDB.js:23 | distinct genre ids or pages render to distinct texts |
| `MovieInformation.FindIndex` | src/components/MovieInformation/Movieinformation.jsx:31 | `find` returns the first entry whose `id` strictly equals the target, or nothing when no entry does |
| `MovieInformation.IsListed` | src/components/MovieInformation/Movieinformation.jsx:31 | a true flag means the list has results holding a non-null entry whose `id` strictly equals `data?.id`; an absent list or absent results give false (the full if-and-only-if is in ListedIffContains and NotFetchedListed) |
| `MovieInformation.ListedIffContains` | src/components/MovieInformation/Movieinformation.jsx:30-36 | for a fetched movie, the flag is true if and only if the list has results and some entry has the movie's id |
| `MovieInformation.MissingListNotListed` | src/components/MovieInformation/Movieinformation.jsx:30-36 | an absent list, or a list without results, gives false |
| `MovieInformation.NotFetchedListed` | src/components/MovieInformation/Movieinformation.jsx:30-36 | before the movie is fetched, the flag is true if and only if the first entry whose `movie?.id` is undefined is a real entry with no `id` field, not a null entry; an entry whose id is null never matches |
| `MovieInformation.NotFetchedNotListed` | src/components/MovieInformation/Movieinformation.jsx:30-36 | before the movie is fetched, a list of non-null entries that all carry an `id` field (a number or null) gives false |
| `MovieInformation.Rendered` | src/components/MovieInformation/Movieinformation.jsx:106-114 | the rendered children are no more than the cells, and each is the content of one of the cells |
| `MovieInformation.WithProfile` | src/components/MovieInformation/Movieinformation.jsx:107 | the members kept are cast members that have a truthy `profile_path` |
| `MovieInformation.WithProfileKeepsProfiled` | src/components/MovieInformation/Movieinformation.jsx:107 | every cast member with a truthy `profile_path` is kept by the filter, so it keeps exactly those members |
| `MovieInformation.TopCast` | src/components/MovieInformation/Movieinformation.jsx:106-114 | at most six members are shown; each one has a picture and comes from the cast; nothing is shown before the movie is fetched |
| `MovieInformation.TopCastIsProfiledAmongFirstSix` | src/components/MovieInformation/Movieinformation.jsx:106-114 | the row is exactly the members with a picture among the first six, in cast order |
| `MovieInformation.TopCastFirstSixProfiled` | src/components/MovieInformation/Movieinformation.jsx:106-114 | when the first six members all have pictures, exactly those six are shown |
| `MovieInformation.TopCastMayShowFewer` | src/components/MovieInformation/Movieinformation.jsx:106-114 | a cast whose first member lacks a picture and whose next six have one shows only five, though six have pictures |
| `MovieInformation.Flip` | src/components/MovieInformation/Movieinformation.jsx:45-55 | a flip negates its own flag and keeps the other |
| `MovieInformation.RunParity` | src/components/MovieInformation/Movieinformation.jsx:38-56 | after any run of presses, a flag is negated exactly when an odd number of its own POSTs resolved |
| `MovieInformation.ToggleTwiceRestores` | src/components/MovieInformation/Movieinformation.jsx:38-56 | two completed toggles of one list restore both flags |
| `MovieInformation.OtherListUnchanged` | src/components/MovieInformation/Movieinformation.jsx:38-56 | presses on one list never change the other list's flag |
| `MovieInformation.MovieInformationView.constructor` | src/components/MovieInformation/Movieinformation.jsx:27-28 | both flags start false and nothing has happened yet |
| `MovieInformation.MovieInformationView.SyncFavorited` | src/components/MovieInformation/Movieinformation.jsx:30-32 | the favorite flag becomes the derived membership; the watchlist flag is unchanged |
| `MovieInformation.MovieInformationView.SyncWatchlisted` | src/components/MovieInformation/Movieinformation.jsx:34-36 | the watchlist flag becomes the derived membership; the favorite flag is unchanged |
| `MovieInformation.MovieInformationView.AddToFavorites` | src/components/MovieInformation/Movieinformation.jsx:38-46 | posts to `account/{user.id}/favorite` with `media_type` "movie", `media_id` the route id and `favorite` the negation of the flag before the press; the flag flips only after the post and only if it resolved; the watchlist flag is unchanged; the log holds the post and then the flip |
| `MovieInformation.MovieInformationView.AddToWatchlist` | src/components/MovieInformation/Movieinformation.jsx:48-56 | the same for `account/{user.id}/watchlist` with `watchlist` the negation of the watchlist flag; the favorite flag is unchanged |

## Left out

- Query caching, request deduplication and refetching by the RTK Query library (src/services/TMDB.js:1-8, 33): its code is not part of this model. Only the path strings that `query` returns are modelled, without the base URL that `fetchBaseQuery` prepends.
- The hooks `useGetMovieQuery`, `useGetListQuery`, `useGetRecommendationsQuery`, `useGetActorQuery` and `useGetMoviesByActorIDQuery`: they are imported but TMDB.js does not define them, so what they request cannot be read. Their results come into the model as parameters (the fetched lists and movie).
- Network and storage I/O. Each `axios.post` becomes an emitted `ListRequest`, and whether it resolved is the parameter `posted`. The stored session id, `user.id`, the route id and the API key are parameters (`PostContext`). `user.id` is assumed to be a number: the auth module that supplies `user` is not part of this model, so a URL such as `account/undefined/favorite` is not produced. Logout and redirects are not modelled.
- The authentication and session flow: the `features/auth` module is not part of this model.
- JavaScript numbers are whole numbers plus NaN. Fractional values, `-0`, `Infinity` and `-Infinity` (truthy numbers that would render as `Infinity` in the genre path), values of magnitude 1e21 or more (which render in exponent notation) and the loss of precision above 2^53 are not modelled. A page is a whole number or undefined; other values for `page` are not modelled. Functions, symbols and bigints are not among the modelled argument values.
- The contents of each cast cell (image URL, actor link, character split), the rating (`vote_average / 2`), the trailer modal, recommendations and all other JSX rendering.
- React scheduling. Each toggle is one atomic step: build the body, post, then flip. With two presses in flight at once, the captured flag and the functional update `(prev) => !prev` could disagree; that interleaving is not modelled. The effects that re-derive the flags are separate methods that a caller invokes when the list or the movie changes.
