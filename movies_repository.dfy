/**
 * `MoviesRepository`: catalogue search through the remote API, and favorite
 * toggling against the `favorite_movies` table.
 */
module Repository {
  import opened Wrappers
  import opened Kotlin
  import opened Movies
  import opened FavoriteMovieEntities
  import opened Resources
  import opened FavoriteMovieDaos
  import MovieMappers

  /** What `api.searchMovies(query)` does: answers with the response's `results`, or throws. */
  datatype ApiOutcome = Response(results: seq<Movie>) | Raised(cause: Throwable)

  /** The remote search endpoint, as an oracle from the query it is sent to its outcome. */
  type MovieApi = string -> ApiOutcome

  /** The fixed message of a failed search. */
  const LoadFailedMessage: string := "Failed to load movies"

  /** The string `searchMovies` sends to the API, or None when it does not call the API at all. */
  function ApiRequest(query: string): (r: Option<string>)
    ensures r.None? <==> IsBlank(query)
    ensures r.Some? ==> r.value == Trim(query) && r.value != []
  {
    TrimEmptyIffBlank(query);
    var trimmed := Trim(query);
    if trimmed == [] then None else Some(trimmed)
  }

  /**
   * `searchMovies(query)`: a blank query gives `Empty` without calling the API;
   * otherwise the API is called with the trimmed query, its results come back
   * unchanged as `Success`, and an exception becomes `Error` with the fixed message
   * and the exception as cause. It never throws and never answers `Loading`.
   */
  function SearchMovies(query: string, api: MovieApi): (r: Resource<seq<Movie>>)
    ensures IsBlank(query) ==> r == Empty
    ensures !IsBlank(query) && api(Trim(query)).Response? ==> r == Success(api(Trim(query)).results)
    ensures !IsBlank(query) && api(Trim(query)).Raised? ==>
      r == Error(LoadFailedMessage, Some(api(Trim(query)).cause))
    ensures !r.Loading?
  {
    match ApiRequest(query)
    case None => Empty
    case Some(trimmed) =>
      match api(trimmed)
      case Response(results) => Success(results)
      case Raised(e) => Error(LoadFailedMessage, Some(e))
  }

  /** A blank query does not consult the API: any two APIs give the same result. */
  lemma BlankSearchIgnoresApi(query: string, api1: MovieApi, api2: MovieApi)
    requires IsBlank(query)
    ensures SearchMovies(query, api1) == SearchMovies(query, api2) == Empty
  {
  }

  /** The result depends on the API's answer for the trimmed query alone. */
  lemma SearchSeesOnlyTrimmedQuery(query: string, api1: MovieApi, api2: MovieApi)
    requires api1(Trim(query)) == api2(Trim(query))
    ensures SearchMovies(query, api1) == SearchMovies(query, api2)
  {
  }

  /** A query without surrounding whitespace is sent to the API as it is. */
  lemma SearchUnpaddedQuery(query: string, api: MovieApi)
    requires query != [] && !IsWhitespace(query[0]) && !IsWhitespace(query[|query| - 1])
    ensures ApiRequest(query) == Some(query)
    ensures SearchMovies(query, api) == match api(query)
      case Response(results) => Success(results)
      case Raised(e) => Error(LoadFailedMessage, Some(e))
  {
    TrimKeepsUnpadded(query);
  }

  /** The repository's private `Movie.toEntity()`, which agrees with the shared mapper. */
  function ToEntity(m: Movie): (e: FavoriteMovieEntity)
    ensures e == MovieMappers.ToEntity(m)
  {
    FavoriteMovieEntity(m.id, m.title, m.overview, m.posterPath, m.backdropPath,
                        m.releaseDate, m.voteAverage)
  }

  /** The repository's public `FavoriteMovieEntity.toDomain()`, which agrees with the shared mapper. */
  function ToDomain(e: FavoriteMovieEntity): (m: Movie)
    ensures m == MovieMappers.ToDomain(e)
  {
    Movie(e.id, e.title, e.overview, e.posterPath, e.backdropPath, e.releaseDate, e.voteAverage)
  }

  /**
   * The table after `toggleFavorite(movie)`: membership of `movie.id` flips; a new
   * row is a snapshot of `movie`; every other row stays as it was.
   */
  function Toggled(t: Table, movie: Movie): (r: Table)
    requires KeyedById(t)
    ensures movie.id in r <==> movie.id !in t
    ensures movie.id in r ==>
      r[movie.id] == MovieMappers.ToEntity(movie) && MovieMappers.ToDomain(r[movie.id]) == movie
    ensures forall id :: id != movie.id ==> (id in r <==> id in t)
    ensures forall id :: id != movie.id && id in t ==> r[id] == t[id]
    ensures KeyedById(r)
  {
    match Lookup(t, movie.id)
    case Some(existing) => DeleteRow(t, existing)
    case None => Upsert(t, MovieMappers.ToEntity(movie))
  }

  /**
   * Two toggles restore membership. A movie that was not a favorite leaves the
   * table exactly as it was; one that was comes back as a snapshot of the movie
   * passed in, not as the row that was stored before.
   */
  lemma ToggleTwice(t: Table, movie: Movie)
    requires KeyedById(t)
    ensures movie.id in Toggled(Toggled(t, movie), movie) <==> movie.id in t
    ensures movie.id !in t ==> Toggled(Toggled(t, movie), movie) == t
    ensures movie.id in t ==>
      Toggled(Toggled(t, movie), movie) == t[movie.id := MovieMappers.ToEntity(movie)]
  {
    var once := Toggled(t, movie);
    var twice := Toggled(once, movie);
    if movie.id in t {
      assert twice == t[movie.id := MovieMappers.ToEntity(movie)];
    } else {
      assert twice == t;
    }
  }

  /** The repository over its DAO and the remote API. */
  class MoviesRepository {
    const favoriteMovieDao: FavoriteMovieDao
    const api: MovieApi

    constructor (favoriteMovieDao: FavoriteMovieDao, api: MovieApi)
      ensures this.favoriteMovieDao == favoriteMovieDao && this.api == api
    {
      this.favoriteMovieDao := favoriteMovieDao;
      this.api := api;
    }

    /** `getFavoriteMovies()`: the DAO's query, passed through. */
    method GetFavoriteMovies() returns (s: set<FavoriteMovieEntity>)
      requires favoriteMovieDao.Valid()
      ensures forall e :: e in s <==> e.id in favoriteMovieDao.rows && favoriteMovieDao.rows[e.id] == e
    {
      s := favoriteMovieDao.GetFavoriteMovies();
    }

    /** `toggleFavorite(movie)`: reads the row for `movie.id`, then deletes it or inserts a snapshot. */
    method ToggleFavorite(movie: Movie)
      requires favoriteMovieDao.Valid()
      modifies favoriteMovieDao
      ensures favoriteMovieDao.Valid()
      ensures favoriteMovieDao.rows == Toggled(old(favoriteMovieDao.rows), movie)
    {
      var existing := favoriteMovieDao.GetById(movie.id);
      if existing != None {
        favoriteMovieDao.Delete(existing.value);
      } else {
        favoriteMovieDao.Insert(ToEntity(movie));
      }
    }
  }
}
