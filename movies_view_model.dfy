/**
 * `MoviesViewModel`: three observable slots (the search `Resource`, the selected
 * movie, the favorites list mirrored from the store) and the operations the screens
 * call. Each coroutine launch is a separate step: `SearchMovies` sets `Loading` and
 * hands back the launched search, which `CompleteSearch` finishes; a favorites
 * emission from the store is delivered by `OnFavoritesEmitted`.
 */
module ViewModel {
  import opened Wrappers
  import opened Kotlin
  import opened Movies
  import opened FavoriteMovieEntities
  import opened Resources
  import opened FavoriteMovieDaos
  import opened Repository
  import MovieMappers

  /** The coroutine `searchMovies(query)` launches, waiting to run. */
  datatype SearchJob = SearchJob(query: string)

  /** `movies.any { it.id == id }`. */
  function AnyHasId(movies: seq<Movie>, id: Int32): (r: bool)
    ensures r <==> exists k :: 0 <= k < |movies| && movies[k].id == id
  {
    if movies == [] then false else movies[0].id == id || AnyHasId(movies[1..], id)
  }

  /** `entities.map { it.toDomain() }`. */
  function ToDomainAll(entities: seq<FavoriteMovieEntity>): (ms: seq<Movie>)
  {
    seq(|entities|, k requires 0 <= k < |entities| => MovieMappers.ToDomain(entities[k]))
  }

  /**
   * Once the store has emitted a listing of its table, the mirrored favorites
   * contain a movie with a given id exactly when the table holds a row for that id.
   */
  lemma EmittedMembership(entities: seq<FavoriteMovieEntity>, t: Table, id: Int32)
    requires KeyedById(t) && Lists(entities, t)
    ensures AnyHasId(ToDomainAll(entities), id) <==> id in t
  {
    var ms := ToDomainAll(entities);
    if id in t {
      var k :| 0 <= k < |entities| && entities[k] == t[id];
      assert ms[k].id == id;
    }
  }

  /**
   * Each toggle inverts `isFavorite` as seen after the store's next emission: the
   * listing of the toggled table has the movie's id exactly when the listing of
   * the table before did not.
   */
  lemma ToggleInvertsMembership(t: Table, movie: Movie, before: seq<FavoriteMovieEntity>,
                                after: seq<FavoriteMovieEntity>)
    requires KeyedById(t) && Lists(before, t) && Lists(after, Toggled(t, movie))
    ensures AnyHasId(ToDomainAll(after), movie.id) == !AnyHasId(ToDomainAll(before), movie.id)
  {
    EmittedMembership(before, t, movie.id);
    EmittedMembership(after, Toggled(t, movie), movie.id);
  }

  class MoviesViewModel {
    const repository: MoviesRepository
    /** `_moviesResource`: the state of the last search. */
    var moviesResource: Resource<seq<Movie>>
    /** `_selectedMovie`: the movie shown on the detail screen, if any. */
    var selectedMovie: Option<Movie>
    /** `_favoriteMovies`: the favorites as last emitted by the store. */
    var favoriteMovies: seq<Movie>

    /** The initial state: no search result, no selection, no favorites. */
    constructor (repository: MoviesRepository)
      ensures this.repository == repository
      ensures moviesResource == Empty && selectedMovie == None && favoriteMovies == []
    {
      this.repository := repository;
      moviesResource := Empty;
      selectedMovie := None;
      favoriteMovies := [];
    }

    /**
     * The `init` collector: each emission replaces the favorites with the emitted
     * rows as movies, same length, same order. When the emission lists the table,
     * `IsFavorite` then answers membership in the table.
     */
    method OnFavoritesEmitted(entities: seq<FavoriteMovieEntity>)
      modifies this`favoriteMovies
      ensures |favoriteMovies| == |entities|
      ensures forall k :: 0 <= k < |entities| ==> favoriteMovies[k] == MovieMappers.ToDomain(entities[k])
      ensures repository.favoriteMovieDao.Valid() && Lists(entities, repository.favoriteMovieDao.rows) ==>
        forall m: Movie :: IsFavorite(m) <==> m.id in repository.favoriteMovieDao.rows
    {
      favoriteMovies := ToDomainAll(entities);
      if repository.favoriteMovieDao.Valid() && Lists(entities, repository.favoriteMovieDao.rows) {
        forall m: Movie ensures IsFavorite(m) <==> m.id in repository.favoriteMovieDao.rows {
          EmittedMembership(entities, repository.favoriteMovieDao.rows, m.id);
        }
      }
    }

    /** `searchMovies(query)`, first half: `Loading` with no data, then the search is launched. */
    method SearchMovies(query: string) returns (job: SearchJob)
      modifies this`moviesResource
      ensures moviesResource == Loading(None)
      ensures job.query == query
    {
      moviesResource := Loading();
      job := SearchJob(query);
    }

    /** `searchMovies(query)`, the launched coroutine: the repository's result for the untrimmed query. */
    method CompleteSearch(job: SearchJob)
      modifies this`moviesResource
      ensures moviesResource == Repository.SearchMovies(job.query, repository.api)
      ensures IsBlank(job.query) ==> moviesResource == Empty
      ensures !moviesResource.Loading?
    {
      moviesResource := Repository.SearchMovies(job.query, repository.api);
    }

    /** `selectMovie(movie)`: only the selection changes. */
    method SelectMovie(movie: Movie)
      modifies this`selectedMovie
      ensures selectedMovie == Some(movie)
    {
      selectedMovie := Some(movie);
    }

    /**
     * `toggleFavorite(movie)`: delegates to the repository; none of the view-model's
     * own slots is written, so the favorites list changes only on the next emission.
     */
    method ToggleFavorite(movie: Movie)
      requires repository.favoriteMovieDao.Valid()
      modifies repository.favoriteMovieDao
      ensures repository.favoriteMovieDao.Valid()
      ensures repository.favoriteMovieDao.rows == Toggled(old(repository.favoriteMovieDao.rows), movie)
      ensures unchanged(this)
    {
      repository.ToggleFavorite(movie);
    }

    /** `isFavorite(movie)`: some mirrored favorite has the same id; false on an empty list. */
    function IsFavorite(movie: Movie): (r: bool)
      reads this
      ensures r <==> exists k :: 0 <= k < |favoriteMovies| && favoriteMovies[k].id == movie.id
      ensures favoriteMovies == [] ==> !r
    {
      AnyHasId(favoriteMovies, movie.id)
    }
  }
}
