/**
 * Clients of the view-model that run the app's main flows: searches that are
 * blank, fail and succeed, and two favorite toggles on the same movie, each
 * followed by the store's emission.
 */
module Scenarios {
  import opened Wrappers
  import opened Kotlin
  import opened Movies
  import opened Resources
  import opened FavoriteMovieDaos
  import opened Repository
  import opened ViewModel
  import MovieMappers

  /** What the repository answers for a blank, a failing and a succeeding query. */
  lemma SearchFlowResults(api: MovieApi, blank: string, failing: string, found: string,
                          movies: seq<Movie>, cause: Throwable)
    requires IsBlank(blank)
    requires !IsBlank(failing) && api(Trim(failing)) == Raised(cause)
    requires !IsBlank(found) && api(Trim(found)) == Response(movies)
    ensures SearchMovies(blank, api) == Empty
    ensures SearchMovies(failing, api) == Error("Failed to load movies", Some(cause))
    ensures SearchMovies(found, api) == Success(movies)
  {
  }

  /**
   * A blank search, a failing search, then a succeeding one that clears the error;
   * a sequence the app goes through from its search screen.
   */
  method SearchFlow(vm: MoviesViewModel, blank: string, failing: string, found: string,
                    movies: seq<Movie>, cause: Throwable)
    returns (afterBlank: Resource<seq<Movie>>, afterFailure: Resource<seq<Movie>>,
             afterSuccess: Resource<seq<Movie>>)
    requires IsBlank(blank)
    requires !IsBlank(failing) && vm.repository.api(Trim(failing)) == Raised(cause)
    requires !IsBlank(found) && vm.repository.api(Trim(found)) == Response(movies)
    modifies vm
    ensures afterBlank == Empty
    ensures afterFailure == Error("Failed to load movies", Some(cause))
    ensures afterSuccess == Success(movies)
  {
    var job := vm.SearchMovies(blank);
    vm.CompleteSearch(job);
    afterBlank := vm.moviesResource;

    job := vm.SearchMovies(failing);
    vm.CompleteSearch(job);
    afterFailure := vm.moviesResource;

    job := vm.SearchMovies(found);
    vm.CompleteSearch(job);
    afterSuccess := vm.moviesResource;
    SearchFlowResults(vm.repository.api, blank, failing, found, movies, cause);
  }

  /**
   * On an empty table, the first toggle makes the movie a favorite and the second
   * undoes it; each emission is a listing of the table as it is at that point.
   */
  method ToggleTwiceFlow(api: MovieApi, movie: Movie)
    returns (favoriteAfterOne: bool, favoriteAfterTwo: bool)
    ensures favoriteAfterOne && !favoriteAfterTwo
  {
    var dao := new FavoriteMovieDao();
    var repository := new MoviesRepository(dao, api);
    var vm := new MoviesViewModel(repository);

    var e := MovieMappers.ToEntity(movie);
    vm.ToggleFavorite(movie);
    assert dao.rows == map[movie.id := e];
    assert [e][0] == dao.rows[movie.id];
    assert Lists([e], dao.rows);
    vm.OnFavoritesEmitted([e]);
    favoriteAfterOne := vm.IsFavorite(movie);

    vm.ToggleFavorite(movie);
    assert dao.rows == map[];
    assert Lists([], dao.rows);
    vm.OnFavoritesEmitted([]);
    favoriteAfterTwo := vm.IsFavorite(movie);
  }
}
