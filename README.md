# Movie search and favorites: a Dafny model

This project models the state logic of an Android client that searches a remote
movie catalogue and lets the user mark movies as favorites. It covers:

- the value types: the domain `Movie` (an `Int` id and six nullable fields), the
  `favorite_movies` row `FavoriteMovieEntity`, the `movies` cache row `MovieEntity`
  (with an `isFavorite` flag that defaults to false), and the sealed `Resource`
  union with its four variants `Success(data)`, `Error(message, throwable = null)`,
  `Loading(data = null)` and `Empty` (`resource.dfy`, `movie.dfy`,
  `favorite_movie_entity.dfy`, `movie_entity.dfy`); a Dafny datatype value is
  exactly one of its constructors, `Success` always has its payload, `Error` has no
  data and `Empty` carries nothing; `Success`, `Error` and `Loading` are data classes,
  whose equality is equality over all fields, as it is for the datatype;
- the mappers `toEntity` / `toDomain` between a movie and a favorites row
  (`movie_mappers.dfy`);
- the two Room DAOs, each as a class holding its table as a map from primary key
  to row, with the table operations (lookup, insert with REPLACE, delete by
  primary key, the favorites query, `insertAll`) also given as functions on that
  map (`favorite_movie_dao.dfy`, `movie_dao.dfy`);
- `MoviesRepository`: `searchMovies` (trim, blank check, API call, exception to
  `Error`) as a function of the query and an API oracle, and `toggleFavorite` as a
  method that reads the DAO and deletes or inserts (`movies_repository.dfy`);
- `MoviesViewModel`: a class with the three state slots; each coroutine launch is
  an explicit step (`movies_view_model.dfy`);
- two client flows that exercise the view-model end to end (`scenarios.dfy`);
- the Kotlin library pieces the core relies on: 32-bit `Int`, `Float` as an opaque
  bit pattern, `Throwable` as an opaque token, and `String.trim()` with the JVM's
  `Char.isWhitespace()` (`kotlin.dfy`, `wrappers.dfy`).

Three facts about the code shape the model: the view-model's `searchMovies` sets
`Loading()` with no data before the search runs
(app/src/main/java/info/remzi/madlevel5_task2/viewmodel/MoviesViewModel.kt:35); the
favorites query has no `ORDER BY`, so its result is treated as a set; and no code
writes fetched movies into the `movies` table, so only that table's own operations
are modelled.

## Model

| member | source | states |
|---|---|---|
| Kotlin.TrimStart | app/src/main/java/info/remzi/madlevel5_task2/repository/MoviesRepository.kt:17 | the result is a suffix of the input that does not start with whitespace, and everything dropped is whitespace |
| Kotlin.TrimEnd | app/src/main/java/info/remzi/madlevel5_task2/repository/MoviesRepository.kt:17 | the result is a prefix of the input that does not end with whitespace, and everything dropped is whitespace |
| Kotlin.Trim | app/src/main/java/info/remzi/madlevel5_task2/repository/MoviesRepository.kt:17 | `query.trim()` is the infix of the query starting where its leading whitespace ends, neither starting nor ending with whitespace, with only whitespace cut on either side |
| Kotlin.TrimEmptyIffBlank | app/src/main/java/info/remzi/madlevel5_task2/repository/MoviesRepository.kt:17-18 | the trimmed query is empty exactly when every character of the query is whitespace |
| Kotlin.TrimKeepsUnpadded | app/src/main/java/info/remzi/madlevel5_task2/repository/MoviesRepository.kt:17 | trimming leaves a non-empty string without surrounding whitespace unchanged |
| MovieEntities.DefaultIsNotFavorite | app/src/main/java/info/remzi/madlevel5_task2/data/local/MovieEntity.kt:7-16 | a cache row built without a flag has `isFavorite == false` and equals the row built with `false` |
| MovieMappers.ToEntity | app/src/main/java/info/remzi/madlevel5_task2/data/local/MovieMappers.kt:5-15 | `toEntity` copies each of the seven fields, nulls included, to the field of the same name, and `toDomain(toEntity(m)) == m` |
| MovieMappers.ToDomain | app/src/main/java/info/remzi/madlevel5_task2/data/local/MovieMappers.kt:17-27 | `toDomain` copies each of the seven fields, nulls included, to the field of the same name |
| MovieMappers.EntityRoundTrip | app/src/main/java/info/remzi/madlevel5_task2/data/local/MovieMappers.kt:5-27 | `toEntity(toDomain(e)) == e` for every favorites row |
| MovieMappers.MappersInjective | app/src/main/java/info/remzi/madlevel5_task2/data/local/MovieMappers.kt:5-27 | both mappers are injective: equal outputs only from equal inputs |
| FavoriteMovieDaos.Lookup | app/src/main/java/info/remzi/madlevel5_task2/data/local/FavoriteMovieDao.kt:15-16 | lookup by id finds the row stored under that primary key, or nothing when there is none |
| FavoriteMovieDaos.Upsert | app/src/main/java/info/remzi/madlevel5_task2/data/local/FavoriteMovieDao.kt:18-19 | insert with REPLACE stores the row under its id, replacing (not duplicating) an earlier one, keeps all other rows, and keeps the primary-key invariant |
| FavoriteMovieDaos.DeleteRow | app/src/main/java/info/remzi/madlevel5_task2/data/local/FavoriteMovieDao.kt:21-22 | delete removes exactly the row with the entity's primary key, keeps every other row, and keeps the primary-key invariant |
| FavoriteMovieDaos.AllRows | app/src/main/java/info/remzi/madlevel5_task2/data/local/FavoriteMovieDao.kt:12-13 | the favorites query returns exactly the stored rows, one per primary key |
| FavoriteMovieDaos.CardinalityOfRows | app/src/main/java/info/remzi/madlevel5_task2/data/local/FavoriteMovieEntity.kt:6-8 | with `id` as primary key, a table has as many distinct rows as keys |
| FavoriteMovieDaos.DeleteUndoesUpsert | app/src/main/java/info/remzi/madlevel5_task2/data/local/FavoriteMovieDao.kt:18-22 | deleting a row inserted under a free id restores the table |
| FavoriteMovieDaos.UpsertReplaces | app/src/main/java/info/remzi/madlevel5_task2/data/local/FavoriteMovieDao.kt:18-19 | two inserts with the same id leave only the later row |
| FavoriteMovieDaos.FavoriteMovieDao.GetFavoriteMovies | app/src/main/java/info/remzi/madlevel5_task2/data/local/FavoriteMovieDao.kt:12-13 | `getFavoriteMovies` yields exactly the rows in the table |
| FavoriteMovieDaos.FavoriteMovieDao.GetById | app/src/main/java/info/remzi/madlevel5_task2/data/local/FavoriteMovieDao.kt:15-16 | `getById(id)` is the row with primary key `id`, or null |
| FavoriteMovieDaos.FavoriteMovieDao.Insert | app/src/main/java/info/remzi/madlevel5_task2/data/local/FavoriteMovieDao.kt:18-19 | the table afterwards is the REPLACE insert of the row into the old table; the key invariant holds |
| FavoriteMovieDaos.FavoriteMovieDao.Delete | app/src/main/java/info/remzi/madlevel5_task2/data/local/FavoriteMovieDao.kt:21-22 | the table afterwards is the old table without the row's primary key; the key invariant holds |
| MovieDaos.Lookup | app/src/main/java/info/remzi/madlevel5_task2/data/local/MovieDao.kt:14-15 | lookup by id finds the cache row stored under that primary key, or nothing |
| MovieDaos.Upsert | app/src/main/java/info/remzi/madlevel5_task2/data/local/MovieDao.kt:17-18 | insert with REPLACE replaces the whole row under its id, flag included, never removes an id, and keeps the key invariant |
| MovieDaos.FavoriteRows | app/src/main/java/info/remzi/madlevel5_task2/data/local/MovieDao.kt:11-12 | the favorites query returns exactly the stored rows whose `isFavorite` is true |
| MovieDaos.UpsertAllAppend | app/src/main/java/info/remzi/madlevel5_task2/data/local/MovieDao.kt:20-21 | inserting a list is inserting its first part and then the rest, i.e. one REPLACE insert per element in order |
| MovieDaos.UpsertAllKeys | app/src/main/java/info/remzi/madlevel5_task2/data/local/MovieDao.kt:17-21 | after `insertAll` the ids are the old ids plus the list's ids: no id is ever lost |
| MovieDaos.UpsertAllKeyed | app/src/main/java/info/remzi/madlevel5_task2/data/local/MovieDao.kt:17-21 | `insertAll` keeps at most one row per id, each stored under its own id |
| MovieDaos.UpsertAllLastWins | app/src/main/java/info/remzi/madlevel5_task2/data/local/MovieDao.kt:20-21 | an id in the list ends up holding the last row of the list with that id |
| MovieDaos.UpsertAllElsewhere | app/src/main/java/info/remzi/madlevel5_task2/data/local/MovieDao.kt:20-21 | an id the list does not mention keeps its old row, or stays absent |
| MovieDaos.UpsertUnflaggedClearsFavorite | app/src/main/java/info/remzi/madlevel5_task2/data/local/MovieDao.kt:17-18 | inserting a row with a false flag removes that id from the favorites query and changes nothing else in it |
| MovieDaos.MovieDao.GetFavoriteMovies | app/src/main/java/info/remzi/madlevel5_task2/data/local/MovieDao.kt:11-12 | `getFavoriteMovies` yields exactly the flagged rows |
| MovieDaos.MovieDao.GetById | app/src/main/java/info/remzi/madlevel5_task2/data/local/MovieDao.kt:14-15 | `getById(id)` is the row with primary key `id`, or null |
| MovieDaos.MovieDao.Insert | app/src/main/java/info/remzi/madlevel5_task2/data/local/MovieDao.kt:17-18 | the table afterwards is the REPLACE insert of the row into the old table; the key invariant holds |
| MovieDaos.MovieDao.InsertAll | app/src/main/java/info/remzi/madlevel5_task2/data/local/MovieDao.kt:20-21 | the table afterwards is the old table with each row of the list REPLACE-inserted in order; the old ids are all still present |
| Repository.ApiRequest | app/src/main/java/info/remzi/madlevel5_task2/repository/MoviesRepository.kt:17-21 | the API is called only for a non-blank query, and then with the trimmed, non-empty string |
| Repository.SearchMovies | app/src/main/java/info/remzi/madlevel5_task2/repository/MoviesRepository.kt:15-27 | blank query gives `Empty`; otherwise the API's results for the trimmed query come back unchanged as `Success`, and an exception becomes `Error("Failed to load movies", cause)`; never `Loading`, never throws |
| Repository.BlankSearchIgnoresApi | app/src/main/java/info/remzi/madlevel5_task2/repository/MoviesRepository.kt:17-19 | for a blank query the result is `Empty` whatever the API would do: the API is not consulted |
| Repository.SearchSeesOnlyTrimmedQuery | app/src/main/java/info/remzi/madlevel5_task2/repository/MoviesRepository.kt:17-22 | the search result depends on the API only through its answer for the trimmed query |
| Repository.SearchUnpaddedQuery | app/src/main/java/info/remzi/madlevel5_task2/repository/MoviesRepository.kt:17-25 | a query without surrounding whitespace is sent as it is, and the result is the API's answer wrapped as `Success` or `Error` |
| Repository.ToEntity | app/src/main/java/info/remzi/madlevel5_task2/repository/MoviesRepository.kt:43-53 | the repository's private `toEntity` agrees field by field with the shared mapper |
| Repository.ToDomain | app/src/main/java/info/remzi/madlevel5_task2/repository/MoviesRepository.kt:55-65 | the repository's `toDomain` agrees field by field with the shared mapper |
| Repository.Toggled | app/src/main/java/info/remzi/madlevel5_task2/repository/MoviesRepository.kt:33-40 | toggling flips membership of `movie.id`; an inserted row is the snapshot `toEntity(movie)` and reads back as `movie`; every other row is unchanged; the key invariant holds |
| Repository.ToggleTwice | app/src/main/java/info/remzi/madlevel5_task2/repository/MoviesRepository.kt:33-40 | two toggles restore membership; an absent movie leaves the table as it was, a present one comes back as the snapshot of the movie passed in |
| Repository.MoviesRepository.constructor | app/src/main/java/info/remzi/madlevel5_task2/repository/MoviesRepository.kt:10-13 | the repository holds the given DAO and API |
| Repository.MoviesRepository.GetFavoriteMovies | app/src/main/java/info/remzi/madlevel5_task2/repository/MoviesRepository.kt:29-31 | passes the DAO's favorites query through: exactly the stored rows |
| Repository.MoviesRepository.ToggleFavorite | app/src/main/java/info/remzi/madlevel5_task2/repository/MoviesRepository.kt:33-40 | reads the row for `movie.id`, then deletes or inserts, leaving the table equal to `Toggled` of the old table |
| ViewModel.AnyHasId | app/src/main/java/info/remzi/madlevel5_task2/viewmodel/MoviesViewModel.kt:52 | `any { it.id == id }` is true exactly when some element has that id |
| ViewModel.EmittedMembership | app/src/main/java/info/remzi/madlevel5_task2/viewmodel/MoviesViewModel.kt:27-30 | after an emission listing the table, the mirrored favorites have a movie with an id exactly when the table has that id |
| ViewModel.ToggleInvertsMembership | app/src/main/java/info/remzi/madlevel5_task2/viewmodel/MoviesViewModel.kt:26-53 | after a toggle and the store's next emission, `isFavorite` for the toggled id is the opposite of what it was after the previous emission |
| ViewModel.MoviesViewModel.constructor | app/src/main/java/info/remzi/madlevel5_task2/viewmodel/MoviesViewModel.kt:13-24 | initial state: `Empty`, no selection, no favorites |
| ViewModel.MoviesViewModel.OnFavoritesEmitted | app/src/main/java/info/remzi/madlevel5_task2/viewmodel/MoviesViewModel.kt:26-32 | an emission replaces the favorites with the emitted rows through `toDomain`, same length and order, touching no other slot; `isFavorite` then answers table membership |
| ViewModel.MoviesViewModel.SearchMovies | app/src/main/java/info/remzi/madlevel5_task2/viewmodel/MoviesViewModel.kt:34-36 | sets `Loading` with no data and launches the search for the query as given; changes no other slot |
| ViewModel.MoviesViewModel.CompleteSearch | app/src/main/java/info/remzi/madlevel5_task2/viewmodel/MoviesViewModel.kt:36-38 | the launched search stores the repository's result for the untrimmed query, so a blank query ends in `Empty` and the state is no longer `Loading` |
| ViewModel.MoviesViewModel.SelectMovie | app/src/main/java/info/remzi/madlevel5_task2/viewmodel/MoviesViewModel.kt:41-43 | sets the selection to the movie and changes no other slot |
| ViewModel.MoviesViewModel.ToggleFavorite | app/src/main/java/info/remzi/madlevel5_task2/viewmodel/MoviesViewModel.kt:45-49 | only the repository's table changes, by `Toggled`; none of the view-model's slots is written |
| ViewModel.MoviesViewModel.IsFavorite | app/src/main/java/info/remzi/madlevel5_task2/viewmodel/MoviesViewModel.kt:51-53 | true exactly when some mirrored favorite has the movie's id; false when there are none |
| Scenarios.SearchFlowResults | app/src/main/java/info/remzi/madlevel5_task2/repository/MoviesRepository.kt:15-27 | the repository answers `Empty` for a blank query, `Error("Failed to load movies", cause)` when the API throws, and `Success` with the API's list when it answers |
| Scenarios.SearchFlow | app/src/main/java/info/remzi/madlevel5_task2/viewmodel/MoviesViewModel.kt:34-38 | through the view-model, a blank search ends in `Empty`, a failing one in `Error("Failed to load movies", cause)`, and a following successful one in `Success`, clearing the error |
| Scenarios.ToggleTwiceFlow | app/src/main/java/info/remzi/madlevel5_task2/viewmodel/MoviesViewModel.kt:45-53 | on an empty table, one toggle followed by an emission listing the table makes the movie a favorite; a second toggle and emission make it not one |

## Left out

- Coroutines and Flow: each `viewModelScope.launch` is a separate step (`SearchMovies` then `CompleteSearch`; `ToggleFavorite` runs the repository toggle to completion), and each Flow emission is a call of `OnFavoritesEmitted`; which of two overlapping searches completes last is not modelled.
- The HTTP layer (Retrofit, OkHttp, bearer token, JSON conversion) is replaced by an API oracle that answers a query with a result list or an exception; a `results` field left null by JSON conversion is not modelled.
- Repository.SearchMovies: the catch clause is for `Exception`; JVM `Error`s and coroutine cancellation, which the model's oracle cannot raise, are not modelled.
- Room and SQLite are replaced by in-memory maps; store operations cannot fail in the model, so the propagation of a failed toggle is not modelled.
- `Float` is an opaque 32-bit pattern: it is only copied, never computed on. Boxed `Float` equality compares `floatToIntBits`, which maps every NaN to one pattern, so two NaNs with different payloads are equal in Kotlin but distinct in the model.
- `Throwable` is an opaque token; exception identity is not modelled.
- `Empty` is a plain class, not a data class, so two `Resource.Empty()` objects are unequal by identity in Kotlin; in the model all `Empty` values are equal.
- The API oracle is a fixed function from query to outcome for the life of the repository, so the same query cannot fail once and succeed on a retry; nothing proved depends on this.
- The Compose screens, navigation, image loading, `MoviesViewModelFactory` and the database wiring in `MainActivity` (which hands `movieDao()` to a constructor expecting a `FavoriteMovieDao`) are not part of this model.
- `showFavorites` / `toggleShowFavorites` are called by a screen but defined nowhere in the view-model, so there is no favorites filter to model; no code merges fetched movies into the `movies` cache, so only that table's own semantics are modelled.
