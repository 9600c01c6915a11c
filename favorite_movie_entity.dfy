/**
 * A row of the `favorite_movies` table. `id` is the primary key; the row has no
 * favorite flag, since a row being present is what makes the movie a favorite.
 */
module FavoriteMovieEntities {
  import opened Wrappers
  import opened Kotlin

  datatype FavoriteMovieEntity = FavoriteMovieEntity(
    id: Int32,
    title: Option<string>,
    overview: Option<string>,
    posterPath: Option<string>,
    backdropPath: Option<string>,
    releaseDate: Option<string>,
    voteAverage: Option<Float32>
  )
}
