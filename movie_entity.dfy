/**
 * A row of the unified `movies` cache table: `id` is the primary key and
 * `isFavorite` is false unless it is supplied.
 */
module MovieEntities {
  import opened Wrappers
  import opened Kotlin

  datatype MovieEntity = MovieEntity(
    id: Int32,
    title: Option<string>,
    overview: Option<string>,
    posterPath: Option<string>,
    backdropPath: Option<string>,
    releaseDate: Option<string>,
    voteAverage: Option<Float32>,
    isFavorite: bool := false
  )

  /** A row built without a flag is not a favorite, and its other fields are the ones given. */
  lemma DefaultIsNotFavorite(id: Int32, title: Option<string>, overview: Option<string>,
                             posterPath: Option<string>, backdropPath: Option<string>,
                             releaseDate: Option<string>, voteAverage: Option<Float32>)
    ensures var e := MovieEntity(id, title, overview, posterPath, backdropPath, releaseDate, voteAverage);
      && !e.isFavorite
      && e == MovieEntity(id, title, overview, posterPath, backdropPath, releaseDate, voteAverage, false)
  {
  }
}
