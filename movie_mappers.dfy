/** Conversions between a domain movie and a `favorite_movies` row, field by field. */
module MovieMappers {
  import opened Movies
  import opened FavoriteMovieEntities

  /** `Movie.toEntity()`: the row that stores a snapshot of `m`; reading it back gives `m`. */
  function ToEntity(m: Movie): (e: FavoriteMovieEntity)
    ensures e.id == m.id
    ensures e.title == m.title && e.overview == m.overview && e.posterPath == m.posterPath
    ensures e.backdropPath == m.backdropPath && e.releaseDate == m.releaseDate
    ensures e.voteAverage == m.voteAverage
    ensures ToDomain(e) == m
  {
    FavoriteMovieEntity(m.id, m.title, m.overview, m.posterPath, m.backdropPath,
                        m.releaseDate, m.voteAverage)
  }

  /** `FavoriteMovieEntity.toDomain()`: the movie a row describes; its id is the row's key. */
  function ToDomain(e: FavoriteMovieEntity): (m: Movie)
    ensures m.id == e.id
    ensures m.title == e.title && m.overview == e.overview && m.posterPath == e.posterPath
    ensures m.backdropPath == e.backdropPath && m.releaseDate == e.releaseDate
    ensures m.voteAverage == e.voteAverage
  {
    Movie(e.id, e.title, e.overview, e.posterPath, e.backdropPath, e.releaseDate, e.voteAverage)
  }

  /** Storing what was read from a row gives back the same row. */
  lemma EntityRoundTrip(e: FavoriteMovieEntity)
    ensures ToEntity(ToDomain(e)) == e
  {
  }

  /** Both conversions are bijections: distinct inputs give distinct outputs. */
  lemma MappersInjective(m1: Movie, m2: Movie, e1: FavoriteMovieEntity, e2: FavoriteMovieEntity)
    ensures ToEntity(m1) == ToEntity(m2) <==> m1 == m2
    ensures ToDomain(e1) == ToDomain(e2) <==> e1 == e2
  {
    if ToEntity(m1) == ToEntity(m2) { assert ToDomain(ToEntity(m1)) == ToDomain(ToEntity(m2)); }
    if ToDomain(e1) == ToDomain(e2) { EntityRoundTrip(e1); EntityRoundTrip(e2); }
  }
}
