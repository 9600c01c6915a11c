/**
 * The domain `Movie`: an id and six nullable display fields, as returned by the
 * catalogue search and as read back from the favorites table.
 */
module Movies {
  import opened Wrappers
  import opened Kotlin

  datatype Movie = Movie(
    id: Int32,
    title: Option<string>,
    overview: Option<string>,
    posterPath: Option<string>,
    backdropPath: Option<string>,
    releaseDate: Option<string>,
    voteAverage: Option<Float32>
  )
}
