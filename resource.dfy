/**
 * The sealed `Resource` hierarchy: the state of the last issued search.
 * A datatype value is exactly one of its four constructors.
 */
module Resources {
  import opened Wrappers
  import opened Kotlin

  datatype Resource<+T> =
    /** A completed search; always carries its payload. */
    | Success(data: T)
    /** A failed search: a message and an optional cause (null by default); no payload. */
    | Error(message: string, throwable: Option<Throwable> := None)
    /** A search in flight, with optional data (null by default). */
    | Loading(loadingData: Option<T> := None)
    /** No search result; no payload at all. */
    | Empty
}
