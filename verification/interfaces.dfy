/** The two upstream collaborators the trailer service depends on
    (app/trailer/interfaces.py). A provider is a record of functions, so
    any implementation, live or fixture, can be substituted; an upstream
    failure is a `Failure` value instead of an exception. */
module Interfaces {
  import opened Wrappers
  import opened Errors
  import opened Models

  /** `IMovieDataProvider`. */
  datatype MovieDataProvider = MovieDataProvider(
    searchMulti: string -> Result<seq<CompactMovie>, Error>,
    getById: string -> Result<MovieDetail, Error>
  )

  /** `ITrailerProvider`. */
  datatype TrailerProvider = TrailerProvider(
    searchMultiReturnFirst: string -> Result<YoutubeTrailer, Error>
  )
}
