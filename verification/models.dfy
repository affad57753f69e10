/** The records the trailer backend passes around (app/trailer/models.py).
    Field names follow Dafny style; each comment gives the upstream
    field the record is built from. */
module Models {
  import opened Wrappers

  /** One hit of a metadata search (`CompactMovieData`). */
  datatype CompactMovie = CompactMovie(
    title: string,      // Title
    year: string,       // Year
    imdbId: string,     // imdbID
    mediaType: string,  // Type
    poster: string      // Poster
  )

  /** The full metadata of one movie with its trailer slot
      (`MovieDataWithTrailer`: the `MovieData` fields plus `trailer_id`,
      which stays empty until a trailer has been attached). */
  datatype MovieDetail = MovieDetail(
    title: string,      // Title
    year: string,       // Year
    rated: string,      // Rated
    released: string,   // Released
    runtime: string,    // Runtime
    genre: string,      // Genre
    director: string,   // Director
    plot: string,       // Plot
    poster: string,     // Poster
    imdbRating: string, // imdbRating
    imdbId: string,     // imdbID
    trailerId: Option<string>
  )

  /** `YoutubeID`: the only part of a video search hit used downstream. */
  datatype YoutubeId = YoutubeId(videoId: string)

  /** `YoutubeTrailerDataSnippet`. */
  datatype Snippet = Snippet(
    publishedAt: string,
    channelId: string,
    title: string,
    description: string,
    channelTitle: string
  )

  /** `YoutubeTrailerData`: one hit of a video search. */
  datatype YoutubeTrailer = YoutubeTrailer(id: YoutubeId, snippet: Snippet)

  /** `TrailerResult`: the movies of a search, each with its trailer, and
      whether the whole answer was read from the cache. */
  datatype TrailerResult = TrailerResult(movies: seq<MovieDetail>, fromCache: bool)
}
