/** The exceptions that can end an operation of the trailer backend.
    The first three are the domain exceptions of app/trailer/exceptions.py;
    the rest are the Python and library exceptions that the code raises
    implicitly and never catches. */
module Errors {

  datatype Error =
    /** `OmdbApiError`: the movie-metadata API answered with a non-success status. */
    | OmdbApiError(text: string)
    /** `YoutubeApiError`: the video API answered with a non-success status. */
    | YoutubeApiError(text: string)
    /** `MovieNotFoundError`: a search answer without a `Search` array. */
    | MovieNotFoundError(message: string)
    /** Pydantic rejected a payload while building a model from it. */
    | ValidationError
    /** A dictionary subscript on a missing key. */
    | KeyError(key: string)
    /** A list or string subscript past its end. */
    | IndexError
    /** An operation applied to a value of the wrong JSON type. */
    | TypeError
    /** An HTTP answer whose body is not JSON. */
    | JsonDecodeError

  /** Message carried by the not-found exception of a movie search. */
  const MovieNotFoundMessage: string := "MOVIE_NOT_FOUND"
}
