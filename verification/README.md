# Trailer backend core, modelled in Dafny

This project models the core of a small web backend that finds movie
trailers. It combines a movie-metadata API (OMDB) with a video API
(YouTube) and caches results in a key-value store (Redis). The model covers:

- **The legacy aggregation loop** (`TrailerService._search_movies_with_trailers`).
  It makes one metadata search. Then, for each hit in order, it fetches the
  detail record by the hit's IMDb id, looks up the first trailer for the
  detail record's title, and stamps the trailer's video id on the record.
  The first failure aborts the whole call.
- **The upstream providers' response rules** (`OMDBMovieDataProvider`,
  `YoutubeTrailerProvider`): which statuses count as success, the
  missing-`Search` rule, whitespace stripping, the ` trailer` suffix,
  and taking the first video hit.
- **The cache provider** (`CacheProvider`) over a key-value map.
  JSON encoding and decoding are supplied functions. The round-trip
  results assume only that decoding an encoding gives the value back and
  that no encoding is the empty text.
- **The route operation-id rule** (`custom_generate_unique_id`).
- **The ETag / 304 decision** of `CacheHeaderMiddleware.dispatch`.
  The MD5 hex digest is a supplied function.

Everything is pure. Providers, the HTTP GET, pydantic model construction,
MD5 and the JSON codec are function-valued parameters. An exception is a
`Failure` value of `Errors.Error`. This covers the domain exceptions and
the Python exceptions the code raises without catching them (`KeyError`,
`IndexError`, `TypeError`, validation and JSON-decoding errors).

Modules, one file each: `Wrappers` (Option/Result, and `MapAll`, which
stops at the first failure), `Errors`, `Json` (JSON values with Python's
`d[k]`, `x[0]` and `**d`), `Text` (Python `strip`, `split`, `join`),
`Models`, `Interfaces`, `Cache`, `Providers`, `Service`, `Middleware`,
`Routes`.

The code leaves several things unimplemented, and the model does not add
them. `TrailerService.search` is an empty stub, so nothing reads from or
writes to the cache on the search path. Cached payloads are never checked
for shape. No watch or embed URL is built from a video id. `InvalidIMDBId`
is declared but never raised, and no "invalid trailer data" error exists.

## Model

| member | source | states |
|---|---|---|
| `Service.SearchMoviesWithTrailers` | app/trailer/service.py:24-34 | The search is made first. A failed search is the whole outcome, and no other call follows it. On success there is one movie per hit, in hit order. Movie i is hit i's detail record, stamped with the trailer found for that record's own title. `fromCache` is false. Exactly 1 + 2N calls are made, alternating detail and trailer lookups. On failure the error is the first failing hit's, and no partial list is returned. The calls are those of the earlier hits, then the failing hit's detail lookup and, only if that succeeded, its trailer lookup. No call follows the failing one. The outcome equals the all-or-nothing reference traversal `MapAll`. |
| `Service.Enrich` | app/trailer/service.py:28-32 | One hit's work. A failed detail lookup is the hit's error, and the trailer lookup is then not made. Otherwise the trailer is looked up by the detail record's own title, not the hit's. A failed trailer lookup is the hit's error, and a found one is stamped on the detail record. |
| `Service.Stamp` | app/trailer/service.py:32 | Sets `trailerId` to the trailer's `videoId`. Every other field of the detail record is unchanged. |
| `Wrappers.MapAll` | app/trailer/utils.py:71 | It succeeds exactly when every element succeeds. Then it holds one result per element, in order. Otherwise its error is the first failing element's error. |
| `Providers.OmdbAccepts` | app/trailer/utils.py:39 | The metadata calls accept exactly the statuses 200 to 204. |
| `Providers.YoutubeAccepts` | app/trailer/utils.py:114 | The video call accepts exactly the statuses 200 to 205. |
| `Providers.AcceptedStatusesDiffer` | app/trailer/utils.py:114 | The two accepted-status sets differ only at 205. |
| `Providers.SearchRequest` | app/trailer/utils.py:36-38 | The search goes to the metadata URL with the API key and `s` = the stripped query, with a 20-second timeout. No other parameter is sent. |
| `Providers.HandleSearchReply` | app/trailer/utils.py:39-46 | A rejected status gives `OmdbApiError` whatever the body, because the status check comes first. A body that is not JSON gives a decode error. An object without `Search` gives `MovieNotFoundError("MOVIE_NOT_FOUND")`. An accepted body that is not an object gives a `TypeError`. Otherwise the `Search` value is converted. Not-found and success both need an accepted status. |
| `Providers.ConvertMulti` | app/trailer/utils.py:67-71 | For a list, it succeeds exactly when every entry is an object the model accepts. Then it yields one record per entry, in input order. Otherwise its error is the first failing entry's error. An empty dictionary or an empty string yields no records. Any other non-list fails with a `TypeError`. |
| `Providers.ConvertOne` | app/trailer/utils.py:73-75 | `Model(**j)` succeeds exactly when `j` is an object the model accepts. A non-object is a `TypeError` and a rejected object is a validation error. |
| `Providers.SearchIgnoresSurroundingWhitespace` | app/trailer/utils.py:37 | Two queries that strip to the same text give the same search outcome. |
| `Providers.SearchMulti` | app/trailer/utils.py:36-46 | The answer to the request for the stripped query is judged by status first: a rejected status is `OmdbApiError` with the reply's text. Then a body that is not JSON is a decode error. An object without `Search` is `MovieNotFoundError("MOVIE_NOT_FOUND")`, and one with `Search` gives that entry's conversion. An accepted body that is not an object is a `TypeError`. Success and not-found are reached only past the status check. |
| `Providers.ByIdRequest` | app/trailer/utils.py:58-60 | The detail request sends the API key and `i` = the stripped id, with the client's default timeout. No other parameter is sent. |
| `Providers.HandleByIdReply` | app/trailer/utils.py:61-65 | A rejected status gives `OmdbApiError`. A body that is not JSON gives a decode error. Otherwise the whole body is converted to a detail record. |
| `Providers.GetById` | app/trailer/utils.py:58-65 | The answer to the request for the stripped id is judged by status first: a rejected status is `OmdbApiError`. Then a body that is not JSON is a decode error. It succeeds exactly when the status is accepted and the body is an object the detail model accepts, and the record is the model's. A body that is not an object is a `TypeError`, and an object the model rejects is a validation error. |
| `Providers.GetByIdIgnoresSurroundingWhitespace` | app/trailer/utils.py:59 | Two ids that strip to the same text fetch the same record. |
| `Providers.TrailerRequest` | app/trailer/utils.py:107-113 | The video request sends `part=snippet`, `q` = the stripped title + " trailer", and the key. No other parameter is sent. |
| `Providers.TrailerQueryShape` | app/trailer/utils.py:109 | The video query ends in " trailer". What precedes the suffix is already stripped. |
| `Providers.TrailerIgnoresSurroundingWhitespace` | app/trailer/utils.py:109 | Two titles that strip to the same text find the same trailer. |
| `Providers.HandleTrailerReply` | app/trailer/utils.py:113-118 | A rejected status gives `YoutubeApiError`. An object without `items` gives a `KeyError`, whatever other entries it has. A body that is not an object gives a `TypeError`. An empty `items` gives an `IndexError`, because it is not specially handled. Otherwise element 0 is converted. |
| `Providers.TrailerIgnoresLaterHits` | app/trailer/utils.py:117 | Any two object answers whose `items` lists share element 0 give the same trailer, whatever else they carry: there is no ranking. |
| `Providers.SearchMultiReturnFirst` | app/trailer/utils.py:107-118 | The answer to the request for the stripped title plus " trailer" is judged by status first: a rejected status is `YoutubeApiError` with the reply's text. Then a body that is not JSON is a decode error. An accepted body that is not an object is a `TypeError`. An object without `items` is a `KeyError`, and an empty `items` is an `IndexError`. A non-empty `items` list gives the conversion of its element 0. Conversely, a trailer is only ever the conversion of element 0 of `items` in an accepted answer. |
| `Json.Subscript` | app/trailer/utils.py:43 | `d[key]` succeeds exactly on an object holding the key. A missing key is a `KeyError` and a non-object is a `TypeError`. |
| `Json.First` | app/trailer/utils.py:117 | `x[0]` on a list is its first element, or an `IndexError` when the list is empty. |
| `Json.AsMapping` | app/trailer/utils.py:123 | `**j` accepts exactly JSON objects. |
| `Cache.NewCacheProvider` | app/utilities.py:24-26 | A provider built without an expiry uses 3600 seconds. |
| `Cache.GetStr` | app/utilities.py:28-38 | It yields a value exactly when the key is present and its text is non-empty, and that value is the stored text. Otherwise it yields `None` and does not fail. |
| `Cache.GetJson` | app/utilities.py:40-51 | A missing key or empty text gives `None`. Text that does not decode gives a decode error. Present, non-empty text that decodes gives the decoded value, except that a decoded JSON `null` gives `None`, the same as a miss. |
| `Cache.StoreStr` | app/utilities.py:53-64 | The key is overwritten with the value under the provider's expiry. Other keys are untouched, the provider's expiry is unchanged, and uniform expiry is preserved. |
| `Cache.StoreJson` | app/utilities.py:66-81 | The key is overwritten with the value's encoding under the provider's expiry. Other keys are untouched, the provider's expiry is unchanged, and uniform expiry is preserved. |
| `Cache.AbsentKeyReadsNone` | app/utilities.py:37-51 | Both readers return `None` for a missing key rather than failing. |
| `Cache.StoreStrThenGetStr` | app/utilities.py:28-64 | A stored text reads back as itself. The empty text reads back as `None`. |
| `Cache.StoreStrKeepsOtherKeys` | app/utilities.py:64 | A write changes what no other key reads. |
| `Cache.StoreJsonThenGetJson` | app/utilities.py:40-81 | A stored JSON value reads back equal to itself. A stored `null` reads back as `None`, which cannot be told apart from a miss. |
| `Cache.StoreJsonThenGetStr` | app/utilities.py:79-81 | A stored JSON value reads back through `get_str` as its encoding. |
| `Cache.WritesUseDefaultExpiry` | app/utilities.py:24-81 | Start from an empty store with the default provider. After any sequence of `store_str` and `store_json` writes, every entry carries expiry 3600, and the keys held are exactly the keys written. |
| `Middleware.Dispatch` | app/middlewares.py:26-51 | The first chunk is always read, and there is no first chunk to read when the body has none. The body is never altered. If `If-None-Match` equals the digest of the first chunk, the status becomes 304 and no header is added. Otherwise the status is unchanged, `Cache-Control: public, max-age=300` and `ETag` = that digest are set, and every other header is kept. |
| `Middleware.ETagRevalidates` | app/middlewares.py:37-49 | A response that a request did not already match is given an `ETag`. Echo that `ETag` back as `If-None-Match` on the same response, and the answer is 304. |
| `Middleware.OnlyFirstChunkMatters` | app/middlewares.py:33-35 | Responses that agree on their first chunk get the same status and headers. Later chunks make no difference. |
| `Routes.CustomGenerateUniqueId` | app/utilities.py:10-18 | With a tag, the id is the first tag, "-", and the name. Without one, it is the path with every "/" replaced by "-", then "-" and the name, minus the first character. |
| `Routes.TaggedIdIgnoresPath` | app/utilities.py:12-13 | A tagged route's id does not depend on its path. |
| `Routes.UntaggedRootedId` | app/utilities.py:14-17 | For an untagged path starting with "/", the id is the rest of the path, dashed, then "-" and the name. |
| `Routes.TaggedRouteExample` | tests/unit_tests/test_utilities.py:10-19 | `/test`, tag `test`, name `cool route` gives `test-cool route`. |
| `Routes.UntaggedRouteExample` | tests/unit_tests/test_utilities.py:22-27 | `/api/test`, no tags, name `cool route` gives `api-test-cool route`. |
| `Text.JoinSplitReplaces` | app/utilities.py:15-16 | Splitting on "/" and joining with "-" replaces every "/" with "-". |
| `Text.Split` | app/utilities.py:15 | `str.split(sep)` for a one-character separator: there is at least one part, and no part contains the separator. |
| `Text.Join` | app/utilities.py:16 | `sep.join(parts)`: no parts give the empty text. The result starts with the first part, followed by the separator when there is a second part. |
| `Text.SplitJoin` | app/utilities.py:15-16 | Joining separator-free parts and splitting the result gives the parts back. With `JoinSplit`, `Split` is the only cut of a string into separator-free parts that join back to it. |
| `Text.JoinSplit` | app/utilities.py:15-16 | Joining a split with its own separator gives the original string back. |
| `Text.Strip` | app/trailer/utils.py:37 | `str.strip()`: the result has no whitespace at either end. It is the slice of the input between a whitespace prefix and a whitespace suffix. |
| `Text.StripUnique` | app/trailer/utils.py:37 | Split a string into a whitespace prefix, a trimmed middle and a whitespace suffix. That middle is its strip. |
| `Text.StripIdempotent` | app/trailer/utils.py:59 | Stripping twice is stripping once. |
| `Text.StripIgnoresPadding` | app/trailer/utils.py:109 | Whitespace added around a string does not change its strip. |

## Left out

- `TrailerService.search` (the public cache-aside entry point) is an empty stub in the code, so there is nothing to model.
- `MockTrailerService` is a fixture whose methods all return `None`.
- Routers, application wiring, dependency injection, configuration loading, the Redis connection and both frontends are HTTP and UI plumbing.
- Redis TTL expiry is not modelled. Each entry records the `ex` it was written with, but entries never expire.
- Redis rejects a non-positive expiry. That check is not modelled.
- Async execution is modelled as sequential calls.
- The httpx transport is not modelled. Timeouts appear only as the value each request sets.
- Pydantic validation and camelCase aliasing are library behaviour. They are supplied parse functions.
- MD5 and the JSON codec are supplied functions. The JSON round trip assumes `loads(dumps(v)) == v` and that `dumps` never gives empty text (the `Inverse` predicate).
- JSON numbers are integers. Floating point is not modelled.
- Stored values are modelled as decoded text. A value that is not UTF-8, written by another client, is not modelled.
- `InvalidIMDBId` is declared but never raised, so no path of the model produces it.
- `MovieDataWithTrailer` and `TrailerResult` are imported (app/trailer/utils.py:8, app/trailer/service.py:5, app/models.py:25-35) but not defined in app/trailer/models.py. Their shapes are inferred from how app/trailer/service.py:32-34 uses them: the `MovieData` fields plus an optional `trailerId`, and `movies` plus `fromCache`.
- Some tests expect the conversion functions to raise domain errors, but the code does not raise them. The model follows the code.
- Route tags are modelled as strings. Enum-valued tags and their string conversion are not modelled.
- Repeated request headers are not modelled, and header names are kept lower-case.
- The middleware's diagnostic `print` calls have no effect on the result and are not modelled.
