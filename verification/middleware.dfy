/** `CacheHeaderMiddleware.dispatch` (app/middlewares.py): conditional-GET
    handling around every response.

    Header names are kept lower-case, as the web framework stores them, so
    the lookups are case-insensitive. The MD5 hex digest is a function
    supplied by the caller. */
module Middleware {
  import opened Wrappers
  import opened Errors

  type Byte = b: int | 0 <= b < 256

  /** A response: status, headers, and the body as the chunks the endpoint
      produced. */
  datatype Response = Response(status: int, headers: map<string, string>, chunks: seq<seq<Byte>>)

  const IfNoneMatch: string := "if-none-match"
  const CacheControl: string := "cache-control"
  const ETag: string := "etag"
  const CacheControlValue: string := "public, max-age=300"
  const NotModified: int := 304

  /** The client already holds the body: it sent `If-None-Match` equal to
      the digest of the first body chunk. */
  predicate ClientIsCurrent(requestHeaders: map<string, string>, body: seq<Byte>, md5Hex: seq<Byte> -> string) {
    IfNoneMatch in requestHeaders && requestHeaders[IfNoneMatch] == md5Hex(body)
  }

  /** `dispatch`, applied to the response `call_next` produced. */
  function Dispatch(requestHeaders: map<string, string>, response: Response, md5Hex: seq<Byte> -> string): (r: Result<Response, Error>)
    // The first chunk is read unconditionally.
    ensures r.Failure? <==> |response.chunks| == 0
    ensures r.Failure? ==> r.error == IndexError
    // The body is passed on untouched.
    ensures r.Success? ==> r.value.chunks == response.chunks
    // A current client gets 304 and no new headers.
    ensures r.Success? && ClientIsCurrent(requestHeaders, response.chunks[0], md5Hex) ==>
              r.value.status == NotModified && r.value.headers == response.headers
    // Anyone else gets the original status plus the two caching headers.
    ensures r.Success? && !ClientIsCurrent(requestHeaders, response.chunks[0], md5Hex) ==>
              && r.value.status == response.status
              && r.value.headers.Keys == response.headers.Keys + {CacheControl, ETag}
              && r.value.headers[CacheControl] == CacheControlValue
              && r.value.headers[ETag] == md5Hex(response.chunks[0])
              && forall h :: h in response.headers && h != CacheControl && h != ETag ==>
                   r.value.headers[h] == response.headers[h]
  {
    if |response.chunks| == 0 then
      Failure(IndexError)
    else
      var body := response.chunks[0];
      if IfNoneMatch in requestHeaders && md5Hex(body) == requestHeaders[IfNoneMatch] then
        Success(response.(status := NotModified))
      else
        var headers := response.headers[CacheControl := CacheControlValue];
        Success(response.(headers := headers[ETag := md5Hex(body)]))
  }

  /** Echoing back the ETag a response was given makes the same response
      a 304. */
  lemma ETagRevalidates(first: map<string, string>, response: Response, md5Hex: seq<Byte> -> string)
    requires |response.chunks| > 0
    requires !ClientIsCurrent(first, response.chunks[0], md5Hex)
    ensures Dispatch(first, response, md5Hex).Success?
    ensures var tag := Dispatch(first, response, md5Hex).value.headers[ETag];
            Dispatch(first[IfNoneMatch := tag], response, md5Hex).value.status == NotModified
  {
  }

  /** Only the first chunk is hashed: responses that agree on status,
      headers and first chunk get the same status and headers. */
  lemma OnlyFirstChunkMatters(requestHeaders: map<string, string>, r1: Response, r2: Response, md5Hex: seq<Byte> -> string)
    requires |r1.chunks| > 0 && |r2.chunks| > 0
    requires r1.chunks[0] == r2.chunks[0]
    requires r1.status == r2.status && r1.headers == r2.headers
    ensures Dispatch(requestHeaders, r1, md5Hex).value.status == Dispatch(requestHeaders, r2, md5Hex).value.status
    ensures Dispatch(requestHeaders, r1, md5Hex).value.headers == Dispatch(requestHeaders, r2, md5Hex).value.headers
  {
  }
}
