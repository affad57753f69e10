/** The live upstream providers (app/trailer/utils.py): how each one builds
    its request and what it makes of the answer.

    The HTTP GET is a function from request to reply supplied by the
    caller; the reply carries the status code, the raw text, and the body
    parsed as JSON (`None` when the text is not JSON). Building a model from
    a dictionary (pydantic) is likewise a supplied partial function. */
module Providers {
  import opened Wrappers
  import opened Errors
  import opened Json
  import opened Text
  import opened Models
  import opened Interfaces

  /** The settings the providers read from the configuration object. */
  datatype Config = Config(
    omdbApiUrl: string,
    omdbApiKey: string,
    youtubeApiUrl: string,
    youtubeApiKey: string
  )

  /** A GET request: URL, query parameters in order, and the client timeout
      in seconds when one is set explicitly. */
  datatype Request = Request(url: string, params: seq<(string, string)>, timeout: Option<int>)

  /** An HTTP answer. */
  datatype Reply = Reply(status: int, text: string, body: Option<Json>)

  /** Pydantic model construction from a dictionary; `None` is a
      validation failure. */
  datatype Parsers = Parsers(
    compact: map<string, Json> -> Option<CompactMovie>,
    detail: map<string, Json> -> Option<MovieDetail>,
    trailer: map<string, Json> -> Option<YoutubeTrailer>
  )

  /** Statuses the metadata API calls accept. */
  const OmdbSuccessCodes: seq<int> := [200, 201, 202, 203, 204]

  /** Statuses the video API call accepts. */
  const YoutubeSuccessCodes: seq<int> := [200, 201, 202, 203, 204, 205]

  /** Timeout of the metadata search client, in seconds. */
  const SearchTimeout: int := 20

  /** Appended to a title to form the video query. */
  const TrailerSuffix: string := " trailer"

  predicate OmdbAccepts(status: int)
    ensures OmdbAccepts(status) <==> 200 <= status <= 204
  {
    status in OmdbSuccessCodes
  }

  predicate YoutubeAccepts(status: int)
    ensures YoutubeAccepts(status) <==> 200 <= status <= 205
  {
    status in YoutubeSuccessCodes
  }

  /** The two APIs disagree on exactly one status: 205 Reset Content. */
  lemma AcceptedStatusesDiffer(status: int)
    ensures OmdbAccepts(status) ==> YoutubeAccepts(status)
    ensures YoutubeAccepts(status) && !OmdbAccepts(status) <==> status == 205
  {
  }

  /** The value of the first query parameter called `name`. */
  function Param(params: seq<(string, string)>, name: string): (r: Option<string>)
    ensures r.Some? <==> exists i :: 0 <= i < |params| && params[i].0 == name
    ensures r.Some? ==> exists i :: 0 <= i < |params| && params[i] == (name, r.value)
    decreases |params|
  {
    if |params| == 0 then None
    else if params[0].0 == name then Some(params[0].1)
    else
      var r := Param(params[1..], name);
      assert forall i :: 1 <= i < |params| ==> params[i] == params[1..][i - 1];
      r
  }

  /** `Model(**j)`: `j` must be a mapping, and the model must accept it. */
  function ConvertOne<T>(parse: map<string, Json> -> Option<T>, j: Json): (r: Result<T, Error>)
    ensures r.Success? <==> j.JObj? && parse(j.fields).Some?
    ensures r.Success? ==> parse(j.fields) == Some(r.value)
    ensures r.Failure? && j.JObj? ==> r.error == ValidationError
    ensures !j.JObj? ==> r == Failure(TypeError)
  {
    match AsMapping(j)
    case Failure(e) => Failure(e)
    case Success(m) =>
      match parse(m)
      case Some(v) => Success(v)
      case None => Failure(ValidationError)
  }

  /** `_convert_multi_to_object`: one compact record per entry of the list,
      in the list's order; the first entry that does not convert aborts.
      Iterating an empty dictionary or an empty string yields no entries;
      any other non-list value fails on its first entry or is not
      iterable. */
  function ConvertMulti(parsers: Parsers, data: Json): (r: Result<seq<CompactMovie>, Error>)
    ensures data.JArr? ==>
              (r.Success? <==> forall i :: 0 <= i < |data.items| ==>
                                 data.items[i].JObj? && parsers.compact(data.items[i].fields).Some?)
    ensures data.JArr? && r.Success? ==>
              && |r.value| == |data.items|
              && forall i :: 0 <= i < |data.items| ==>
                   data.items[i].JObj? && parsers.compact(data.items[i].fields) == Some(r.value[i])
    ensures data.JArr? && r.Failure? ==>
              exists k :: && 0 <= k < |data.items|
                          && (forall j :: 0 <= j < k ==> ConvertOne(parsers.compact, data.items[j]).Success?)
                          && ConvertOne(parsers.compact, data.items[k]) == Failure(r.error)
    ensures data == JObj(map[]) || data == JStr("") ==> r == Success([])
    ensures !data.JArr? && data != JObj(map[]) && data != JStr("") ==> r == Failure(TypeError)
  {
    match data
    case JArr(items) => MapAll((j: Json) => ConvertOne(parsers.compact, j), items)
    case JObj(m) => if |m| == 0 then Success([]) else Failure(TypeError)
    case JStr(s) => if |s| == 0 then Success([]) else Failure(TypeError)
    case _ => Failure(TypeError)
  }

  /** The request `search_multi` sends. */
  function SearchRequest(cfg: Config, query: string): (r: Request)
    ensures r.url == cfg.omdbApiUrl
    ensures Param(r.params, "apikey") == Some(cfg.omdbApiKey)
    ensures Param(r.params, "s") == Some(Strip(query))
    ensures r.timeout == Some(SearchTimeout)
    ensures |r.params| == 2
  {
    Request(cfg.omdbApiUrl, [("apikey", cfg.omdbApiKey), ("s", Strip(query))], Some(SearchTimeout))
  }

  /** What `search_multi` makes of the answer: a status check first, then
      the `Search` entry of the body, then conversion. */
  function HandleSearchReply(reply: Reply, parsers: Parsers): (r: Result<seq<CompactMovie>, Error>)
    ensures !OmdbAccepts(reply.status) ==> r == Failure(OmdbApiError(reply.text))
    ensures OmdbAccepts(reply.status) && reply.body.None? ==> r == Failure(JsonDecodeError)
    ensures OmdbAccepts(reply.status) && reply.body.Some? && reply.body.value.JObj?
            && "Search" !in reply.body.value.fields ==>
              r == Failure(MovieNotFoundError(MovieNotFoundMessage))
    ensures OmdbAccepts(reply.status) && reply.body.Some? && reply.body.value.JObj?
            && "Search" in reply.body.value.fields ==>
              r == ConvertMulti(parsers, reply.body.value.fields["Search"])
    ensures OmdbAccepts(reply.status) && reply.body.Some? && !reply.body.value.JObj? ==> r == Failure(TypeError)
    ensures r.Failure? && r.error.MovieNotFoundError? ==> OmdbAccepts(reply.status)
    ensures r.Success? ==> OmdbAccepts(reply.status) && reply.body.Some? && reply.body.value.JObj?
  {
    if !OmdbAccepts(reply.status) then
      Failure(OmdbApiError(reply.text))
    else if reply.body.None? then
      Failure(JsonDecodeError)
    else
      match Subscript(reply.body.value, "Search")
      case Failure(KeyError(_)) => Failure(MovieNotFoundError(MovieNotFoundMessage))
      case Failure(e) => Failure(e)
      case Success(search) => ConvertMulti(parsers, search)
  }

  /** `OMDBMovieDataProvider.search_multi`: the answer to the request for
      the stripped query, status first, then the `Search` entry. */
  function SearchMulti(cfg: Config, get: Request -> Reply, parsers: Parsers, query: string): (r: Result<seq<CompactMovie>, Error>)
    ensures var reply := get(SearchRequest(cfg, query));
            !OmdbAccepts(reply.status) ==> r == Failure(OmdbApiError(reply.text))
    ensures var reply := get(SearchRequest(cfg, query));
            OmdbAccepts(reply.status) && reply.body.None? ==> r == Failure(JsonDecodeError)
    ensures var reply := get(SearchRequest(cfg, query));
            OmdbAccepts(reply.status) && reply.body.Some? && reply.body.value.JObj? ==>
              r == if "Search" in reply.body.value.fields
                   then ConvertMulti(parsers, reply.body.value.fields["Search"])
                   else Failure(MovieNotFoundError(MovieNotFoundMessage))
    ensures var reply := get(SearchRequest(cfg, query));
            OmdbAccepts(reply.status) && reply.body.Some? && !reply.body.value.JObj? ==> r == Failure(TypeError)
    // Not-found and success are only ever reached past the status check.
    ensures r.Success? || (r.Failure? && r.error.MovieNotFoundError?) ==>
              var reply := get(SearchRequest(cfg, query));
              OmdbAccepts(reply.status) && reply.body.Some? && reply.body.value.JObj?
  {
    HandleSearchReply(get(SearchRequest(cfg, query)), parsers)
  }

  /** Two queries that strip to the same text are the same search. */
  lemma SearchIgnoresSurroundingWhitespace(cfg: Config, get: Request -> Reply, parsers: Parsers, q1: string, q2: string)
    requires Strip(q1) == Strip(q2)
    ensures SearchMulti(cfg, get, parsers, q1) == SearchMulti(cfg, get, parsers, q2)
  {
  }

  /** The request `get_by_id` sends. */
  function ByIdRequest(cfg: Config, id: string): (r: Request)
    ensures r.url == cfg.omdbApiUrl
    ensures Param(r.params, "apikey") == Some(cfg.omdbApiKey)
    ensures Param(r.params, "i") == Some(Strip(id))
    ensures r.timeout == None
    ensures |r.params| == 2
  {
    Request(cfg.omdbApiUrl, [("apikey", cfg.omdbApiKey), ("i", Strip(id))], None)
  }

  /** What `get_by_id` makes of the answer: a status check, then conversion
      of the whole body. */
  function HandleByIdReply(reply: Reply, parsers: Parsers): (r: Result<MovieDetail, Error>)
    ensures !OmdbAccepts(reply.status) ==> r == Failure(OmdbApiError(reply.text))
    ensures OmdbAccepts(reply.status) && reply.body.None? ==> r == Failure(JsonDecodeError)
    ensures OmdbAccepts(reply.status) && reply.body.Some? ==> r == ConvertOne(parsers.detail, reply.body.value)
  {
    if !OmdbAccepts(reply.status) then
      Failure(OmdbApiError(reply.text))
    else if reply.body.None? then
      Failure(JsonDecodeError)
    else
      ConvertOne(parsers.detail, reply.body.value)
  }

  /** `OMDBMovieDataProvider.get_by_id`: the answer to the request for the
      stripped id, status first, then the whole body as a detail record. */
  function GetById(cfg: Config, get: Request -> Reply, parsers: Parsers, id: string): (r: Result<MovieDetail, Error>)
    ensures var reply := get(ByIdRequest(cfg, id));
            !OmdbAccepts(reply.status) ==> r == Failure(OmdbApiError(reply.text))
    ensures var reply := get(ByIdRequest(cfg, id));
            OmdbAccepts(reply.status) && reply.body.None? ==> r == Failure(JsonDecodeError)
    ensures var reply := get(ByIdRequest(cfg, id));
            r.Success? <==> OmdbAccepts(reply.status) && reply.body.Some? && reply.body.value.JObj?
                            && parsers.detail(reply.body.value.fields).Some?
    ensures r.Success? ==> parsers.detail(get(ByIdRequest(cfg, id)).body.value.fields) == Some(r.value)
    ensures var reply := get(ByIdRequest(cfg, id));
            OmdbAccepts(reply.status) && reply.body.Some? && !reply.body.value.JObj? ==> r == Failure(TypeError)
    ensures var reply := get(ByIdRequest(cfg, id));
            OmdbAccepts(reply.status) && reply.body.Some? && reply.body.value.JObj?
            && parsers.detail(reply.body.value.fields).None? ==>
              r == Failure(ValidationError)
  {
    HandleByIdReply(get(ByIdRequest(cfg, id)), parsers)
  }

  /** Two ids that strip to the same text fetch the same record. */
  lemma GetByIdIgnoresSurroundingWhitespace(cfg: Config, get: Request -> Reply, parsers: Parsers, id1: string, id2: string)
    requires Strip(id1) == Strip(id2)
    ensures GetById(cfg, get, parsers, id1) == GetById(cfg, get, parsers, id2)
  {
  }

  /** The request `search_multi_return_first` sends. */
  function TrailerRequest(cfg: Config, title: string): (r: Request)
    ensures r.url == cfg.youtubeApiUrl
    ensures Param(r.params, "part") == Some("snippet")
    ensures Param(r.params, "q") == Some(Strip(title) + TrailerSuffix)
    ensures Param(r.params, "key") == Some(cfg.youtubeApiKey)
    ensures r.timeout == None
    ensures |r.params| == 3
  {
    var params := [("part", "snippet"), ("q", Strip(title) + TrailerSuffix), ("key", cfg.youtubeApiKey)];
    assert Param(params[1..], "key") == Param(params[2..], "key");
    Request(cfg.youtubeApiUrl, params, None)
  }

  /** The video query is the stripped title followed by " trailer", and
      the title can be read back from it. */
  lemma TrailerQueryShape(cfg: Config, title: string)
    ensures var q := Param(TrailerRequest(cfg, title).params, "q").value;
            && |q| >= |TrailerSuffix|
            && q[|q| - |TrailerSuffix|..] == TrailerSuffix
            && Strip(q[..|q| - |TrailerSuffix|]) == q[..|q| - |TrailerSuffix|]
  {
    var q := Strip(title) + TrailerSuffix;
    assert q[..|q| - |TrailerSuffix|] == Strip(title);
    StripIdempotent(title);
  }

  /** What `search_multi_return_first` makes of the answer: a status check,
      then element 0 of the `items` entry, converted. */
  function HandleTrailerReply(reply: Reply, parsers: Parsers): (r: Result<YoutubeTrailer, Error>)
    ensures !YoutubeAccepts(reply.status) ==> r == Failure(YoutubeApiError(reply.text))
    ensures YoutubeAccepts(reply.status) && reply.body.None? ==> r == Failure(JsonDecodeError)
    ensures YoutubeAccepts(reply.status) && reply.body.Some? && reply.body.value.JObj?
            && "items" !in reply.body.value.fields ==>
              r == Failure(KeyError("items"))
    ensures YoutubeAccepts(reply.status) && reply.body.Some? && !reply.body.value.JObj? ==> r == Failure(TypeError)
    ensures YoutubeAccepts(reply.status) && reply.body.Some? && reply.body.value.JObj?
            && "items" in reply.body.value.fields && reply.body.value.fields["items"].JArr? ==>
              var items := reply.body.value.fields["items"].items;
              && (|items| == 0 ==> r == Failure(IndexError))
              && (|items| > 0 ==> r == ConvertOne(parsers.trailer, items[0]))
  {
    if !YoutubeAccepts(reply.status) then
      Failure(YoutubeApiError(reply.text))
    else if reply.body.None? then
      Failure(JsonDecodeError)
    else
      var items :- Subscript(reply.body.value, "items");
      var first :- First(items);
      ConvertOne(parsers.trailer, first)
  }

  /** Only the first hit matters: two answers whose `items` lists share
      their first element give the same trailer, whatever follows it and
      whatever other entries the answers carry. */
  lemma TrailerIgnoresLaterHits(status: int, text: string, parsers: Parsers, b1: Json, b2: Json)
    requires b1.JObj? && "items" in b1.fields && b1.fields["items"].JArr? && |b1.fields["items"].items| > 0
    requires b2.JObj? && "items" in b2.fields && b2.fields["items"].JArr? && |b2.fields["items"].items| > 0
    requires b1.fields["items"].items[0] == b2.fields["items"].items[0]
    ensures HandleTrailerReply(Reply(status, text, Some(b1)), parsers)
         == HandleTrailerReply(Reply(status, text, Some(b2)), parsers)
  {
  }

  /** `YoutubeTrailerProvider.search_multi_return_first`: the answer to the
      request for the stripped title plus " trailer", status first, then
      element 0 of `items`. */
  function SearchMultiReturnFirst(cfg: Config, get: Request -> Reply, parsers: Parsers, title: string): (r: Result<YoutubeTrailer, Error>)
    ensures var reply := get(TrailerRequest(cfg, title));
            !YoutubeAccepts(reply.status) ==> r == Failure(YoutubeApiError(reply.text))
    ensures var reply := get(TrailerRequest(cfg, title));
            YoutubeAccepts(reply.status) && reply.body.None? ==> r == Failure(JsonDecodeError)
    ensures var reply := get(TrailerRequest(cfg, title));
            YoutubeAccepts(reply.status) && reply.body.Some? && reply.body.value.JObj?
            && "items" !in reply.body.value.fields ==>
              r == Failure(KeyError("items"))
    ensures var reply := get(TrailerRequest(cfg, title));
            YoutubeAccepts(reply.status) && reply.body.Some? && reply.body.value.JObj?
            && "items" in reply.body.value.fields && reply.body.value.fields["items"] == JArr([]) ==>
              r == Failure(IndexError)
    ensures var reply := get(TrailerRequest(cfg, title));
            YoutubeAccepts(reply.status) && reply.body.Some? && reply.body.value.JObj?
            && "items" in reply.body.value.fields && reply.body.value.fields["items"].JArr?
            && |reply.body.value.fields["items"].items| > 0 ==>
              r == ConvertOne(parsers.trailer, reply.body.value.fields["items"].items[0])
    ensures var reply := get(TrailerRequest(cfg, title));
            YoutubeAccepts(reply.status) && reply.body.Some? && !reply.body.value.JObj? ==> r == Failure(TypeError)
    // A trailer is only ever the converted first hit of an accepted answer.
    ensures r.Success? ==>
              var reply := get(TrailerRequest(cfg, title));
              && YoutubeAccepts(reply.status) && reply.body.Some? && reply.body.value.JObj?
              && "items" in reply.body.value.fields
              && First(reply.body.value.fields["items"]).Success?
              && ConvertOne(parsers.trailer, First(reply.body.value.fields["items"]).value) == r
  {
    HandleTrailerReply(get(TrailerRequest(cfg, title)), parsers)
  }

  /** Two titles that strip to the same text find the same trailer. */
  lemma TrailerIgnoresSurroundingWhitespace(cfg: Config, get: Request -> Reply, parsers: Parsers, t1: string, t2: string)
    requires Strip(t1) == Strip(t2)
    ensures SearchMultiReturnFirst(cfg, get, parsers, t1) == SearchMultiReturnFirst(cfg, get, parsers, t2)
  {
  }

  /** `OMDBMovieDataProvider` as a movie-data provider. */
  function OmdbProvider(cfg: Config, get: Request -> Reply, parsers: Parsers): MovieDataProvider
  {
    MovieDataProvider(
      (q: string) => SearchMulti(cfg, get, parsers, q),
      (id: string) => GetById(cfg, get, parsers, id))
  }

  /** `YoutubeTrailerProvider` as a trailer provider. */
  function YoutubeProvider(cfg: Config, get: Request -> Reply, parsers: Parsers): TrailerProvider
  {
    TrailerProvider((t: string) => SearchMultiReturnFirst(cfg, get, parsers, t))
  }
}
