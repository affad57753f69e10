/** `TrailerService._search_movies_with_trailers` (app/trailer/service.py):
    the legacy aggregation path. One metadata search, then for each hit in
    order a detail lookup by its id and a trailer lookup by the detail's
    title; the first failure ends the whole call. */
module Service {
  import opened Wrappers
  import opened Errors
  import opened Models
  import opened Interfaces

  /** One upstream call, recorded in the order it is made. */
  datatype Call =
    | SearchMultiCall(query: string)
    | GetByIdCall(id: string)
    | TrailerCall(title: string)

  /** A detail record with the trailer's video id attached. */
  function Stamp(movie: MovieDetail, trailer: YoutubeTrailer): (r: MovieDetail)
    ensures r.trailerId == Some(trailer.id.videoId)
    ensures r.(trailerId := movie.trailerId) == movie
  {
    movie.(trailerId := Some(trailer.id.videoId))
  }

  /** The work done for one search hit: fetch its detail record by id, then
      the first trailer for that record's own title. */
  function Enrich(movies: MovieDataProvider, trailers: TrailerProvider, hit: CompactMovie): (r: Result<MovieDetail, Error>)
    ensures movies.getById(hit.imdbId).Failure? ==> r == Failure(movies.getById(hit.imdbId).error)
    ensures movies.getById(hit.imdbId).Success? ==>
              var detail := movies.getById(hit.imdbId).value;
              var trailer := trailers.searchMultiReturnFirst(detail.title);
              && (trailer.Failure? ==> r == Failure(trailer.error))
              && (trailer.Success? ==> r == Success(Stamp(detail, trailer.value)))
  {
    var detail :- movies.getById(hit.imdbId);
    var trailer :- trailers.searchMultiReturnFirst(detail.title);
    Success(Stamp(detail, trailer))
  }

  function Enricher(movies: MovieDataProvider, trailers: TrailerProvider): CompactMovie -> Result<MovieDetail, Error> {
    (hit: CompactMovie) => Enrich(movies, trailers, hit)
  }

  /** The reference outcome: all hits enriched, all or nothing, marked as
      computed live. */
  function Live(enriched: Result<seq<MovieDetail>, Error>): Result<TrailerResult, Error> {
    match enriched
    case Success(ms) => Success(TrailerResult(ms, false))
    case Failure(e) => Failure(e)
  }

  /** Number of calls made for a hit whose enrichment fails: the trailer
      lookup is skipped when the detail lookup already failed. */
  function CallsForFailedHit(movies: MovieDataProvider, hit: CompactMovie): nat {
    if movies.getById(hit.imdbId).Failure? then 1 else 2
  }

  /** `calls` holds, after the search, a detail lookup by id and then a
      trailer lookup by the detail's title for each of the first `n` hits. */
  predicate EnrichedCalls(movies: MovieDataProvider, hits: seq<CompactMovie>, calls: seq<Call>, n: nat)
    requires n <= |hits| && 1 + 2 * n <= |calls|
  {
    forall j :: 0 <= j < n ==>
      && calls[1 + 2 * j] == GetByIdCall(hits[j].imdbId)
      && movies.getById(hits[j].imdbId).Success?
      && calls[2 + 2 * j] == TrailerCall(movies.getById(hits[j].imdbId).value.title)
  }

  /** `_search_movies_with_trailers`, with the upstream calls it makes. */
  method SearchMoviesWithTrailers(movies: MovieDataProvider, trailers: TrailerProvider, query: string)
    returns (r: Result<TrailerResult, Error>, calls: seq<Call>)
    // The search is always made, and made first.
    ensures |calls| >= 1 && calls[0] == SearchMultiCall(query)
    // A failed search is the whole outcome; no per-hit call follows.
    ensures movies.searchMulti(query).Failure? ==>
              r == Failure(movies.searchMulti(query).error) && calls == [SearchMultiCall(query)]
    // Otherwise the outcome is the all-or-nothing enrichment of every hit.
    ensures movies.searchMulti(query).Success? ==>
              r == Live(MapAll(Enricher(movies, trailers), movies.searchMulti(query).value))
    // On success: one movie per hit, in the hits' order, each the detail
    // record of that hit's id with its title's trailer, never from cache,
    // after exactly 1 + 2N calls alternating detail and trailer lookups.
    ensures r.Success? ==>
              && movies.searchMulti(query).Success?
              && var hits := movies.searchMulti(query).value;
              && !r.value.fromCache
              && |r.value.movies| == |hits|
              && (forall i :: 0 <= i < |hits| ==>
                    && movies.getById(hits[i].imdbId).Success?
                    && var detail := movies.getById(hits[i].imdbId).value;
                    && trailers.searchMultiReturnFirst(detail.title).Success?
                    && r.value.movies[i] == Stamp(detail, trailers.searchMultiReturnFirst(detail.title).value))
              && |calls| == 1 + 2 * |hits|
              && EnrichedCalls(movies, hits, calls, |hits|)
    // On an item failure: the error is the first failing hit's, the calls
    // are those of the hits before it and then its own, and no call is
    // made after the one that failed.
    ensures r.Failure? && movies.searchMulti(query).Success? ==>
              var hits := movies.searchMulti(query).value;
              exists k :: && FirstFailure(Enricher(movies, trailers), hits, k)
                          && r.error == Enrich(movies, trailers, hits[k]).error
                          && |calls| == 1 + 2 * k + CallsForFailedHit(movies, hits[k])
                          && EnrichedCalls(movies, hits, calls, k)
                          && calls[1 + 2 * k] == GetByIdCall(hits[k].imdbId)
                          && (movies.getById(hits[k].imdbId).Success? ==>
                                calls[2 + 2 * k] == TrailerCall(movies.getById(hits[k].imdbId).value.title))
  {
    calls := [SearchMultiCall(query)];
    var found := movies.searchMulti(query);
    if found.Failure? {
      return Failure(found.error), calls;
    }
    var hits := found.value;
    ghost var f := Enricher(movies, trailers);
    var withTrailer: seq<MovieDetail> := [];
    var i := 0;
    while i < |hits|
      invariant 0 <= i <= |hits|
      invariant |withTrailer| == i
      invariant forall j :: 0 <= j < i ==> f(hits[j]) == Success(withTrailer[j])
      invariant |calls| == 1 + 2 * i && calls[0] == SearchMultiCall(query)
      invariant EnrichedCalls(movies, hits, calls, i)
    {
      ghost var before := calls;
      calls := calls + [GetByIdCall(hits[i].imdbId)];
      assert EnrichedCalls(movies, hits, calls, i) by {
        assert forall j :: 0 <= j < |before| ==> calls[j] == before[j];
      }
      var detail := movies.getById(hits[i].imdbId);
      if detail.Failure? {
        FailsAt(f, hits, i);
        return Failure(detail.error), calls;
      }
      var movie := detail.value;
      calls := calls + [TrailerCall(movie.title)];
      assert EnrichedCalls(movies, hits, calls, i + 1) by {
        assert forall j :: 0 <= j < |before| ==> calls[j] == before[j];
      }
      var trailer := trailers.searchMultiReturnFirst(movie.title);
      if trailer.Failure? {
        FailsAt(f, hits, i);
        assert EnrichedCalls(movies, hits, calls, i);
        return Failure(trailer.error), calls;
      }
      withTrailer := withTrailer + [Stamp(movie, trailer.value)];
      i := i + 1;
    }
    assert MapAll(f, hits).value == withTrailer;
    r := Success(TrailerResult(movies := withTrailer, fromCache := false));
  }

  /** When every element before `k` succeeds and `k` fails, the traversal
      fails with `k`'s error. */
  lemma FailsAt<A, B, E>(f: A -> Result<B, E>, xs: seq<A>, k: int)
    requires 0 <= k < |xs|
    requires forall j :: 0 <= j < k ==> f(xs[j]).Success?
    requires f(xs[k]).Failure?
    ensures FirstFailure(f, xs, k)
    ensures MapAll(f, xs) == Failure(f(xs[k]).error)
  {
    var r := MapAll(f, xs);
    var k' :| FirstFailure(f, xs, k') && r.error == f(xs[k']).error;
    FirstFailureUnique(f, xs, k, k');
  }
}
