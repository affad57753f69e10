/** `custom_generate_unique_id` (app/utilities.py): the operation id the
    web framework gives each route in its generated API description. */
module Routes {
  import opened Text

  /** The parts of a route the id is built from. */
  datatype Route = Route(path: string, name: string, tags: seq<string>)

  /** The first tag and the name, joined by a dash; for an untagged route,
      the path split on `/` and joined with `-`, then the name, without the
      first character. */
  function CustomGenerateUniqueId(route: Route): (id: string)
    ensures |route.tags| > 0 ==> id == route.tags[0] + "-" + route.name
    ensures |route.tags| == 0 ==> id == (Replace(route.path, '/', '-') + "-" + route.name)[1..]
    ensures |route.tags| == 0 ==> |id| == |route.path| + |route.name|
  {
    if |route.tags| > 0 then
      route.tags[0] + "-" + route.name
    else
      var pathJoinedWithDash := Join("-", Split(route.path, '/'));
      JoinSplitReplaces(route.path, '/', '-');
      (pathJoinedWithDash + "-" + route.name)[1..]
  }

  /** A tagged route's id does not depend on its path. */
  lemma TaggedIdIgnoresPath(r1: Route, r2: Route)
    requires |r1.tags| > 0 && |r2.tags| > 0
    requires r1.tags[0] == r2.tags[0] && r1.name == r2.name
    ensures CustomGenerateUniqueId(r1) == CustomGenerateUniqueId(r2)
  {
  }

  /** For an untagged route whose path starts with `/`, the id is the rest
      of the path with every `/` turned into `-`, a dash, and the name. */
  lemma UntaggedRootedId(route: Route)
    requires |route.tags| == 0 && |route.path| > 0 && route.path[0] == '/'
    ensures CustomGenerateUniqueId(route) == Replace(route.path[1..], '/', '-') + "-" + route.name
  {
    var p := route.path;
    assert Replace(p, '/', '-') == ['-'] + Replace(p[1..], '/', '-');
  }

  /** A route tagged `test` named `cool route` gets `test-cool route`. */
  lemma TaggedRouteExample()
    ensures CustomGenerateUniqueId(Route("/test", "cool route", ["test"])) == "test-cool route"
  {
  }

  /** The untagged route `/api/test` named `cool route` gets
      `api-test-cool route`. */
  lemma UntaggedRouteExample()
    ensures CustomGenerateUniqueId(Route("/api/test", "cool route", [])) == "api-test-cool route"
  {
    var route := Route("/api/test", "cool route", []);
    UntaggedRootedId(route);
    assert route.path[1..] == "api/test";
    ReplaceExample();
    ConcatExample();
  }

  /** The dashed form of the test path. */
  lemma ReplaceExample()
    ensures Replace("api/test", '/', '-') == "api-test"
  {
    var replaced := Replace("api/test", '/', '-');
    forall i | 0 <= i < 8
      ensures replaced[i] == "api-test"[i]
    {
      assert "api/test"[i] == (if i == 3 then '/' else "api-test"[i]);
    }
  }

  /** The test's expected id, assembled from its parts. */
  lemma ConcatExample()
    ensures "api-test" + "-" + "cool route" == "api-test-cool route"
  {
  }
}
