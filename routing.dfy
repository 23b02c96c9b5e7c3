/**
 * How Express hands a GET request to a handler: the routes are tried in the
 * order they were registered and the first whose pattern matches the path
 * handles it. The server leaves the router's options at their defaults, so
 * literal segments compare without regard to case and one trailing slash is
 * ignored; a `:name` parameter matches any one non-empty path segment.
 */
module Routing {
  import opened Wrappers
  import opened Text

  datatype Segment = Lit(text: string) | Param

  /** The GET handlers of the template API. */
  datatype Handler = ListTemplates | GetById | ListByCategory | SearchByTags | PickRandom | Health

  datatype Route = Route(pattern: seq<Segment>, handler: Handler)

  /**
   * The path's segments without the empty one a trailing slash leaves:
   * `/api/templates/random/` is read as `/api/templates/random`.
   */
  function Bare(path: seq<string>): (p: seq<string>)
    ensures |path| > 0 && path[|path| - 1] == "" ==> p == path[..|path| - 1]
    ensures !(|path| > 0 && path[|path| - 1] == "") ==> p == path
  {
    if |path| > 0 && path[|path| - 1] == "" then path[..|path| - 1] else path
  }

  /**
   * A case-insensitive pattern folds case as `toUpperCase` does, never
   * pairing a non-ASCII character with an ASCII one. The route literals are
   * lower-case ASCII, so a segment matches one exactly when lower-casing its
   * capitals A-Z gives the literal.
   */
  predicate SegmentMatches(p: Segment, s: string) {
    s != "" && (p.Lit? ==> LowerAll(s) == p.text)
  }

  /** A path, split at its slashes, matches a pattern segment for segment. */
  predicate PatternMatches(pattern: seq<Segment>, path: seq<string>) {
    var p := Bare(path);
    |pattern| == |p| && forall i :: 0 <= i < |p| ==> SegmentMatches(pattern[i], p[i])
  }

  /** The position of the first route that matches, or `|routes|` when none does. */
  function FirstMatch(routes: seq<Route>, path: seq<string>): (i: nat)
    ensures i <= |routes|
    ensures i < |routes| ==> PatternMatches(routes[i].pattern, path)
    ensures forall j :: 0 <= j < i ==> !PatternMatches(routes[j].pattern, path)
  {
    if routes == [] then 0
    else if PatternMatches(routes[0].pattern, path) then 0
    else
      var k := FirstMatch(routes[1..], path);
      assert forall j :: 1 <= j < k + 1 ==> routes[j] == routes[1..][j - 1];
      k + 1
  }

  /** The handler a GET of `path` reaches; `None` is Express's 404. */
  function Dispatch(routes: seq<Route>, path: seq<string>): Option<Handler> {
    var i := FirstMatch(routes, path);
    if i < |routes| then Some(routes[i].handler) else None
  }

  /** A path is a 404 exactly when no route matches it; otherwise a matching route handles it. */
  lemma DispatchMeaning(routes: seq<Route>, path: seq<string>)
    ensures Dispatch(routes, path).None? <==> forall j :: 0 <= j < |routes| ==> !PatternMatches(routes[j].pattern, path)
    ensures Dispatch(routes, path).Some? ==>
      exists j :: 0 <= j < |routes| && PatternMatches(routes[j].pattern, path) && Dispatch(routes, path).value == routes[j].handler
  {
    var i := FirstMatch(routes, path);
    if i < |routes| {
      assert PatternMatches(routes[i].pattern, path);
    }
  }

  const ListRoute := Route([Lit("api"), Lit("templates")], ListTemplates)
  const ByIdRoute := Route([Lit("api"), Lit("templates"), Param], GetById)
  const CategoryRoute := Route([Lit("api"), Lit("templates"), Lit("category"), Param], ListByCategory)
  const TagsRoute := Route([Lit("api"), Lit("templates"), Lit("search"), Lit("tags")], SearchByTags)
  const RandomRoute := Route([Lit("api"), Lit("templates"), Lit("random")], PickRandom)
  const HealthRoute := Route([Lit("health")], Health)

  /** The GET routes in the order the server registers them. */
  const RegisteredRoutes: seq<Route> :=
    [ListRoute, ByIdRoute, CategoryRoute, TagsRoute, RandomRoute, HealthRoute]

  /** The same routes with the random pick registered ahead of the id route. */
  const ReorderedRoutes: seq<Route> :=
    [ListRoute, RandomRoute, ByIdRoute, CategoryRoute, TagsRoute, HealthRoute]

  const RandomPath: seq<string> := ["api", "templates", "random"]

  /** The path as the router compares it with literals: no trailing slash, letters lower-cased. */
  function Folded(path: seq<string>): (f: seq<string>)
    ensures |f| == |Bare(path)|
    ensures forall i :: 0 <= i < |f| ==> f[i] == LowerAll(Bare(path)[i])
  {
    var p := Bare(path);
    seq(|p|, i requires 0 <= i < |p| => LowerAll(p[i]))
  }

  /** Every path the random route matches, the id route matches too. */
  lemma RandomMatchesById(path: seq<string>)
    ensures PatternMatches(RandomRoute.pattern, path) ==> PatternMatches(ByIdRoute.pattern, path)
  {
    var p := Bare(path);
    if PatternMatches(RandomRoute.pattern, path) {
      forall k | 0 <= k < |p| ensures SegmentMatches(ByIdRoute.pattern[k], p[k]) {
        assert SegmentMatches(RandomRoute.pattern[k], p[k]);
      }
    }
  }

  /**
   * The random route matches exactly the paths that read
   * `/api/templates/random` once a trailing slash is dropped and letters are
   * lower-cased, `/api/templates/Random` and `/api/templates/random/` among them.
   */
  lemma RandomMatchesOnlyItsPath(path: seq<string>)
    ensures PatternMatches(RandomRoute.pattern, path) <==> Folded(path) == RandomPath
  {
    var p := Bare(path);
    var f := Folded(path);
    assert RandomRoute.pattern == [Lit("api"), Lit("templates"), Lit("random")];
    if PatternMatches(RandomRoute.pattern, path) {
      forall k | 0 <= k < 3 ensures f[k] == RandomPath[k] {
        assert SegmentMatches(RandomRoute.pattern[k], p[k]);
      }
    }
    if f == RandomPath {
      forall k | 0 <= k < 3 ensures SegmentMatches(RandomRoute.pattern[k], p[k]) {
        assert f[k] == LowerAll(p[k]) == RandomPath[k];
        assert |p[k]| == |f[k]| > 0;
      }
    }
  }

  /**
   * As registered, no GET request reaches the random pick: every path it
   * matches is matched first by the id route, which then looks up the id
   * "random" (not an ObjectId, so the lookup fails with a 500).
   */
  lemma RandomUnreachable(path: seq<string>)
    ensures Dispatch(RegisteredRoutes, path) != Some(PickRandom)
    ensures Folded(path) == RandomPath ==> Dispatch(RegisteredRoutes, path) == Some(GetById)
  {
    assert RegisteredRoutes[0] == ListRoute && RegisteredRoutes[1] == ByIdRoute;
    assert RegisteredRoutes[4] == RandomRoute;
    RandomMatchesById(path);
    RandomMatchesOnlyItsPath(path);
    assert |Folded(path)| == |Bare(path)|;
  }

  /** The first route handles the path when it matches; otherwise the rest decide. */
  lemma DispatchCons(r: Route, rs: seq<Route>, path: seq<string>)
    ensures PatternMatches(r.pattern, path) ==> Dispatch([r] + rs, path) == Some(r.handler)
    ensures !PatternMatches(r.pattern, path) ==> Dispatch([r] + rs, path) == Dispatch(rs, path)
  {
    assert ([r] + rs)[0] == r && ([r] + rs)[1..] == rs;
  }

  /** Dropping a route that does not match a path does not change where the path goes. */
  lemma {:induction false} DispatchSkips(a: seq<Route>, r: Route, b: seq<Route>, path: seq<string>)
    requires !PatternMatches(r.pattern, path)
    ensures Dispatch(a + [r] + b, path) == Dispatch(a + b, path)
  {
    if a == [] {
      assert a + [r] + b == [r] + b && a + b == b;
      DispatchCons(r, b, path);
    } else {
      DispatchSkips(a[1..], r, b, path);
      assert a + [r] + b == [a[0]] + (a[1..] + [r] + b);
      assert a + b == [a[0]] + (a[1..] + b);
      DispatchCons(a[0], a[1..] + [r] + b, path);
      DispatchCons(a[0], a[1..] + b, path);
    }
  }

  /**
   * With the random route registered first, every path that reads
   * `/api/templates/random` reaches the random pick.
   */
  lemma ReorderedReachesRandom(path: seq<string>)
    ensures Folded(path) == RandomPath ==> Dispatch(ReorderedRoutes, path) == Some(PickRandom)
  {
    RandomMatchesOnlyItsPath(path);
    if Folded(path) == RandomPath {
      assert |Bare(path)| == 3;
      assert !PatternMatches(ReorderedRoutes[0].pattern, path);
      assert PatternMatches(ReorderedRoutes[1].pattern, path);
      assert FirstMatch(ReorderedRoutes, path) == 1;
    }
  }

  /** Registering the random route first changes where no other path goes. */
  lemma ReorderedKeepsOthers(path: seq<string>)
    ensures Folded(path) != RandomPath ==> Dispatch(ReorderedRoutes, path) == Dispatch(RegisteredRoutes, path)
  {
    RandomMatchesOnlyItsPath(path);
    if Folded(path) != RandomPath {
      var rest := [ByIdRoute, CategoryRoute, TagsRoute, HealthRoute];
      DispatchSkips([ListRoute], RandomRoute, rest, path);
      assert ReorderedRoutes == [ListRoute] + [RandomRoute] + rest;
      DispatchSkips([ListRoute, ByIdRoute, CategoryRoute, TagsRoute], RandomRoute, [HealthRoute], path);
      assert RegisteredRoutes == [ListRoute, ByIdRoute, CategoryRoute, TagsRoute] + [RandomRoute] + [HealthRoute];
      assert [ListRoute] + rest == [ListRoute, ByIdRoute, CategoryRoute, TagsRoute] + [HealthRoute];
    }
  }
}
