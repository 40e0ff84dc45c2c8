/**
 The two pages of the single-page app and their paths (src/utils/router.ts):
 `/plans/<id>` shows a stored plan, every other path the home page. The
 browser's `window.location` and `history.pushState` are left to the caller:
 parsing takes the path as a parameter and navigation returns the path it
 would push.
 */
module Router {
  datatype Route = Home | Plan(id: string)

  const PlansPrefix: string := "/plans/"

  /** An id the pattern `[^/]+` accepts. */
  predicate PathSegment(id: string) {
    id != [] && '/' !in id
  }

  /** `parsePath`: the whole path must be `/plans/` followed by one non-empty segment. */
  function ParsePath(path: string): (r: Route)
    ensures r.Plan? ==> path == PlansPrefix + r.id && PathSegment(r.id)
  {
    if PlansPrefix <= path && PathSegment(path[|PlansPrefix|..]) then
      assert path == PlansPrefix + path[|PlansPrefix|..];
      Plan(path[|PlansPrefix|..])
    else Home
  }

  /** The path `navigate` pushes for a route; parsing it gives the route back whenever the id is one segment. */
  function PathFor(route: Route): (path: string)
    ensures route.Home? || PathSegment(route.id) ==> ParsePath(path) == route
    ensures route.Plan? && !PathSegment(route.id) ==> ParsePath(path) == Home
  {
    match route
    case Home => "/"
    case Plan(id) =>
      assert (PlansPrefix + id)[|PlansPrefix|..] == id;
      PlansPrefix + id
  }

  /** A path parses to a plan exactly when it is `/plans/` followed by one non-empty segment. */
  lemma ParsePlanIff(path: string, id: string)
    ensures ParsePath(path) == Plan(id) <==> path == PlansPrefix + id && PathSegment(id)
  {
    if path == PlansPrefix + id && PathSegment(id) {
      assert path[|PlansPrefix|..] == id;
    }
  }

  /** Different routes are written as different paths. */
  lemma PathForInjective(a: Route, b: Route)
    requires PathFor(a) == PathFor(b)
    ensures a == b
  {
    if a.Plan? && b.Plan? {
      assert a.id == PathFor(a)[|PlansPrefix|..];
      assert b.id == PathFor(b)[|PlansPrefix|..];
    }
  }

  /** The root, the bare prefix, a trailing slash and a nested path all show the home page. */
  lemma HomePaths()
    ensures ParsePath("/") == Home
    ensures ParsePath("/plans") == Home
    ensures ParsePath("/plans/") == Home
    ensures ParsePath("/plans/a/") == Home
    ensures ParsePath("/plans/a/b") == Home
    ensures ParsePath("/plans/a") == Plan("a")
  {
    assert !(PlansPrefix <= "/");
    assert !(PlansPrefix <= "/plans");
    assert "/plans/"[|PlansPrefix|..] == [];
    assert "/plans/a/"[|PlansPrefix|..] == "a/" && "a/"[1] == '/';
    assert "/plans/a/b"[|PlansPrefix|..] == "a/b" && "a/b"[1] == '/';
    assert "/plans/a"[|PlansPrefix|..] == "a";
  }
}
