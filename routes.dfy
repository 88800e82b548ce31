/** Client-side access control of frontend/src/App.jsx: the `ProtectedRoute` decision and the
    table of routes with the profiles each one requires. */
module Routes {
  import opened Wrappers

  /** What `ProtectedRoute` renders. */
  datatype Screen = Spinner | RedirectToLogin | AccessDenied | Children

  /** `ProtectedRoute`: loading first, then authentication, then the required profiles.
      `hasPermission` is asked only when profiles are required. */
  function ProtectedRoute(loading: bool, isAuthenticated: bool, required: Option<seq<string>>,
                          hasPermission: seq<string> -> bool): (r: Screen)
    ensures loading ==> r == Spinner
    ensures !loading && !isAuthenticated ==> r == RedirectToLogin
    ensures r == Children <==> !loading && isAuthenticated && (required.Some? ==> hasPermission(required.value))
    ensures r == AccessDenied <==> !loading && isAuthenticated && required.Some? && !hasPermission(required.value)
  {
    if loading then Spinner
    else if !isAuthenticated then RedirectToLogin
    else if required.Some? && !hasPermission(required.value) then AccessDenied
    else Children
  }

  const STAFF: seq<string> := ["Administrator", "Supervisor"]
  const VALIDATORS: seq<string> := ["Administrator", "Supervisor", "Coordinator"]
  const ADMINISTRATORS: seq<string> := ["Administrator"]

  /** The children of the catch-all route: their path segment and the profiles their inner
      `ProtectedRoute` requires (none for the dashboard and the requests page). */
  function RouteRequirement(segment: string): (r: Option<seq<string>>)
    ensures segment in {"", "requests"} ==> r == None
    ensures segment == "accounts" ==> r == Some(ADMINISTRATORS)
  {
    if segment == "employees" || segment == "services" || segment == "reports" then Some(STAFF)
    else if segment == "validation" then Some(VALIDATORS)
    else if segment == "accounts" then Some(ADMINISTRATORS)
    else None
  }

  /** The segments the route table names. */
  const ROUTE_SEGMENTS: seq<string> := ["", "requests", "employees", "services", "validation", "reports", "accounts"]

  /** What a page under the catch-all route shows: the outer `ProtectedRoute` around the
      layout, then the inner one around the page. */
  function PageScreen(segment: string, loading: bool, isAuthenticated: bool, hasPermission: seq<string> -> bool): (r: Screen)
    ensures r == Children <==>
              !loading && isAuthenticated && (RouteRequirement(segment).Some? ==> hasPermission(RouteRequirement(segment).value))
  {
    var outer := ProtectedRoute(loading, isAuthenticated, None, hasPermission);
    if outer != Children then outer
    else ProtectedRoute(loading, isAuthenticated, RouteRequirement(segment), hasPermission)
  }

  /** With a permission check by profile membership, the pages each profile reaches: every
      profile reaches the dashboard and the requests page; only administrators reach the
      accounts page; coordinators reach validation but not employees, services or reports. */
  lemma PagesByProfile(profile: string, segment: string)
    requires segment in ROUTE_SEGMENTS
    ensures var allowed := (ps: seq<string>) => profile in ps;
            var shown := PageScreen(segment, false, true, allowed) == Children;
            (segment == "" || segment == "requests" ==> shown)
            && (segment == "accounts" ==> (shown <==> profile == "Administrator"))
            && (segment == "validation" ==> (shown <==> profile in {"Administrator", "Supervisor", "Coordinator"}))
            && (segment in {"employees", "services", "reports"} ==> (shown <==> profile in {"Administrator", "Supervisor"}))
            && (profile == "Validator" ==> (shown <==> segment in {"", "requests"}))
  {
  }
}
