/** The route guard (src/components/ProtectedRoute.tsx): while the session is
    loading it shows a loading screen, then it lets through a signed-in user
    or a demo-mode visitor and sends everyone else to the landing page. */
module ProtectedRoute {
  /** What the guard renders. */
  datatype Screen =
    | LoadingScreen
    | RedirectTo(path: string, replace: bool)
    | Children

  /** The guard's decision; `hasUser` is whether the auth context holds a
      user. */
  function Gate(loading: bool, hasUser: bool, isDemoMode: bool): (r: Screen)
    ensures loading ==> r == LoadingScreen
    ensures !loading && !hasUser && !isDemoMode ==> r == RedirectTo("/", true)
    ensures !loading && (hasUser || isDemoMode) ==> r == Children
  {
    if loading then LoadingScreen
    else if !hasUser && !isDemoMode then RedirectTo("/", true)
    else Children
  }

  /** The protected page is rendered exactly when loading has finished and
      there is a user or demo mode is on; every other visitor who is not
      waiting is redirected to "/" with history replacement. */
  lemma GateAccess(loading: bool, hasUser: bool, isDemoMode: bool)
    ensures Gate(loading, hasUser, isDemoMode) == Children <==> !loading && (hasUser || isDemoMode)
    ensures Gate(loading, hasUser, isDemoMode).RedirectTo? <==> !loading && !hasUser && !isDemoMode
  {
  }
}
