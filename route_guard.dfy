/**
 * The guard in front of protected pages (src/components/ProtectedRoute.tsx):
 * a spinner while the session is loading, the login page without a user, the
 * home page for a non-admin on an admin-only route, and the page otherwise.
 */
module RouteGuard {

  /** What the guard renders. */
  datatype Outcome = Spinner | Redirect(path: string) | Page

  /** The guard's decision; `requireAdmin` is false unless the route asks for it. */
  function Guard(loading: bool, signedIn: bool, isAdmin: bool, requireAdmin: bool := false): (r: Outcome)
    ensures r == Spinner <==> loading
    ensures r == Redirect("/login") <==> !loading && !signedIn
    ensures r == Redirect("/") <==> !loading && signedIn && requireAdmin && !isAdmin
    ensures r == Page <==> !loading && signedIn && (isAdmin || !requireAdmin)
  {
    if loading then Spinner
    else if !signedIn then Redirect("/login")
    else if requireAdmin && !isAdmin then Redirect("/")
    else Page
  }

  /** Any signed-in user passes a route that does not ask for an admin, whatever their role. */
  lemma SignedInPassesPlainRoute(isAdmin: bool)
    ensures Guard(false, true, isAdmin) == Page
  {
  }

  /** A route that asks for an admin lets through no one a plain route would stop. */
  lemma AdminRouteIsStricter(loading: bool, signedIn: bool, isAdmin: bool)
    ensures Guard(loading, signedIn, isAdmin, true) == Page ==> Guard(loading, signedIn, isAdmin, false) == Page
    ensures Guard(loading, signedIn, isAdmin, false) != Page ==> Guard(loading, signedIn, isAdmin, true) == Guard(loading, signedIn, isAdmin, false)
  {
  }

  /** The guard only ever leads to the login page or to the home page. */
  lemma RedirectTargets(loading: bool, signedIn: bool, isAdmin: bool, requireAdmin: bool)
    ensures Guard(loading, signedIn, isAdmin, requireAdmin).Redirect? ==>
      Guard(loading, signedIn, isAdmin, requireAdmin).path in {"/login", "/"}
  {
  }
}
