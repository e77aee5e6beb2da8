/** The page wrapper of components/layout/protected-route.tsx: a loading
    screen while the session loads, a redirect to `/login` once it is known
    that nobody is signed in, the fallback or an access-denied page when the
    store's role test fails, and the page otherwise. */
module ProtectedRoute {
  import opened Wrappers
  import opened Types
  import AuthStore
  import AuthGates
  import Permissions

  datatype Screen<N> =
    | LoadingScreen
      /** `null` while the redirect to `/login` is under way. */
    | Blank
    | Denied(fallback: Option<N>)
    | Page(children: N)

  /** The render, and whether the effect pushes `/login`. */
  datatype Outcome<N> = Outcome(screen: Screen<N>, redirectToLogin: bool)

  /** `<ProtectedRoute requiredRole>`; the component's default role is
      `Viewer`. */
  function Render<N>(st: AuthStore.AuthState, requiredRole: Role, children: N, fallback: Option<N>): (r: Outcome<N>)
    ensures r.redirectToLogin <==> !st.isLoading && !st.isAuthenticated
    ensures st.isLoading ==> r.screen == LoadingScreen
    ensures r.screen.Page? <==>
      !st.isLoading && st.isAuthenticated && AuthStore.HasPermission(st, requiredRole)
    ensures r.screen.Page? ==> r.screen.children == children
    ensures r.screen.Denied? ==> r.screen.fallback == fallback
  {
    var redirect := !st.isLoading && !st.isAuthenticated;
    if st.isLoading then Outcome(LoadingScreen, redirect)
    else if !st.isAuthenticated then Outcome(Blank, redirect)
    else if !AuthStore.HasPermission(st, requiredRole) then Outcome(Denied(fallback), redirect)
    else Outcome(Page(children), redirect)
  }

  /** On a settled store the page renders exactly when `<RequireRole>`
      would render its children: both come down to the user's rank. */
  lemma PageIffRequireRole<N>(st: AuthStore.AuthState, requiredRole: Role, children: N, fallback: Option<N>)
    requires AuthStore.Settled(st)
    ensures Render(st, requiredRole, children, fallback).screen.Page?
        <==> AuthGates.RequireRole(st.user, requiredRole, children, fallback, true).Children?
  {
    AuthGates.RequireRoleAgreesWithStore(st, requiredRole, children, fallback, true);
  }

  /** A page shown for a senior requirement is shown for a junior one. */
  lemma JuniorRequirementIsWeaker<N>(st: AuthStore.AuthState, junior: Role, senior: Role, children: N, fallback: Option<N>)
    requires Permissions.Rank(junior) <= Permissions.Rank(senior)
    requires Render(st, senior, children, fallback).screen.Page?
    ensures Render(st, junior, children, fallback).screen.Page?
  {
  }

  /** After sign-out nothing is shown and the user is sent to `/login`. */
  lemma SignedOutIsRedirected<N>(s: AuthStore.Session, requiredRole: Role, children: N, fallback: Option<N>)
    ensures Render(AuthStore.Logout(s).state, requiredRole, children, fallback) == Outcome(Blank, true)
  {
  }
}
