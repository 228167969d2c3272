/** The three route guards: each looks at the authentication state and
    either renders the nested routes (`<Outlet />`) or redirects with
    `replace`. */
module Routes {
  import opened JsCore

  datatype Role = User | Admin

  /** The part of the authentication state the guards read: the flag, and the
      signed-in user's role when there is a user. */
  datatype AuthState = AuthState(isAuthenticated: bool, role: Option<Role>)

  datatype Decision = Outlet | Redirect(to: string, replace: bool)

  /** `AdminRoute`: the sign-in check comes first, then the role check. */
  function AdminRoute(s: AuthState): (r: Decision)
    ensures !s.isAuthenticated ==> r == Redirect("/login", true)
    ensures s.isAuthenticated && s.role != Some(Admin) ==> r == Redirect("/", true)
    ensures r.Outlet? <==> s.isAuthenticated && s.role == Some(Admin)
  {
    if !s.isAuthenticated then Redirect("/login", true)
    else if s.role != Some(Admin) then Redirect("/", true)
    else Outlet
  }

  /** `ProtectedRoute`. */
  function ProtectedRoute(s: AuthState): (r: Decision)
    ensures r.Outlet? <==> s.isAuthenticated
    ensures !s.isAuthenticated ==> r == Redirect("/login", true)
  {
    if !s.isAuthenticated then Redirect("/login", true) else Outlet
  }

  /** `PublicRoute`. */
  function PublicRoute(s: AuthState): (r: Decision)
    ensures r.Outlet? <==> !s.isAuthenticated
    ensures s.isAuthenticated ==> r == Redirect("/", true)
  {
    if s.isAuthenticated then Redirect("/", true) else Outlet
  }

  /** Every redirect of the guards replaces the history entry. */
  lemma RedirectsReplace(s: AuthState)
    ensures AdminRoute(s).Redirect? ==> AdminRoute(s).replace
    ensures ProtectedRoute(s).Redirect? ==> ProtectedRoute(s).replace
    ensures PublicRoute(s).Redirect? ==> PublicRoute(s).replace
  {
  }

  /** A signed-out visitor goes to the login page even when a stale user
      record says admin: the sign-in check wins. */
  lemma SignInCheckFirst(role: Option<Role>)
    ensures AdminRoute(AuthState(false, role)) == Redirect("/login", true)
  {
  }

  /** The protected and public guards look only at the flag. */
  lemma OnlyTheFlagMatters(s: AuthState, t: AuthState)
    requires s.isAuthenticated == t.isAuthenticated
    ensures ProtectedRoute(s) == ProtectedRoute(t)
    ensures PublicRoute(s) == PublicRoute(t)
  {
  }

  /** Whatever the admin guard lets through, the protected guard does too. */
  lemma AdminImpliesProtected(s: AuthState)
    ensures AdminRoute(s).Outlet? ==> ProtectedRoute(s).Outlet?
  {
  }

  /** In every state exactly one of the public and protected guards renders
      its routes. */
  lemma PublicAndProtectedExclusive(s: AuthState)
    ensures PublicRoute(s).Outlet? != ProtectedRoute(s).Outlet?
  {
  }
}
