/** The redirect decision of the `useRequireAuth` hook
    (src/hooks/useRequireAuth.ts): what its effect navigates to, given the
    auth state and the options. */
module RequireAuth {
  import opened Types
  import opened Text

  /** The signed-in user as the hook sees it; the role may be missing. */
  datatype AuthUser = AuthUser(id: string, role: Option<string>)

  datatype Navigation = Stay | NavigateTo(path: string)

  /** A role is falsy when it is missing or empty. */
  predicate HasRole(user: AuthUser) {
    user.role.Some? && user.role.value != ""
  }

  /** `allowedRoles.some(role => role.toLowerCase() === user.role.toLowerCase())`. */
  predicate RoleAllowedIgnoringCase(allowedRoles: seq<Role>, role: string) {
    exists i | 0 <= i < |allowedRoles| :: ToLowerAscii(RoleValue(allowedRoles[i])) == ToLowerAscii(role)
  }

  /** The effect of `useRequireAuth({redirectTo, allowedRoles})`. */
  function RequireAuthNavigation(isLoading: bool, isAuthenticated: bool, user: Option<AuthUser>,
                                 allowedRoles: Option<seq<Role>>, redirectTo: Option<string>): (n: Navigation)
    // nothing happens while loading
    ensures isLoading ==> n == Stay
    // an unauthenticated visitor goes to `redirectTo`, "/login" by default
    ensures !isLoading && !isAuthenticated ==> n == NavigateTo(redirectTo.GetOr("/login"))
    // without a role requirement every authenticated user stays
    ensures isAuthenticated && (allowedRoles.None? || allowedRoles.value == []) ==> n == Stay
    // with one, a user without a role goes to "/login" whatever `redirectTo` says
    ensures (!isLoading && isAuthenticated && allowedRoles.Some? && allowedRoles.value != [] && user.Some?
             && !HasRole(user.value)) ==> n == NavigateTo("/login")
    // and a user with a role stays iff some allowed role matches it ignoring case
    ensures (!isLoading && isAuthenticated && allowedRoles.Some? && allowedRoles.value != [] && user.Some?
             && HasRole(user.value)) ==>
            n == (if RoleAllowedIgnoringCase(allowedRoles.value, user.value.role.value) then Stay
                  else NavigateTo("/unauthorized"))
    // an authenticated session whose user object is not there yet stays
    ensures !isLoading && isAuthenticated && user.None? ==> n == Stay
    // the only targets are these three
    ensures n.NavigateTo? ==> n.path in {redirectTo.GetOr("/login"), "/login", "/unauthorized"}
  {
    if isLoading then Stay
    else if !isAuthenticated then NavigateTo(redirectTo.GetOr("/login"))
    else if allowedRoles.Some? && |allowedRoles.value| > 0 && user.Some? then
      if !HasRole(user.value) then NavigateTo("/login")
      else
        var hasAccess := RoleAllowedIgnoringCase(allowedRoles.value, user.value.role.value);
        if !hasAccess then NavigateTo("/unauthorized") else Stay
    else Stay
  }

  /** What the hook returns: the user and the loading flag, untouched. */
  datatype HookResult = HookResult(user: Option<AuthUser>, isLoading: bool)

  function UseRequireAuth(isLoading: bool, user: Option<AuthUser>): (r: HookResult)
    ensures r.user == user && r.isLoading == isLoading
  {
    HookResult(user, isLoading)
  }

  /** The decision depends on the user's role only up to ASCII case. */
  lemma DecisionIgnoresRoleCase(isLoading: bool, isAuthenticated: bool, id: string, s: string, t: string,
                                allowedRoles: Option<seq<Role>>, redirectTo: Option<string>)
    requires ToLowerAscii(s) == ToLowerAscii(t)
    ensures RequireAuthNavigation(isLoading, isAuthenticated, Some(AuthUser(id, Some(s))), allowedRoles, redirectTo)
         == RequireAuthNavigation(isLoading, isAuthenticated, Some(AuthUser(id, Some(t))), allowedRoles, redirectTo)
  {
  }
}
