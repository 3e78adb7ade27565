/** The render decision of the `ProtectedRoute` component
    (src/components/layout/ProtectedRoute.tsx), and how it relates to the
    redirect decision of `useRequireAuth`. */
module ProtectedRoute {
  import opened Types
  import opened Text
  import opened RequireAuth
  import opened AuthUtils

  /** The four things the component can render. */
  datatype RouteView = Spinner | Redirect(to: string) | Outlet

  /** `allowedRoles.includes(user.role)`: an exact comparison, so a missing
      role is never included. */
  predicate RoleIncluded(allowedRoles: seq<Role>, role: Option<string>) {
    role.Some? && exists i | 0 <= i < |allowedRoles| :: RoleValue(allowedRoles[i]) == role.value
  }

  function ProtectedRouteView(isLoading: bool, isAuthenticated: bool, user: Option<AuthUser>,
                              allowedRoles: Option<seq<Role>>): (v: RouteView)
    // the spinner exactly while loading
    ensures v == Spinner <==> isLoading
    // past loading, an unauthenticated visitor always goes to "/login"
    ensures !isLoading && !isAuthenticated ==> v == Redirect("/login")
    // without a role requirement every authenticated user gets the outlet
    ensures !isLoading && isAuthenticated && (allowedRoles.None? || allowedRoles.value == []) ==> v == Outlet
    // with one, a known user gets the outlet iff their role is exactly one of the allowed
    ensures (!isLoading && isAuthenticated && allowedRoles.Some? && allowedRoles.value != [] && user.Some?) ==>
            v == (if RoleIncluded(allowedRoles.value, user.value.role) then Outlet else Redirect("/unauthorized"))
    // an authenticated session whose user object is not there yet gets the outlet
    ensures !isLoading && isAuthenticated && user.None? ==> v == Outlet
    // the only redirect targets are these two
    ensures v.Redirect? ==> v.to in {"/login", "/unauthorized"}
  {
    if isLoading then Spinner
    else if !isAuthenticated then Redirect("/login")
    else if allowedRoles.Some? && |allowedRoles.value| > 0 && user.Some? then
      var hasAccess := RoleIncluded(allowedRoles.value, user.value.role);
      if !hasAccess then Redirect("/unauthorized") else Outlet
    else Outlet
  }

  /** With `isAuthenticated` meaning "there is a user", the outlet is shown
      only to an authenticated user who holds one of the required roles. */
  lemma OutletMeansAccess(isLoading: bool, user: Option<AuthUser>, allowedRoles: Option<seq<Role>>)
    requires ProtectedRouteView(isLoading, user.Some?, user, allowedRoles) == Outlet
    ensures !isLoading && user.Some?
    ensures allowedRoles.Some? && allowedRoles.value != [] ==> RoleIncluded(allowedRoles.value, user.value.role)
  {
  }

  /** The navigation a rendered view amounts to. */
  function AsNavigation(v: RouteView): Navigation {
    match v
    case Spinner => Stay
    case Redirect(to) => NavigateTo(to)
    case Outlet => Stay
  }

  /** For a role that `normalizeUserRole` produced, the exact check agrees
      with the hook's case-insensitive one, so both guards decide alike. */
  lemma {:induction false} GuardsAgreeOnNormalizedRoles(isLoading: bool, id: string, raw: Option<string>,
                                                        allowedRoles: Option<seq<Role>>)
    ensures var user := Some(AuthUser(id, Some(RoleValue(NormalizeUserRole(raw)))));
      AsNavigation(ProtectedRouteView(isLoading, true, user, allowedRoles))
      == RequireAuthNavigation(isLoading, true, user, allowedRoles, None)
  {
    if allowedRoles.Some? {
      var rs := allowedRoles.value;
      var r := NormalizeUserRole(raw);
      RoleValueIsLower(r);
      forall i | 0 <= i < |rs|
        ensures ToLowerAscii(RoleValue(rs[i])) == ToLowerAscii(RoleValue(r)) <==> RoleValue(rs[i]) == RoleValue(r)
      {
        RoleValueIsLower(rs[i]);
      }
    }
  }

  /** Unauthenticated visitors go to the same place under both guards when
      the hook keeps its default target. */
  lemma GuardsAgreeWhenSignedOut(isLoading: bool, user: Option<AuthUser>, allowedRoles: Option<seq<Role>>)
    ensures AsNavigation(ProtectedRouteView(isLoading, false, user, allowedRoles))
         == RequireAuthNavigation(isLoading, false, user, allowedRoles, None)
  {
  }

  /** The guards disagree on a user object whose role is the string
      "Administrator": the hook lets it through to an administrators-only
      page, the component does not. `fetchUserProfile` never produces such a
      user, since it normalises the role to lower case. */
  lemma CapitalisedRoleDisagrees()
    ensures var user := Some(AuthUser("u1", Some("Administrator")));
      && RequireAuthNavigation(false, true, user, Some([Administrator]), None) == Stay
      && ProtectedRouteView(false, true, user, Some([Administrator])) == Redirect("/unauthorized")
  {
    var user := Some(AuthUser("u1", Some("Administrator")));
    assert ToLowerAscii("Administrator") == "administrator";
    assert ToLowerAscii(RoleValue(Some([Administrator]).value[0])) == ToLowerAscii("Administrator");
    assert RoleValue(Administrator) != "Administrator";
  }

  /** They also disagree on a user without a role: the hook sends them to
      "/login", the component to "/unauthorized". */
  lemma MissingRoleDisagrees(rs: seq<Role>)
    requires rs != []
    ensures var user := Some(AuthUser("u1", None));
      && RequireAuthNavigation(false, true, user, Some(rs), None) == NavigateTo("/login")
      && ProtectedRouteView(false, true, user, Some(rs)) == Redirect("/unauthorized")
  {
  }
}
