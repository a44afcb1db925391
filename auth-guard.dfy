/**
 * The route guard of `src/components/auth/auth-guard.tsx`: while the session
 * is loading it renders nothing or a spinner, once loaded it redirects an
 * unauthenticated visitor to the login page, and it renders its children only
 * for an authenticated user whose role is allowed.
 */
module AuthGuard {
  import opened Wrappers
  import UriComponent

  /** What the guard renders. */
  datatype Render = Nothing | Spinner | Children

  /**
   * The role the guard checks, `user?.role || ""`, for a user whose role is
   * `role` (None when there is no user). The session hook returns no `user`
   * field, so the guard always evaluates this at None.
   */
  function EffectiveRole(role: Option<string>): (r: string)
    ensures role.None? ==> r == ""
    ensures role.Some? && role.value != "" ==> r == role.value
  {
    if role.Some? && role.value != "" then role.value else ""
  }

  const LoginRedirectPrefix: string := "/user/login?redirect="

  /** The effect: the route pushed, if any. */
  function Redirect(isLoading: bool, isAuthenticated: bool, pathname: string): (r: Option<string>)
    ensures isLoading ==> r == None
    ensures isAuthenticated ==> r == None
    ensures !isLoading && !isAuthenticated ==> r == Some(LoginRedirectPrefix + UriComponent.Encode(pathname))
  {
    if isLoading then None
    else if !isAuthenticated then Some(LoginRedirectPrefix + UriComponent.Encode(pathname))
    else None
  }

  /** The render decision. */
  function Rendered(isLoading: bool, isAuthenticated: bool, withLoadingSpinner: bool,
                    allowedRoles: Option<seq<string>>, role: string): (r: Render)
    // loading or unauthenticated: a spinner if asked for, otherwise nothing
    ensures isLoading || !isAuthenticated ==> r == (if withLoadingSpinner then Spinner else Nothing)
    // with allowed roles: the children exactly when the role is among them
    ensures !isLoading && isAuthenticated && allowedRoles.Some? ==>
              r != Spinner && (r == Children <==> role in allowedRoles.value)
    // without allowed roles: the children
    ensures !isLoading && isAuthenticated && allowedRoles.None? ==> r == Children
    // the children are never shown to an unauthenticated or loading session
    ensures r == Children ==> !isLoading && isAuthenticated
  {
    if isLoading || !isAuthenticated then
      if !withLoadingSpinner then Nothing else Spinner
    else if allowedRoles.Some? && role !in allowedRoles.value then Nothing
    else Children
  }

  /**
   * Since the role seen is always "", a guard with allowed roles renders its
   * children only when "" is itself listed: `["admin"]` shuts everyone out.
   */
  lemma AllowedRolesShutOut(isAuthenticated: bool, withLoadingSpinner: bool, roles: seq<string>)
    requires "" !in roles
    ensures Rendered(false, isAuthenticated, withLoadingSpinner, Some(roles), EffectiveRole(None)) != Children
  {
  }

  /**
   * The redirect names the page to come back to in one query value: the
   * encoded path holds no '&', '#', '=', '?' or '/'.
   */
  lemma RedirectKeepsOneParameter(pathname: string)
    ensures var target := Redirect(false, false, pathname).value;
            && target[..|LoginRedirectPrefix|] == LoginRedirectPrefix
            && forall i :: |LoginRedirectPrefix| <= i < |target| ==>
                 target[i] != '&' && target[i] != '#' && target[i] != '=' && target[i] != '?' && target[i] != '/'
  {
    var e := UriComponent.Encode(pathname);
    UriComponent.EncodeIsSafe(pathname);
    var target := LoginRedirectPrefix + e;
    forall i | |LoginRedirectPrefix| <= i < |target|
      ensures target[i] != '&' && target[i] != '#' && target[i] != '=' && target[i] != '?' && target[i] != '/'
    {
      assert target[i] == e[i - |LoginRedirectPrefix|];
    }
  }
}
