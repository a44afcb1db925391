/**
 * The session hook of `src/hooks/use-user.tsx`: it derives the decoded token,
 * `isAuthenticated`, `isLoading` and `isRole` from the store's access token,
 * and runs a refresh when a token is present but not accepted.
 *
 * React state becomes the fields `isHydrated` and `isRefreshing`; the mount
 * effect and the refresh effect become step methods run one after another.
 * The profile query the hook also issues is outside the model.
 */
module UseUser {
  import opened Wrappers
  import Auth
  import AuthStore

  /** `state.token?.access_token`. */
  function AccessToken(token: Option<AuthStore.Token>): (r: Option<string>)
    ensures r.Some? <==> token.Some?
    ensures r.Some? ==> r.value == token.value.accessToken
  {
    match token
    case Some(t) => Some(t.accessToken)
    case None => None
  }

  /** `!!token`: an access token that is present and non-empty. */
  predicate HasToken(accessToken: Option<string>) {
    accessToken.Some? && accessToken.value != ""
  }

  /** The hook's expiry test: only a truthy (present, non-zero) `exp` before `now` is expired. */
  predicate ExpiredForHook(exp: Option<int>, now: int)
    ensures ExpiredForHook(exp, now) ==> exp.Some? && exp.value < now
    ensures exp.None? || exp == Some(0) ==> !ExpiredForHook(exp, now)
  {
    exp.Some? && exp.value != 0 && exp.value < now
  }

  /** `decodedUserToken`. */
  function DecodedUserToken(isHydrated: bool, accessToken: Option<string>, jwtDecode: Auth.JwtDecoder, now: int)
    : (r: Option<Auth.TokenPayload>)
    // null before hydration or without a token
    ensures !isHydrated || !HasToken(accessToken) ==> r == None
    // null when decoding fails
    ensures HasToken(accessToken) && jwtDecode(accessToken.value).Threw? ==> r == None
    // a decoded token is rejected exactly when its exp is truthy and before now
    ensures isHydrated && HasToken(accessToken) && jwtDecode(accessToken.value).Decoded? ==>
              var p := jwtDecode(accessToken.value).payload;
              (r == Some(p) <==> !ExpiredForHook(p.exp, now)) && (r == None <==> ExpiredForHook(p.exp, now))
  {
    if !isHydrated || !HasToken(accessToken) then None
    else
      var decoded := Auth.DecodeToken(jwtDecode, accessToken.value);
      if decoded.None? then None
      else if decoded.value.exp.Some? && decoded.value.exp.value != 0 && decoded.value.exp.value < now then None
      else decoded
  }

  /** `isAuthenticated`: the decoded token is non-null. */
  predicate IsAuthenticated(isHydrated: bool, accessToken: Option<string>, jwtDecode: Auth.JwtDecoder, now: int)
    ensures IsAuthenticated(isHydrated, accessToken, jwtDecode, now) ==> isHydrated && HasToken(accessToken)
  {
    DecodedUserToken(isHydrated, accessToken, jwtDecode, now).Some?
  }

  /** `isLoading`: not hydrated, refreshing, or a token is present that is not accepted. */
  predicate IsLoading(isHydrated: bool, isRefreshing: bool, accessToken: Option<string>, jwtDecode: Auth.JwtDecoder, now: int)
    ensures !isHydrated || isRefreshing ==> IsLoading(isHydrated, isRefreshing, accessToken, jwtDecode, now)
    // a settled session without a token is not loading: the logged-out state is final
    ensures isHydrated && !isRefreshing && !HasToken(accessToken) ==>
              !IsLoading(isHydrated, isRefreshing, accessToken, jwtDecode, now)
  {
    !isHydrated || isRefreshing || (HasToken(accessToken) && !IsAuthenticated(isHydrated, accessToken, jwtDecode, now))
  }

  /** `isRole(role)`: the decoded token's role is `role`; false when there is no decoded token. */
  predicate IsRole(decoded: Option<Auth.TokenPayload>, role: string)
    ensures decoded.None? ==> !IsRole(decoded, role)
    ensures IsRole(decoded, role) ==> decoded.value.role == role
  {
    decoded.Some? && decoded.value.role == role
  }

  /** The refresh effect's guard. */
  predicate ShouldRefresh(isHydrated: bool, accessToken: Option<string>, jwtDecode: Auth.JwtDecoder, now: int)
    // a refresh starts only for a session that is loading although no refresh is running
    ensures ShouldRefresh(isHydrated, accessToken, jwtDecode, now) ==>
              !IsAuthenticated(isHydrated, accessToken, jwtDecode, now) && IsLoading(isHydrated, false, accessToken, jwtDecode, now)
    ensures !isHydrated ==> !ShouldRefresh(isHydrated, accessToken, jwtDecode, now)
  {
    isHydrated && HasToken(accessToken) && !IsAuthenticated(isHydrated, accessToken, jwtDecode, now)
  }

  /** The refresh failure policy: 401 and 403 end the session, any other failure keeps it. */
  predicate FailureClearsSession(status: Option<int>)
    // a failure without a response, or a server error, keeps the session
    ensures status.None? ==> !FailureClearsSession(status)
    ensures status.Some? && status.value >= 500 ==> !FailureClearsSession(status)
  {
    status == Some(401) || status == Some(403)
  }

  /** `exp == now`, `exp == 0` and an absent `exp` are all accepted; `exp == now - 1` is not unless it is 0. */
  lemma ExpiryAcceptance(now: int)
    ensures !ExpiredForHook(Some(now), now)
    ensures !ExpiredForHook(Some(0), now)
    ensures !ExpiredForHook(None, now)
    ensures now - 1 != 0 ==> ExpiredForHook(Some(now - 1), now)
  {
  }

  /**
   * The hook and `withAuth` disagree on a token without `exp`: the hook
   * accepts it, `withAuth` refreshes before running the operation.
   */
  lemma MissingExpDisagreement(token: string, jwtDecode: Auth.JwtDecoder, now: int, response: Auth.RefreshResponse)
    requires token != "" && jwtDecode(token).Decoded? && jwtDecode(token).payload.exp.None?
    ensures IsAuthenticated(true, Some(token), jwtDecode, now)
    ensures Auth.WithAuthRun(true, map[Auth.AccessTokenKey := token], jwtDecode, now, response).effects[..1]
              == [Auth.RefreshRequest]
  {
  }

  /** When nothing is loading, the hook is hydrated, not refreshing, and any token present is accepted. */
  lemma NotLoadingMeansSettled(isHydrated: bool, isRefreshing: bool, accessToken: Option<string>,
                               jwtDecode: Auth.JwtDecoder, now: int)
    requires !IsLoading(isHydrated, isRefreshing, accessToken, jwtDecode, now)
    ensures isHydrated && !isRefreshing
    ensures HasToken(accessToken) <==> IsAuthenticated(isHydrated, accessToken, jwtDecode, now)
  {
  }

  /** `isRole` holds only for an authenticated session, and then exactly when the token's role is the one asked for. */
  lemma RoleNeedsAuthentication(isHydrated: bool, accessToken: Option<string>, jwtDecode: Auth.JwtDecoder, now: int,
                                role: string)
    ensures IsRole(DecodedUserToken(isHydrated, accessToken, jwtDecode, now), role) <==>
              IsAuthenticated(isHydrated, accessToken, jwtDecode, now)
              && DecodedUserToken(isHydrated, accessToken, jwtDecode, now).value.role == role
    ensures !isHydrated ==> !IsRole(DecodedUserToken(isHydrated, accessToken, jwtDecode, now), role)
  {
  }

  /**
   * The hook's state for one mounted component. `decodedUserToken` is a
   * `useMemo` on `[token, isHydrated]`, where `token` is the selected access
   * token string, not the stored record; the clock is read inside it: the
   * memo keeps the `now` of its last recompute (`memoNow`) together with the
   * dependency values it was computed for, and a render recomputes it only
   * when one of them changed. Expiry is therefore not judged again while the
   * token and the hydration flag stay the same.
   */
  class UserHook {
    const store: AuthStore.Store
    const client: Auth.AuthClient
    var isHydrated: bool
    var isRefreshing: bool
    var memoHydrated: bool
    var memoToken: Option<string>
    var memoNow: int

    /** The first render, at time `now`: the memo is computed for the store's access token, not yet hydrated. */
    constructor (store: AuthStore.Store, client: Auth.AuthClient, now: int)
      ensures this.store == store && this.client == client
      ensures !isHydrated && !isRefreshing
      ensures !memoHydrated && memoToken == AccessToken(store.token) && memoNow == now
    {
      this.store := store;
      this.client := client;
      isHydrated := false;
      isRefreshing := false;
      memoHydrated := false;
      memoToken := AccessToken(store.token);
      memoNow := now;
    }

    /** The memo was computed for the current access token and hydration flag. */
    predicate MemoCurrent()
      reads this, store
    {
      memoHydrated == isHydrated && memoToken == AccessToken(store.token)
    }

    /** The decoded token, judged at the time of the memo's last recompute. */
    function Decoded(jwtDecode: Auth.JwtDecoder): Option<Auth.TokenPayload>
      reads this, store
    {
      DecodedUserToken(isHydrated, AccessToken(store.token), jwtDecode, memoNow)
    }

    /** `isLoading`, judged at the time of the memo's last recompute. */
    predicate Loading(jwtDecode: Auth.JwtDecoder)
      reads this, store
    {
      IsLoading(isHydrated, isRefreshing, AccessToken(store.token), jwtDecode, memoNow)
    }

    /**
     * A render at time `now`: the memo reads the clock again exactly when the
     * access token or the hydration flag differs from the values it was
     * computed for; a new token record with the same access token keeps it.
     */
    method Render(now: int)
      modifies this
      ensures MemoCurrent()
      ensures memoNow == if old(MemoCurrent()) then old(memoNow) else now
      ensures isHydrated == old(isHydrated) && isRefreshing == old(isRefreshing)
    {
      if memoHydrated != isHydrated || memoToken != AccessToken(store.token) {
        memoHydrated := isHydrated;
        memoToken := AccessToken(store.token);
        memoNow := now;
      }
    }

    /** The mount effect: `setIsHydrated(true)`. The memo follows at the next render. */
    method Hydrate()
      modifies this
      ensures isHydrated && isRefreshing == old(isRefreshing)
      ensures memoHydrated == old(memoHydrated) && memoToken == old(memoToken) && memoNow == old(memoNow)
    {
      isHydrated := true;
    }

    /**
     * The refresh effect's start, after a render: when its guard holds on
     * that render's values, `isRefreshing` becomes true.
     */
    method StartRefresh(jwtDecode: Auth.JwtDecoder) returns (started: bool)
      requires MemoCurrent()
      modifies this
      ensures started == ShouldRefresh(isHydrated, AccessToken(store.token), jwtDecode, memoNow)
      ensures isHydrated == old(isHydrated)
      ensures isRefreshing == (old(isRefreshing) || started)
      ensures memoHydrated == old(memoHydrated) && memoToken == old(memoToken) && memoNow == old(memoNow)
    {
      started := ShouldRefresh(isHydrated, AccessToken(store.token), jwtDecode, memoNow);
      if started {
        isRefreshing := true;
      }
    }

    /**
     * The refresh settling: `refreshAccessToken` writes localStorage on
     * success; a 401 or 403 failure clears the store, any other failure keeps
     * it; either way `isRefreshing` returns to false. A success does not touch
     * the store, whose token is what the hook reads.
     */
    method FinishRefresh(response: Auth.RefreshResponse)
      modifies this, store, client
      ensures !isRefreshing && isHydrated == old(isHydrated)
      ensures memoHydrated == old(memoHydrated) && memoToken == old(memoToken) && memoNow == old(memoNow)
      ensures client.effects == old(client.effects) + [Auth.RefreshRequest]
      ensures response.RefreshOk? ==>
                client.localStorage == old(client.localStorage)[Auth.AccessTokenKey := response.accessToken]
      ensures response.RefreshFailed? ==> client.localStorage == old(client.localStorage)
      ensures response.RefreshFailed? && FailureClearsSession(response.status) ==> store.token == None
      ensures !(response.RefreshFailed? && FailureClearsSession(response.status)) ==> store.token == old(store.token)
    {
      var refreshed := client.RefreshAccessToken(response);
      if refreshed.None? && FailureClearsSession(response.status) {
        store.ClearToken();
      }
      isRefreshing := false;
    }

    /** `logout`: the store's `clearToken`. */
    method Logout()
      modifies store
      ensures store.token == None
    {
      store.ClearToken();
    }
  }

  /**
   * A refresh that succeeds leaves the hook loading: the new token goes to
   * localStorage under "accessToken", while the hook keeps reading the store's
   * unchanged, still unaccepted token.
   */
  method RefreshSuccessStaysLoading(hook: UserHook, jwtDecode: Auth.JwtDecoder, newToken: string)
    requires hook.MemoCurrent()
    modifies hook, hook.store, hook.client
    ensures var started := ShouldRefresh(old(hook.isHydrated), AccessToken(old(hook.store.token)), jwtDecode, old(hook.memoNow));
            started ==> hook.Loading(jwtDecode) && !hook.isRefreshing
  {
    var started := hook.StartRefresh(jwtDecode);
    hook.FinishRefresh(Auth.RefreshOk(newToken));
  }

  /**
   * A token accepted at one render stays accepted at every later render while
   * the token and the hydration flag are unchanged, whatever the clock says:
   * the memo keeps its `now`, so no refresh starts even after `exp` has passed.
   */
  method ExpiryFrozenWhileUnchanged(hook: UserHook, jwtDecode: Auth.JwtDecoder, later: int)
    returns (started: bool)
    requires hook.MemoCurrent() && !hook.isRefreshing
    requires IsAuthenticated(hook.isHydrated, AccessToken(hook.store.token), jwtDecode, hook.memoNow)
    modifies hook
    ensures !started && !hook.isRefreshing
    ensures hook.Decoded(jwtDecode) == old(hook.Decoded(jwtDecode)) && hook.Decoded(jwtDecode).Some?
    ensures !hook.Loading(jwtDecode)
  {
    hook.Render(later);
    started := hook.StartRefresh(jwtDecode);
  }

  /**
   * Storing a new token record that carries the same access token (a new
   * refresh token, say) does not recompute the memo: the next render keeps
   * the memo's time and the decoded token.
   */
  method SameAccessTokenKeepsMemo(hook: UserHook, jwtDecode: Auth.JwtDecoder, t: AuthStore.Token, now: int)
    requires hook.MemoCurrent()
    requires AccessToken(Some(t)) == AccessToken(hook.store.token)
    modifies hook, hook.store
    ensures hook.memoNow == old(hook.memoNow)
    ensures hook.Decoded(jwtDecode) == old(hook.Decoded(jwtDecode))
    ensures hook.Loading(jwtDecode) == old(hook.Loading(jwtDecode))
  {
    hook.store.SetToken(t);
    hook.Render(now);
  }
}
