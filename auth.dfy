/**
 * The token helpers of `src/lib/auth.ts`: `decodeToken`, `refreshAccessToken`
 * and the `withAuth` wrapper that refreshes the access token kept in
 * localStorage under "accessToken" before running a wrapped operation.
 *
 * The JWT library, the clock, the refresh endpoint and the wrapped operation
 * are outside the model: the decoder is a function parameter, the time is an
 * `int` of seconds, the endpoint's answer is a `RefreshResponse` value, and
 * the calls made to the endpoint and to the operation are recorded as effects.
 */
module Auth {
  import opened Wrappers

  /** The localStorage key that `withAuth` and `refreshAccessToken` use. */
  const AccessTokenKey: string := "accessToken"

  /**
   * The claims `jwtDecode` returns. `exp` is `None` when the claim is absent;
   * `tokenType` is whatever the payload carries (nothing here checks it).
   */
  datatype TokenPayload = TokenPayload(id: string, sub: string, role: string, tokenType: string, exp: Option<int>)

  /** What the JWT library does with a string: it returns the payload or throws. */
  datatype JwtOutcome = Decoded(payload: TokenPayload) | Threw

  type JwtDecoder = string -> JwtOutcome

  /** `decodeToken`: the library's exception becomes `None`; it never fails itself. */
  function DecodeToken(jwtDecode: JwtDecoder, token: string): (r: Option<TokenPayload>)
    ensures r.None? <==> jwtDecode(token).Threw?
    ensures r.Some? ==> r.value == jwtDecode(token).payload
  {
    match jwtDecode(token)
    case Decoded(p) => Some(p)
    case Threw => None
  }

  /** The refresh endpoint's answer: a new access token, or an HTTP status (none for a network error). */
  datatype RefreshResponse = RefreshOk(accessToken: string) | RefreshFailed(status: Option<int>)

  /** The calls `withAuth` makes to the outside. */
  datatype Effect = RefreshRequest | OperationCall

  /** How a wrapped call ends. */
  datatype WithAuthResult =
    | Returned        // the wrapped operation ran and its result is passed on
    | NotInClient     // Error("'withAuth()' must be used within a client component.")
    | SessionExpired  // Error("Session expired. Please login again")

  /** One run of a wrapped call: its result, the effects in order, and localStorage afterwards. */
  datatype Run = Run(result: WithAuthResult, effects: seq<Effect>, storage: map<string, string>)

  /** A numeric `exp` at or after `now` is still valid; an absent one compares as NaN and is not. */
  predicate ExpiryValid(exp: Option<int>, now: int) {
    exp.Some? && exp.value >= now
  }

  /** The stored "accessToken" is a non-empty string that decodes to claims that have not expired. */
  predicate StoredTokenValid(storage: map<string, string>, jwtDecode: JwtDecoder, now: int) {
    && AccessTokenKey in storage
    && storage[AccessTokenKey] != ""
    && DecodeToken(jwtDecode, storage[AccessTokenKey]).Some?
    && ExpiryValid(DecodeToken(jwtDecode, storage[AccessTokenKey]).value.exp, now)
  }

  function CountOf(effects: seq<Effect>, e: Effect): nat {
    if effects == [] then 0 else (if effects[0] == e then 1 else 0) + CountOf(effects[1..], e)
  }

  /**
   * What a call of the function returned by `withAuth` does, given whether it
   * runs in a browser, localStorage before the call, the decoder, the time and
   * the refresh endpoint's answer.
   */
  function WithAuthRun(inBrowser: bool, storage: map<string, string>, jwtDecode: JwtDecoder, now: int,
                       response: RefreshResponse): (run: Run)
    // outside a browser: fail before touching storage or calling anything
    ensures !inBrowser ==> run == Run(NotInClient, [], storage)
    // a valid stored token: the operation runs exactly once and no refresh is attempted
    ensures inBrowser && StoredTokenValid(storage, jwtDecode, now) ==>
              run.result == Returned && run.effects == [OperationCall] && run.storage == storage
    // otherwise a refresh comes first
    ensures inBrowser && !StoredTokenValid(storage, jwtDecode, now) ==> run.effects != [] && run.effects[0] == RefreshRequest
    // a failed refresh removes the stored token and never calls the operation
    ensures inBrowser && !StoredTokenValid(storage, jwtDecode, now) && response.RefreshFailed? ==>
              run == Run(SessionExpired, [RefreshRequest], storage - {AccessTokenKey})
    // a successful refresh stores the new token and calls the operation once, afterwards
    ensures inBrowser && !StoredTokenValid(storage, jwtDecode, now) && response.RefreshOk? ==>
              run == Run(Returned, [RefreshRequest, OperationCall], storage[AccessTokenKey := response.accessToken])
    // the operation is called at most once, and exactly when the call returns its result
    ensures CountOf(run.effects, OperationCall) == (if run.result == Returned then 1 else 0)
  {
    if !inBrowser then Run(NotInClient, [], storage)
    else if StoredTokenValid(storage, jwtDecode, now) then Run(Returned, [OperationCall], storage)
    else match response
      case RefreshOk(t) => Run(Returned, [RefreshRequest, OperationCall], storage[AccessTokenKey := t])
      case RefreshFailed(_) => Run(SessionExpired, [RefreshRequest], storage - {AccessTokenKey})
  }

  /** The validity boundary is inclusive: a token whose `exp` equals `now` is used without a refresh. */
  lemma ExpiryBoundary(storage: map<string, string>, jwtDecode: JwtDecoder, now: int, response: RefreshResponse)
    requires AccessTokenKey in storage && storage[AccessTokenKey] != ""
    requires jwtDecode(storage[AccessTokenKey]).Decoded?
    requires jwtDecode(storage[AccessTokenKey]).payload.exp == Some(now)
    ensures WithAuthRun(true, storage, jwtDecode, now, response).effects == [OperationCall]
    ensures WithAuthRun(true, storage, jwtDecode, now + 1, response).effects[..1] == [RefreshRequest]
  {
  }

  /** The browser state `withAuth` and `refreshAccessToken` work on. */
  class AuthClient {
    var localStorage: map<string, string>
    var effects: seq<Effect>

    constructor (storage: map<string, string>)
      ensures localStorage == storage && effects == []
    {
      localStorage := storage;
      effects := [];
    }

    /**
     * `refreshAccessToken`: on success the new token is stored under
     * "accessToken" and returned; on failure nothing is written and the
     * failure is passed on.
     */
    method RefreshAccessToken(response: RefreshResponse) returns (r: Option<string>)
      modifies this
      ensures effects == old(effects) + [RefreshRequest]
      ensures response.RefreshOk? ==>
                r == Some(response.accessToken) && localStorage == old(localStorage)[AccessTokenKey := response.accessToken]
      ensures response.RefreshFailed? ==> r == None && localStorage == old(localStorage)
    {
      effects := effects + [RefreshRequest];
      match response
      case RefreshOk(t) =>
        localStorage := localStorage[AccessTokenKey := t];
        r := Some(t);
      case RefreshFailed(_) =>
        r := None;
    }

    /** One call of the function `withAuth(func)` returns. */
    method WithAuth(inBrowser: bool, jwtDecode: JwtDecoder, now: int, response: RefreshResponse)
      returns (r: WithAuthResult)
      modifies this
      ensures var run := WithAuthRun(inBrowser, old(localStorage), jwtDecode, now, response);
              r == run.result && localStorage == run.storage && effects == old(effects) + run.effects
    {
      if !inBrowser {
        return NotInClient;
      }
      var token := if AccessTokenKey in localStorage then Some(localStorage[AccessTokenKey]) else None;
      if token.Some? && token.value != "" {
        var decoded := DecodeToken(jwtDecode, token.value);
        if decoded.Some? {
          if decoded.value.exp.Some? && decoded.value.exp.value >= now {
            effects := effects + [OperationCall];
            return Returned;
          }
        }
      }
      var refreshed := RefreshAccessToken(response);
      if refreshed.None? {
        localStorage := localStorage - {AccessTokenKey};
        return SessionExpired;
      }
      effects := effects + [OperationCall];
      r := Returned;
    }
  }
}
