/**
 * The request interceptor of `src/lib/api.ts`: in the browser, a request
 * leaves with an `Authorization: Bearer <token>` header when the session store
 * holds a non-empty access token, and is otherwise returned as it came.
 */
module Api {
  import opened Wrappers
  import AuthStore

  const AuthorizationHeader: string := "Authorization"
  const BearerPrefix: string := "Bearer "

  /** The header value the interceptor writes, if any. */
  function AuthorizationFor(inBrowser: bool, token: Option<AuthStore.Token>): (r: Option<string>)
    ensures r.Some? <==> inBrowser && token.Some? && token.value.accessToken != ""
    ensures r.Some? ==> |r.value| > |BearerPrefix| && r.value[..|BearerPrefix|] == BearerPrefix
    ensures r.Some? ==> r.value[|BearerPrefix|..] == token.value.accessToken
  {
    if inBrowser && token.Some? && token.value.accessToken != "" then Some(BearerPrefix + token.value.accessToken)
    else None
  }

  /** The prefix is always "Bearer ", whatever `token_type` the store holds. */
  lemma BearerRegardlessOfTokenType(inBrowser: bool, t: AuthStore.Token, u: AuthStore.Token)
    requires t.accessToken == u.accessToken && t.refreshToken == u.refreshToken
    ensures AuthorizationFor(inBrowser, Some(t)) == AuthorizationFor(inBrowser, Some(u))
  {
  }

  /** The parts of an outgoing request the interceptor sees. */
  class RequestConfig {
    var url: string
    var headers: map<string, string>
    var body: Option<string>

    constructor (url: string, headers: map<string, string>, body: Option<string>)
      ensures this.url == url && this.headers == headers && this.body == body
    {
      this.url := url;
      this.headers := headers;
      this.body := body;
    }
  }

  /**
   * The interceptor: it sets the Authorization header in place when there is
   * a token to send and returns the same config object; nothing else changes.
   */
  method Intercept(config: RequestConfig, inBrowser: bool, store: AuthStore.Store) returns (r: RequestConfig)
    modifies config
    ensures r == config
    ensures config.url == old(config.url) && config.body == old(config.body)
    ensures AuthorizationFor(inBrowser, store.token).Some? ==>
              config.headers == old(config.headers)[AuthorizationHeader := AuthorizationFor(inBrowser, store.token).value]
    ensures AuthorizationFor(inBrowser, store.token).None? ==> config.headers == old(config.headers)
    ensures forall h :: h != AuthorizationHeader ==>
              (h in config.headers <==> h in old(config.headers))
              && (h in config.headers ==> config.headers[h] == old(config.headers)[h])
  {
    if inBrowser {
      var token := if store.token.Some? then store.token.value.accessToken else "";
      if token != "" {
        config.headers := config.headers[AuthorizationHeader := BearerPrefix + token];
      }
    }
    r := config;
  }
}
