/**
 * The session store of `src/stores/auth-store.ts`: one replaceable token
 * cell, persisted by the store library to sessionStorage under "auth-token".
 */
module AuthStore {
  import opened Wrappers

  /** The storage key the store persists under, and the key the cross-tab handler watches. */
  const StorageKey: string := "auth-token"

  /** The token pair as the login endpoint returns it. */
  datatype Token = Token(accessToken: string, refreshToken: string, tokenType: string)

  /** A write to the store. */
  datatype StoreAction = SetToken(token: Token) | ClearToken

  /** The token after one write: `setToken(t)` replaces whatever was there by `t`, `clearToken()` leaves null. */
  function Apply(state: Option<Token>, action: StoreAction): (r: Option<Token>)
    ensures action.SetToken? ==> r == Some(action.token)
    ensures action.ClearToken? ==> r == None
  {
    match action
    case SetToken(t) => Some(t)
    case ClearToken => None
  }

  /** The token after a sequence of writes, applied in order from `init`. */
  function Replay(init: Option<Token>, actions: seq<StoreAction>): (r: Option<Token>)
    // the store only ever holds its initial token or one that was written to it
    ensures r.Some? ==> r == init || SetToken(r.value) in actions
    decreases actions
  {
    if actions == [] then init else Replay(Apply(init, actions[0]), actions[1..])
  }

  /** The last write wins: after any writes, the token is what the last one wrote (or `init` if none). */
  lemma {:induction false} LastWriteWins(init: Option<Token>, actions: seq<StoreAction>)
    ensures actions == [] ==> Replay(init, actions) == init
    ensures actions != [] ==> Replay(init, actions) == Apply(None, actions[|actions| - 1])
    decreases actions
  {
    if actions != [] {
      LastWriteWins(Apply(init, actions[0]), actions[1..]);
    }
  }

  /** `clearToken` is idempotent, and a clear after any writes leaves the empty store. */
  lemma {:induction false} ClearAfterAnything(init: Option<Token>, actions: seq<StoreAction>)
    ensures Replay(init, actions + [ClearToken]) == None
    ensures Replay(init, actions + [ClearToken, ClearToken]) == Replay(init, actions + [ClearToken])
  {
    LastWriteWins(init, actions + [ClearToken]);
    LastWriteWins(init, actions + [ClearToken, ClearToken]);
  }

  /** The store instance: a single token field, null at first. */
  class Store {
    var token: Option<Token>

    constructor ()
      ensures token == None
    {
      token := None;
    }

    method SetToken(t: Token)
      modifies this
      ensures token == Apply(old(token), StoreAction.SetToken(t))
    {
      token := Some(t);
    }

    method ClearToken()
      modifies this
      ensures token == Apply(old(token), StoreAction.ClearToken)
    {
      token := None;
    }
  }
}
