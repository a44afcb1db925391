/**
 * The cross-tab handler of `src/components/auth/use-auth-sync.tsx`: a
 * "storage" event for the store's key either clears the local token (another
 * tab logged out) or reloads the page (another tab stored a session).
 */
module AuthSync {
  import opened Wrappers
  import AuthStore

  /** A browser storage event: the changed key (null when storage was cleared) and its new value. */
  datatype StorageEvent = StorageEvent(key: Option<string>, newValue: Option<string>)

  /** What the handler does with one event. */
  datatype SyncAction = Ignore | Clear | Reload

  /** A new value that means "logged out": null, the empty string, or the text "null". */
  predicate IsLogoutValue(newValue: Option<string>)
    // a persisted session, a JSON object, is never read as a logout
    ensures newValue.Some? && newValue.value != [] && newValue.value[0] == '{' ==> !IsLogoutValue(newValue)
  {
    newValue.None? || newValue.value == "" || newValue.value == "null"
  }

  /** `handleStorageChange`, as a decision. */
  function Decide(event: StorageEvent): (r: SyncAction)
    ensures r == Ignore <==> event.key != Some(AuthStore.StorageKey)
    ensures r == Clear <==> event.key == Some(AuthStore.StorageKey) && IsLogoutValue(event.newValue)
    ensures r == Reload <==> event.key == Some(AuthStore.StorageKey) && !IsLogoutValue(event.newValue)
  {
    if event.key == Some(AuthStore.StorageKey) then
      if event.newValue.None? || event.newValue.value == "" || event.newValue.value == "null" then Clear
      else Reload
    else Ignore
  }

  /** The hook's listener registration and the page reloads it has asked for. */
  class AuthSyncListener {
    const store: AuthStore.Store
    var listening: bool
    var reloads: nat

    constructor (store: AuthStore.Store)
      ensures this.store == store && !listening && reloads == 0
    {
      this.store := store;
      listening := false;
      reloads := 0;
    }

    /** The effect runs on mount: the listener is added. */
    method Mount()
      modifies this
      ensures listening && reloads == old(reloads)
    {
      listening := true;
    }

    /** The effect's clean-up on unmount: the listener is removed. */
    method Unmount()
      modifies this
      ensures !listening && reloads == old(reloads)
    {
      listening := false;
    }

    /**
     * An event delivered to the window. While listening, a logout value for
     * "auth-token" clears the store, any other value reloads the page, and
     * other keys change nothing; when not listening nothing happens.
     */
    method OnStorage(event: StorageEvent)
      modifies this, store
      ensures listening == old(listening)
      ensures old(listening) && Decide(event) == Clear ==> store.token == None && reloads == old(reloads)
      ensures old(listening) && Decide(event) == Reload ==>
                store.token == old(store.token) && reloads == old(reloads) + 1
      ensures !old(listening) || Decide(event) == Ignore ==>
                store.token == old(store.token) && reloads == old(reloads)
    {
      if listening {
        var action := Decide(event);
        if action == Clear {
          store.ClearToken();
        } else if action == Reload {
          reloads := reloads + 1;
        }
      }
    }
  }
}
