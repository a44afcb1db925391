/**
 * The GitHub OAuth callback page of
 * `src/app/auth/github/callback/_components/github-callback.tsx`: once the
 * session is loaded and authenticated, a `code` query parameter is sent to the
 * link endpoint, at most once per mount, and the page then goes home.
 */
module GithubCallback {
  import opened Wrappers
  import SearchParams

  const LinkEndpoint: string := "/api/v1/users/me/github/link"
  const HomePath: string := "/"

  /** Whether the link POST succeeded; the network is outside the model. */
  datatype LinkOutcome = LinkOk | LinkFailed

  /** What the page does to the world, in order. */
  datatype Effect = LinkPost(code: string) | InvalidateCurrentUser | Navigate(path: string)

  /** `linkAccount`: the POST, then on success the `["users", "me"]` invalidation, and in both cases the way home. */
  function LinkEffects(code: string, outcome: LinkOutcome): (r: seq<Effect>)
    ensures |r| >= 2 && r[0] == LinkPost(code) && r[|r| - 1] == Navigate(HomePath)
    ensures InvalidateCurrentUser in r <==> outcome == LinkOk
    ensures forall i :: 1 <= i < |r| ==> !r[i].LinkPost?
  {
    match outcome
    case LinkOk => [LinkPost(code), InvalidateCurrentUser, Navigate(HomePath)]
    case LinkFailed => [LinkPost(code), Navigate(HomePath)]
  }

  /** The number of link POSTs among the effects. */
  function Posts(effects: seq<Effect>): nat
  {
    if effects == [] then 0 else (if effects[0].LinkPost? then 1 else 0) + Posts(effects[1..])
  }

  lemma {:induction false} PostsConcat(a: seq<Effect>, b: seq<Effect>)
    ensures Posts(a + b) == Posts(a) + Posts(b)
  {
    if a != [] {
      assert (a + b)[1..] == a[1..] + b;
      PostsConcat(a[1..], b);
    } else {
      assert a + b == b;
    }
  }

  /** A link run holds exactly one POST. */
  lemma LinkEffectsPostOnce(code: string, outcome: LinkOutcome)
    ensures Posts(LinkEffects(code, outcome)) == 1
  {
    var home := [Navigate(HomePath)];
    assert Posts(home) == 0 by { assert home[1..] == []; }
    if outcome == LinkOk {
      var tail := [InvalidateCurrentUser] + home;
      assert tail[1..] == home;
      assert LinkEffects(code, outcome) == [LinkPost(code)] + tail;
      assert ([LinkPost(code)] + tail)[1..] == tail;
    } else {
      assert LinkEffects(code, outcome) == [LinkPost(code)] + home;
      assert ([LinkPost(code)] + home)[1..] == home;
    }
  }

  /** `code && ...`: the `code` parameter is present and non-empty. */
  predicate HasCode(code: Option<string>)
    ensures code.None? || code == Some("") ==> !HasCode(code)
    ensures HasCode(code) ==> |code.value| > 0
  {
    code.Some? && code.value != ""
  }

  /** The mounted page: the `processed` ref and the effects issued so far. */
  class CallbackPage {
    var processed: bool
    var effects: seq<Effect>

    /** The POST count agrees with the `processed` flag: at most one link per mount. */
    ghost predicate Valid()
      reads this
    {
      Posts(effects) == (if processed then 1 else 0)
    }

    constructor ()
      ensures Valid() && !processed && effects == []
    {
      processed := false;
      effects := [];
    }

    /**
     * One run of the effect. It does nothing while loading, when not
     * authenticated, without a code, or once `processed` is set; otherwise it
     * sets `processed` before linking.
     */
    method RunEffect(isLoading: bool, isAuthenticated: bool, query: seq<SearchParams.Param>, outcome: LinkOutcome)
      requires Valid()
      modifies this
      ensures Valid() && Posts(effects) <= 1
      ensures var code := SearchParams.GetFirst(query, "code");
              if !isLoading && isAuthenticated && HasCode(code) && !old(processed) then
                processed && effects == old(effects) + LinkEffects(code.value, outcome)
              else
                processed == old(processed) && effects == old(effects)
    {
      if isLoading {
        return;
      }
      if !isAuthenticated {
        return;
      }
      var code := SearchParams.GetFirst(query, "code");
      if code.Some? && code.value != "" && !processed {
        processed := true;
        LinkEffectsPostOnce(code.value, outcome);
        PostsConcat(effects, LinkEffects(code.value, outcome));
        effects := effects + LinkEffects(code.value, outcome);
      }
    }
  }

  /**
   * The effect run twice on one mount, as a re-render with the same session
   * does: the second run finds `processed` set, so the code is linked once.
   */
  method RunTwice(query: seq<SearchParams.Param>, first: LinkOutcome, second: LinkOutcome) returns (effects: seq<Effect>)
    ensures var code := SearchParams.GetFirst(query, "code");
            effects == (if HasCode(code) then LinkEffects(code.value, first) else [])
    ensures Posts(effects) <= 1
  {
    var page := new CallbackPage();
    page.RunEffect(false, true, query, first);
    page.RunEffect(false, true, query, second);
    effects := page.effects;
  }
}
