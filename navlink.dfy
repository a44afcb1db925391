/**
 * The active-route test of `src/app/_nav/navlink.tsx`: the home link is active
 * only on "/", every other link on any path that starts with its href.
 */
module NavLink {
  import JsString

  const Home: string := "/"

  /** `isActive`. */
  predicate IsActive(href: string, pathname: string)
    // a link is never active on a path that does not start with its href
    ensures IsActive(href, pathname) ==> JsString.StartsWith(pathname, href)
  {
    if href == Home then pathname == href else JsString.StartsWith(pathname, href)
  }

  /** The home link is active exactly on "/". */
  lemma HomeExact(pathname: string)
    ensures IsActive(Home, pathname) <==> pathname == "/"
  {
  }

  /** Any other link is active exactly when the path is the href followed by something. */
  lemma PrefixActive(href: string, pathname: string)
    requires href != Home
    ensures IsActive(href, pathname) <==> exists rest :: pathname == href + rest
  {
    if IsActive(href, pathname) {
      assert pathname == href + pathname[|href|..];
    }
    if exists rest :: pathname == href + rest {
      var rest :| pathname == href + rest;
      assert pathname[..|href|] == href;
    }
  }

  /** A link is always active on its own href. */
  lemma ActiveOnOwnHref(href: string)
    ensures IsActive(href, href)
  {
  }

  /** The match is by characters, not path segments: "/browse" is active on "/browser". */
  lemma CharacterPrefix()
    ensures IsActive("/browse", "/browser")
    ensures !IsActive("/", "/browse")
  {
    assert "/browser"[..|"/browse"|] == "/browse";
  }
}
