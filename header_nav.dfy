/**
 * The site header's navigation: the items listed for the current path and
 * which of them is highlighted. The desktop and the mobile menu list the
 * same items with the same highlighting.
 */
module HeaderNav {
  import JsText

  datatype NavItem = NavItem(text: string, href: string)

  const Home := NavItem("Home", "/")
  const OdorMap := NavItem("악취 지도", "/asan")
  const ComplaintMap := NavItem("민원 지도", "/complaints")

  /** `navItems`: Home only away from `/`, then the two maps. */
  function NavItems(pathname: string): seq<NavItem> {
    (if pathname != "/" then [Home] else []) + [OdorMap, ComplaintMap]
  }

  /** `pathname === href || pathname.startsWith(href + '/')`. */
  predicate Active(pathname: string, href: string) {
    pathname == href || JsText.StartsWith(pathname, href + "/")
  }

  /** What each menu renders: the items with their highlight. */
  function MenuEntries(pathname: string): (r: seq<(NavItem, bool)>)
    ensures |r| == |NavItems(pathname)|
    ensures forall i :: 0 <= i < |r| ==>
      r[i].0 == NavItems(pathname)[i] && (r[i].1 <==> Active(pathname, NavItems(pathname)[i].href))
  {
    var items := NavItems(pathname);
    seq(|items|, i requires 0 <= i < |items| => (items[i], Active(pathname, items[i].href)))
  }

  /** Home is listed exactly off `/`, and the odour map and the complaint map always end the list, in that order. */
  lemma {:induction false} NavItemsSpec(pathname: string)
    ensures Home in NavItems(pathname) <==> pathname != "/"
    ensures var items := NavItems(pathname);
      |items| >= 2 && items[|items| - 2] == OdorMap && items[|items| - 1] == ComplaintMap
  {
    if pathname == "/" {
      assert NavItems(pathname) == [OdorMap, ComplaintMap];
    }
  }

  /** An item is highlighted on its own path and on every path below it, and each entry carries its item's highlight. */
  lemma {:induction false} ActiveBelow(href: string, rest: string, pathname: string)
    ensures Active(href, href) && Active(href + "/" + rest, href)
    ensures forall i :: 0 <= i < |MenuEntries(pathname)| ==>
      MenuEntries(pathname)[i].1 == Active(pathname, MenuEntries(pathname)[i].0.href)
  {
    assert (href + "/" + rest)[..|href + "/"|] == href + "/";
  }

  /** A path that merely begins with the same letters is not below: `/asanx` does not highlight `/asan`. */
  lemma {:induction false} SiblingNotActive(href: string, c: char, rest: string)
    requires c != '/'
    ensures !Active(href + [c] + rest, href)
  {
    var p := href + [c] + rest;
    assert p[|href|] == c;
    assert (href + "/")[|href|] == '/';
  }

  /** Home is shown only off `/`, so it is highlighted only on paths that start with `//`. */
  lemma {:induction false} HomeActive(pathname: string)
    requires Home in NavItems(pathname) && Active(pathname, "/")
    ensures JsText.StartsWith(pathname, "//")
  {
    NavItemsSpec(pathname);
  }
}
