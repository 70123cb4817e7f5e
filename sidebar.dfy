/** The dashboard sidebar (src/components/dashboard/sidebar/Sidebar.tsx): a fixed
    list of six links, each highlighted when the current path belongs to it. */
module Sidebar {
  import opened Text

  datatype NavItem = NavItem(name: string, href: string)

  const Navigation: seq<NavItem> := [
    NavItem("Dashboard", "/"),
    NavItem("Review Management", "/review-management"),
    NavItem("Spin Wheel Rewards", "/rewards"),
    NavItem("User", "/users"),
    NavItem("Setting", "/settings"),
    NavItem("Log Out", "/logout")
  ]

  /** `pathname === href || (href !== "/" && pathname.startsWith(href))`. */
  predicate IsActive(pathname: string, href: string)
    ensures IsActive(pathname, href) ==> StartsWith(pathname, href)
    ensures href == "/" ==> (IsActive(pathname, href) <==> pathname == "/")
  {
    pathname == href || (href != "/" && StartsWith(pathname, href))
  }

  /** How one link is drawn: highlighted, and with the right-edge bar, when active. */
  datatype NavLink = NavLink(name: string, href: string, highlighted: bool, indicator: bool)

  function RenderLink(pathname: string, item: NavItem): NavLink {
    var active := IsActive(pathname, item.href);
    NavLink(item.name, item.href, active, active)
  }

  /** The rendered navigation, one link per item, in the list's order. */
  function RenderNavigation(pathname: string): (links: seq<NavLink>)
    ensures |links| == |Navigation|
    ensures forall i :: 0 <= i < |links| ==>
      links[i].name == Navigation[i].name && links[i].href == Navigation[i].href &&
      links[i].indicator == links[i].highlighted == IsActive(pathname, Navigation[i].href)
  {
    seq(|Navigation|, i requires 0 <= i < |Navigation| => RenderLink(pathname, Navigation[i]))
  }

  /** The Dashboard link ("/") is active only on the exact path "/". */
  lemma DashboardOnlyAtRoot(pathname: string)
    ensures IsActive(pathname, Navigation[0].href) <==> pathname == "/"
  {
  }

  /** No non-root href of the list is a prefix of another one: any two of them
      already differ at their second or fourth character. */
  lemma HrefsNotNested(i: nat, j: nat)
    requires 0 < i < |Navigation| && 0 < j < |Navigation| && i != j
    ensures !StartsWith(Navigation[j].href, Navigation[i].href)
  {
    var a, b := Navigation[i].href, Navigation[j].href;
    assert |a| >= 4 && |b| >= 4;
    assert a[1] != b[1] || a[3] != b[3];
  }

  /** Whatever the path, at most one link is active. */
  lemma AtMostOneActive(pathname: string, i: nat, j: nat)
    requires i < |Navigation| && j < |Navigation| && i != j
    ensures !(IsActive(pathname, Navigation[i].href) && IsActive(pathname, Navigation[j].href))
  {
    if i != 0 && j != 0 {
      var a, b := Navigation[i].href, Navigation[j].href;
      if StartsWith(pathname, a) && StartsWith(pathname, b) {
        if |a| <= |b| {
          PrefixesOfOneString(pathname, a, b);
          HrefsNotNested(i, j);
        } else {
          PrefixesOfOneString(pathname, b, a);
          HrefsNotNested(j, i);
        }
      }
    }
  }

  /** A path below a link's href (like "/rewards/12") keeps that link active. */
  lemma SubpagesKeepLinkActive(i: nat, suffix: string)
    requires 0 < i < |Navigation|
    ensures IsActive(Navigation[i].href + suffix, Navigation[i].href)
  {
    var h := Navigation[i].href;
    assert (h + suffix)[..|h|] == h;
  }
}
