/**
 * The application shell's navigation: the four top-level destinations and
 * the rule that highlights the one the current path belongs to. The same
 * rule drives the desktop and the mobile navigation bars.
 */
module AppShell {
  import opened Text

  datatype NavItem = NavItem(name: string, href: string)

  const Navigation: seq<NavItem> := [
    NavItem("Dashboard", "/"),
    NavItem("Test Runner", "/test-runner"),
    NavItem("Test Builder", "/test-builder"),
    NavItem("Reports", "/reports")
  ]

  /** An item is active on its own path, and, except for the root, on any path that starts with its href. */
  predicate IsActive(pathname: string, href: string)
  {
    pathname == href || (href != "/" && StartsWith(pathname, href))
  }

  /** The active items of the navigation for a path, by position. */
  function ActiveItems(pathname: string): (r: seq<bool>)
    ensures |r| == |Navigation|
    ensures forall k :: 0 <= k < |r| ==> (r[k] <==> IsActive(pathname, Navigation[k].href))
  {
    seq(|Navigation|, k requires 0 <= k < |Navigation| => IsActive(pathname, Navigation[k].href))
  }

  /** An item is active on its own href. */
  lemma ActiveOnOwnPath(href: string)
    ensures IsActive(href, href)
  {
  }

  /** The root item is active only on the root path itself. */
  lemma RootOnlyExact(pathname: string)
    ensures IsActive(pathname, "/") <==> pathname == "/"
  {
  }

  /** Without a separator check, a path that merely extends an href activates it: "/reportsX" activates Reports. */
  lemma PrefixWithoutSeparator()
    ensures IsActive("/reportsX", "/reports")
    ensures !IsActive("/reports", "/reportsX")
  {
    assert "/reportsX"[..|"/reports"|] == "/reports";
  }

  /** An active non-root item's href is a prefix of the path. */
  lemma ActiveIsPrefix(pathname: string, href: string)
    requires IsActive(pathname, href)
    ensures |href| <= |pathname| && pathname[..|href|] == href
  {
  }

  /** None of the four hrefs is a prefix of another, apart from the root. */
  lemma HrefsNotNested(j: nat, k: nat)
    requires j < |Navigation| && k < |Navigation| && j != k
    requires Navigation[k].href != "/"
    ensures !StartsWith(Navigation[j].href, Navigation[k].href)
  {
    var a := Navigation[j].href;
    var b := Navigation[k].href;
    if j == 0 {
      assert |a| < |b|;
    } else {
      var d := if j == 3 || k == 3 then 1 else 6;
      assert a[d] != b[d];
      DifferAt(a, b, d);
    }
  }

  /** Two strings that differ at a position both have: neither starts with the other. */
  lemma DifferAt(a: string, b: string, d: nat)
    requires d < |a| && d < |b| && a[d] != b[d]
    ensures !StartsWith(a, b)
  {
    if |b| <= |a| {
      assert a[..|b|][d] == a[d];
    }
  }

  /** For any path, at most one of the navigation items is active. */
  lemma AtMostOneActive(pathname: string, j: nat, k: nat)
    requires j < |Navigation| && k < |Navigation| && j != k
    ensures !(IsActive(pathname, Navigation[j].href) && IsActive(pathname, Navigation[k].href))
  {
    var a := Navigation[j].href;
    var b := Navigation[k].href;
    if IsActive(pathname, a) && IsActive(pathname, b) {
      ActiveIsPrefix(pathname, a);
      ActiveIsPrefix(pathname, b);
      if |a| <= |b| {
        assert pathname[..|b|][..|a|] == a;
        HrefsNotNested(k, j);
      } else {
        assert pathname[..|a|][..|b|] == b;
        HrefsNotNested(j, k);
      }
    }
  }
}
