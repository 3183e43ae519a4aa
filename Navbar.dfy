/**
 * The site header: which routes force a solid background, when the header
 * is drawn solid, which navigation link is highlighted, and the mobile
 * menu that opens and closes.
 */
module Navbar {
  import opened Text

  /** A navigation entry: its route and its caption. */
  datatype NavLink = NavLink(to: string, caption: string)

  /** The five entries of the desktop and the mobile navigation. */
  const NavLinks: seq<NavLink> := [
    NavLink("/", "Home"),
    NavLink("/venues", "Venues"),
    NavLink("/services", "Services"),
    NavLink("/about", "About"),
    NavLink("/contact", "Contact")
  ]

  const LoginPath: string := "/login"
  const RegisterPath: string := "/register"
  const DashboardPath: string := "/dashboard"

  /** The scroll offset, in pixels, past which the header turns solid. */
  const ScrollThreshold: int := 10

  /**
   * The login and register pages, and every path that mentions the
   * dashboard anywhere, get a solid header.
   */
  function NeedsSolidBackground(path: string): (r: bool)
    ensures r <==> path == LoginPath || path == RegisterPath
                   || exists i :: OccursAt(path, DashboardPath, i)
  {
    ContainsIff(path, DashboardPath);
    path == LoginPath || path == RegisterPath || Contains(path, DashboardPath)
  }

  /** Any route under the dashboard, and any path with it in the middle, is solid. */
  lemma DashboardRoutesSolid(before: string, after: string)
    ensures NeedsSolidBackground(before + DashboardPath + after)
  {
    var path := before + DashboardPath + after;
    assert path[|before|..|before| + |DashboardPath|] == DashboardPath;
    assert OccursAt(path, DashboardPath, |before|);
  }

  /** Only the two auth pages are matched exactly: their sub-routes are not. */
  lemma LoginSubrouteTranslucent()
    ensures !NeedsSolidBackground("/login/")
  {
    assert "/login/" != LoginPath && "/login/" != RegisterPath;
    assert |"/login/"| < |DashboardPath|;
  }

  /** The scroll handler's rule: strictly more than ten pixels. */
  predicate IsScrolled(scrollY: int)
  {
    scrollY > ScrollThreshold
  }

  /** The header's background choice: true for the solid variant. */
  predicate HeaderSolid(isScrolled: bool, path: string, menuOpen: bool)
  {
    isScrolled || NeedsSolidBackground(path) || menuOpen
  }

  /**
   * The translucent header is drawn exactly at the top of a page that
   * does not need a solid background, with the menu closed.
   */
  lemma HeaderSolidSpec(scrollY: int, path: string, menuOpen: bool)
    ensures !HeaderSolid(IsScrolled(scrollY), path, menuOpen)
            <==> scrollY <= 10 && !menuOpen && path != "/login" && path != "/register"
                 && forall i :: !OccursAt(path, "/dashboard", i)
  {
  }

  /** A link is highlighted when the current path is its route, character for character. */
  predicate IsActive(path: string, link: NavLink)
  {
    path == link.to
  }

  /** The positions of the highlighted entries, in navigation order. */
  function ActiveLinks(path: string, links: seq<NavLink>): (r: seq<nat>)
    ensures forall k :: 0 <= k < |r| ==> r[k] < |links| && IsActive(path, links[r[k]])
    ensures forall j :: 0 <= j < |links| && IsActive(path, links[j]) ==> j in r
  {
    if links == [] then []
    else
      var rest := ActiveLinks(path, links[..|links| - 1]);
      if IsActive(path, links[|links| - 1]) then rest + [|links| - 1] else rest
  }

  /** The routes of the navigation are pairwise different. */
  predicate DistinctRoutes(links: seq<NavLink>)
  {
    forall i, j :: 0 <= i < j < |links| ==> links[i].to != links[j].to
  }

  /** With distinct routes at most one entry is highlighted, and one is exactly when the path is a route. */
  lemma {:induction false} AtMostOneActive(path: string, links: seq<NavLink>)
    requires DistinctRoutes(links)
    ensures |ActiveLinks(path, links)| <= 1
    ensures |ActiveLinks(path, links)| == 1 <==> exists j :: 0 <= j < |links| && links[j].to == path
  {
    if links != [] {
      var init := links[..|links| - 1];
      assert DistinctRoutes(init) by {
        forall i, j | 0 <= i < j < |init| ensures init[i].to != init[j].to {
          assert init[i] == links[i] && init[j] == links[j];
        }
      }
      AtMostOneActive(path, init);
      if IsActive(path, links[|links| - 1]) {
        assert forall j :: 0 <= j < |init| ==> init[j] == links[j];
      } else {
        if exists j :: 0 <= j < |links| && links[j].to == path {
          var j :| 0 <= j < |links| && links[j].to == path;
          assert j < |init| && init[j] == links[j];
        }
      }
    }
  }

  /** The site's own navigation has distinct routes. */
  lemma NavLinksDistinct()
    ensures DistinctRoutes(NavLinks)
  {
    assert NavLinks[0].to == "/" && |NavLinks[0].to| == 1;
    assert |NavLinks[1].to| == 7 && |NavLinks[2].to| == 9 && |NavLinks[3].to| == 6;
    assert |NavLinks[4].to| == 8;
  }

  /** The header's state: the scroll flag, the open mobile menu and the route it sees. */
  class Header {
    var isScrolled: bool
    var isMobileMenuOpen: bool
    var pathname: string

    /** The header as drawn from its state. */
    predicate Solid()
      reads this
    {
      HeaderSolid(isScrolled, pathname, isMobileMenuOpen)
    }

    /** On mount the scroll handler runs once, and the menu starts closed. */
    constructor (path: string, scrollY: int)
      ensures pathname == path && isScrolled == IsScrolled(scrollY) && !isMobileMenuOpen
    {
      pathname := path;
      isScrolled := scrollY > 10;
      isMobileMenuOpen := false;
    }

    /** The scroll listener re-derives the flag from the current offset. */
    method HandleScroll(scrollY: int)
      modifies this
      ensures isScrolled == IsScrolled(scrollY)
      ensures isMobileMenuOpen == old(isMobileMenuOpen) && pathname == old(pathname)
    {
      isScrolled := scrollY > 10;
    }

    /** The menu button flips the open state. */
    method ToggleMenu()
      modifies this
      ensures isMobileMenuOpen == !old(isMobileMenuOpen)
      ensures isScrolled == old(isScrolled) && pathname == old(pathname)
      ensures isMobileMenuOpen ==> Solid()
    {
      isMobileMenuOpen := !isMobileMenuOpen;
    }

    /**
     * A route change: the effect keyed on the path closes the menu when
     * the path differs; following a link to the current path keeps it.
     */
    method Navigate(path: string)
      modifies this
      ensures pathname == path && isScrolled == old(isScrolled)
      ensures isMobileMenuOpen == (old(isMobileMenuOpen) && path == old(pathname))
    {
      if path != pathname {
        isMobileMenuOpen := false;
      }
      pathname := path;
    }
  }

  /** Opening and closing the menu returns the header to its earlier state. */
  method ToggleTwiceWalkthrough(h: Header)
    modifies h
    ensures h.isMobileMenuOpen == old(h.isMobileMenuOpen)
    ensures h.isScrolled == old(h.isScrolled) && h.pathname == old(h.pathname)
  {
    h.ToggleMenu();
    h.ToggleMenu();
  }

  /** At the top of the home page the header is translucent until the menu opens; moving to the venues closes it again. */
  method MenuWalkthrough()
  {
    var h := new Header("/", 0);
    assert !Contains("/", DashboardPath);
    assert !h.Solid();
    h.ToggleMenu();
    assert h.Solid();
    h.Navigate("/venues");
    assert !h.isMobileMenuOpen;
  }
}
