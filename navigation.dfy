/** The header navigation: links to the sections, the highlighted link
    tracked by its own observer, the scrolled look and the mobile menu. */
module Navigation {
  import opened Common
  import opened Visibility

  /** The `href`s of the navigation links, in order. */
  const NavLinks: seq<string> := ["#hero", "#about", "#projects", "#skills", "#contact"]

  /** The active section after visiting `entries` in order, starting from
      `current`: every intersecting entry overwrites it, so the last one wins. */
  function LastIntersecting(entries: seq<Entry>, current: string): string
  {
    if entries == [] then current
    else
      var before := LastIntersecting(entries[..|entries| - 1], current);
      if entries[|entries| - 1].isIntersecting then entries[|entries| - 1].id else before
  }

  /** Either nothing intersects and the section is unchanged, or the result is
      the id of an intersecting entry after which no entry intersects. */
  lemma {:induction false} LastIntersectingSpec(entries: seq<Entry>, current: string)
    ensures (forall j :: 0 <= j < |entries| ==> !entries[j].isIntersecting) ==>
              LastIntersecting(entries, current) == current
    ensures (exists j :: 0 <= j < |entries| && entries[j].isIntersecting) ==>
              exists k :: 0 <= k < |entries| && entries[k].isIntersecting
                && entries[k].id == LastIntersecting(entries, current)
                && forall j :: k < j < |entries| ==> !entries[j].isIntersecting
    decreases |entries|
  {
    if entries != [] {
      var front := entries[..|entries| - 1];
      LastIntersectingSpec(front, current);
      forall j | 0 <= j < |front| ensures front[j] == entries[j] { }
      if !entries[|entries| - 1].isIntersecting && exists j :: 0 <= j < |entries| && entries[j].isIntersecting {
        var j :| 0 <= j < |entries| && entries[j].isIntersecting;
        assert front[j].isIntersecting;
      }
    }
  }

  /** `activeSection === href.substring(1)`. */
  predicate LinkActive(active: string, href: string)
  {
    active == FragmentId(href)
  }

  /** Links whose targets differ are never highlighted together. */
  lemma AtMostOneLinkActive(hrefs: seq<string>, active: string, i: nat, j: nat)
    requires i < |hrefs| && j < |hrefs|
    requires forall a, b :: 0 <= a < b < |hrefs| ==> FragmentId(hrefs[a]) != FragmentId(hrefs[b])
    requires LinkActive(active, hrefs[i]) && LinkActive(active, hrefs[j])
    ensures i == j
  {
  }

  /** The page's links all point at different sections. */
  lemma NavLinksDistinct()
    ensures forall a, b :: 0 <= a < b < |NavLinks| ==> FragmentId(NavLinks[a]) != FragmentId(NavLinks[b])
  {
    assert FragmentId(NavLinks[0]) == "hero";
    assert FragmentId(NavLinks[1]) == "about";
    assert FragmentId(NavLinks[2]) == "projects";
    assert FragmentId(NavLinks[3]) == "skills";
    assert FragmentId(NavLinks[4]) == "contact";
  }

  /** `window.scrollY > 10`. */
  function IsScrolled(scrollY: real): (scrolled: bool)
    ensures scrolled <==> scrollY > 10.0
  {
    scrollY > 10.0
  }

  class NavBar {
    /** Ids of every element `document.getElementById` can find. */
    const elementIds: set<string>
    var isScrolled: bool
    var isMenuOpen: bool
    var activeSection: string
    /** Every `pushState` call, in order. */
    ghost var history: seq<HistoryOp>

    constructor (elementIds: set<string>)
      ensures this.elementIds == elementIds
      ensures !isScrolled && !isMenuOpen && activeSection == "hero" && history == []
    {
      this.elementIds := elementIds;
      isScrolled := false;
      isMenuOpen := false;
      activeSection := "hero";
      history := [];
    }

    /** The scroll listener. */
    method OnScroll(scrollY: real)
      modifies this
      ensures isScrolled == IsScrolled(scrollY)
      ensures isMenuOpen == old(isMenuOpen) && activeSection == old(activeSection) && history == old(history)
    {
      isScrolled := IsScrolled(scrollY);
    }

    /** `handleIntersect`: the `forEach` over the batch. */
    method HandleIntersect(entries: seq<Entry>)
      modifies this
      ensures activeSection == LastIntersecting(entries, old(activeSection))
      ensures isScrolled == old(isScrolled) && isMenuOpen == old(isMenuOpen) && history == old(history)
    {
      for i := 0 to |entries|
        invariant activeSection == LastIntersecting(entries[..i], old(activeSection))
        invariant isScrolled == old(isScrolled) && isMenuOpen == old(isMenuOpen) && history == old(history)
      {
        assert entries[..i + 1][..i] == entries[..i];
        if entries[i].isIntersecting {
          activeSection := entries[i].id;
        }
      }
      assert entries[..|entries|] == entries;
    }

    /** `handleNavClick`: an existing target pushes the `href` and closes the
        menu; the active link is left to the observer. */
    method NavClick(href: string)
      modifies this
      ensures var id := FragmentId(href);
              ElementFound(elementIds, id) ==> history == old(history) + [Push(href)] && !isMenuOpen
      ensures var id := FragmentId(href);
              !ElementFound(elementIds, id) ==> history == old(history) && isMenuOpen == old(isMenuOpen)
      ensures isScrolled == old(isScrolled) && activeSection == old(activeSection)
    {
      var targetId := FragmentId(href);
      if ElementFound(elementIds, targetId) {
        history := history + [Push(href)];
        if isMenuOpen {
          isMenuOpen := false;
        }
      }
    }

    /** The menu button. */
    method ToggleMenu()
      modifies this
      ensures isMenuOpen == !old(isMenuOpen)
      ensures isScrolled == old(isScrolled) && activeSection == old(activeSection) && history == old(history)
    {
      isMenuOpen := !isMenuOpen;
    }
  }
}
