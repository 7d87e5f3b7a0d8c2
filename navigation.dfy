/**
 * The scroll listeners of the page: the navbar's `scrolled` class, the back-to-top button's
 * `visible` class, and the highlighting of the navigation link of the section in view.
 */
module Navigation {
  import opened Options

  /** Where the navbar turns `scrolled` and the back-to-top button `visible`, in pixels. */
  const NavbarThreshold := 50.0
  const BackToTopThreshold := 500.0
  /** How far above its top a section already counts as the one in view. */
  const SectionOffset := 100

  /** A `section[id]` element: its `offsetTop`, `offsetHeight` and `id`. */
  datatype Section = Section(top: int, height: int, id: string)

  /** `highlightNavLink`'s test: the scroll position lies in the section's range shifted up by 100. */
  predicate InSection(scrollY: real, s: Section)
  {
    var from := (s.top - SectionOffset) as real;
    scrollY > from && scrollY <= from + s.height as real
  }

  /** The last section in document order whose range holds the scroll position. */
  function LastMatch(sections: seq<Section>, scrollY: real): (r: Option<nat>)
    ensures r.Some? ==> r.value < |sections| && InSection(scrollY, sections[r.value])
    ensures r.Some? ==> forall j :: r.value < j < |sections| ==> !InSection(scrollY, sections[j])
    ensures r.None? ==> forall j :: 0 <= j < |sections| ==> !InSection(scrollY, sections[j])
  {
    if |sections| == 0 then None
    else if InSection(scrollY, sections[|sections| - 1]) then Some(|sections| - 1)
    else LastMatch(sections[..|sections| - 1], scrollY)
  }

  /** Sections laid out one below the other, none with a negative height. */
  predicate Stacked(sections: seq<Section>)
  {
    forall k :: 0 <= k < |sections| ==>
      sections[k].height >= 0 && (k + 1 < |sections| ==> sections[k + 1].top >= sections[k].top + sections[k].height)
  }

  /** In a stacked layout every later section starts below the end of an earlier one. */
  lemma {:induction false} StackedBelow(sections: seq<Section>, i: nat, j: nat)
    requires Stacked(sections) && i < j < |sections|
    ensures sections[j].top >= sections[i].top + sections[i].height
    decreases j - i
  {
    if j > i + 1 {
      StackedBelow(sections, i + 1, j);
    }
  }

  /** In a stacked layout at most one section holds the scroll position, so it is the one highlighted. */
  lemma OnlyMatchIsLast(sections: seq<Section>, scrollY: real, i: nat)
    requires Stacked(sections) && i < |sections| && InSection(scrollY, sections[i])
    ensures LastMatch(sections, scrollY) == Some(i)
  {
    var r := LastMatch(sections, scrollY);
    if r.value != i {
      StackedBelow(sections, i, r.value);
    }
  }

  /** The navbar, the back-to-top button and the navigation links with their `href`s. */
  class Page {
    const sections: seq<Section>
    const hrefs: seq<Option<string>>
    var linkActive: seq<bool>
    var navbarScrolled: bool
    var backToTopVisible: bool

    ghost predicate Valid()
      reads this
    {
      |linkActive| == |hrefs|
    }

    /** `initNavigation`'s initial `highlightNavLink()` at the page's current scroll position. */
    constructor (sections: seq<Section>, hrefs: seq<Option<string>>, linkActive: seq<bool>, scrollY: real)
      requires |linkActive| == |hrefs|
      ensures Valid() && this.sections == sections && this.hrefs == hrefs
      ensures LastMatch(sections, scrollY).None? ==> this.linkActive == linkActive
      ensures LastMatch(sections, scrollY).Some? ==> forall l :: 0 <= l < |hrefs| ==>
        (this.linkActive[l] <==> hrefs[l] == Some("#" + sections[LastMatch(sections, scrollY).value].id))
    {
      this.sections, this.hrefs, this.linkActive := sections, hrefs, linkActive;
      navbarScrolled, backToTopVisible := false, false;
      new;
      HighlightNavLink(scrollY);
    }

    /**
     * `highlightNavLink`: for each section in view, in document order, every link is cleared
     * and the links pointing at `#id` are marked, so the last such section wins. With no
     * section in view the links keep their classes.
     */
    method HighlightNavLink(scrollY: real)
      requires Valid()
      modifies this`linkActive
      ensures Valid()
      ensures LastMatch(sections, scrollY).None? ==> linkActive == old(linkActive)
      ensures LastMatch(sections, scrollY).Some? ==> forall l :: 0 <= l < |hrefs| ==>
        (linkActive[l] <==> hrefs[l] == Some("#" + sections[LastMatch(sections, scrollY).value].id))
    {
      var i := 0;
      while i < |sections|
        invariant 0 <= i <= |sections| && |linkActive| == |hrefs|
        invariant LastMatch(sections[..i], scrollY).None? ==> linkActive == old(linkActive)
        invariant LastMatch(sections[..i], scrollY).Some? ==> forall l :: 0 <= l < |hrefs| ==>
          (linkActive[l] <==> hrefs[l] == Some("#" + sections[LastMatch(sections[..i], scrollY).value].id))
      {
        assert sections[..i + 1][..i] == sections[..i];
        if InSection(scrollY, sections[i]) {
          var target := Some("#" + sections[i].id);
          var l := 0;
          while l < |linkActive|
            invariant 0 <= l <= |linkActive| == |hrefs|
            invariant forall m :: 0 <= m < l ==> (linkActive[m] <==> hrefs[m] == target)
          {
            linkActive := linkActive[l := hrefs[l] == target];
            l := l + 1;
          }
        }
        i := i + 1;
      }
      assert sections[..|sections|] == sections;
    }

    /**
     * One `scroll` event, with the listeners in the order they are registered: the navbar
     * class, the link highlighting, then the back-to-top button.
     */
    method OnScroll(scrollY: real)
      requires Valid()
      modifies this`navbarScrolled, this`linkActive, this`backToTopVisible
      ensures Valid()
      ensures navbarScrolled <==> scrollY > NavbarThreshold
      ensures backToTopVisible <==> scrollY > BackToTopThreshold
      ensures backToTopVisible ==> navbarScrolled
      ensures LastMatch(sections, scrollY).None? ==> linkActive == old(linkActive)
      ensures LastMatch(sections, scrollY).Some? ==> forall l :: 0 <= l < |hrefs| ==>
        (linkActive[l] <==> hrefs[l] == Some("#" + sections[LastMatch(sections, scrollY).value].id))
    {
      if scrollY > NavbarThreshold {
        navbarScrolled := true;
      } else {
        navbarScrolled := false;
      }
      HighlightNavLink(scrollY);
      if scrollY > BackToTopThreshold {
        backToTopVisible := true;
      } else {
        backToTopVisible := false;
      }
    }
  }
}
