/**
 * The navigation bar: its own menu-open and scrolled flags, the rule that
 * highlights the link of the active section, and the link labels.
 */
module Navbar {
  import opened JsBuiltins

  /** `navSections`: the linked sections, in display order. */
  const NavSections: seq<string> := ["about", "skills", "experience", "projects", "blogs", "education", "contact"]

  /** The scroll offset past which the bar counts as scrolled. */
  const ScrollThreshold: int := 50

  predicate Distinct(ids: seq<string>) {
    forall i, j | 0 <= i < j < |ids| :: ids[i] != ids[j]
  }

  /** `activeSection === sectionId`: whether the link gets the active style. */
  predicate IsHighlighted(activeSection: string, sectionId: string) {
    activeSection == sectionId
  }

  /** How many links of `ids` are highlighted: none when the active section
      has no link, and never more than one when the ids are distinct. */
  function HighlightCount(activeSection: string, ids: seq<string>): (n: nat)
    ensures n == 0 <==> activeSection !in ids
    ensures Distinct(ids) ==> n <= 1
  {
    if ids == [] then 0
    else
      var rest := HighlightCount(activeSection, ids[1..]);
      assert Distinct(ids) ==> Distinct(ids[1..]) by {
        if Distinct(ids) {
          forall i, j | 0 <= i < j < |ids| - 1 ensures ids[1..][i] != ids[1..][j] {
            assert ids[1..][i] == ids[i + 1] && ids[1..][j] == ids[j + 1];
          }
        }
      }
      assert activeSection in ids <==> activeSection == ids[0] || activeSection in ids[1..] by {
        assert ids == [ids[0]] + ids[1..];
      }
      assert Distinct(ids) && activeSection == ids[0] ==> activeSection !in ids[1..] by {
        if Distinct(ids) && activeSection == ids[0] {
          forall k | 0 <= k < |ids| - 1 ensures ids[1..][k] != activeSection {
            assert ids[1..][k] == ids[k + 1];
          }
        }
      }
      (if IsHighlighted(activeSection, ids[0]) then 1 else 0) + rest
  }

  /** The bar's links are distinct, so at most one is highlighted, and the
      landing section ("hero") highlights none. */
  lemma NavHighlighting(activeSection: string)
    ensures HighlightCount(activeSection, NavSections) <= 1
    ensures HighlightCount("hero", NavSections) == 0
  {
    assert Distinct(NavSections);
  }

  /** `id.charAt(0).toUpperCase() + id.slice(1)`: the first character in
      upper case, the rest as is; the empty id gives the empty label. */
  function Capitalize(id: string): (r: string)
    ensures |r| == |id|
    ensures r != [] ==> r[0] == ToUpperAscii(id[0]) && r[1..] == id[1..]
  {
    if id == [] then [] else [ToUpperAscii(id[0])] + id[1..]
  }

  /** The labels of the bar's links. */
  lemma NavLabels()
    ensures Capitalize("about") == "About"
    ensures Capitalize("experience") == "Experience"
    ensures Capitalize("contact") == "Contact"
  {
  }

  class Navbar {
    var isMenuOpen: bool
    var isScrolled: bool

    constructor ()
      ensures !isMenuOpen && !isScrolled
    {
      isMenuOpen := false;
      isScrolled := false;
    }

    /** The scroll listener: scrolled exactly when past the threshold. */
    method OnScroll(scrollY: int)
      modifies this`isScrolled
      ensures isScrolled <==> scrollY > ScrollThreshold
    {
      isScrolled := scrollY > ScrollThreshold;
    }

    /** The menu button. */
    method ToggleMenu()
      modifies this`isMenuOpen
      ensures isMenuOpen == !old(isMenuOpen)
    {
      isMenuOpen := !isMenuOpen;
    }

    /** A desktop link or the logo: asks the page to scroll to `sectionId`
        (returned) and leaves the menu as it is. */
    method DesktopLinkClick(sectionId: string) returns (target: string)
      ensures target == sectionId
    {
      target := sectionId;
    }

    /** A mobile link: asks the page to scroll to `sectionId` (returned) and
        closes the menu. */
    method MobileLinkClick(sectionId: string) returns (target: string)
      modifies this`isMenuOpen
      ensures target == sectionId && !isMenuOpen
    {
      target := sectionId;
      isMenuOpen := false;
    }
  }
}
