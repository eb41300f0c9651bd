/**
 * The TypeScript revision of the page's root component, which also owns the
 * mobile menu: the active section fed by the observer, scrolling to a
 * section (which closes the menu), the menu button, the logo text, and the
 * project modal with its Escape key.
 */
module AppTsx {
  import opened Wrappers
  import opened JsBuiltins
  import opened SectionObserver
  import opened PortfolioData
  import Navbar

  const InitialSection := "hero"

  /** The linked sections of this revision, in display order. */
  const NavSections: seq<string> := ["about", "skills", "experience", "projects", "education", "contact"]

  /** This revision's desktop and mobile links use the same highlight rule
      as the navigation bar: with its six distinct links, at most one is
      highlighted, and the landing section highlights none. */
  lemma NavHighlighting(activeSection: string)
    ensures Navbar.HighlightCount(activeSection, NavSections) <= 1
    ensures Navbar.HighlightCount(InitialSection, NavSections) == 0
  {
    assert Navbar.Distinct(NavSections);
  }

  const LogoSuffix := " Portfolio"

  /** `name.split(' ')[0] + " Portfolio"`: the first space-free word of the
      name, then the suffix. */
  function LogoText(name: string): (r: string)
    ensures |LogoSuffix| <= |r| <= |name| + |LogoSuffix|
    ensures r[|r| - |LogoSuffix|..] == LogoSuffix
    ensures var w := r[..|r| - |LogoSuffix|];
      && w == name[..|w|]
      && (forall i | 0 <= i < |w| :: w[i] != ' ')
      && (|w| < |name| ==> name[|w|] == ' ')
  {
    var w := FirstWord(name);
    var r := w + LogoSuffix;
    assert r[..|r| - |LogoSuffix|] == w;
    assert r[|r| - |LogoSuffix|..] == LogoSuffix;
    r
  }

  lemma PortfolioLogo()
    ensures LogoText(PortfolioData.Name) == "Lav Portfolio"
  {
    assert FirstWord("Lav Pranjale") == "Lav";
  }

  /** The key that closes the modal. */
  const CloseKey := "Escape"

  class App {
    var isMenuOpen: bool
    var activeSection: string
    var selectedProject: Option<Project>
    ghost var observedIds: set<string>

    ghost predicate Valid()
      reads this
    {
      activeSection == InitialSection || activeSection in observedIds
    }

    constructor ()
      ensures Valid()
      ensures !isMenuOpen && activeSection == InitialSection && selectedProject == None
      ensures observedIds == {}
    {
      isMenuOpen := false;
      activeSection := InitialSection;
      selectedProject := None;
      observedIds := {};
    }

    /** The observer callback on one batch. */
    method OnIntersect(entries: seq<Entry>)
      requires Valid()
      modifies this`activeSection, this`observedIds
      ensures Valid()
      ensures activeSection == LastQualifying(entries).GetOr(old(activeSection))
      ensures observedIds == old(observedIds) + set i | 0 <= i < |entries| :: entries[i].id
    {
      ghost var ids := observedIds + set i | 0 <= i < |entries| :: entries[i].id;
      activeSection := ObserveEntries(activeSection, entries);
      observedIds := ids;
    }

    /** `scrollToSection`: for an id some element has (`existing`), scroll to
        it and close the menu; for an unknown id, do nothing. The active
        section is left to the observer. */
    method ScrollToSection(id: string, existing: set<string>) returns (scrolled: bool)
      modifies this`isMenuOpen
      ensures scrolled <==> id in existing
      ensures isMenuOpen == (old(isMenuOpen) && id !in existing)
    {
      scrolled := id in existing;
      if scrolled {
        isMenuOpen := false;
      }
    }

    /** The menu button. */
    method ToggleMenu()
      modifies this`isMenuOpen
      ensures isMenuOpen == !old(isMenuOpen)
    {
      isMenuOpen := !isMenuOpen;
    }

    method OpenProject(p: Project)
      modifies this`selectedProject
      ensures selectedProject == Some(p)
    {
      selectedProject := Some(p);
    }

    method CloseProject()
      modifies this`selectedProject
      ensures selectedProject == None
    {
      selectedProject := None;
    }

    /** The modal's keydown listener, registered while a project is shown:
        Escape closes the modal; every other key leaves it open. */
    method OnKeyDown(key: string)
      modifies this`selectedProject
      ensures selectedProject == if key == CloseKey then None else old(selectedProject)
    {
      if selectedProject.Some? && key == CloseKey {
        CloseProject();
      }
    }
  }
}
