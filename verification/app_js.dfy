/**
 * The JavaScript revision of the page's root component: the active section
 * fed by the observer, scrolling to a section, and the selected project
 * shown in the modal.
 */
module AppJs {
  import opened Wrappers
  import opened SectionObserver
  import opened PortfolioData

  /** The section active when the page loads. */
  const InitialSection := "hero"

  class App {
    var activeSection: string
    var selectedProject: Option<Project>
    /** Every id an observer entry has carried so far. */
    ghost var observedIds: set<string>

    /** The active section is the landing one or an id some entry carried. */
    ghost predicate Valid()
      reads this
    {
      activeSection == InitialSection || activeSection in observedIds
    }

    constructor ()
      ensures Valid()
      ensures activeSection == InitialSection && selectedProject == None && observedIds == {}
    {
      activeSection := InitialSection;
      selectedProject := None;
      observedIds := {};
    }

    /** The observer callback on one batch: the last intersecting entry with
        an id becomes active; a batch with none leaves it unchanged. */
    method OnIntersect(entries: seq<Entry>)
      requires Valid()
      modifies this`activeSection, this`observedIds
      ensures Valid()
      ensures activeSection == LastQualifying(entries).GetOr(old(activeSection))
      ensures observedIds == old(observedIds) + set i | 0 <= i < |entries| :: entries[i].id
    {
      ghost var ids := observedIds + set i | 0 <= i < |entries| :: entries[i].id;
      activeSection := ObserveEntries(activeSection, entries);
      observedIds := ids;
    }

    /** `scrollToSection`: scrolls when an element has the id (`existing`
        stands for the page's ids), and changes no state either way. */
    method ScrollToSection(id: string, existing: set<string>) returns (scrolled: bool)
      ensures scrolled <==> id in existing
    {
      scrolled := id in existing;
    }

    /** A project card's click: `setSelectedProject(project)`. */
    method OpenProject(p: Project)
      modifies this`selectedProject
      ensures selectedProject == Some(p)
    {
      selectedProject := Some(p);
    }

    /** The modal's `onClose`: `setSelectedProject(null)`. */
    method CloseProject()
      modifies this`selectedProject
      ensures selectedProject == None
    {
      selectedProject := None;
    }

    /** The modal's keydown listener, registered while a project is shown:
        Escape closes the modal; every other key leaves it open. */
    method OnKeyDown(key: string)
      modifies this`selectedProject
      ensures selectedProject == if key == "Escape" then None else old(selectedProject)
    {
      if selectedProject.Some? && key == "Escape" {
        CloseProject();
      }
    }
  }
}
