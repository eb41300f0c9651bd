/**
 * The projects section: one card per project, each showing at most three of
 * its technology tags followed by a "+K more" tag for the rest, and a click
 * that hands the card's project to the caller.
 */
module Projects {
  import opened Wrappers
  import opened JsBuiltins
  import opened PortfolioData

  /** The number of tags a card shows before the "more" tag. */
  const ShownLimit: nat := 3

  /** `techStack.slice(0, 3)`: the first tags, in their original order. */
  function ShownTags(techStack: seq<string>): (r: seq<string>)
    ensures |r| <= ShownLimit
    ensures |r| == if |techStack| < ShownLimit then |techStack| else ShownLimit
    ensures r == techStack[..|r|]
  {
    if |techStack| <= ShownLimit then techStack else techStack[..ShownLimit]
  }

  /** How many tags the "+K more" tag stands for, when it is shown at all. */
  function HiddenCount(techStack: seq<string>): (r: Option<nat>)
    ensures r.Some? <==> |techStack| > ShownLimit
    ensures r.Some? ==> |ShownTags(techStack)| + r.value == |techStack|
    ensures r.Some? ==> r.value > 0
  {
    if |techStack| > ShownLimit then Some(|techStack| - ShownLimit) else None
  }

  /** `+{n}` followed by ` more`: a plus sign, the decimal text of `k`, and ` more`. */
  function MoreTagText(k: nat): (r: string)
    ensures |r| == 1 + |IntToString(k)| + |" more"|
    ensures r[0] == '+' && EndsWith(r, " more")
    ensures r[1..|r| - |" more"|] == IntToString(k)
  {
    var r := "+" + IntToString(k) + " more";
    assert r[|r| - 5..] == " more";
    assert r[1..|r| - 5] == IntToString(k);
    r
  }

  /** What one project card displays. */
  datatype ProjectCard = ProjectCard(title: string, role: string, tags: seq<string>, more: Option<string>)

  /** The card of one project: its name, its role, the shown tags, and the
      "+K more" text exactly when some tags are hidden. */
  function Card(p: Project): (c: ProjectCard)
    ensures c.title == p.name && c.role == p.role && c.tags == ShownTags(p.techStack)
    ensures c.more.Some? <==> |p.techStack| > ShownLimit
    ensures c.more.Some? ==> c.more.value == MoreTagText(|p.techStack| - ShownLimit)
  {
    ProjectCard(p.name, p.role, ShownTags(p.techStack),
      match HiddenCount(p.techStack)
      case Some(k) => Some(MoreTagText(k))
      case None => None)
  }

  /** The shown tags followed by the hidden ones are the whole stack, in order:
      nothing is dropped or reordered, only folded into the count. */
  lemma ShownThenHidden(techStack: seq<string>)
    ensures ShownTags(techStack) + techStack[|ShownTags(techStack)|..] == techStack
    ensures |techStack[|ShownTags(techStack)|..]| == HiddenCount(techStack).GetOr(0)
  {
    assert techStack == techStack[..|ShownTags(techStack)|] + techStack[|ShownTags(techStack)|..];
  }

  /** The number printed in a card's "+K more" tag reads back as the number
      of tags the card does not show. */
  lemma MoreTagReadsBack(p: Project)
    ensures Card(p).more.Some? ==>
      var t := Card(p).more.value;
      var digits := t[1..|t| - |" more"|];
      && AllDigits(digits) && DecimalValue(digits) == |p.techStack| - |ShownTags(p.techStack)|
  {
    if Card(p).more.Some? {
      var k := |p.techStack| - ShownLimit;
      assert Card(p).more.value == MoreTagText(k);
      DecimalRoundTrip(k);
      ShownThenHidden(p.techStack);
    }
  }

  /** `projects.map(...)`: one card per project, in order. */
  function ProjectCards(projects: seq<Project>): (r: seq<ProjectCard>)
    ensures |r| == |projects|
    ensures forall i | 0 <= i < |projects| :: r[i] == Card(projects[i])
  {
    seq(|projects|, i requires 0 <= i < |projects| => Card(projects[i]))
  }

  /** Clicking card `i` passes `projects[i]` to `onProjectClick`: the project
      handed over is the one whose title and tags the card shows. */
  function ClickedProject(projects: seq<Project>, i: nat): (p: Project)
    requires i < |projects|
    ensures p == projects[i] && ProjectCards(projects)[i] == Card(p)
    ensures ProjectCards(projects)[i].title == p.name
    ensures ProjectCards(projects)[i].tags == ShownTags(p.techStack)
  {
    projects[i]
  }

  /** Every card of the portfolio shows a "+K more" tag. */
  lemma EveryPortfolioCardShowsMore()
    ensures forall i | 0 <= i < |PortfolioData.Projects| :: ProjectCards(PortfolioData.Projects)[i].more.Some?
  {
    EveryProjectHasMoreThanThreeTags();
  }
}
