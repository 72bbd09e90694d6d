/**
 * The project showcase: the shipped project list, the category buttons, the
 * `activeFilter` they set and the selection of projects that is shown.
 */
module ProjectsSection {
  import opened Wrappers
  import opened ProjectCard

  const FollowUpTitle: string := "FollowUp AI"

  /** The filter buttons, in the order they are rendered. */
  const Categories: seq<string> := ["All", "Full-Stack", "AI/ML", "Aerospace", "Healthcare"]

  /** The projects the section ships with, in display order. */
  const Projects: seq<ProjectCardProps> := [
    ProjectCardProps(
      FollowUpTitle, "Technical Co-Founder", "2025–Present",
      "HIPAA-compliant post-op patient care platform with multi-agent LLM backend and real-time mobile frontend",
      ["LLaMA 3", "LangChain", "CrewAI", "AWS Lambda", "DynamoDB", "FastAPI", "React", "React Native", "Expo"],
      None, Some("https://followupai.netlify.app/"), Some(3), Some(Active), Some("/followup.png"), "Healthcare"),
    ProjectCardProps(
      "Stock Trend Prediction Pipeline", "ML Engineer", "Spring 2025",
      "Built full end-to-end ML pipeline using Random Forests to predict directional movement of S&P 500 stocks",
      ["Python", "PostgreSQL", "pandas", "yfinance", "scikit-learn", "Random Forest"],
      Some("https://github.com/ompatel/stock-prediction"), None, None, Some(Completed), Some("/python.jpg"), "AI/ML"),
    ProjectCardProps(
      "Yellow Jacket Space Program", "Rocket Controls Lead", "2024–Present",
      "Led 12-person controls team to design software systems and test automation for liquid bipropellant rocket targeting 100 km altitude",
      ["C++", "Python", "MATLAB", "SolidWorks", "Real-time Systems"],
      None, None, Some(12), Some(Ongoing), Some("/yjsp.jpg"), "Aerospace"),
    ProjectCardProps(
      "Ben T. Zinn Combustion Lab", "Research Assistant", "2024–2025",
      "Designed and tested custom combustion test rig to study high-altitude ignition for APUs (auxiliary power units)",
      ["SolidWorks", "MATLAB", "Data Acquisition", "Sensor Integration"],
      None, None, None, Some(Completed), Some("/gt.jpg"), "Aerospace"),
    ProjectCardProps(
      "GTRI Ramjet Facility Research", "Research Intern", "Summer 2023",
      "Designed experimental supersonic inlet test setup for solid-fueled ramjet under faculty mentorship",
      ["ANSYS", "CFD", "MATLAB", "Experimental Design"],
      None, None, None, Some(Completed), Some("/gtri.jpg"), "Aerospace")
  ]

  /** `a` is `b` with some elements left out, the rest in their original order. */
  ghost predicate IsSubsequence(a: seq<ProjectCardProps>, b: seq<ProjectCardProps>)
    decreases |b|
  {
    if a == [] then true
    else if b == [] then false
    else if a[0] == b[0] then IsSubsequence(a[1..], b[1..])
    else IsSubsequence(a, b[1..])
  }

  lemma {:induction false} SubsequenceOfItself(b: seq<ProjectCardProps>)
    ensures IsSubsequence(b, b)
    decreases |b|
  {
    if b != [] {
      SubsequenceOfItself(b[1..]);
    }
  }

  /** The projects of `ps` that `keep` accepts, in their order: JavaScript's `Array.prototype.filter`. */
  function Where(ps: seq<ProjectCardProps>, keep: ProjectCardProps -> bool): (r: seq<ProjectCardProps>)
    ensures IsSubsequence(r, ps)
    ensures forall p :: multiset(r)[p] == if keep(p) then multiset(ps)[p] else 0
    decreases |ps|
  {
    if ps == [] then []
    else
      assert ps == [ps[0]] + ps[1..];
      var rest := Where(ps[1..], keep);
      if keep(ps[0]) then [ps[0]] + rest else rest
  }

  predicate IsFollowUp(p: ProjectCardProps) {
    p.title == FollowUpTitle
  }

  predicate IsAiMlOrFollowUp(p: ProjectCardProps) {
    p.category == "AI/ML" || p.title == FollowUpTitle
  }

  function CategoryIs(category: string): ProjectCardProps -> bool {
    (p: ProjectCardProps) => p.category == category
  }

  /** The projects shown under `activeFilter`. */
  function Filter(activeFilter: string, ps: seq<ProjectCardProps>): seq<ProjectCardProps> {
    if activeFilter == "All" then ps
    else if activeFilter == "Healthcare" then Where(ps, IsFollowUp)
    else if activeFilter == "AI/ML" then Where(ps, IsAiMlOrFollowUp)
    else if activeFilter == "Full-Stack" then Where(ps, IsFollowUp)
    else Where(ps, CategoryIs(activeFilter))
  }

  /**
   * Which projects a filter selects, written flat rather than as the
   * component's chain of conditionals.
   */
  predicate Selects(activeFilter: string, p: ProjectCardProps) {
    || activeFilter == "All"
    || ((activeFilter == "Healthcare" || activeFilter == "Full-Stack") && p.title == FollowUpTitle)
    || (activeFilter == "AI/ML" && (p.category == "AI/ML" || p.title == FollowUpTitle))
    || (activeFilter !in {"All", "Healthcare", "AI/ML", "Full-Stack"} && p.category == activeFilter)
  }

  /**
   * The result of every filter is exactly the projects it selects: it keeps
   * their order, and holds each selected project as often as the input does
   * and no other project at all.
   */
  lemma FilterMeaning(activeFilter: string, ps: seq<ProjectCardProps>)
    ensures IsSubsequence(Filter(activeFilter, ps), ps)
    ensures forall p :: multiset(Filter(activeFilter, ps))[p] == if Selects(activeFilter, p) then multiset(ps)[p] else 0
  {
    if activeFilter == "All" {
      SubsequenceOfItself(ps);
    }
  }

  /** `All` shows the whole list as it is. */
  lemma AllShowsEverything(ps: seq<ProjectCardProps>)
    ensures Filter("All", ps) == ps
  {
  }

  /** `Healthcare` and `Full-Stack` both show exactly the FollowUp AI entries. */
  lemma HealthcareIsFullStack(ps: seq<ProjectCardProps>)
    ensures Filter("Healthcare", ps) == Filter("Full-Stack", ps)
    ensures forall p :: p in Filter("Healthcare", ps) <==> p in ps && p.title == FollowUpTitle
  {
    FilterMeaning("Healthcare", ps);
    forall p ensures p in Filter("Healthcare", ps) <==> p in ps && p.title == FollowUpTitle {
      assert p in Filter("Healthcare", ps) <==> multiset(Filter("Healthcare", ps))[p] > 0;
    }
  }

  lemma {:induction false} WhereIdempotent(ps: seq<ProjectCardProps>, keep: ProjectCardProps -> bool)
    ensures Where(Where(ps, keep), keep) == Where(ps, keep)
    decreases |ps|
  {
    if ps != [] {
      WhereIdempotent(ps[1..], keep);
    }
  }

  /** Filtering the shown list again with the same filter changes nothing. */
  lemma FilterIdempotent(activeFilter: string, ps: seq<ProjectCardProps>)
    ensures Filter(activeFilter, Filter(activeFilter, ps)) == Filter(activeFilter, ps)
  {
    if activeFilter == "Healthcare" || activeFilter == "Full-Stack" {
      WhereIdempotent(ps, IsFollowUp);
    } else if activeFilter == "AI/ML" {
      WhereIdempotent(ps, IsAiMlOrFollowUp);
    } else if activeFilter != "All" {
      WhereIdempotent(ps, CategoryIs(activeFilter));
    }
  }

  /** The "No projects found" message shows exactly when no project is selected. */
  function ShowsEmptyMessage(activeFilter: string, ps: seq<ProjectCardProps>): (shown: bool)
    ensures shown <==> forall k :: 0 <= k < |ps| ==> !Selects(activeFilter, ps[k])
  {
    FilterMeaning(activeFilter, ps);
    var r := Filter(activeFilter, ps);
    if |r| == 0 then
      assert forall k :: 0 <= k < |ps| ==> multiset(r)[ps[k]] == 0;
      true
    else
      assert multiset(r)[r[0]] > 0;
      false
  }

  /** With the shipped projects, no filter button leads to an empty list. */
  lemma EveryCategoryShowsSomething(c: nat)
    requires c < |Categories|
    ensures !ShowsEmptyMessage(Categories[c], Projects)
    ensures Filter(Categories[c], Projects) != []
  {
    var filter := Categories[c];
    var j := if filter == "AI/ML" then 1 else if filter == "Aerospace" then 2 else 0;
    assert Selects(filter, Projects[j]);
  }

  class Section {
    var activeFilter: string

    /** The section mounts showing every project. */
    constructor ()
      ensures activeFilter == "All"
      ensures Visible() == Projects
    {
      activeFilter := "All";
    }

    function Visible(): seq<ProjectCardProps>
      reads this
    {
      Filter(activeFilter, Projects)
    }

    /** Clicking filter button `c` makes its category the active filter, and nothing else. */
    method ClickCategory(c: nat)
      requires c < |Categories|
      modifies this
      ensures activeFilter == Categories[c]
      ensures Visible() != []
    {
      activeFilter := Categories[c];
      EveryCategoryShowsSomething(c);
    }
  }
}
