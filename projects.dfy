/** The projects grid: tag buttons built from all projects' tags, a tag
    filter applied after a short fade, and the cards' badge and button rules. */
module Projects {
  import opened Common
  import ScrollReveal

  datatype Project = Project(
    id: string,
    title: string,
    tags: seq<string>,
    demo: Option<string>,
    source: Option<string>)

  /** The projects shown on the page, in order. */
  const Catalogue: seq<Project> := [
    Project("project1", "E-commerce Dashboard", ["React", "TypeScript", "Tailwind CSS", "Recharts", "Firebase"],
            Some("https://example.com/demo"), Some("https://github.com/example/project")),
    Project("project2", "Fitness Tracker App", ["Next.js", "MongoDB", "Auth0", "D3.js", "Vercel"],
            Some("https://example.com/demo"), None),
    Project("project3", "Weather Visualization", ["React", "Three.js", "OpenWeather API", "CSS Animations", "Netlify"],
            None, Some("https://github.com/example/project")),
    Project("project4", "Task Management System", ["Vue.js", "Vuex", "Node.js", "Express", "MongoDB", "Socket.io"],
            Some("https://example.com/demo"), Some("https://github.com/example/project")),
    Project("project5", "Recipe Finder", ["React Native", "Expo", "Firebase", "Spoonacular API"],
            Some("https://example.com/demo"), None),
    Project("project6", "Cryptocurrency Tracker", ["React", "Redux", "CoinGecko API", "Chart.js", "Netlify"],
            None, Some("https://github.com/example/project"))
  ]

  // ---------------------------------------------------------------- all tags

  /** `projects.flatMap(p => p.tags)`. */
  function AllTagOccurrences(projects: seq<Project>): (flat: seq<string>)
    ensures forall p, t :: p in projects && t in p.tags ==> t in flat
    ensures forall t :: t in flat ==> exists p :: p in projects && t in p.tags
  {
    if projects == [] then [] else projects[0].tags + AllTagOccurrences(projects[1..])
  }

  /** `Array.from(new Set(s))`: a set iterates in insertion order, so each
      value is kept where it first occurs. */
  function Dedup(s: seq<string>): (r: seq<string>)
    ensures |r| <= |s|
    ensures forall x :: x in r <==> x in s
    decreases |s|
  {
    if s == [] then []
    else
      var d := Dedup(s[..|s| - 1]);
      if s[|s| - 1] in d then d else d + [s[|s| - 1]]
  }

  /** `IndexOf` of a value that is present: the position of its first occurrence. */
  function FirstIndex(s: seq<string>, x: string): (i: nat)
    requires x in s
    ensures i < |s| && s[i] == x && x !in s[..i]
  {
    IndexOf(s, x)
  }

  lemma {:induction false} FirstIndexOfPrefix(s: seq<string>, x: string, y: string)
    requires y in s
    ensures y in s + [x] && FirstIndex(s + [x], y) == FirstIndex(s, y)
  {
    if s[0] != y {
      assert (s + [x])[1..] == s[1..] + [x];
      FirstIndexOfPrefix(s[1..], x, y);
    }
  }

  lemma FirstIndexOfNew(s: seq<string>, x: string)
    requires x !in s
    ensures FirstIndex(s + [x], x) == |s|
  {
  }

  /** Deduplication keeps every value exactly once, in order of first occurrence. */
  lemma {:induction false} DedupSpec(s: seq<string>)
    ensures forall x :: x in Dedup(s) <==> x in s
    ensures NoDuplicates(Dedup(s))
    ensures forall i, j :: 0 <= i < j < |Dedup(s)| ==> FirstIndex(s, Dedup(s)[i]) < FirstIndex(s, Dedup(s)[j])
    decreases |s|
  {
    if s != [] {
      var front, x := s[..|s| - 1], s[|s| - 1];
      assert s == front + [x];
      DedupSpec(front);
      var d := Dedup(front);
      forall y | y in front ensures FirstIndex(s, y) == FirstIndex(front, y) {
        FirstIndexOfPrefix(front, x, y);
      }
      if x !in d {
        FirstIndexOfNew(front, x);
        var r := d + [x];
        forall i, j | 0 <= i < j < |r| ensures FirstIndex(s, r[i]) < FirstIndex(s, r[j]) {
          if j == |d| {
            assert r[i] == d[i] && d[i] in front;
          } else {
            assert r[i] == d[i] && r[j] == d[j];
          }
        }
      }
    }
  }

  /** The tag buttons, in order: every tag of every project exactly once. */
  function AllTags(projects: seq<Project>): (tags: seq<string>)
    ensures forall t :: t in tags <==> exists p :: p in projects && t in p.tags
  {
    Dedup(AllTagOccurrences(projects))
  }

  /** The tag buttons list each tag that some project carries, once, in order
      of first occurrence. */
  lemma AllTagsSpec(projects: seq<Project>)
    ensures forall t :: t in AllTags(projects) <==> t in AllTagOccurrences(projects)
    ensures forall t :: t in AllTags(projects) <==> exists p :: p in projects && t in p.tags
    ensures NoDuplicates(AllTags(projects))
    ensures var flat := AllTagOccurrences(projects);
            forall i, j :: 0 <= i < j < |AllTags(projects)| ==>
              FirstIndex(flat, AllTags(projects)[i]) < FirstIndex(flat, AllTags(projects)[j])
  {
    DedupSpec(AllTagOccurrences(projects));
  }

  // ------------------------------------------------------------- tag filter

  /** Which of the page's projects carry the React tag. */
  lemma CatalogueReactCarriers()
    ensures "React" in Catalogue[0].tags && "React" in Catalogue[2].tags && "React" in Catalogue[5].tags
    ensures "React" !in Catalogue[1].tags && "React" !in Catalogue[3].tags && "React" !in Catalogue[4].tags
  {
    assert Catalogue[0].tags[0] == "React" && Catalogue[2].tags[0] == "React" && Catalogue[5].tags[0] == "React";
  }

  /** On the page's catalogue, the React button keeps the first, third and
      sixth project, in that order. */
  lemma CatalogueReactFilter()
    ensures VisibleFor(Catalogue, Some("React")) == [Catalogue[0], Catalogue[2], Catalogue[5]]
  {
    CatalogueReactCarriers();
    assert |Catalogue| == 6;
    FilterFirstThirdSixth(Catalogue, "React");
  }

  /** Over six projects where exactly the first, third and sixth carry the
      tag, the filter keeps those three in order. */
  lemma FilterFirstThirdSixth(c: seq<Project>, tag: string)
    requires |c| == 6
    requires tag in c[0].tags && tag in c[2].tags && tag in c[5].tags
    requires tag !in c[1].tags && tag !in c[3].tags && tag !in c[4].tags
    ensures WithTag(c, tag) == [c[0], c[2], c[5]]
  {
    assert c[5..][1..] == [];
    assert WithTag(c[5..], tag) == [c[5]];
    assert c[4..][1..] == c[5..];
    assert WithTag(c[4..], tag) == [c[5]];
    assert c[3..][1..] == c[4..];
    assert WithTag(c[3..], tag) == [c[5]];
    assert c[2..][1..] == c[3..];
    assert WithTag(c[2..], tag) == [c[2], c[5]];
    assert c[1..][1..] == c[2..];
    assert WithTag(c[1..], tag) == [c[2], c[5]];
  }

  /** `projects.filter(p => p.tags.includes(tag))`. */
  function WithTag(projects: seq<Project>, tag: string): (r: seq<Project>)
    ensures |r| <= |projects|
    ensures forall p :: p in r <==> p in projects && tag in p.tags
  {
    if projects == [] then []
    else (if tag in projects[0].tags then [projects[0]] else []) + WithTag(projects[1..], tag)
  }

  /** The filter keeps the original order: it distributes over concatenation. */
  lemma {:induction false} WithTagAppend(a: seq<Project>, b: seq<Project>, tag: string)
    ensures WithTag(a + b, tag) == WithTag(a, tag) + WithTag(b, tag)
  {
    if a == [] {
      assert a + b == b;
    } else {
      assert (a + b)[0] == a[0];
      assert (a + b)[1..] == a[1..] + b;
      WithTagAppend(a[1..], b, tag);
    }
  }

  /** The projects shown for a selection: those carrying the tag, or all of
      them when nothing is selected (the empty tag is falsy and selects all too). */
  function VisibleFor(projects: seq<Project>, selected: Option<string>): (r: seq<Project>)
    ensures selected.None? || selected.value == "" ==> r == projects
    ensures selected.Some? && selected.value != "" ==>
              forall p :: p in r <==> p in projects && selected.value in p.tags
  {
    if selected.Some? && selected.value != "" then WithTag(projects, selected.value) else projects
  }

  /** `handleTagClick`: the selected tag clears the selection, any other tag selects it. */
  function ToggleTag(selected: Option<string>, tag: string): (r: Option<string>)
    ensures r.None? <==> selected == Some(tag)
    ensures r.Some? ==> r.value == tag
  {
    if selected == Some(tag) then None else Some(tag)
  }

  /** Two clicks on the same tag restore "no selection" unless that tag was
      the one selected, which stays selected. */
  lemma ToggleTwice(selected: Option<string>, tag: string)
    ensures ToggleTag(ToggleTag(selected, tag), tag) == if selected == Some(tag) then selected else None
  {
  }

  // ------------------------------------------------------------------ cards

  /** The tag badges a card shows: the first three. */
  function ShownBadges(tags: seq<string>): (shown: seq<string>)
    ensures shown <= tags
    ensures |shown| == if |tags| < 3 then |tags| else 3
  {
    if |tags| < 3 then tags else tags[..3]
  }

  /** The `+n` badge: present only beyond three tags, counting the rest. */
  function OverflowBadge(tags: seq<string>): (n: Option<nat>)
    ensures n.Some? <==> |tags| > 3
    ensures n.Some? ==> n.value > 0 && |ShownBadges(tags)| + n.value == |tags|
    ensures n.None? ==> ShownBadges(tags) == tags
  {
    if |tags| > 3 then Some(|tags| - 3) else None
  }

  datatype CardButton = DemoButton(url: string) | SourceButton(url: string)

  /** `project.demo && ...`, `project.source && ...`: each button is there
      exactly when its URL is set and not empty, Demo first. */
  function CardButtons(p: Project): (buttons: seq<CardButton>)
    ensures |buttons| <= 2
    ensures forall u :: DemoButton(u) in buttons <==> p.demo == Some(u) && u != ""
    ensures forall u :: SourceButton(u) in buttons <==> p.source == Some(u) && u != ""
    ensures |buttons| == 2 ==> buttons[0].DemoButton? && buttons[1].SourceButton?
  {
    (if p.demo.Some? && p.demo.value != "" then [DemoButton(p.demo.value)] else [])
    + (if p.source.Some? && p.source.value != "" then [SourceButton(p.source.value)] else [])
  }

  /** The reveal props of card `index`: delayed by 100 ms per position, from
      the left at even positions and from the right at odd ones. */
  function CardReveal(index: nat): (props: ScrollReveal.RevealProps)
    ensures props.delay == 100 * index && props.duration == 600
    ensures props.direction == if index % 2 == 0 then ScrollReveal.Left else ScrollReveal.Right
    ensures props.distance == ScrollReveal.DefaultProps.distance && props.once == ScrollReveal.DefaultProps.once
    ensures props.threshold == ScrollReveal.DefaultProps.threshold
  {
    ScrollReveal.DefaultProps.(direction := if index % 2 == 0 then ScrollReveal.Left else ScrollReveal.Right,
                               duration := 600, delay := index * 100)
  }

  /** Neighbouring cards slide in from opposite sides, the later one 100 ms later. */
  lemma CardsAlternate(index: nat)
    ensures CardReveal(index).direction != CardReveal(index + 1).direction
    ensures CardReveal(index + 1).delay == CardReveal(index).delay + 100
  {
  }

  // ----------------------------------------------------------------- state

  class ProjectGrid {
    const projects: seq<Project>
    var selectedTag: Option<string>
    var visibleProjects: seq<Project>
    var isFiltering: bool
    /** The filter effect's pending 300 ms timer. */
    var pendingTimer: Option<nat>
    var nextTimer: nat

    /** A fade is in progress exactly while a timer is pending; once none is,
        the grid shows the projects for the selected tag. */
    ghost predicate Valid()
      reads this
    {
      && (isFiltering <==> pendingTimer.Some?)
      && (pendingTimer.Some? ==> pendingTimer.value < nextTimer)
      && (!isFiltering ==> visibleProjects == VisibleFor(projects, selectedTag))
    }

    /** The first render shows all projects, and the filter effect runs once on mount. */
    constructor (projects: seq<Project>)
      ensures Valid()
      ensures this.projects == projects && selectedTag.None? && visibleProjects == projects
      ensures isFiltering && pendingTimer == Some(0) && nextTimer == 1
    {
      this.projects := projects;
      selectedTag := None;
      visibleProjects := projects;
      isFiltering := true;
      pendingTimer := Some(0);
      nextTimer := 1;
    }

    /** `setSelectedTag`: a new value re-runs the filter effect, whose cleanup
        clears the pending timer; setting the same value changes nothing. */
    method SetSelectedTag(tag: Option<string>)
      requires Valid()
      modifies this
      ensures Valid()
      ensures tag == old(selectedTag) ==> unchanged(this)
      ensures tag != old(selectedTag) ==>
                && selectedTag == tag && isFiltering
                && pendingTimer == Some(old(nextTimer)) && nextTimer == old(nextTimer) + 1
                && visibleProjects == old(visibleProjects)
    {
      if tag == selectedTag {
        return;
      }
      selectedTag := tag;
      isFiltering := true;
      pendingTimer := Some(nextTimer);
      nextTimer := nextTimer + 1;
    }

    /** A click on a tag button. */
    method TagClick(tag: string)
      requires Valid()
      modifies this
      ensures Valid()
      ensures selectedTag == ToggleTag(old(selectedTag), tag) && selectedTag != old(selectedTag)
      ensures isFiltering && pendingTimer == Some(old(nextTimer)) && nextTimer == old(nextTimer) + 1
      ensures visibleProjects == old(visibleProjects)
    {
      SetSelectedTag(ToggleTag(selectedTag, tag));
    }

    /** The "All" button. */
    method AllClick()
      requires Valid()
      modifies this
      ensures Valid()
      ensures selectedTag.None?
      ensures old(selectedTag).None? ==> unchanged(this)
      ensures old(selectedTag).Some? ==>
                && isFiltering && pendingTimer == Some(old(nextTimer)) && nextTimer == old(nextTimer) + 1
                && visibleProjects == old(visibleProjects)
    {
      SetSelectedTag(None);
    }

    /** A filter timer fires; a cleared one does nothing. */
    method FilterTimerFire(token: nat)
      requires Valid()
      modifies this
      ensures Valid()
      ensures old(pendingTimer) == Some(token) ==>
                && visibleProjects == VisibleFor(projects, selectedTag)
                && !isFiltering && pendingTimer.None?
      ensures old(pendingTimer) != Some(token) ==> unchanged(this)
      ensures selectedTag == old(selectedTag) && nextTimer == old(nextTimer)
    {
      if pendingTimer == Some(token) {
        visibleProjects := VisibleFor(projects, selectedTag);
        isFiltering := false;
        pendingTimer := None;
      }
    }
  }
}
