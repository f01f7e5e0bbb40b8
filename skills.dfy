/** The skills tabs: progress bars that fill when the section comes into view
    and refill whenever another tab is chosen. */
module Skills {
  import opened Common

  datatype Skill = Skill(name: string, level: nat)
  datatype Category = Category(id: string, name: string, skills: seq<Skill>)

  /** The categories shown on the page, in order. */
  const Categories: seq<Category> := [
    Category("frontend", "Frontend", [
      Skill("HTML/CSS", 95), Skill("JavaScript", 90), Skill("TypeScript", 85), Skill("React", 90),
      Skill("Next.js", 85), Skill("Three.js", 75), Skill("Tailwind CSS", 90)]),
    Category("design", "Design", [
      Skill("UI/UX Design", 85), Skill("Figma", 90), Skill("Adobe XD", 80),
      Skill("Responsive Design", 95), Skill("Animation", 75), Skill("Design Systems", 85)]),
    Category("backend", "Backend", [
      Skill("Node.js", 80), Skill("Express", 75), Skill("MongoDB", 70),
      Skill("Firebase", 85), Skill("RESTful APIs", 85), Skill("GraphQL", 70)]),
    Category("tools", "Tools & Others", [
      Skill("Git/GitHub", 90), Skill("Webpack", 75), Skill("Jest/Testing", 80),
      Skill("CI/CD", 70), Skill("Performance Optimization", 85), Skill("Accessibility", 90)])
  ]

  /** The tab selected on the first render. */
  const InitialTab: string := "frontend"

  /** `${category.id}-${skill.name}`. */
  function Key(categoryId: string, skillName: string): (key: string)
    ensures |key| == |categoryId| + 1 + |skillName|
    ensures key[..|categoryId|] == categoryId && key[|categoryId|] == '-'
    ensures key[|categoryId| + 1..] == skillName
  {
    categoryId + "-" + skillName
  }

  /** Within one category, different skill names give different keys. */
  lemma KeysDistinctWithinCategory(categoryId: string, a: string, b: string)
    requires a != b
    ensures Key(categoryId, a) != Key(categoryId, b)
  {
  }

  /** The keys of skills `0 .. n` of one category. */
  ghost function KeysOfFirst(categoryId: string, skills: seq<Skill>, n: nat): set<string>
    requires n <= |skills|
  {
    set j | 0 <= j < n :: Key(categoryId, skills[j].name)
  }

  /** The keys of every skill of categories `0 .. n`. */
  ghost function KeysUpTo(categories: seq<Category>, n: nat): set<string>
    requires n <= |categories|
  {
    set i, j | 0 <= i < n && 0 <= j < |categories[i].skills| :: Key(categories[i].id, categories[i].skills[j].name)
  }

  /** The keys of every skill of every category. */
  ghost function AllKeys(categories: seq<Category>): set<string>
  {
    set c, s | c in categories && s in c.skills :: Key(c.id, s.name)
  }

  lemma KeysUpToAll(categories: seq<Category>)
    ensures KeysUpTo(categories, |categories|) == AllKeys(categories)
  {
    forall k | k in AllKeys(categories) ensures k in KeysUpTo(categories, |categories|) {
      var c, s :| c in categories && s in c.skills && k == Key(c.id, s.name);
      var i :| 0 <= i < |categories| && categories[i] == c;
      var j :| 0 <= j < |c.skills| && c.skills[j] == s;
      assert Key(categories[i].id, categories[i].skills[j].name) == k;
    }
  }

  lemma KeysUpToNext(categories: seq<Category>, n: nat)
    requires n < |categories|
    ensures KeysUpTo(categories, n + 1)
            == KeysUpTo(categories, n) + KeysOfFirst(categories[n].id, categories[n].skills, |categories[n].skills|)
  {
  }

  /** The observer's nested `forEach`: a key for every skill of every category. */
  method AllSkillKeys(categories: seq<Category>) returns (keys: set<string>)
    ensures keys == AllKeys(categories)
  {
    keys := {};
    var i := 0;
    while i < |categories|
      invariant 0 <= i <= |categories|
      invariant keys == KeysUpTo(categories, i)
    {
      var category := categories[i];
      var j := 0;
      while j < |category.skills|
        invariant 0 <= j <= |category.skills|
        invariant keys == KeysUpTo(categories, i) + KeysOfFirst(category.id, category.skills, j)
      {
        keys := keys + {Key(category.id, category.skills[j].name)};
        j := j + 1;
      }
      KeysUpToNext(categories, i);
      i := i + 1;
    }
    KeysUpToAll(categories);
  }

  /** `skillCategories.find(c => c.id === tab)`. */
  function FindCategory(categories: seq<Category>, tab: string): (found: Option<nat>)
    ensures found.Some? ==> found.value < |categories| && categories[found.value].id == tab
    ensures found.Some? ==> forall i :: 0 <= i < found.value ==> categories[i].id != tab
    ensures found.None? ==> forall i :: 0 <= i < |categories| ==> categories[i].id != tab
  {
    if categories == [] then None
    else if categories[0].id == tab then Some(0)
    else match FindCategory(categories[1..], tab)
      case None => None
      case Some(i) => Some(i + 1)
  }

  /** The four tabs have distinct ids, and the initial tab is the first one. */
  lemma CategoriesTabs()
    ensures forall i, j :: 0 <= i < j < |Categories| ==> Categories[i].id != Categories[j].id
    ensures FindCategory(Categories, InitialTab) == Some(0)
  {
  }

  /** The keys the tab effect makes visible: those of the chosen tab's skills,
      none for an unknown tab. */
  ghost function TabKeys(categories: seq<Category>, tab: string): set<string>
  {
    match FindCategory(categories, tab)
    case None => {}
    case Some(i) => set s | s in categories[i].skills :: Key(tab, s.name)
  }

  /** The tab effect's timer body: find the tab, then a `forEach` over its skills. */
  method TabSkillKeys(categories: seq<Category>, tab: string) returns (keys: set<string>)
    ensures keys == TabKeys(categories, tab)
  {
    keys := {};
    var found := FindCategory(categories, tab);
    if found.None? {
      return;
    }
    var skills := categories[found.value].skills;
    var j := 0;
    while j < |skills|
      invariant 0 <= j <= |skills|
      invariant keys == KeysOfFirst(tab, skills, j)
    {
      keys := keys + {Key(tab, skills[j].name)};
      j := j + 1;
    }
    forall k | k in TabKeys(categories, tab) ensures k in keys {
      var s :| s in skills && k == Key(tab, s.name);
      var i :| 0 <= i < |skills| && skills[i] == s;
    }
  }

  /** A tab shows a subset of the keys the observer turns on. */
  lemma TabKeysWithinAll(categories: seq<Category>, tab: string)
    ensures TabKeys(categories, tab) <= AllKeys(categories)
  {
    var found := FindCategory(categories, tab);
    if found.Some? {
      var c := categories[found.value];
      forall k | k in TabKeys(categories, tab) ensures k in AllKeys(categories) {
        var s :| s in c.skills && k == Key(tab, s.name);
        assert k == Key(c.id, s.name);
      }
    }
  }

  /** A bar's `value`: the skill's level once its key is visible, 0 before. */
  function ProgressValue(visible: set<string>, categoryId: string, skill: Skill): (value: nat)
    ensures value == 0 || value == skill.level
    ensures skill.level > 0 ==> (value == skill.level <==> Key(categoryId, skill.name) in visible)
  {
    if Key(categoryId, skill.name) in visible then skill.level else 0
  }

  /** The bar at position `index` starts 100 ms after the one before it. */
  function TransitionDelay(index: nat): (ms: nat)
    ensures ms == 100 * index
  {
    index * 100
  }

  class SkillsPanel {
    var activeTab: string
    /** The keys of `visibleSkills` set to true. */
    var visibleSkills: set<string>
    /** Updates waiting in timers; the source never clears them, and the
        200 ms and 100 ms delays let them land in either order. */
    var pendingUpdates: seq<set<string>>

    /** The first render, with the tab effect's reset and its timer. */
    constructor ()
      ensures activeTab == InitialTab && visibleSkills == {}
      ensures pendingUpdates == [TabKeys(Categories, InitialTab)]
    {
      activeTab := InitialTab;
      visibleSkills := {};
      var keys := TabSkillKeys(Categories, InitialTab);
      pendingUpdates := [keys];
    }

    /** The observer callback on the first entry: an intersection schedules
        turning on every key. */
    method OnIntersect(isIntersecting: bool)
      modifies this
      ensures pendingUpdates == old(pendingUpdates) + if isIntersecting then [AllKeys(Categories)] else []
      ensures activeTab == old(activeTab) && visibleSkills == old(visibleSkills)
    {
      if isIntersecting {
        var keys := AllSkillKeys(Categories);
        pendingUpdates := pendingUpdates + [keys];
      }
    }

    /** `setActiveTab`; a new tab clears the bars and schedules its own keys. */
    method SetTab(tab: string)
      modifies this
      ensures tab == old(activeTab) ==> unchanged(this)
      ensures tab != old(activeTab) ==>
                && activeTab == tab && visibleSkills == {}
                && pendingUpdates == old(pendingUpdates) + [TabKeys(Categories, tab)]
    {
      if tab == activeTab {
        return;
      }
      activeTab := tab;
      visibleSkills := {};
      var keys := TabSkillKeys(Categories, tab);
      pendingUpdates := pendingUpdates + [keys];
    }

    /** Pending update `i` fires and replaces the visible keys. */
    method FireUpdate(i: nat)
      modifies this
      ensures i < |old(pendingUpdates)| ==>
                && visibleSkills == old(pendingUpdates)[i]
                && pendingUpdates == old(pendingUpdates)[..i] + old(pendingUpdates)[i + 1..]
      ensures i >= |old(pendingUpdates)| ==> unchanged(this)
      ensures activeTab == old(activeTab)
    {
      if i < |pendingUpdates| {
        visibleSkills := pendingUpdates[i];
        pendingUpdates := pendingUpdates[..i] + pendingUpdates[i + 1..];
      }
    }
  }
}
