/** The section-navigation state machine of the smooth-scroll container:
    wheel and arrow-key steps between sections, anchor clicks, observer
    reports, the initial fragment, the unlock timer and the height rule. */
module SmoothScroll {
  import opened Common
  import opened Visibility

  /** A wheel event steps down for a positive `deltaY` and up otherwise. */
  function WheelDirection(deltaY: real): (dir: int)
    ensures dir == 1 || dir == -1
    ensures dir == 1 <==> deltaY > 0.0
  {
    if deltaY > 0.0 then 1 else -1
  }

  /** ArrowDown steps down, ArrowUp steps up; no other key is handled. */
  function KeyDirection(key: string): (dir: Option<int>)
    ensures dir.Some? <==> key == "ArrowDown" || key == "ArrowUp"
    ensures dir == Some(1) <==> key == "ArrowDown"
    ensures dir == Some(-1) <==> key == "ArrowUp"
  {
    if key == "ArrowDown" then Some(1)
    else if key == "ArrowUp" then Some(-1)
    else None
  }

  /** `Math.max(lo, Math.min(hi, x))`. */
  function Clamp(x: int, lo: int, hi: int): (r: int)
    requires lo <= hi
    ensures lo <= r <= hi
    ensures lo <= x <= hi ==> r == x
    ensures x < lo ==> r == lo
    ensures hi < x ==> r == hi
  {
    if x < lo then lo else if hi < x then hi else x
  }

  /** `activeSection ? sections.findIndex(s => s.id === activeSection) : -1`;
      the empty id is falsy, so it finds nothing either. */
  function CurrentIndex(sections: seq<string>, active: Option<string>): (i: int)
    ensures -1 <= i < |sections|
    ensures i == -1 <==> active.None? || active.value == "" || active.value !in sections
    ensures 0 <= i ==> active == Some(sections[i]) && sections[i] !in sections[..i]
  {
    if active.None? || active.value == "" then -1 else IndexOf(sections, active.value)
  }

  /** The index a step in direction `dir` moves to, or None when the step does
      nothing: no current section, or the clamped target is the current one. */
  function StepTarget(sections: seq<string>, active: Option<string>, dir: int): (t: Option<nat>)
    ensures t.Some? ==> t.value < |sections| && active.Some? && sections[t.value] != active.value
    ensures CurrentIndex(sections, active) == -1 ==> t.None?
    ensures t.Some? ==> t.value == Clamp(CurrentIndex(sections, active) + dir, 0, |sections| - 1)
    ensures t.Some? <==> CurrentIndex(sections, active) != -1
                         && sections[Clamp(CurrentIndex(sections, active) + dir, 0, |sections| - 1)] != active.value
  {
    var current := CurrentIndex(sections, active);
    if current == -1 then None
    else
      var target := Clamp(current + dir, 0, |sections| - 1);
      if sections[target] != active.value then Some(target) else None
  }

  /** Inside the list, a step moves exactly one section in its direction. */
  lemma StepMovesOne(sections: seq<string>, k: nat, dir: int)
    requires NoDuplicates(sections) && k < |sections| && sections[k] != ""
    requires dir == 1 || dir == -1
    requires 0 <= k + dir < |sections|
    ensures StepTarget(sections, Some(sections[k]), dir) == Some(k + dir)
  {
    IndexOfUnique(sections, k);
  }

  /** Stepping down from the last section or up from the first does nothing. */
  lemma StepAtEndsIsNoop(sections: seq<string>, dir: int)
    requires NoDuplicates(sections) && |sections| > 0
    requires dir == 1 || dir == -1
    ensures dir == 1 ==> StepTarget(sections, Some(sections[|sections| - 1]), dir).None?
    ensures dir == -1 ==> StepTarget(sections, Some(sections[0]), dir).None?
  {
    IndexOfUnique(sections, |sections| - 1);
    IndexOfUnique(sections, 0);
  }

  /** The height rule's footer height: `parseInt(value || '120', 10)`, where an
      unset `--footer-height` property reads as None. */
  function FooterHeight(property: Option<int>): (h: int)
    ensures property.None? ==> h == 120
    ensures property.Some? ==> h == property.value
  {
    if property.None? then 120 else property.value
  }

  /** Every section but `contact` gets `calc(100vh - h px)`, written here as
      `Some(h)`; `contact` keeps the height it had. */
  ghost predicate HeightsAdjusted(sections: seq<string>, before: seq<Option<int>>, after: seq<Option<int>>, h: int)
  {
    && |before| == |sections| && |after| == |sections|
    && forall i :: 0 <= i < |sections| ==>
         after[i] == if sections[i] != "contact" then Some(h) else before[i]
  }

  class ScrollContainer {
    /** Ids of the `section[id]` elements, in document order. */
    const sections: seq<string>
    /** Ids of every element `document.getElementById` can find. */
    const elementIds: set<string>

    var activeSection: Option<string>
    var isScrolling: bool
    /** `scrollTimeoutRef.current`: the token of the most recently scheduled unlock timer. */
    var scrollTimeout: Option<nat>
    /** The token the next `setTimeout` will return. */
    var nextTimer: nat
    /** The id waiting in the 100 ms timer of the initial fragment handling. */
    var pendingHydration: Option<string>
    /** `style.minHeight` of each section, None while unset. */
    var minHeights: seq<Option<int>>

    /** Every `pushState` / `replaceState` call, in order. */
    ghost var history: seq<HistoryOp>
    /** The `sectionId` of every `sectionchange` event dispatched, in order. */
    ghost var events: seq<string>

    /** Sections are elements, there is one height per section, and every
        token handed out is below the counter. */
    ghost predicate Consistent()
      reads this
    {
      && (forall id :: id in sections ==> id in elementIds)
      && |minHeights| == |sections|
      && (scrollTimeout.Some? ==> scrollTimeout.value < nextTimer)
    }

    /** In addition, the lock is only ever held with an unlock timer scheduled. */
    ghost predicate Valid()
      reads this
    {
      Consistent() && (isScrolling ==> scrollTimeout.Some?)
    }

    constructor (sections: seq<string>, elementIds: set<string>)
      requires forall id :: id in sections ==> id in elementIds
      ensures Valid()
      ensures this.sections == sections && this.elementIds == elementIds
      ensures activeSection.None? && !isScrolling && scrollTimeout.None? && nextTimer == 0
      ensures pendingHydration.None? && minHeights == seq(|sections|, _ => None)
      ensures history == [] && events == []
    {
      this.sections := sections;
      this.elementIds := elementIds;
      activeSection := None;
      isScrolling := false;
      scrollTimeout := None;
      nextTimer := 0;
      pendingHydration := None;
      minHeights := seq(|sections|, _ => None);
      history := [];
      events := [];
    }

    /** Clears the previous unlock timer and schedules a new one, whose token
        becomes the only one that can unlock. */
    method ScheduleUnlock()
      requires Consistent()
      modifies this
      ensures Valid()
      ensures scrollTimeout == Some(old(nextTimer)) && nextTimer == old(nextTimer) + 1
      ensures activeSection == old(activeSection) && isScrolling == old(isScrolling)
      ensures pendingHydration == old(pendingHydration) && minHeights == old(minHeights)
      ensures history == old(history) && events == old(events)
    {
      scrollTimeout := Some(nextTimer);
      nextTimer := nextTimer + 1;
    }

    /** The shared body of the wheel and key handlers. */
    method Step(dir: int)
      requires Valid()
      modifies this
      ensures Valid()
      ensures old(isScrolling) || StepTarget(sections, old(activeSection), dir).None? ==>
                unchanged(this)
      ensures !old(isScrolling) && StepTarget(sections, old(activeSection), dir).Some? ==>
                var id := sections[StepTarget(sections, old(activeSection), dir).value];
                && isScrolling
                && activeSection == Some(id)
                && history == old(history) + [Push(Fragment(id))]
                && events == old(events) + [id]
                && scrollTimeout == Some(old(nextTimer)) && nextTimer == old(nextTimer) + 1
                && pendingHydration == old(pendingHydration) && minHeights == old(minHeights)
    {
      if isScrolling {
        return;
      }
      var target := StepTarget(sections, activeSection, dir);
      if target.None? {
        return;
      }
      var id := sections[target.value];
      isScrolling := true;
      history := history + [Push(Fragment(id))];
      activeSection := Some(id);
      events := events + [id];
      ScheduleUnlock();
    }

    /** `handleWheel`; `admitted` is the 200 ms leading-edge throttle letting the call through. */
    method Wheel(deltaY: real, admitted: bool)
      requires Valid()
      modifies this
      ensures Valid()
      ensures !admitted || old(isScrolling) || StepTarget(sections, old(activeSection), WheelDirection(deltaY)).None? ==>
                unchanged(this)
      ensures admitted && !old(isScrolling) && StepTarget(sections, old(activeSection), WheelDirection(deltaY)).Some? ==>
                var id := sections[StepTarget(sections, old(activeSection), WheelDirection(deltaY)).value];
                && isScrolling
                && activeSection == Some(id)
                && history == old(history) + [Push(Fragment(id))]
                && events == old(events) + [id]
                && scrollTimeout == Some(old(nextTimer)) && nextTimer == old(nextTimer) + 1
                && pendingHydration == old(pendingHydration) && minHeights == old(minHeights)
    {
      if admitted {
        Step(WheelDirection(deltaY));
      }
    }

    /** `handleKeyDown`: only ArrowDown and ArrowUp step. */
    method KeyDown(key: string)
      requires Valid()
      modifies this
      ensures Valid()
      ensures KeyDirection(key).None? || old(isScrolling) || StepTarget(sections, old(activeSection), KeyDirection(key).value).None? ==>
                unchanged(this)
      ensures KeyDirection(key).Some? && !old(isScrolling) && StepTarget(sections, old(activeSection), KeyDirection(key).value).Some? ==>
                var id := sections[StepTarget(sections, old(activeSection), KeyDirection(key).value).value];
                && isScrolling
                && activeSection == Some(id)
                && history == old(history) + [Push(Fragment(id))]
                && events == old(events) + [id]
                && scrollTimeout == Some(old(nextTimer)) && nextTimer == old(nextTimer) + 1
                && pendingHydration == old(pendingHydration) && minHeights == old(minHeights)
    {
      if isScrolling {
        return;
      }
      var dir := KeyDirection(key);
      if dir.Some? {
        Step(dir.value);
      }
    }

    /** `handleAnchorClick`; `href` is the `href` of the closest `a[href^="#"]`
        around the click target, None when there is none. The lock is not
        consulted and no `sectionchange` is dispatched. */
    method AnchorClick(href: Option<string>)
      requires Valid()
      modifies this
      ensures Valid()
      ensures href.None? || !ElementFound(elementIds, FragmentId(href.value)) ==> unchanged(this)
      ensures href.Some? && ElementFound(elementIds, FragmentId(href.value)) ==>
                var id := FragmentId(href.value);
                && isScrolling
                && activeSection == Some(id)
                && history == old(history) + [Push(Fragment(id))]
                && events == old(events)
                && scrollTimeout == Some(old(nextTimer)) && nextTimer == old(nextTimer) + 1
                && pendingHydration == old(pendingHydration) && minHeights == old(minHeights)
    {
      if href.None? {
        return;
      }
      var id := FragmentId(href.value);
      if ElementFound(elementIds, id) {
        isScrolling := true;
        history := history + [Push(Fragment(id))];
        activeSection := Some(id);
        ScheduleUnlock();
      }
    }

    /** `handleIntersect`: the most visible section always becomes active;
        the URL is replaced and the event dispatched only when not scrolling. */
    method ObserverBatch(entries: seq<Entry>)
      requires Valid()
      modifies this
      ensures Valid()
      ensures MostVisible(entries).None? ==> unchanged(this)
      ensures MostVisible(entries).Some? ==>
                var id := MostVisible(entries).value.id;
                && activeSection == Some(id)
                && history == old(history) + (if old(isScrolling) then [] else [Replace(Fragment(id))])
                && events == old(events) + (if old(isScrolling) then [] else [id])
                && isScrolling == old(isScrolling)
                && scrollTimeout == old(scrollTimeout) && nextTimer == old(nextTimer)
                && pendingHydration == old(pendingHydration) && minHeights == old(minHeights)
    {
      var best := MostVisible(entries);
      if best.Some? {
        var id := best.value.id;
        activeSection := Some(id);
        if !isScrolling {
          history := history + [Replace(Fragment(id))];
          events := events + [id];
        }
      }
    }

    /** The initial fragment handling: an existing `#id` becomes active after
        a 100 ms timer, no hash selects the first section, and an unknown hash
        leaves the active section as it was. */
    method Hydrate(hash: string)
      requires Valid()
      modifies this
      ensures Valid()
      ensures hash != "" && ElementFound(elementIds, FragmentId(hash)) ==>
                pendingHydration == Some(FragmentId(hash)) && activeSection == old(activeSection)
      ensures hash != "" && !ElementFound(elementIds, FragmentId(hash)) ==>
                pendingHydration == old(pendingHydration) && activeSection == old(activeSection)
      ensures hash == "" ==>
                pendingHydration == old(pendingHydration)
                && activeSection == if |sections| > 0 then Some(sections[0]) else old(activeSection)
      ensures isScrolling == old(isScrolling) && scrollTimeout == old(scrollTimeout) && nextTimer == old(nextTimer)
      ensures minHeights == old(minHeights) && history == old(history) && events == old(events)
    {
      if hash != "" {
        var id := FragmentId(hash);
        if ElementFound(elementIds, id) {
          pendingHydration := Some(id);
        }
      } else if |sections| > 0 {
        activeSection := Some(sections[0]);
      }
    }

    /** The 100 ms timer of the initial fragment handling fires. */
    method HydrationTimerFire()
      requires Valid()
      modifies this
      ensures Valid()
      ensures old(pendingHydration).Some? ==> activeSection == old(pendingHydration) && pendingHydration.None?
      ensures old(pendingHydration).None? ==> activeSection == old(activeSection) && pendingHydration.None?
      ensures isScrolling == old(isScrolling) && scrollTimeout == old(scrollTimeout) && nextTimer == old(nextTimer)
      ensures minHeights == old(minHeights) && history == old(history) && events == old(events)
    {
      if pendingHydration.Some? {
        activeSection := pendingHydration;
        pendingHydration := None;
      }
    }

    /** An unlock timer fires; every earlier one was cleared, so only the most
        recently scheduled token releases the lock. */
    method TimerFire(token: nat)
      requires Valid()
      modifies this
      ensures Valid()
      ensures isScrolling == (old(isScrolling) && old(scrollTimeout) != Some(token))
      ensures activeSection == old(activeSection) && scrollTimeout == old(scrollTimeout) && nextTimer == old(nextTimer)
      ensures pendingHydration == old(pendingHydration) && minHeights == old(minHeights)
      ensures history == old(history) && events == old(events)
    {
      if scrollTimeout == Some(token) {
        isScrolling := false;
      }
    }

    /** `adjustSectionHeights`: the loop over the sections writing `minHeight`. */
    method AdjustSectionHeights(footerProperty: Option<int>)
      requires Valid()
      modifies this
      ensures Valid()
      ensures HeightsAdjusted(sections, old(minHeights), minHeights, FooterHeight(footerProperty))
      ensures activeSection == old(activeSection) && isScrolling == old(isScrolling)
      ensures scrollTimeout == old(scrollTimeout) && nextTimer == old(nextTimer)
      ensures pendingHydration == old(pendingHydration) && history == old(history) && events == old(events)
    {
      var h := FooterHeight(footerProperty);
      var i := 0;
      while i < |sections|
        invariant 0 <= i <= |sections| && |minHeights| == |sections|
        invariant forall k :: 0 <= k < i ==>
                    minHeights[k] == if sections[k] != "contact" then Some(h) else old(minHeights)[k]
        invariant forall k :: i <= k < |sections| ==> minHeights[k] == old(minHeights)[k]
        invariant activeSection == old(activeSection) && isScrolling == old(isScrolling)
        invariant scrollTimeout == old(scrollTimeout) && nextTimer == old(nextTimer)
        invariant pendingHydration == old(pendingHydration) && history == old(history) && events == old(events)
      {
        if sections[i] != "contact" {
          minHeights := minHeights[i := Some(h)];
        }
        i := i + 1;
      }
    }
  }

  /** Sections `[hero, about, projects]`, no hash: a step down activates
      `about` and pushes `#about`; an observer report for `projects` during the
      transition still moves the active section but writes no URL; a stale
      timer leaves the lock on and the latest one releases it. */
  method StepScenario()
  {
    var c := new ScrollContainer(["hero", "about", "projects"], {"hero", "about", "projects"});
    c.Hydrate("");
    assert c.activeSection == Some("hero");
    c.KeyDown("ArrowUp");
    assert c.activeSection == Some("hero") && c.history == [];
    c.KeyDown("ArrowDown");
    assert Fragment("about") == "#about";
    assert c.activeSection == Some("about") && c.isScrolling;
    assert c.history == [Push("#about")] && c.events == ["about"];
    var t := c.scrollTimeout.value;
    c.KeyDown("ArrowDown");
    assert c.activeSection == Some("about");
    c.ObserverBatch([Entry("about", true, 0.25), Entry("projects", true, 0.5)]);
    assert c.activeSection == Some("projects") && c.history == [Push("#about")];
    c.AnchorClick(Some("#hero"));
    assert c.activeSection == Some("hero") && c.events == ["about"];
    c.TimerFire(t);
    assert c.isScrolling;
    c.TimerFire(c.scrollTimeout.value);
    assert !c.isScrolling;
  }
}
