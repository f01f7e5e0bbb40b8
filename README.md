# Portfolio site interaction model

A Dafny model of the interactive behaviour of a one-page portfolio site built with
React. The page is a column of full-height `section[id]` elements inside a
scroll-snapping container. The model keeps the state each component holds and the
rules that change it, and leaves out rendering and the browser.

- **Smooth-scroll container.** This is the section-navigation state machine:
  - the ordered section ids, the active section, the `isScrolling` lock and the token of the latest unlock timer;
  - wheel and ArrowUp/ArrowDown steps, anchor clicks, observer batches, the initial fragment, timer firings and the minimum-height rule;
  - two ghost logs: `pushState`/`replaceState` calls and `sectionchange` events.
- **Intersection selection.** The container and the section indicator share one rule. It keeps the intersecting entries and sorts them by descending ratio with a stable sort. The first one wins, which is the highest ratio, with the earliest entry winning ties.
- **Section indicator:** the labels derived from the ids, hydration from the hash, dot clicks and the single highlighted dot.
- **Navigation header:** the last intersecting entry wins, link highlighting, the scrolled look, nav clicks and the mobile menu.
- **Typewriter:**
  - the four-way typing/full/deleting/empty transition;
  - the invariant that the shown text is a prefix of the current text;
  - the fact that a whole cycle of `2n + 2` ticks moves on to the next text.
- **Projects:** the deduplicated tag list, the tag filter and toggle, the cancellable 300 ms filter timer, badge overflow, the card buttons and the alternating card reveals.
- **Scroll reveal:** the observer rule with `once`, the direction-to-transform map and the style values.
- **Skills:** the visible-key sets built on intersection and on a tab change, the progress values and the bar delays.
- **Theme toggle:** the animation lock across two timers, the next-theme rule, the unmounted placeholder and the icon choice.

How browser services appear in the model:

- **Timers** are explicit "fire" methods. Supersession (`clearTimeout` before a new `setTimeout`) is modelled by tokens: each class keeps a counter of handed-out tokens and the token of the live timer.
- **`document.getElementById`** becomes a constant set of existing element ids. The empty id is never found.
- **Observer batches** are sequences of `(id, isIntersecting, ratio)` with real ratios.

Three behaviours of the container's code are worth stating on their own:

- an observer report updates the active section even while the container is scrolling, and only the URL write and the event are suppressed;
- a hash naming no element leaves the active section as it was (null at load) rather than falling back to the first section;
- an anchor click does not consult the lock and dispatches no `sectionchange` event.

## Model

| member | source | states |
|---|---|---|
| Common.Fragment | components/smooth-scroll-container.tsx:93 | the written fragment is `#` followed by the id, one character longer |
| Common.FragmentId | components/smooth-scroll-container.tsx:211 | a non-empty hash is its first character followed by the id read from it; the empty hash reads as the empty id |
| Common.FragmentRoundTrip | components/smooth-scroll-container.tsx:93 | the id read back from a written fragment `#id` is `id` |
| Common.FragmentOfHash | components/smooth-scroll-container.tsx:211 | a hash starting with `#` is the fragment of the id read from it |
| Common.IndexOf | components/smooth-scroll-container.tsx:77 | `findIndex` gives -1 exactly when the id is absent, and otherwise the first position holding it |
| Common.IndexOfUnique | components/smooth-scroll-container.tsx:77 | with unique section ids, the index found for the id at position k is k |
| Common.ElementFound | components/smooth-scroll-container.tsx:180 | `getElementById` finds the id exactly when it is non-empty and an element carries it; the container's anchor click and hydration, the indicator's dot click and the header's nav click are all stated with it |
| Visibility.Intersecting | components/smooth-scroll-container.tsx:39-40 | the filter keeps exactly the intersecting entries |
| Visibility.InsertByRatio | components/smooth-scroll-container.tsx:41 | inserting an earlier entry keeps every entry and puts it first unless the current head has a strictly larger ratio |
| Visibility.SortByRatio | components/smooth-scroll-container.tsx:41 | the sort is a permutation of the batch |
| Visibility.InsertKeepsSorted | components/smooth-scroll-container.tsx:41 | inserting into a descending-ratio list keeps it in descending order |
| Visibility.SortByRatioSorts | components/smooth-scroll-container.tsx:41 | the comparator sort yields non-increasing ratios and is a permutation |
| Visibility.MostVisible | components/smooth-scroll-container.tsx:39-44 | no selection exactly when nothing intersects; a selection is an intersecting entry of the batch; the full rule (highest ratio, earliest on a tie) is MostVisibleIsFirstMaximum |
| Visibility.MostVisibleIsFirstMaximum | components/smooth-scroll-container.tsx:39-45 | no selection exactly when nothing intersects; otherwise the selected entry intersects, has the largest ratio, and every earlier intersecting entry has a strictly smaller one |
| Visibility.FirstMaximumIsUnique | components/section-indicator.tsx:33-38 | the selection rule determines a single position of the batch |
| SmoothScroll.WheelDirection | components/smooth-scroll-container.tsx:76 | a wheel step is +1 exactly when deltaY is positive and -1 otherwise |
| SmoothScroll.KeyDirection | components/smooth-scroll-container.tsx:120-123 | ArrowDown gives +1, ArrowUp gives -1, and no other key steps |
| SmoothScroll.Clamp | components/smooth-scroll-container.tsx:81 | the target index lies in the section range, equals the unclamped index inside it and the nearest end outside it |
| SmoothScroll.CurrentIndex | components/smooth-scroll-container.tsx:77-79 | -1 exactly when the active section is null, empty or not a section; otherwise the first position of the active id |
| SmoothScroll.StepTarget | components/smooth-scroll-container.tsx:77-84 | a step has a target exactly when it starts from a known section and the clamped neighbour differs from the active section, and the target is that neighbour |
| SmoothScroll.StepMovesOne | components/smooth-scroll-container.tsx:81-84 | inside the list a step moves to the adjacent section in its direction |
| SmoothScroll.StepAtEndsIsNoop | components/smooth-scroll-container.tsx:81-84 | stepping down from the last section or up from the first has no target |
| SmoothScroll.FooterHeight | components/smooth-scroll-container.tsx:243 | an unset `--footer-height` reads as 120, a set one as its value |
| SmoothScroll.ScrollContainer.constructor | components/smooth-scroll-container.tsx:16-19 | nothing active, unlocked, no timer, empty logs, no heights set |
| SmoothScroll.ScrollContainer.ScheduleUnlock | components/smooth-scroll-container.tsx:103-109 | the previous timer is replaced by a fresh token, which becomes the only one that can unlock |
| SmoothScroll.ScrollContainer.Step | components/smooth-scroll-container.tsx:72-110 | locked or targetless steps change nothing; a step sets the lock and the active section, pushes exactly one `#target`, dispatches exactly one event for it and schedules a fresh timer |
| SmoothScroll.ScrollContainer.Wheel | components/smooth-scroll-container.tsx:70-114 | an admitted wheel event is a step in the wheel's direction; a throttled one changes nothing |
| SmoothScroll.ScrollContainer.KeyDown | components/smooth-scroll-container.tsx:117-159 | only ArrowDown and ArrowUp step, and only while unlocked |
| SmoothScroll.ScrollContainer.AnchorClick | components/smooth-scroll-container.tsx:171-205 | an anchor to an existing element locks, activates the id, pushes `#id` and schedules a fresh timer, whatever the lock, with no event; anything else changes nothing |
| SmoothScroll.ScrollContainer.ObserverBatch | components/smooth-scroll-container.tsx:37-56 | the most visible entry always becomes active; the URL replace and the event happen only while unlocked; with nothing intersecting nothing changes |
| SmoothScroll.ScrollContainer.Hydrate | components/smooth-scroll-container.tsx:210-223 | a hash naming an element schedules that id; no hash activates the first section; an unknown hash leaves the active section unchanged |
| SmoothScroll.ScrollContainer.HydrationTimerFire | components/smooth-scroll-container.tsx:215-218 | the scheduled id becomes active |
| SmoothScroll.ScrollContainer.TimerFire | components/smooth-scroll-container.tsx:107-109 | only the most recently scheduled token releases the lock; stale tokens change nothing |
| SmoothScroll.ScrollContainer.AdjustSectionHeights | components/smooth-scroll-container.tsx:241-251 | every section except `contact` gets the footer-adjusted minimum height; `contact` keeps its own |
| SectionIndicator.UpperChar | components/section-indicator.tsx:17 | lower-case ASCII letters map to their upper-case letters, every other character to itself |
| SectionIndicator.Capitalize | components/section-indicator.tsx:17 | the label has the id's length, its first character upper-cased and the rest unchanged |
| SectionIndicator.SectionLabels | components/section-indicator.tsx:15-18 | one entry per section in document order, each with its id and capitalised label |
| SectionIndicator.Ids | components/section-indicator.tsx:60 | the ids of the registered sections, position by position |
| SectionIndicator.LabelsKeepIds | components/section-indicator.tsx:15-18 | the label list's ids are exactly the section ids, in order |
| SectionIndicator.DotHighlighted | components/section-indicator.tsx:122 | dot i is highlighted exactly when its id is the active section; AtMostOneDot bounds how many are |
| SectionIndicator.AtMostOneDot | components/section-indicator.tsx:122-124 | with unique ids at most one dot is highlighted |
| SectionIndicator.Indicator.constructor | components/section-indicator.tsx:7-8 | no sections and nothing active |
| SectionIndicator.Indicator.Mount | components/section-indicator.tsx:13-65 | registers the labelled sections (rendering nothing when there are none); a hash naming a registered id activates it, an unregistered one changes nothing, no hash activates the first section |
| SectionIndicator.Indicator.Renders | components/section-indicator.tsx:108 | the indicator renders only with at least one registered section; Mount's contract ties this to the sections found |
| SectionIndicator.Indicator.ObserverBatch | components/section-indicator.tsx:31-40 | the most visible entry becomes active; with nothing intersecting the active section is unchanged |
| SectionIndicator.Indicator.ScrollToSection | components/section-indicator.tsx:97-106 | an existing id becomes active and `#id` is pushed; a missing id changes nothing |
| Typewriter.SliceTo | components/typewriter.tsx:53 | `slice(0, n)` is a prefix of length min(n, length) |
| Typewriter.Advance | components/typewriter.tsx:25-56 | a tick keeps the index in range and the prefix invariant, never turns blinking back on, and moves the index (modulo the count) only when deleting reaches the empty text |
| Typewriter.TypingAppendsNext | components/typewriter.tsx:49-54 | a typing tick appends exactly the next character of the full text and stops the blinking |
| Typewriter.DeletingDropsLast | components/typewriter.tsx:36-39 | a deleting tick removes exactly the last character |
| Typewriter.ModeSwitches | components/typewriter.tsx:28-48 | the full text while typing switches to deleting with the text unchanged; the empty text while deleting switches to typing the next text |
| Typewriter.Run | components/typewriter.tsx:25-59 | any number of ticks keeps the index in range |
| Typewriter.RunKeepsInv | components/typewriter.tsx:25-59 | the shown text stays a prefix of the current text after any number of ticks |
| Typewriter.BlinkingIsMonotone | components/typewriter.tsx:23-51 | once blinking stops it never restarts |
| Typewriter.TypingCompletes | components/typewriter.tsx:49-54 | typing from a prefix reaches the full text in as many ticks as characters are missing |
| Typewriter.DeletingCompletes | components/typewriter.tsx:36-39 | deleting reaches the empty text in as many ticks as it has characters |
| Typewriter.RunAdds | components/typewriter.tsx:25-59 | a ticks followed by b ticks are a + b ticks |
| Typewriter.FullCycle | components/typewriter.tsx:28-56 | from an empty text, 2n + 2 ticks type, switch, delete and move on to the next text |
| Typewriter.TypewriterView.constructor | components/typewriter.tsx:20-23 | the first text, nothing shown, typing, blinking |
| Typewriter.TypewriterView.Tick | components/typewriter.tsx:25-59 | one tick of the component is the transition function and keeps the invariant |
| ScrollReveal.TransformFor | components/scroll-reveal.tsx:60-76 | `none` once visible; while hidden, vertical for up and down, horizontal for left and right, `+distance` for up and left, `-distance` for down and right |
| ScrollReveal.StyleFor | components/scroll-reveal.tsx:78-83 | opacity 1 exactly when visible, otherwise 0; one duration for both transitions; the delay as transition delay |
| ScrollReveal.DefaultProps | components/scroll-reveal.tsx:20-25 | the defaults when a prop is omitted: up, 800 ms, no delay, 50 px, threshold 0.1, once |
| ScrollReveal.DefaultHiddenStyle | components/scroll-reveal.tsx:20-25 | with the defaults, a hidden element is 50 px low at opacity 0 and a visible one in place at opacity 1, both with 800 ms transitions and no delay |
| ScrollReveal.Reveal.constructor | components/scroll-reveal.tsx:27-50 | hidden and observed |
| ScrollReveal.Reveal.OnEntry | components/scroll-reveal.tsx:32-41 | an intersection shows the element and with `once` stops observing; leaving hides it only without `once`; with `once` visibility never reverts |
| Projects.Catalogue | components/projects.tsx:23-80 | the six projects of the page with their tags and links, in order |
| Projects.CatalogueReactCarriers | components/projects.tsx:23-80 | the first, third and sixth project carry the React tag and the others do not |
| Projects.AllTagOccurrences | components/projects.tsx:83 | the flattened list holds exactly the tags some project carries |
| Projects.Dedup | components/projects.tsx:83 | no longer than its input and with exactly the same members; DedupSpec adds uniqueness and first-occurrence order |
| Projects.DedupSpec | components/projects.tsx:83 | deduplication keeps every value exactly once, in order of first occurrence |
| Projects.AllTags | components/projects.tsx:83 | a tag is listed exactly when some project carries it; AllTagsSpec adds uniqueness and order |
| Projects.AllTagsSpec | components/projects.tsx:83 | the tag buttons list each tag that some project carries, once, in first-occurrence order |
| Projects.WithTag | components/projects.tsx:95 | the filter keeps exactly the projects carrying the tag |
| Projects.WithTagAppend | components/projects.tsx:95 | the filter distributes over concatenation, so it keeps the original order |
| Projects.VisibleFor | components/projects.tsx:94-98 | with a (non-empty) tag, exactly the projects carrying it; otherwise all projects |
| Projects.CatalogueReactFilter | components/projects.tsx:23-98 | on the page's projects, selecting React shows the first, third and sixth project, in that order |
| Projects.ToggleTag | components/projects.tsx:105-107 | clicking the selected tag clears the selection, any other tag selects it |
| Projects.ToggleTwice | components/projects.tsx:105-107 | two clicks on one tag return to no selection unless that tag was selected |
| Projects.ShownBadges | components/projects.tsx:179 | the first min(3, n) tags |
| Projects.OverflowBadge | components/projects.tsx:184-188 | a `+k` badge exactly when there are more than three tags, k counting the rest |
| Projects.CardButtons | components/projects.tsx:195-210 | a Demo button exactly when the demo URL is set and non-empty, likewise Source, Demo first |
| Projects.CardReveal | components/projects.tsx:149-153 | card i is delayed 100·i ms, lasts 600 ms, comes from the left at even and the right at odd positions, other props default |
| Projects.CardsAlternate | components/projects.tsx:149-153 | neighbouring cards come from opposite sides, 100 ms apart |
| Projects.ProjectGrid.constructor | components/projects.tsx:86-103 | all projects shown, no tag, and the mount's filter timer pending |
| Projects.ProjectGrid.SetSelectedTag | components/projects.tsx:91-103 | a new selection replaces the pending timer and starts a fade; the same selection changes nothing |
| Projects.ProjectGrid.TagClick | components/projects.tsx:105-107 | a tag click always changes the selection by the toggle rule and schedules the filter |
| Projects.ProjectGrid.AllClick | components/projects.tsx:123 | the selection becomes null; from a selected tag this replaces the pending timer and starts a fade, from no selection nothing changes |
| Projects.ProjectGrid.FilterTimerFire | components/projects.tsx:93-100 | the live timer shows the projects for the current selection and ends the fade; a cleared one does nothing |
| Navigation.LastIntersecting | components/navigation.tsx:34-38 | the active section after the batch's overwrites; characterised by LastIntersectingSpec |
| Navigation.LastIntersectingSpec | components/navigation.tsx:33-39 | with nothing intersecting the section is unchanged; otherwise it is the id of an intersecting entry after which none intersects |
| Navigation.LinkActive | components/navigation.tsx:97 | a link is highlighted exactly when the active section is its href without the leading character; AtMostOneLinkActive bounds how many are |
| Navigation.AtMostOneLinkActive | components/navigation.tsx:97 | links with distinct targets are never highlighted together |
| Navigation.NavLinksDistinct | components/navigation.tsx:53-59 | the header's links point at five distinct sections |
| Navigation.IsScrolled | components/navigation.tsx:18 | scrolled exactly when `scrollY > 10` |
| Navigation.NavBar.constructor | components/navigation.tsx:12-14 | not scrolled, menu closed, `hero` active |
| Navigation.NavBar.OnScroll | components/navigation.tsx:17-19 | only the scrolled flag changes, to the threshold test |
| Navigation.NavBar.HandleIntersect | components/navigation.tsx:33-39 | the loop leaves the last intersecting id of the batch active |
| Navigation.NavBar.NavClick | components/navigation.tsx:62-74 | an existing target pushes the href and closes the menu; otherwise nothing changes; the active link is untouched |
| Navigation.NavBar.ToggleMenu | components/navigation.tsx:114 | the menu flag flips |
| Skills.Categories | components/skills.tsx:23-77 | the four skill categories of the page with their skills and levels, in order |
| Skills.CategoriesTabs | components/skills.tsx:23-80 | the tab ids are distinct and the initial `frontend` tab is the first category |
| Skills.Key | components/skills.tsx:95 | the key is the category id, a dash, then the skill name |
| Skills.KeysDistinctWithinCategory | components/skills.tsx:129 | within one category, different skill names give different keys |
| Skills.AllSkillKeys | components/skills.tsx:92-98 | the nested loops collect exactly the keys of every skill of every category |
| Skills.FindCategory | components/skills.tsx:126-127 | the first category with the tab's id, or none when no category has it |
| Skills.TabSkillKeys | components/skills.tsx:125-131 | the loop collects exactly the chosen tab's keys, none for an unknown tab |
| Skills.TabKeysWithinAll | components/skills.tsx:92-131 | every key of a tab is among the keys the observer turns on |
| Skills.ProgressValue | components/skills.tsx:168 | a bar shows its level exactly when its key is visible, otherwise 0 |
| Skills.TransitionDelay | components/skills.tsx:170 | bar i starts 100·i ms late |
| Skills.SkillsPanel.constructor | components/skills.tsx:80-81 | the `frontend` tab, no visible keys, and its tab update pending |
| Skills.SkillsPanel.OnIntersect | components/skills.tsx:89-104 | an intersection schedules turning on every key; nothing else changes |
| Skills.SkillsPanel.SetTab | components/skills.tsx:118-135 | a new tab clears the visible keys and schedules its own keys; the same tab changes nothing |
| Skills.SkillsPanel.FireUpdate | components/skills.tsx:101-134 | a pending update replaces the visible keys and is consumed |
| ThemeToggle.NextTheme | components/theme-toggle.tsx:21 | dark is followed by light and every other theme by dark |
| ThemeToggle.NextThemeTwice | components/theme-toggle.tsx:21 | two toggles from dark or light restore it |
| ThemeToggle.IconsFor | components/theme-toggle.tsx:32-70 | before mount only the sun; afterwards the sun exactly for dark and the moon exactly for light; never both |
| ThemeToggle.ThemeButton.constructor | components/theme-toggle.tsx:8-10 | not mounted, not animating |
| ThemeToggle.ThemeButton.Mount | components/theme-toggle.tsx:13-15 | the button is mounted and nothing else changes |
| ThemeToggle.ThemeButton.Click | components/theme-toggle.tsx:17-30 | ignored before mount and while animating; otherwise the lock is taken and the opposite of the current theme is scheduled |
| ThemeToggle.ThemeButton.ApplyTimerFire | components/theme-toggle.tsx:24-26 | the captured theme is applied with the lock still held |
| ThemeToggle.ThemeButton.UnlockTimerFire | components/theme-toggle.tsx:26-28 | the lock is released after the theme was applied |

## Left out

- Rendering: the JSX, the Tailwind classes and the CSS strings are not modelled. This covers the grid's 0.6 opacity while filtering, the pulse class while the theme animates and the blinking-cursor class. Only the values they are derived from are modelled.
- Observer geometry (`rootMargin`, thresholds) and the smooth `scrollIntoView` animation are outside the model; observer batches are inputs.
- SmoothScroll.ScrollContainer.Wheel: the 200 ms leading-edge throttle of `use-debounce` is not part of this model. It appears only as the `admitted` input.
- SmoothScroll.ScrollContainer.KeyDown: the handler is modelled as if it saw the current state. The component re-attaches the keydown listener only when its effect re-runs (deps `[handleWheel, sections]`, smooth-scroll-container.tsx:234). Reading the code (not executed), those re-runs happen on two occasions. The first is mount, where the closure sees a null `activeSection`, so the arrow keys are swallowed by `preventDefault` (line 121) without stepping. The second follows every change of the lock, because the observer effect (deps `[isScrolling]`, line 67) calls `setSections` with a new array (lines 26-28). The closure then holds that render's `activeSection`, which may be stale, so a step can start from an outdated section.
- SmoothScroll.ScrollContainer.TimerFire: the model releases the lock when the most recent unlock timer fires. Reading the code (not executed), the component behaves differently:
  - A step or anchor click made while unlocked changes `isScrolling` and so rebuilds the observer and sets a new `sections`.
  - The listener effect's cleanup (lines 230-232) then clears `scrollTimeoutRef.current` within milliseconds, so that 1000 ms timer never fires and the lock stays on.
  - The lock is next released only by an anchor click made while locked. Its timer changes no effect dependency, so it survives and fires.
  
  This lifecycle interaction is not modelled.
- React lifecycle in general is not modelled:
  - the stale `activeSection`/`isScrolling` captured by listeners;
  - the container's observer being rebuilt when `isScrolling` changes, and the `sections` it sets afresh;
  - the hydration effect re-running when the section list is set;
  - listener attach and detach, and unmount cleanups.
- The section indicator's scroll listener (section-indicator.tsx:75-95) depends on how `takeRecords` drains the observer's queue and is left out.
- SmoothScroll.FooterHeight: a property that `parseInt` turns into `NaN` is not modelled; the property is either unset or an integer.
- SectionIndicator.UpperChar: only ASCII letters are upper-cased; Unicode case mapping is not modelled.
- ScrollReveal.TransformFor: the distance is a natural number. A negative distance would produce strings like `--50px`, which are not modelled.
- Typewriter.TypewriterView.constructor: it requires at least one text, because with none the effect's first run reads the length of the undefined `texts[0]` (typewriter.tsx:43-44). A change of the `texts` prop while running and the typing/deleting/pause delays are not modelled.
- Typewriter.Advance: texts are taken to contain only Basic Multilingual Plane characters. The component's `length` and `slice` (typewriter.tsx:30, 38, 44, 53) count UTF-16 code units, while a Dafny `string` is a sequence of Unicode scalar values. For a character outside that plane, such as an emoji, the component needs two ticks and shows half a surrogate pair in between. The model needs one tick. So the `n` in `FullCycle`'s `2n + 2` counts scalar values, which matches the component's count of code units only for texts without such characters.
- Typewriter.Advance: the blink-off timer scheduled when deleting reaches the empty text is cleared by the effect's own cleanup, because that step changes the effect's dependencies. So the tick leaves the blinking flag as it was.
- Skills.SkillsPanel.OnIntersect: only the first entry of the observer batch is consulted, as in the component.
- Skills timers are never cleared by the component. Pending updates are kept as a list and may fire in any order, because the 200 ms and 100 ms delays let them interleave.
- ThemeToggle: the theme provider is an ordinary field. External theme changes and several toggle instances sharing one provider are not modelled.
- The navigation header does not listen to `sectionchange` events, and the model does not connect it to the container.
- The hero scene (random floats, Three.js), the contact form's simulated submission, the footer's height measurement (an input here), the page, the layout and the build configuration are not part of this model.
