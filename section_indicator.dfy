/** The dot indicator at the side of the page: one labelled dot per section,
    the active one highlighted, kept up to date by its own observer. */
module SectionIndicator {
  import opened Common
  import opened Visibility

  datatype SectionData = SectionData(id: string, text: string)

  /** `toUpperCase` on one character, for the ASCII letters. */
  function UpperChar(c: char): (u: char)
    ensures 'a' <= c <= 'z' ==> 'A' <= u <= 'Z' && u as int == c as int - 32
    ensures !('a' <= c <= 'z') ==> u == c
  {
    if 'a' <= c <= 'z' then (c as int - 32) as char else c
  }

  /** `id.charAt(0).toUpperCase() + id.slice(1)`. */
  function Capitalize(id: string): (text: string)
    ensures |text| == |id|
    ensures id != "" ==> text[0] == UpperChar(id[0]) && text[1..] == id[1..]
  {
    if id == "" then "" else [UpperChar(id[0])] + id[1..]
  }

  /** `sectionElements.map(s => ({ id: s.id, label: ... }))`. */
  function SectionLabels(ids: seq<string>): (data: seq<SectionData>)
    ensures |data| == |ids|
    ensures forall i :: 0 <= i < |ids| ==> data[i].id == ids[i] && data[i].text == Capitalize(ids[i])
  {
    if ids == [] then [] else [SectionData(ids[0], Capitalize(ids[0]))] + SectionLabels(ids[1..])
  }

  /** The ids of the registered sections, in order. */
  function Ids(data: seq<SectionData>): (ids: seq<string>)
    ensures |ids| == |data|
    ensures forall i :: 0 <= i < |data| ==> ids[i] == data[i].id
  {
    if data == [] then [] else [data[0].id] + Ids(data[1..])
  }

  /** The labels' ids are the section ids, so nothing is dropped or reordered. */
  lemma {:induction false} LabelsKeepIds(ids: seq<string>)
    ensures Ids(SectionLabels(ids)) == ids
  {
    if ids != [] {
      LabelsKeepIds(ids[1..]);
    }
  }

  /** `activeSection === section.id` for dot `i`. */
  predicate DotHighlighted(data: seq<SectionData>, active: Option<string>, i: nat)
    requires i < |data|
  {
    active == Some(data[i].id)
  }

  /** With unique ids, at most one dot is highlighted. */
  lemma AtMostOneDot(ids: seq<string>, active: Option<string>, i: nat, j: nat)
    requires NoDuplicates(ids) && i < |ids| && j < |ids|
    requires DotHighlighted(SectionLabels(ids), active, i) && DotHighlighted(SectionLabels(ids), active, j)
    ensures i == j
  {
  }

  class Indicator {
    /** Ids of every element `document.getElementById` can find. */
    const elementIds: set<string>

    var sections: seq<SectionData>
    var activeSection: Option<string>
    /** Every `pushState` call, in order. */
    ghost var history: seq<HistoryOp>

    constructor (elementIds: set<string>)
      ensures this.elementIds == elementIds
      ensures sections == [] && activeSection.None? && history == []
    {
      this.elementIds := elementIds;
      sections := [];
      activeSection := None;
      history := [];
    }

    /** `sections.length === 0` renders nothing. */
    predicate Renders()
      reads this
    {
      |sections| > 0
    }

    /** The mount effect: register the sections with their labels, then take
        the active section from the hash, or the first section when there is none. */
    method Mount(sectionIds: seq<string>, hash: string)
      modifies this
      ensures sections == SectionLabels(sectionIds)
      ensures Renders() <==> |sectionIds| > 0
      ensures hash != "" && FragmentId(hash) in sectionIds ==> activeSection == Some(FragmentId(hash))
      ensures hash != "" && FragmentId(hash) !in sectionIds ==> activeSection == old(activeSection)
      ensures hash == "" && |sectionIds| > 0 ==> activeSection == Some(sectionIds[0])
      ensures hash == "" && |sectionIds| == 0 ==> activeSection == old(activeSection)
      ensures history == old(history)
    {
      sections := SectionLabels(sectionIds);
      LabelsKeepIds(sectionIds);
      if hash != "" {
        var id := FragmentId(hash);
        if id in Ids(sections) {
          activeSection := Some(id);
        }
      } else if |sections| > 0 {
        activeSection := Some(sections[0].id);
      }
    }

    /** `handleIntersect`: the most visible intersecting section becomes active. */
    method ObserverBatch(entries: seq<Entry>)
      modifies this
      ensures MostVisible(entries).None? ==> activeSection == old(activeSection)
      ensures MostVisible(entries).Some? ==> activeSection == Some(MostVisible(entries).value.id)
      ensures sections == old(sections) && history == old(history)
    {
      var best := MostVisible(entries);
      if best.Some? {
        activeSection := Some(best.value.id);
      }
    }

    /** `scrollToSection`, the click on a dot. */
    method ScrollToSection(id: string)
      modifies this
      ensures ElementFound(elementIds, id) ==>
                activeSection == Some(id) && history == old(history) + [Push(Fragment(id))]
      ensures !ElementFound(elementIds, id) ==>
                activeSection == old(activeSection) && history == old(history)
      ensures sections == old(sections)
    {
      if ElementFound(elementIds, id) {
        activeSection := Some(id);
        history := history + [Push(Fragment(id))];
      }
    }
  }
}
