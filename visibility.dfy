/** The intersection-observer selection shared by the scroll container and the
    section indicator: keep the intersecting entries, sort them by descending
    ratio with a stable sort, and take the first one. */
module Visibility {
  import opened Common

  /** One `IntersectionObserverEntry`, reduced to the target's id, whether it
      intersects the observed band, and its intersection ratio. */
  datatype Entry = Entry(id: string, isIntersecting: bool, ratio: real)

  /** `entries.filter(e => e.isIntersecting)`. */
  function Intersecting(entries: seq<Entry>): (r: seq<Entry>)
    ensures |r| <= |entries|
    ensures forall e :: e in r ==> e in entries && e.isIntersecting
    ensures forall e :: e in entries && e.isIntersecting ==> e in r
  {
    if entries == [] then []
    else (if entries[0].isIntersecting then [entries[0]] else []) + Intersecting(entries[1..])
  }

  /** Entries ordered by non-increasing ratio. */
  predicate SortedByRatio(s: seq<Entry>)
  {
    forall i, j :: 0 <= i < j < |s| ==> s[i].ratio >= s[j].ratio
  }

  /** Places `x`, which came before every element of `sorted`, in front of the
      first element whose ratio is not larger: equal ratios keep their order. */
  function InsertByRatio(x: Entry, sorted: seq<Entry>): (r: seq<Entry>)
    ensures |r| == |sorted| + 1
    ensures multiset(r) == multiset(sorted) + multiset{x}
    ensures r[0] == if sorted == [] || sorted[0].ratio <= x.ratio then x else sorted[0]
  {
    if sorted == [] || sorted[0].ratio <= x.ratio then [x] + sorted
    else
      assert sorted == [sorted[0]] + sorted[1..];
      [sorted[0]] + InsertByRatio(x, sorted[1..])
  }

  /** `s.sort((a, b) => b.intersectionRatio - a.intersectionRatio)`, a stable
      insertion sort (ECMAScript requires `sort` to be stable since 2019). */
  function SortByRatio(s: seq<Entry>): (r: seq<Entry>)
    ensures |r| == |s|
    ensures multiset(r) == multiset(s)
  {
    if s == [] then []
    else
      assert s == [s[0]] + s[1..];
      InsertByRatio(s[0], SortByRatio(s[1..]))
  }

  lemma {:induction false} InsertKeepsSorted(x: Entry, sorted: seq<Entry>)
    requires SortedByRatio(sorted)
    ensures SortedByRatio(InsertByRatio(x, sorted))
  {
    if sorted == [] || sorted[0].ratio <= x.ratio {
    } else {
      InsertKeepsSorted(x, sorted[1..]);
      var r := InsertByRatio(x, sorted);
      var tail := InsertByRatio(x, sorted[1..]);
      assert r == [sorted[0]] + tail;
      forall j | 0 < j < |r| ensures r[0].ratio >= r[j].ratio {
        assert r[j] in multiset(tail);
        assert r[j] in multiset(sorted[1..]) + multiset{x};
        if r[j] != x {
          assert r[j] in sorted[1..];
        }
      }
    }
  }

  /** The comparator sort puts the entries in non-increasing ratio order and
      is a permutation of its input. */
  lemma {:induction false} SortByRatioSorts(s: seq<Entry>)
    ensures SortedByRatio(SortByRatio(s))
    ensures multiset(SortByRatio(s)) == multiset(s)
  {
    if s != [] {
      SortByRatioSorts(s[1..]);
      InsertKeepsSorted(s[0], SortByRatio(s[1..]));
    }
  }

  /** `visibleEntries[0]` after the filter and the sort, or None when no entry intersects. */
  function MostVisible(entries: seq<Entry>): (best: Option<Entry>)
    ensures best.None? <==> forall j :: 0 <= j < |entries| ==> !entries[j].isIntersecting
    ensures best.Some? ==> best.value in entries && best.value.isIntersecting
  {
    var ranked := SortByRatio(Intersecting(entries));
    if ranked == [] then None
    else
      assert ranked[0] in multiset(Intersecting(entries));
      Some(ranked[0])
  }

  /** Entry `k` intersects, no intersecting entry has a larger ratio, and every
      intersecting entry before it has a strictly smaller ratio. */
  ghost predicate IsFirstMaximum(entries: seq<Entry>, k: int)
  {
    && 0 <= k < |entries|
    && entries[k].isIntersecting
    && (forall j :: 0 <= j < |entries| && entries[j].isIntersecting ==> entries[j].ratio <= entries[k].ratio)
    && (forall j :: 0 <= j < k && entries[j].isIntersecting ==> entries[j].ratio < entries[k].ratio)
  }

  /** A first maximum of the batch without its first entry is one of the
      whole batch, one position later, when the first entry does not beat it. */
  lemma ShiftFirstMaximum(entries: seq<Entry>, k: int)
    requires entries != [] && IsFirstMaximum(entries[1..], k)
    requires entries[0].isIntersecting ==> entries[0].ratio < entries[k + 1].ratio
    ensures IsFirstMaximum(entries, k + 1)
  {
    forall j | 0 < j < |entries| ensures entries[j] == entries[1..][j - 1] { }
  }

  /** An intersecting first entry that nothing after it beats is the first maximum. */
  lemma HeadFirstMaximum(entries: seq<Entry>)
    requires entries != [] && entries[0].isIntersecting
    requires forall j :: 0 < j < |entries| && entries[j].isIntersecting ==> entries[j].ratio <= entries[0].ratio
    ensures IsFirstMaximum(entries, 0)
  {
  }

  /** The selection is the highest-ratio intersecting entry, the earliest one
      in the batch on a tie; there is none exactly when nothing intersects. */
  lemma {:induction false} MostVisibleIsFirstMaximum(entries: seq<Entry>)
    ensures MostVisible(entries).None? <==> forall j :: 0 <= j < |entries| ==> !entries[j].isIntersecting
    ensures MostVisible(entries).Some? ==>
              exists k :: IsFirstMaximum(entries, k) && entries[k] == MostVisible(entries).value
  {
    if entries == [] {
      return;
    }
    var x, tail := entries[0], entries[1..];
    MostVisibleIsFirstMaximum(tail);
    assert entries == [x] + tail;
    if !x.isIntersecting {
      assert Intersecting(entries) == Intersecting(tail);
      if MostVisible(tail).Some? {
        var k :| IsFirstMaximum(tail, k) && tail[k] == MostVisible(tail).value;
        ShiftFirstMaximum(entries, k);
      }
    } else {
      var rest := SortByRatio(Intersecting(tail));
      assert Intersecting(entries) == [x] + Intersecting(tail);
      assert ([x] + Intersecting(tail))[1..] == Intersecting(tail);
      assert SortByRatio(Intersecting(entries)) == InsertByRatio(x, rest);
      if rest == [] {
        HeadFirstMaximum(entries);
      } else {
        var k :| IsFirstMaximum(tail, k) && tail[k] == rest[0];
        if rest[0].ratio <= x.ratio {
          HeadFirstMaximum(entries);
        } else {
          ShiftFirstMaximum(entries, k);
        }
      }
    }
  }

  /** Two positions that both satisfy the selection rule are the same position. */
  lemma FirstMaximumIsUnique(entries: seq<Entry>, k1: int, k2: int)
    requires IsFirstMaximum(entries, k1) && IsFirstMaximum(entries, k2)
    ensures k1 == k2
  {
  }
}
