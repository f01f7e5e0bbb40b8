/** Values shared by the navigation components: optional values, the browser
    history log, URL fragments and `Array.prototype.findIndex` on section ids. */
module Common {

  datatype Option<+T> = None | Some(value: T)

  /** One call of `history.pushState` / `history.replaceState`, with the URL it wrote. */
  datatype HistoryOp = Push(url: string) | Replace(url: string)

  /** The fragment `#id` written to the address bar. */
  function Fragment(id: string): (hash: string)
    ensures |hash| == |id| + 1 && hash[0] == '#'
  {
    "#" + id
  }

  /** `hash.substring(1)`: drops the first character; the empty string stays empty. */
  function FragmentId(hash: string): (id: string)
    ensures hash == [] ==> id == []
    ensures hash != [] ==> hash == [hash[0]] + id
  {
    if hash == [] then [] else hash[1..]
  }

  /** Reading back a fragment that was written gives the id that was written. */
  lemma FragmentRoundTrip(id: string)
    ensures FragmentId(Fragment(id)) == id
  {
  }

  /** Writing back the id read from a `#...` hash gives the same hash. */
  lemma FragmentOfHash(hash: string)
    requires hash != [] && hash[0] == '#'
    ensures Fragment(FragmentId(hash)) == hash
  {
  }

  /** `document.getElementById(id)` finds an element: some element carries the
      id, and the empty id is never found. */
  predicate ElementFound(elementIds: set<string>, id: string)
  {
    id != "" && id in elementIds
  }

  /** No id occurs twice (the page's section ids are unique). */
  predicate NoDuplicates(s: seq<string>)
  {
    forall i, j :: 0 <= i < j < |s| ==> s[i] != s[j]
  }

  /** `s.findIndex(x => x === key)`: the first index holding `key`, or -1. */
  function IndexOf(s: seq<string>, key: string): (i: int)
    ensures -1 <= i < |s|
    ensures i == -1 <==> key !in s
    ensures 0 <= i ==> s[i] == key && key !in s[..i]
  {
    if s == [] then -1
    else if s[0] == key then 0
    else
      var j := IndexOf(s[1..], key);
      if j == -1 then -1 else j + 1
  }

  /** With unique ids, the index found for the id at position `k` is `k`. */
  lemma IndexOfUnique(s: seq<string>, k: nat)
    requires NoDuplicates(s) && k < |s|
    ensures IndexOf(s, s[k]) == k
  {
  }
}
