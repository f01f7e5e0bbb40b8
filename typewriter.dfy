/** The typewriter effect: it types the current text one character per tick,
    waits, deletes it one character per tick, and moves on to the next text. */
module Typewriter {

  /** The component's state: `currentTextIndex`, `currentText`, `isDeleting`, `isBlinking`. */
  datatype TypeState = TypeState(index: nat, text: string, deleting: bool, blinking: bool)

  /** The state before the first tick. */
  const Initial: TypeState := TypeState(0, "", false, true)

  /** The index is in range and the shown text is a prefix of the text it belongs to. */
  predicate Inv(texts: seq<string>, s: TypeState)
  {
    s.index < |texts| && s.text <= texts[s.index]
  }

  /** `s.slice(0, n)`, which stops at the end of `s`. */
  function SliceTo(s: string, n: nat): (r: string)
    ensures r <= s
    ensures |r| == if n <= |s| then n else |s|
  {
    if n <= |s| then s[..n] else s
  }

  /** One run of the effect together with the timer it schedules:
      - deleting an empty text: stop deleting and move to the next text
        (the blink timer scheduled here is cleared by the effect's own cleanup,
        since the state it depends on has just changed);
      - deleting: drop the last character;
      - typing a complete text: start deleting;
      - typing: stop blinking and append the next character. */
  function Advance(texts: seq<string>, s: TypeState): (t: TypeState)
    requires s.index < |texts|
    ensures t.index < |texts|
    ensures Inv(texts, s) ==> Inv(texts, t)
    ensures t.blinking ==> s.blinking
    ensures t.index == if s.deleting && s.text == "" then (s.index + 1) % |texts| else s.index
  {
    if s.deleting then
      if |s.text| == 0 then TypeState((s.index + 1) % |texts|, s.text, false, s.blinking)
      else TypeState(s.index, s.text[..|s.text| - 1], true, s.blinking)
    else
      var full := texts[s.index];
      if |s.text| == |full| then TypeState(s.index, s.text, true, s.blinking)
      else TypeState(s.index, SliceTo(full, |s.text| + 1), false, false)
  }

  /** A typing tick appends exactly the next character of the full text. */
  lemma TypingAppendsNext(texts: seq<string>, s: TypeState)
    requires Inv(texts, s) && !s.deleting && |s.text| < |texts[s.index]|
    ensures Advance(texts, s).text == s.text + [texts[s.index][|s.text|]]
    ensures |Advance(texts, s).text| == |s.text| + 1
    ensures Advance(texts, s).index == s.index && !Advance(texts, s).deleting && !Advance(texts, s).blinking
  {
    var full := texts[s.index];
    assert s.text == full[..|s.text|];
    assert full[..|s.text| + 1] == full[..|s.text|] + [full[|s.text|]];
  }

  /** A deleting tick removes exactly the last character. */
  lemma DeletingDropsLast(texts: seq<string>, s: TypeState)
    requires s.index < |texts| && s.deleting && s.text != ""
    ensures Advance(texts, s).text + [s.text[|s.text| - 1]] == s.text
    ensures Advance(texts, s).index == s.index && Advance(texts, s).deleting
  {
  }

  /** The complete text while typing switches to deleting; the empty text
      while deleting switches back to typing the next text. */
  lemma ModeSwitches(texts: seq<string>, s: TypeState)
    requires Inv(texts, s)
    ensures !s.deleting && s.text == texts[s.index] ==>
              Advance(texts, s) == s.(deleting := true)
    ensures s.deleting && s.text == "" ==>
              Advance(texts, s) == s.(index := (s.index + 1) % |texts|, deleting := false)
  {
  }

  /** `n` ticks in a row. */
  function Run(texts: seq<string>, s: TypeState, n: nat): (t: TypeState)
    requires s.index < |texts|
    ensures t.index < |texts|
    decreases n
  {
    if n == 0 then s else Run(texts, Advance(texts, s), n - 1)
  }

  /** The invariant holds after any number of ticks. */
  lemma {:induction false} RunKeepsInv(texts: seq<string>, s: TypeState, n: nat)
    requires Inv(texts, s)
    ensures Inv(texts, Run(texts, s, n))
    decreases n
  {
    if n > 0 {
      RunKeepsInv(texts, Advance(texts, s), n - 1);
    }
  }

  /** The cursor only ever stops blinking: once false, `isBlinking` stays false. */
  lemma {:induction false} BlinkingIsMonotone(texts: seq<string>, s: TypeState, n: nat)
    requires s.index < |texts| && !s.blinking
    ensures !Run(texts, s, n).blinking
    decreases n
  {
    if n > 0 {
      BlinkingIsMonotone(texts, Advance(texts, s), n - 1);
    }
  }

  /** Typing from a prefix finishes the text in as many ticks as characters are missing. */
  lemma {:induction false} TypingCompletes(texts: seq<string>, s: TypeState)
    requires Inv(texts, s) && !s.deleting
    ensures Run(texts, s, |texts[s.index]| - |s.text|).text == texts[s.index]
    ensures Run(texts, s, |texts[s.index]| - |s.text|).index == s.index
    ensures !Run(texts, s, |texts[s.index]| - |s.text|).deleting
    decreases |texts[s.index]| - |s.text|
  {
    if |s.text| < |texts[s.index]| {
      TypingAppendsNext(texts, s);
      TypingCompletes(texts, Advance(texts, s));
    }
  }

  /** Deleting empties the text in as many ticks as it has characters. */
  lemma {:induction false} DeletingCompletes(texts: seq<string>, s: TypeState)
    requires s.index < |texts| && s.deleting
    ensures Run(texts, s, |s.text|).text == ""
    ensures Run(texts, s, |s.text|).index == s.index
    ensures Run(texts, s, |s.text|).deleting
    decreases |s.text|
  {
    if s.text != "" {
      DeletingCompletes(texts, Advance(texts, s));
    }
  }

  /** Running `a` ticks and then `b` ticks is running `a + b` ticks. */
  lemma {:induction false} RunAdds(texts: seq<string>, s: TypeState, a: nat, b: nat)
    requires s.index < |texts|
    ensures Run(texts, Run(texts, s, a), b) == Run(texts, s, a + b)
    decreases a
  {
    if a > 0 {
      RunAdds(texts, Advance(texts, s), a - 1, b);
    }
  }

  /** A whole cycle: from the empty text while typing, `2 * |text| + 2` ticks type
      the text, switch to deleting, delete it and move to the next text. */
  lemma FullCycle(texts: seq<string>, s: TypeState)
    requires Inv(texts, s) && !s.deleting && s.text == ""
    ensures var t := Run(texts, s, 2 * |texts[s.index]| + 2);
            t.index == (s.index + 1) % |texts| && t.text == "" && !t.deleting
  {
    var n := |texts[s.index]|;
    TypingCompletes(texts, s);
    var typed := Run(texts, s, n);
    RunKeepsInv(texts, s, n);
    var switched := Advance(texts, typed);
    assert switched == Run(texts, typed, 1);
    RunAdds(texts, s, n, 1);
    DeletingCompletes(texts, switched);
    RunAdds(texts, s, n + 1, n);
    var emptied := Run(texts, switched, n);
    assert Advance(texts, emptied) == Run(texts, emptied, 1);
    RunAdds(texts, s, 2 * n + 1, 1);
  }

  class TypewriterView {
    const texts: seq<string>
    var currentTextIndex: nat
    var currentText: string
    var isDeleting: bool
    var isBlinking: bool

    function State(): TypeState
      reads this
    {
      TypeState(currentTextIndex, currentText, isDeleting, isBlinking)
    }

    ghost predicate Valid()
      reads this
    {
      Inv(texts, State())
    }

    /** `texts[0]` must exist: with no texts the effect's first run reads the length of `undefined`. */
    constructor (texts: seq<string>)
      requires |texts| > 0
      ensures Valid() && this.texts == texts && State() == Initial
    {
      this.texts := texts;
      currentTextIndex := 0;
      currentText := "";
      isDeleting := false;
      isBlinking := true;
    }

    /** One transition of the effect. */
    method Tick()
      requires Valid()
      modifies this
      ensures Valid()
      ensures State() == Advance(texts, old(State()))
    {
      if isDeleting {
        if |currentText| == 0 {
          isDeleting := false;
          currentTextIndex := (currentTextIndex + 1) % |texts|;
        } else {
          currentText := currentText[..|currentText| - 1];
        }
      } else {
        var fullText := texts[currentTextIndex];
        if |currentText| == |fullText| {
          isDeleting := true;
        } else {
          isBlinking := false;
          currentText := SliceTo(fullText, |currentText| + 1);
        }
      }
    }
  }
}
