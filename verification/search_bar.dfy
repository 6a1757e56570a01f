/**
  The dashboard's animated search bar: the typewriter that types and
  deletes the placeholder suggestions one character per timer tick, the
  search guard, and the popular-tag buttons.
 */
module SearchBar {
  import opened Strings

  const Suggestions: seq<string> := [
    "Find the perfect summer dress...",
    "Show me trending sneakers...",
    "Best deals on electronics...",
    "Recommend eco-friendly products...",
    "Gift ideas for my partner...",
    "Latest tech gadgets..."
  ]

  const Tags: seq<string> := ["Electronics", "Fashion", "Home & Garden", "Sports"]

  /** The placeholder animation's state: which suggestion, what is shown, and the direction. */
  datatype Typewriter = Typewriter(current: nat, displayText: string, isDeleting: bool)

  const Start := Typewriter(0, "", false)

  /** The index names a suggestion and the text shown is a prefix of it. */
  predicate Valid(t: Typewriter)
  {
    t.current < |Suggestions| && t.displayText <= Suggestions[t.current]
  }

  /**
    The outcome of one timer tick: the next state, and whether the tick
    scheduled the delayed switch to deleting (it does so once the whole
    suggestion is shown, without changing the state).
   */
  datatype TickResult = TickResult(next: Typewriter, deleteScheduled: bool)

  function FullText(t: Typewriter): string
    requires t.current < |Suggestions|
  {
    Suggestions[t.current]
  }

  /**
    One tick of the effect's timer. Typing reveals one more character of the
    suggestion; deleting drops the last character shown; with nothing left
    to delete it moves on to the next suggestion, wrapping after the last.
   */
  function Tick(t: Typewriter): (r: TickResult)
    requires t.current < |Suggestions|
    ensures Valid(t) ==> Valid(r.next)
    ensures r.deleteScheduled <==> !t.isDeleting && |t.displayText| >= |FullText(t)|
    ensures r.deleteScheduled ==> r.next == t
    ensures Valid(t) && !t.isDeleting && |t.displayText| < |FullText(t)| ==>
              r.next == t.(displayText := t.displayText + [FullText(t)[|t.displayText|]])
    ensures t.isDeleting && |t.displayText| > 0 ==>
              r.next.displayText + [t.displayText[|t.displayText| - 1]] == t.displayText
              && r.next.current == t.current && r.next.isDeleting
    ensures t.isDeleting && |t.displayText| == 0 ==>
              r.next == Typewriter((t.current + 1) % |Suggestions|, "", false)
  {
    var full := Suggestions[t.current];
    var n := |t.displayText|;
    if !t.isDeleting then
      if n < |full| then
        assert Valid(t) ==> full[..n + 1] == t.displayText + [full[n]];
        TickResult(t.(displayText := full[..n + 1]), false)
      else TickResult(t, true)
    else if n > 0 then
      TickResult(t.(displayText := t.displayText[..n - 1]), false)
    else
      TickResult(Typewriter((t.current + 1) % |Suggestions|, t.displayText, false), false)
  }

  /** The delayed `setIsDeleting(true)`. */
  function StartDeleting(t: Typewriter): (r: Typewriter)
    ensures Valid(t) ==> Valid(r)
    ensures r.isDeleting && r.current == t.current && r.displayText == t.displayText
  {
    t.(isDeleting := true)
  }

  /** `n` ticks in a row, none of which reaches the scheduled switch. */
  function Ticks(t: Typewriter, n: nat): (r: Typewriter)
    requires Valid(t)
    ensures Valid(r)
    decreases n
  {
    if n == 0 then t else Ticks(Tick(t).next, n - 1)
  }

  /** The start state is valid, so every state the animation reaches is. */
  lemma StartValid()
    ensures Valid(Start)
  {
  }

  /** Typing from any valid state shows the whole suggestion after the missing characters. */
  lemma {:induction false} TypingCompletes(t: Typewriter)
    requires Valid(t) && !t.isDeleting
    ensures Ticks(t, |FullText(t)| - |t.displayText|) == t.(displayText := FullText(t))
    decreases |FullText(t)| - |t.displayText|
  {
    if |t.displayText| < |FullText(t)| {
      var next := Tick(t).next;
      TypingCompletes(next);
    } else {
      assert t.displayText == FullText(t);
    }
  }

  /** Deleting from any valid state empties the text after as many ticks as it has characters. */
  lemma {:induction false} DeletingCompletes(t: Typewriter)
    requires Valid(t) && t.isDeleting
    ensures Ticks(t, |t.displayText|) == t.(displayText := "")
    decreases |t.displayText|
  {
    if |t.displayText| > 0 {
      var next := Tick(t).next;
      DeletingCompletes(next);
    }
  }

  /**
    One full cycle: from suggestion `i` with nothing shown, typing it out,
    the scheduled switch, deleting it and one more tick leave suggestion
    `(i + 1) % 6` with nothing shown, typing again.
   */
  lemma FullCycle(i: nat)
    requires i < |Suggestions|
    ensures var t0 := Typewriter(i, "", false);
      var typed := Ticks(t0, |Suggestions[i]|);
      var deleted := Ticks(StartDeleting(typed), |Suggestions[i]|);
      && typed.displayText == Suggestions[i]
      && Tick(typed).deleteScheduled
      && deleted.displayText == ""
      && Tick(deleted).next == Typewriter((i + 1) % |Suggestions|, "", false)
  {
    var t0 := Typewriter(i, "", false);
    TypingCompletes(t0);
    assert |FullText(t0)| - |t0.displayText| == |Suggestions[i]|;
    var typed := Ticks(t0, |Suggestions[i]|);
    assert typed == Typewriter(i, Suggestions[i], false);
    var del := StartDeleting(typed);
    assert del == Typewriter(i, Suggestions[i], true);
    DeletingCompletes(del);
    var deleted := Ticks(del, |Suggestions[i]|);
    assert deleted == Typewriter(i, "", true);
  }

  /** The search box and the animation behind its placeholder. */
  datatype Bar = Bar(typewriter: Typewriter, searchValue: string)

  datatype Navigation = Stay | GoTo(path: string)

  /**
    `handleSearch`: the search navigates, always to "/chat", exactly when
    the box holds something other than white space.
   */
  function HandleSearch(b: Bar): (r: Navigation)
    ensures r.GoTo? <==> !AllJsSpace(b.searchValue)
    ensures r.GoTo? ==> r.path == "/chat"
  {
    if Trim(b.searchValue) != "" then GoTo("/chat") else Stay
  }

  /** Clicking a tag button puts exactly that tag in the box and leaves the animation alone. */
  function SelectTag(b: Bar, i: nat): (r: Bar)
    requires i < |Tags|
    ensures r.searchValue == Tags[i] && r.typewriter == b.typewriter
  {
    b.(searchValue := Tags[i])
  }

  /** Searching right after clicking any tag goes to the chat page. */
  lemma TagThenSearchNavigates(b: Bar, i: nat)
    requires i < |Tags|
    ensures HandleSearch(SelectTag(b, i)) == GoTo("/chat")
  {
    var tag := Tags[i];
    assert !IsJsSpace(tag[0]);
  }
}
