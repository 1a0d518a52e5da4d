/** The landing page: a goal field that always keeps its fixed prefix, a Go button,
    and a cycling placeholder suggestion. */
module Landing {
  import opened Common
  import opened Text

  /** The fixed text the goal field starts with (the ellipsis is U+2026). */
  const Prefix: string := "I want to\U{2026} "

  const Placeholders: seq<string> := [
    "feel more settled in my apartment in Toronto",
    "get back into creative habits",
    "host the best dinner parties"
  ]

  /** The page's state: the goal text, whether the field has focus, which placeholder
      is shown and whether it is faded in. */
  datatype LandingState = LandingState(goal: string, focused: bool, index: nat, fade: bool)

  const Initial := LandingState(Prefix, false, 0, true)

  /** What the user can do to the page; the two ticks are the interval timer's halves. */
  datatype LandingEvent = Input(value: string) | Focus | Blur | FadeOut | Advance

  /** The input's change handler: a value that does not start with the prefix is ignored. */
  function OnChange(s: LandingState, value: string): (r: LandingState)
    ensures StartsWith(value, Prefix) ==> r == s.(goal := value)
    ensures !StartsWith(value, Prefix) ==> r == s
    ensures StartsWith(s.goal, Prefix) ==> StartsWith(r.goal, Prefix)
  {
    if !StartsWith(value, Prefix) then s else s.(goal := value)
  }

  /** The placeholder index after one tick of the interval. */
  function NextPlaceholder(i: nat): (r: nat)
    ensures r < |Placeholders|
    ensures i < |Placeholders| - 1 ==> r == i + 1
    ensures i == |Placeholders| - 1 ==> r == 0
  {
    (i + 1) % |Placeholders|
  }

  /** The Go button is disabled exactly when the trimmed goal is the trimmed prefix:
      for a goal that keeps the prefix, when nothing but white space follows it. */
  predicate GoDisabled(goal: string): (r: bool)
    ensures StartsWith(goal, Prefix) ==> (r <==> AllSpace(goal[|Prefix|..]))
  {
    if StartsWith(goal, Prefix) then BlockedIffBlankTail(goal); Trim(goal) == Trim(Prefix)
    else Trim(goal) == Trim(Prefix)
  }

  /** Whether the animated placeholder is drawn over the field. */
  predicate SuggestionVisible(s: LandingState)
  {
    s.goal == Prefix && !s.focused
  }

  /** Submitting the goal: `None` when nothing happens, otherwise the `goal` query
      parameter of the navigation to the scene page (before URI encoding). */
  function GoTo3DDemo(goal: string): (r: Option<string>)
    ensures r.None? <==> GoDisabled(goal)
    ensures StartsWith(goal, Prefix) && r.Some? ==> r.value == goal[|Prefix|..]
  {
    if Trim(goal) == Trim(Prefix) then None
    else Some(ReplaceFirst(goal, Prefix, ""))
  }

  /** One event: typing goes through the change handler, focus and blur only set the
      focus flag, and the timer only fades and advances the placeholder. */
  function Step(s: LandingState, e: LandingEvent): (r: LandingState)
    ensures Valid(s) ==> Valid(r)
    ensures !e.Input? ==> r.goal == s.goal
    ensures e.Input? ==> r.focused == s.focused && r.index == s.index && r.fade == s.fade
    ensures (e.Focus? || e.Blur?) ==> r == s.(focused := e.Focus?)
    ensures (e.FadeOut? || e.Advance?) ==> r.focused == s.focused
    ensures e.Input? ==> r == OnChange(s, e.value)
    ensures e.FadeOut? ==> r == s.(fade := false)
    ensures e.Advance? ==> r == s.(index := NextPlaceholder(s.index), fade := true)
  {
    match e
    case Input(value) => OnChange(s, value)
    case Focus => s.(focused := true)
    case Blur => s.(focused := false)
    case FadeOut => s.(fade := false)
    case Advance => s.(index := NextPlaceholder(s.index), fade := true)
  }

  function Run(s: LandingState, es: seq<LandingEvent>): LandingState
    decreases |es|
  {
    if |es| == 0 then s else Run(Step(s, es[0]), es[1..])
  }

  /** What every reachable state satisfies. */
  predicate Valid(s: LandingState)
  {
    StartsWith(s.goal, Prefix) && s.index < |Placeholders|
  }

  /** The prefix is never lost and the placeholder index stays in range, whatever
      the user types and however often the timer fires. */
  lemma {:induction false} RunKeepsValid(s: LandingState, es: seq<LandingEvent>)
    requires Valid(s)
    ensures Valid(Run(s, es))
    decreases |es|
  {
    if |es| > 0 {
      RunKeepsValid(Step(s, es[0]), es[1..]);
    }
  }

  lemma ReachableValid(es: seq<LandingEvent>)
    ensures StartsWith(Run(Initial, es).goal, Prefix)
    ensures Run(Initial, es).index < |Placeholders|
  {
    RunKeepsValid(Initial, es);
  }

  /** The trimmed prefix is the prefix without its trailing space. */
  lemma TrimPrefix()
    ensures Trim(Prefix) == Prefix[..|Prefix| - 1]
  {
    assert TrimStart(Prefix) == Prefix;
    TrimEndUnique(Prefix, |Prefix| - 1);
  }

  /** For a goal that keeps the prefix, submission is refused exactly when what was
      typed after the prefix is all white space. */
  lemma BlockedIffBlankTail(goal: string)
    requires StartsWith(goal, Prefix)
    ensures Trim(goal) == Trim(Prefix) <==> AllSpace(goal[|Prefix|..])
  {
    var n := |Prefix|;
    var tail := goal[n..];
    assert goal[0] == 'I';
    assert TrimStart(goal) == goal;
    TrimPrefix();
    if AllSpace(tail) {
      forall i | n - 1 <= i < |goal|
        ensures IsSpace(goal[i])
      {
        if i >= n {
          assert goal[i] == tail[i - n];
        } else {
          assert goal[i] == Prefix[i];
        }
      }
      assert goal[n - 2] == Prefix[n - 2];
      TrimEndUnique(goal, n - 1);
      assert goal[..n - 1] == Prefix[..n - 1];
    } else {
      var j :| 0 <= j < |tail| && !IsSpace(tail[j]);
      assert goal[n + j] == tail[j];
      TrimEndKeeps(goal, n + j);
      assert |Trim(goal)| > |Trim(Prefix)|;
    }
  }

  /** The placeholder is only drawn while the Go button is disabled. */
  lemma SuggestionOnlyWhileDisabled(s: LandingState)
    requires SuggestionVisible(s)
    ensures GoDisabled(s.goal) && GoTo3DDemo(s.goal).None?
  {
  }

  /** Three ticks of the timer bring back the placeholder shown before them, after
      showing each of the other two. */
  lemma {:induction false} PlaceholderCycle(i: nat)
    requires i < |Placeholders|
    ensures NextPlaceholder(NextPlaceholder(NextPlaceholder(i))) == i
    ensures {i, NextPlaceholder(i), NextPlaceholder(NextPlaceholder(i))} == {0, 1, 2}
  {
  }
}
