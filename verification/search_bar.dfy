/**
  The search bar of `src/components/SearchBar.tsx`: a controlled text input
  whose submit hands the typed city name to `onAddCity` unless it is blank.
  The calls made to `onAddCity` are recorded as the output of a submit.
 */
module SearchBar {
  import opened Js

  /** The input after a submit, and the arguments `onAddCity` was called with. */
  datatype Submission = Submission(input: string, added: seq<string>)

  /** `handleSubmit` on the current input. */
  function Submit(input: string): (r: Submission)
    ensures IsBlank(input) ==> r.added == [] && r.input == input
    ensures !IsBlank(input) ==> r.added == [input] && r.input == ""
  {
    if Trim(input) != "" then Submission("", [input]) else Submission(input, [])
  }

  /** What the user does with the form. */
  datatype Action = Typed(value: string) | Pressed

  /** The input after an action and the `onAddCity` calls it made; typing
      replaces the input with the new value. */
  function Act(input: string, a: Action): Submission {
    match a
    case Typed(value) => Submission(value, [])
    case Pressed => Submit(input)
  }

  /** The final input and every `onAddCity` call, in order, over a sequence
      of actions. */
  function Run(input: string, actions: seq<Action>): Submission
    decreases |actions|
  {
    if actions == [] then Submission(input, [])
    else
      var first := Act(input, actions[0]);
      var rest := Run(first.input, actions[1..]);
      Submission(rest.input, first.added + rest.added)
  }

  /** Number of presses among the actions. */
  function Presses(actions: seq<Action>): nat
    decreases |actions|
  {
    if actions == [] then 0
    else (if actions[0].Pressed? then 1 else 0) + Presses(actions[1..])
  }

  /** A change event replaces the input: whatever was typed before, the run
      from a `Typed(v)` on is the same. */
  lemma TypingReplacesInput(x: string, y: string, v: string, rest: seq<Action>)
    ensures Run(x, [Typed(v)] + rest) == Run(y, [Typed(v)] + rest)
  {
    assert ([Typed(v)] + rest)[1..] == rest;
  }

  /** `onAddCity` never sees a blank name, and there is at most one call per
      press. */
  lemma {:induction false} RunAddsOnlyNonBlank(input: string, actions: seq<Action>)
    ensures forall i :: 0 <= i < |Run(input, actions).added| ==> !IsBlank(Run(input, actions).added[i])
    ensures |Run(input, actions).added| <= Presses(actions) <= |actions|
    decreases |actions|
  {
    if actions != [] {
      var first := Act(input, actions[0]);
      RunAddsOnlyNonBlank(first.input, actions[1..]);
    }
  }

  /** Typing a name and pressing the button calls `onAddCity` once with the
      name as typed, untrimmed, and empties the input; pressing again calls
      nothing. */
  lemma TypeAndPress(name: string)
    requires !IsBlank(name)
    ensures Run("", [Typed(name), Pressed]) == Submission("", [name])
    ensures Run("", [Typed(name), Pressed, Pressed]) == Submission("", [name])
  {
    assert IsBlank("");
    // Run unfolds two levels on its own; the runs from the second action on
    // are spelled out so that the three-action run can be reached.
    assert [Typed(name), Pressed][1..] == [Pressed] && [Pressed][1..] == [];
    assert Run(name, [Pressed]) == Submission("", [name]);
    assert [Typed(name), Pressed, Pressed][1..] == [Pressed, Pressed];
    assert [Pressed, Pressed][1..] == [Pressed];
    assert Run("", [Pressed]) == Submission("", []);
    assert Run(name, [Pressed, Pressed]) == Submission("", [name]);
  }
}
