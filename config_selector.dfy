/**
 * The training-configuration editor (src/Components/Home/VideoUpload/ConfigSelector.tsx): the
 * component state it keeps, the handlers that change it, and the list rules behind them. The
 * save iterations form a sorted, duplicate-free list of at most five integers in [0, 30000]; the
 * output types are toggled in and out of a list; changing the mode clears the output types.
 */
module ConfigSelector {
  import opened Wrappers
  import opened TrainingConfig
  import opened CommonApiCalls

  /** The limits handleSaveIterationAdd checks. */
  const MaxSaveIterations := 5
  const MaxIteration := 30000

  /**
   * The iteration number field: `undefined` before the first input, the empty string after an
   * iteration was added, otherwise the number typed in.
   */
  datatype Entry = Unset | Blank | Number(value: int)

  // ---------------------------------------------------------------------------------------------
  // List rules

  /** `prev.filter(x => x !== v)`. */
  function Remove<T(==,!new)>(xs: seq<T>, v: T): (r: seq<T>)
    ensures |r| <= |xs|
    ensures forall x :: x in r <==> x in xs && x != v
    ensures multiset(r) == multiset(xs)[v := 0]
  {
    if xs == [] then []
    else
      assert xs == [xs[0]] + xs[1..];
      if xs[0] == v then Remove(xs[1..], v) else [xs[0]] + Remove(xs[1..], v)
  }

  /** Removing an absent value gives back the same list. */
  lemma {:induction false} RemoveAbsent<T(!new)>(xs: seq<T>, v: T)
    requires v !in xs
    ensures Remove(xs, v) == xs
  {
    if xs != [] {
      RemoveAbsent(xs[1..], v);
    }
  }

  /** Removing v from a list that ends with v drops that last entry too, in order. */
  lemma {:induction false} RemoveAppended<T(!new)>(xs: seq<T>, v: T)
    ensures Remove(xs + [v], v) == Remove(xs, v)
  {
    if xs != [] {
      assert (xs + [v])[1..] == xs[1..] + [v];
      RemoveAppended(xs[1..], v);
    } else {
      assert [] + [v] == [v];
    }
  }

  /** handleOutputTypeChange: present values are filtered out, absent ones appended. */
  function Toggle(xs: seq<string>, v: string): (r: seq<string>)
    ensures v in r <==> v !in xs
    ensures forall x :: x != v ==> (x in r <==> x in xs)
  {
    if v in xs then Remove(xs, v) else xs + [v]
  }

  /** Toggling an absent value twice restores the list exactly. */
  lemma ToggleTwice(xs: seq<string>, v: string)
    requires v !in xs
    ensures Toggle(Toggle(xs, v), v) == xs
  {
    RemoveAppended(xs, v);
    RemoveAbsent(xs, v);
  }

  predicate Sorted(xs: seq<int>) {
    forall i, j :: 0 <= i < j < |xs| ==> xs[i] <= xs[j]
  }

  predicate StrictlySorted(xs: seq<int>) {
    forall i, j :: 0 <= i < j < |xs| ==> xs[i] < xs[j]
  }

  /** Puts x into a sorted list before the first larger element. */
  function Insert(x: int, xs: seq<int>): (r: seq<int>)
    requires Sorted(xs)
    ensures Sorted(r)
    ensures multiset(r) == multiset(xs) + multiset{x}
  {
    if xs == [] || x <= xs[0] then
      SortedFront(x, xs);
      [x] + xs
    else
      assert Sorted(xs[1..]);
      var rest := Insert(x, xs[1..]);
      assert xs == [xs[0]] + xs[1..];
      LowerBound(xs[0], rest, multiset(xs[1..]) + multiset{x});
      [xs[0]] + rest
  }

  /** A value at most the head of a sorted list can go in front of it. */
  lemma SortedFront(h: int, xs: seq<int>)
    requires Sorted(xs) && (xs == [] || h <= xs[0])
    ensures Sorted([h] + xs)
  {
  }

  /** A value at most every element of a sorted list can go in front of it. */
  lemma LowerBound(h: int, rest: seq<int>, m: multiset<int>)
    requires Sorted(rest) && multiset(rest) == m
    requires forall y :: y in m ==> h <= y
    ensures Sorted([h] + rest)
  {
    forall k | 0 <= k < |rest|
      ensures h <= rest[k]
    {
      assert rest[k] in multiset(rest);
    }
  }

  /** `Array.prototype.sort((a, b) => a - b)` on integers: ascending, same elements. */
  function SortNumbers(xs: seq<int>): (r: seq<int>)
    ensures Sorted(r)
    ensures multiset(r) == multiset(xs)
  {
    if xs == [] then []
    else
      assert xs == [xs[0]] + xs[1..];
      Insert(xs[0], SortNumbers(xs[1..]))
  }

  /** The rule of the iteration list: strictly ascending, at most 5 entries, each in [0, 30000]. */
  predicate IterationsValid(xs: seq<int>) {
    && StrictlySorted(xs)
    && |xs| <= MaxSaveIterations
    && (forall i :: 0 <= i < |xs| ==> 0 <= xs[i] <= MaxIteration)
  }

  /** The conditions of handleSaveIterationAdd. */
  predicate CanAdd(entry: Entry, xs: seq<int>) {
    && entry.Number?
    && 0 <= entry.value <= MaxIteration
    && entry.value !in xs
    && |xs| < MaxSaveIterations
  }

  /** The new list handleSaveIterationAdd stores: `[...prev, x].sort((a, b) => a - b)`. */
  function AddIteration(xs: seq<int>, x: int): seq<int> {
    SortNumbers(xs + [x])
  }

  /** Two equal entries of a list make a value occur at least twice. */
  lemma RepeatedCount(xs: seq<int>, i: nat, j: nat)
    requires i < j < |xs| && xs[i] == xs[j]
    ensures multiset(xs)[xs[i]] >= 2
  {
    assert xs == xs[..j] + [xs[j]] + xs[j + 1..];
    assert xs[i] in xs[..j];
  }

  /** A sorted list in which no value occurs twice is strictly sorted. */
  lemma SortedDistinctIsStrict(xs: seq<int>)
    requires Sorted(xs)
    requires forall v :: multiset(xs)[v] <= 1
    ensures StrictlySorted(xs)
  {
    forall i, j | 0 <= i < j < |xs|
      ensures xs[i] < xs[j]
    {
      if xs[i] == xs[j] {
        RepeatedCount(xs, i, j);
        assert false;
      }
    }
  }

  /** No value occurs twice in a strictly sorted list. */
  lemma {:induction false} StrictHasNoRepeats(xs: seq<int>)
    requires StrictlySorted(xs)
    ensures forall v :: multiset(xs)[v] <= 1
  {
    if xs != [] {
      StrictHasNoRepeats(xs[1..]);
      assert xs == [xs[0]] + xs[1..];
      assert xs[0] !in xs[1..];
    }
  }

  /**
   * A successful add keeps the rule, adds exactly the new value, and keeps every old entry.
   */
  lemma AddKeepsRule(xs: seq<int>, x: int)
    requires IterationsValid(xs)
    requires CanAdd(Number(x), xs)
    ensures IterationsValid(AddIteration(xs, x))
    ensures multiset(AddIteration(xs, x)) == multiset(xs) + multiset{x}
    ensures x in AddIteration(xs, x)
    ensures forall y :: y in xs ==> y in AddIteration(xs, x)
  {
    var r := AddIteration(xs, x);
    StrictHasNoRepeats(xs);
    assert multiset(r) == multiset(xs) + multiset{x};
    assert forall v :: multiset(r)[v] <= 1 by {
      forall v ensures multiset(r)[v] <= 1 {
        if v == x {
          assert x !in multiset(xs);
        }
      }
    }
    SortedDistinctIsStrict(r);
    assert |r| == |xs| + 1 by {
      assert |multiset(r)| == |multiset(xs)| + 1;
    }
    forall i | 0 <= i < |r|
      ensures 0 <= r[i] <= MaxIteration
    {
      assert r[i] in multiset(r);
    }
    assert x in multiset(r);
    forall y | y in xs
      ensures y in r
    {
      assert y in multiset(xs);
      assert y in multiset(r);
    }
  }

  /** Removing an entry keeps the rule and every other entry. */
  lemma RemoveKeepsRule(xs: seq<int>, v: int)
    requires IterationsValid(xs)
    ensures IterationsValid(Remove(xs, v))
    ensures v !in Remove(xs, v)
    ensures forall y :: y in xs && y != v ==> y in Remove(xs, v)
  {
    RemoveKeepsStrict(xs, v);
    var r := Remove(xs, v);
    forall i | 0 <= i < |r|
      ensures 0 <= r[i] <= MaxIteration
    {
      assert r[i] in xs;
    }
  }

  /** Removing a value keeps the remaining entries in their order. */
  lemma {:induction false} RemoveKeepsStrict(xs: seq<int>, v: int)
    requires StrictlySorted(xs)
    ensures StrictlySorted(Remove(xs, v))
  {
    if xs != [] {
      RemoveKeepsStrict(xs[1..], v);
      var rest := Remove(xs[1..], v);
      if xs[0] != v {
        assert Remove(xs, v) == [xs[0]] + rest;
        forall k | 0 <= k < |rest|
          ensures xs[0] < rest[k]
        {
          assert rest[k] in xs[1..];
        }
      }
    }
  }

  /** The largest entry of a strictly sorted list is its last one. */
  lemma {:induction false} MaxOfStrict(xs: seq<int>)
    requires xs != [] && StrictlySorted(xs)
    ensures MaxOf(xs) == xs[|xs| - 1]
  {
    if |xs| > 1 {
      MaxOfStrict(xs[1..]);
    }
  }

  /** For a valid, non-empty list the upload's total_iterations is its last (largest) entry. */
  lemma TotalIterationsOfValid(xs: seq<int>)
    requires IterationsValid(xs) && xs != []
    ensures TotalIterations(xs) == Finite(xs[|xs| - 1])
  {
    MaxOfStrict(xs);
  }

  /** The recommended preset's iterations follow the rule. */
  lemma RecommendedIterationsValid()
    ensures IterationsValid(RecommendedConfig.saveIterations)
  {
  }

  // ---------------------------------------------------------------------------------------------
  // Training mode and the output-type checkboxes

  /**
   * The output-type checkboxes rendered for a mode (`VALID_OUTPUT_TYPES[mode].map(...)`): the
   * table's list, or None where the lookup gives undefined and the `.map` call throws.
   */
  function OutputTypeChoices(mode: Option<string>): (r: Option<seq<string>>)
    ensures r.Some? <==> mode.Some? && mode.value in ValidTrainingModes
    ensures r.Some? ==> r.value == ValidOutputTypes[mode.value] && "video" in r.value
  {
    OutputTypesPerMode();
    if mode.Some? && mode.value in ValidOutputTypes then Some(ValidOutputTypes[mode.value]) else None
  }

  /**
   * handleTrainingModeChange as written: the select's value, `null` on a deselect, is stored as the
   * mode (`value as string` does not convert it).
   */
  function ModeAfterChangeAsWritten(mode: string, value: Option<string>): Option<string> {
    value
  }

  /**
   * As written, deselecting the current mode stores null, and the next render's output-type lookup
   * throws; picking a listed mode renders its checkboxes.
   */
  lemma DeselectBreaksRender(mode: string, value: Option<string>)
    requires mode in ValidTrainingModes
    requires value.Some? ==> value.value in ValidTrainingModes
    ensures OutputTypeChoices(ModeAfterChangeAsWritten(mode, value)).None? <==> value.None?
  {
  }

  /**
   * handleTrainingModeChange as evidently intended: a deselect (null) leaves the mode as it is, so
   * the mode stays one the output-type table lists.
   */
  function ModeAfterChange(mode: string, value: Option<string>): (r: string)
    ensures value.Some? ==> r == value.value
    ensures value.None? ==> r == mode
  {
    if value.Some? then value.value else mode
  }

  /** With the correction, every reachable mode renders its output-type checkboxes. */
  lemma ModeChangeKeepsChoices(mode: string, value: Option<string>)
    requires mode in ValidTrainingModes
    requires value.Some? ==> value.value in ValidTrainingModes
    ensures OutputTypeChoices(Some(ModeAfterChange(mode, value))).Some?
  {
  }

  // ---------------------------------------------------------------------------------------------
  // Component state

  class ConfigSelectorState {
    var trainingMode: string
    var outputTypes: seq<string>
    var saveIterations: seq<int>
    var currentIteration: Entry
    var useRecommended: bool
    var sceneName: string

    /** The editor's rules on its state: the iteration list rule, and a mode the table lists. */
    predicate Valid()
      reads this
    {
      IterationsValid(saveIterations) && trainingMode in ValidTrainingModes
    }

    constructor ()
      ensures Valid()
      ensures trainingMode == "gaussian" && outputTypes == [] && saveIterations == []
      ensures currentIteration == Unset && !useRecommended && sceneName == ""
    {
      trainingMode := "gaussian";
      outputTypes := [];
      saveIterations := [];
      currentIteration := Unset;
      useRecommended := false;
      sceneName := "";
    }

    /** updateConfig: the configuration reported to the parent. */
    method UpdateConfig() returns (config: TrainingConfig)
      ensures config.trainingMode == trainingMode && config.outputTypes == outputTypes
      ensures config.saveIterations == saveIterations && config.sceneName == sceneName
    {
      config := TrainingConfig(trainingMode, outputTypes, saveIterations, sceneName);
    }

    /**
     * handleRecommendedChange: checking loads the recommended mode, output types and iterations;
     * unchecking resets them to "gaussian", none and none. The scene name is never touched.
     */
    method HandleRecommendedChange(checked: bool)
      requires Valid()
      modifies this
      ensures Valid()
      ensures useRecommended == checked
      ensures checked ==> trainingMode == RecommendedConfig.trainingMode &&
                          outputTypes == RecommendedConfig.outputTypes &&
                          saveIterations == RecommendedConfig.saveIterations
      ensures !checked ==> trainingMode == "gaussian" && outputTypes == [] && saveIterations == []
      ensures sceneName == old(sceneName) && currentIteration == old(currentIteration)
    {
      useRecommended := checked;
      if checked {
        trainingMode := RecommendedConfig.trainingMode;
        outputTypes := RecommendedConfig.outputTypes;
        saveIterations := RecommendedConfig.saveIterations;
        RecommendedIterationsValid();
      } else {
        trainingMode := "gaussian";
        outputTypes := [];
        saveIterations := [];
      }
    }

    /**
     * handleTrainingModeChange, corrected: a mode picked from the select becomes the mode and clears
     * the output types; a deselect (None) changes nothing. The select offers only the valid modes.
     */
    method HandleTrainingModeChange(value: Option<string>)
      requires Valid()
      requires value.Some? ==> value.value in ValidTrainingModes
      modifies this
      ensures Valid()
      ensures trainingMode == ModeAfterChange(old(trainingMode), value)
      ensures value.Some? ==> outputTypes == []
      ensures value.None? ==> outputTypes == old(outputTypes)
      ensures saveIterations == old(saveIterations) && sceneName == old(sceneName)
      ensures currentIteration == old(currentIteration) && useRecommended == old(useRecommended)
    {
      if value.Some? {
        trainingMode := value.value;
        outputTypes := [];
      }
    }

    /** The output-type checkboxes of the current render: always the list of the current mode. */
    function RenderedOutputTypes(): (types: seq<string>)
      requires Valid()
      reads this
      ensures OutputTypeChoices(Some(trainingMode)) == Some(types)
      ensures "video" in types
    {
      OutputTypeChoices(Some(trainingMode)).value
    }

    /** handleOutputTypeChange: flips whether value is selected. */
    method HandleOutputTypeChange(value: string)
      requires Valid()
      modifies this`outputTypes
      ensures Valid()
      ensures outputTypes == Toggle(old(outputTypes), value)
    {
      outputTypes := Toggle(outputTypes, value);
    }

    /** The number input's onChange. */
    method HandleIterationInput(value: int)
      requires Valid()
      modifies this`currentIteration
      ensures Valid()
      ensures currentIteration == Number(value)
    {
      currentIteration := Number(value);
    }

    /**
     * handleSaveIterationAdd: when the entry is a number in [0, 30000], not yet listed, and fewer
     * than 5 iterations are listed, adds it in sorted position and blanks the entry; otherwise
     * changes nothing.
     */
    method HandleSaveIterationAdd()
      requires Valid()
      modifies this`saveIterations, this`currentIteration
      ensures Valid()
      ensures CanAdd(old(currentIteration), old(saveIterations)) ==>
                && saveIterations == AddIteration(old(saveIterations), old(currentIteration).value)
                && old(currentIteration).value in saveIterations
                && currentIteration == Blank
      ensures !CanAdd(old(currentIteration), old(saveIterations)) ==>
                saveIterations == old(saveIterations) && currentIteration == old(currentIteration)
    {
      if CanAdd(currentIteration, saveIterations) {
        AddKeepsRule(saveIterations, currentIteration.value);
        saveIterations := AddIteration(saveIterations, currentIteration.value);
        currentIteration := Blank;
      }
    }

    /** handleRemoveIteration: filters the iteration out. */
    method HandleRemoveIteration(iteration: int)
      requires Valid()
      modifies this`saveIterations
      ensures Valid()
      ensures saveIterations == Remove(old(saveIterations), iteration)
    {
      RemoveKeepsRule(saveIterations, iteration);
      saveIterations := Remove(saveIterations, iteration);
    }

    /** The scene name input's onChange. */
    method HandleSceneNameChange(value: string)
      requires Valid()
      modifies this`sceneName
      ensures Valid()
      ensures sceneName == value
    {
      sceneName := value;
    }
  }
}
