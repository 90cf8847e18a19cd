/**
 Properties of the summarizer view model: the invariant every reachable state
 keeps, what each event and each tick may and may not change, how a run
 delivers its arrays, and the invariant every trace keeps.
 */
module SummarizerProofs {
  import opened Triangles
  import opened Validation
  import opened Summarizer

  /**
   The invariant of every state the view model reaches: the error is the
   validator's verdict on the text, the output is for a number in 0..99 and
   shows a prefix of its triangular series, and every suspended run has
   elements left and a target in 0..99.
   */
  predicate Inv(vm: ViewModel)
  {
    && vm.userInput.error == Validate(vm.userInput.input)
    && 0 <= vm.output.outputFor <= 99
    && |vm.output.numbers| <= vm.output.outputFor
    && IsTriangularPrefix(vm.output.numbers)
    && forall i :: 0 <= i < |vm.runs| ==> 0 <= vm.runs[i].next < vm.runs[i].target <= 99
  }

  /**
   The view model as constructed keeps the invariant, but its UI state still
   holds the class default "0" while the input is empty; the collector's merge
   replaces it with the empty text.
   */
  lemma InitialState()
    ensures Inv(Init())
    ensures !Synced(Init())
    ensures Init().ui.inputValue != Init().userInput.input
    ensures Synced(Collect(Init())) && Collect(Init()).ui.inputValue == []
  {
  }

  /** A text change replaces both input fields and leaves output and runs alone. */
  lemma TextChangedLeavesOutputAlone(vm: ViewModel, t: Text)
    ensures OnEvent(vm, TextChanged(t)) == Running(vm.(userInput := UserInput(t, Validate(t)),
                                                        ui := Merge(UserInput(t, Validate(t)), vm.output)))
    ensures Inv(vm) ==> Inv(OnEvent(vm, TextChanged(t)).vm)
  {
  }

  /** In a reachable state, summarize throws exactly when the text is empty. */
  lemma SummarizeCrashesIffEmpty(vm: ViewModel)
    requires Inv(vm)
    ensures OnSummarize(vm).Crashed? <==> vm.userInput.input == []
  {
    ValidateBlankIffAccepted(vm.userInput.input);
  }

  /** Summarize with an error shown, or for the number already shown, changes nothing. */
  lemma SummarizeIgnored(vm: ViewModel)
    requires Inv(vm)
    requires || vm.userInput.error != ""
             || ToInt(vm.userInput.input) == Number(vm.output.outputFor)
    ensures OnSummarize(vm) == Running(vm)
  {
    ValidateBlankIffAccepted(vm.userInput.input);
  }

  /**
   Summarize for a new number `n` resets the output to `n` with nothing shown
   and launches one run for `n` with all `n` elements pending (none for 0).
   */
  lemma SummarizeStartsRun(vm: ViewModel, n: int)
    requires Inv(vm)
    requires vm.userInput.error == "" && ToInt(vm.userInput.input) == Number(n)
    requires n != vm.output.outputFor
    ensures OnSummarize(vm).Running?
    ensures var vm' := OnSummarize(vm).vm;
            && vm'.output == Output(n, [])
            && vm'.userInput == vm.userInput
            && (n == 0 ==> vm'.runs == vm.runs)
            && (n > 0 ==> vm'.runs == vm.runs + [Run(n, 0)] && vm'.runs[|vm.runs|].target - vm'.runs[|vm.runs|].next == n)
    ensures Inv(OnSummarize(vm).vm) && Synced(OnSummarize(vm).vm)
  {
    ValidateBlankIffAccepted(vm.userInput.input);
    AcceptedTextParses(vm.userInput.input);
  }

  /**
   Summarizing twice in a row is the same as once: the second neither resets
   the output nor launches a second run.
   */
  lemma SummarizeIdempotent(vm: ViewModel)
    requires Inv(vm)
    requires OnSummarize(vm).Running?
    ensures OnSummarize(OnSummarize(vm).vm) == OnSummarize(vm)
  {
  }

  /**
   A tick changes nothing but the shown array and the ticking run: the input,
   the number the output is for, and every other run stay as they were.
   */
  lemma TickChangesOnlyNumbers(vm: ViewModel, k: nat)
    requires k < |vm.runs|
    ensures var vm' := Tick(vm, k);
            && vm'.userInput == vm.userInput
            && vm'.output.outputFor == vm.output.outputFor
            && (vm'.output.numbers != vm.output.numbers ==> vm.output.outputFor == vm.runs[k].target)
            && multiset(vm.runs) - multiset{vm.runs[k]} <= multiset(vm'.runs)
            && |vm'.runs| >= |vm.runs| - 1
  {
    var r := vm.runs[k];
    var vm' := Tick(vm, k);
    if vm.output.outputFor == r.target && r.next + 1 < r.target {
      assert vm'.runs == vm.runs[k := Run(r.target, r.next + 1)];
      MultisetUpdate(vm.runs, k, Run(r.target, r.next + 1));
    } else {
      MultisetRemoveAt(vm.runs, k);
    }
  }

  lemma MultisetRemoveAt<T>(s: seq<T>, k: nat)
    requires k < |s|
    ensures multiset(RemoveAt(s, k)) == multiset(s) - multiset{s[k]}
  {
    assert s == s[..k] + [s[k]] + s[k + 1..];
  }

  lemma MultisetUpdate<T>(s: seq<T>, k: nat, x: T)
    requires k < |s|
    ensures multiset(s[k := x]) == multiset(s) - multiset{s[k]} + multiset{x}
  {
  }

  /**
   A run whose gate fails ends: nothing is emitted, and exactly that one run
   leaves the set of suspended runs, so it can never emit again.
   */
  lemma FailedGateEndsRun(vm: ViewModel, k: nat)
    requires k < |vm.runs| && vm.output.outputFor != vm.runs[k].target
    ensures Tick(vm, k).output == vm.output
    ensures multiset(Tick(vm, k).runs) == multiset(vm.runs) - multiset{vm.runs[k]}
  {
    MultisetRemoveAt(vm.runs, k);
  }

  /**
   A tick whose gate holds shows the array for the run's element `next`; when
   the run continues, that array is a strict prefix of what it emits next.
   */
  lemma TickEmitsNextArray(vm: ViewModel, k: nat)
    requires Inv(vm)
    requires k < |vm.runs| && vm.output.outputFor == vm.runs[k].target
    ensures var r := vm.runs[k];
            var shown := Tick(vm, k).output.numbers;
            && |shown| == r.next + 1
            && IsTriangularPrefix(shown)
            && (r.next + 1 < r.target ==>
                  && Tick(vm, k).runs[k] == Run(r.target, r.next + 1)
                  && shown == Emission(r.next + 1)[..|shown|] && |shown| < |Emission(r.next + 1)|)
  {
  }

  /** Every step from a state with the invariant keeps it. */
  lemma StepPreservesInv(vm: ViewModel, a: Action)
    requires Inv(vm)
    ensures Step(Running(vm), a).Running? ==> Inv(Step(Running(vm), a).vm)
    ensures Synced(vm) && Step(Running(vm), a).Running? ==> Synced(Step(Running(vm), a).vm)
  {
    match a
    case Deliver(TextChanged(t)) =>
    case Deliver(Summarize) =>
      ValidateBlankIffAccepted(vm.userInput.input);
      if vm.userInput.error == "" {
        AcceptedTextParses(vm.userInput.input);
      }
    case Wake(k) =>
      if k < |vm.runs| {
        var r := vm.runs[k];
        if vm.output.outputFor == r.target {
          EmissionIsIncreasingTriangularPrefix(r.next);
        }
      }
    case Merged =>
  }

  /** Every trace from a state with the invariant keeps it, and keeps the UI merged. */
  lemma {:induction false} StepsPreserveInv(o: Outcome, actions: seq<Action>)
    requires o.Running? ==> Inv(o.vm) && Synced(o.vm)
    ensures Steps(o, actions).Running? ==> Inv(Steps(o, actions).vm) && Synced(Steps(o, actions).vm)
    decreases |actions|
  {
    if actions != [] {
      if o.Running? {
        StepPreservesInv(o.vm, actions[0]);
      }
      StepsPreserveInv(Step(o, actions[0]), actions[1..]);
    }
  }

  /**
   Once the collector has merged, after any sequence of events and ticks the
   view model has either crashed or keeps the invariant, and its UI state is
   exactly the projection of the input and output cells.
   */
  lemma ReachableStates(actions: seq<Action>)
    ensures var o := Steps(Running(Collect(Init())), actions);
            o.Running? ==> Inv(o.vm) && o.vm.ui == Merge(o.vm.userInput, o.vm.output)
  {
    InitialState();
    StepsPreserveInv(Running(Collect(Init())), actions);
  }

  function Repeat(a: Action, j: nat): (s: seq<Action>)
    ensures |s| == j && forall i :: 0 <= i < j ==> s[i] == a
  {
    seq(j, _ => a)
  }

  /**
   Left undisturbed, a run whose target is the shown number delivers its
   arrays in order: after `j` wake-ups it shows the array for element
   `next + j - 1`, and after its last element it is gone.
   */
  lemma {:induction false} UndisturbedRunDelivers(vm: ViewModel, k: nat, j: nat)
    requires k < |vm.runs| && vm.output.outputFor == vm.runs[k].target
    requires 1 <= j && vm.runs[k].next + j <= vm.runs[k].target
    ensures var r := vm.runs[k];
            var o := Steps(Running(vm), Repeat(Wake(k), j));
            && o.Running?
            && o.vm.userInput == vm.userInput
            && o.vm.output == Output(r.target, Emission(r.next + j - 1))
            && (r.next + j < r.target ==> o.vm.runs == vm.runs[k := Run(r.target, r.next + j)])
            && (r.next + j == r.target ==> o.vm.runs == RemoveAt(vm.runs, k))
    decreases j
  {
    var r := vm.runs[k];
    var wakes := Repeat(Wake(k), j);
    var vm1 := Tick(vm, k);
    assert Step(Running(vm), wakes[0]) == Running(vm1);
    assert wakes[1..] == Repeat(Wake(k), j - 1);
    if j == 1 {
      assert Steps(Running(vm1), []) == Running(vm1);
    } else {
      assert vm1.runs[k] == Run(r.target, r.next + 1);
      UndisturbedRunDelivers(vm1, k, j - 1);
      assert vm1.runs[k := Run(r.target, r.next + j)] == vm.runs[k := Run(r.target, r.next + j)];
      if r.next + j == r.target {
        assert RemoveAt(vm1.runs, k) == RemoveAt(vm.runs, k);
      }
    }
  }
}
