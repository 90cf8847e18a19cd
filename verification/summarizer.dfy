/**
 The summarizer view model as a sequential state machine.

 It owns two state cells, the user input (text and validation error) and the
 output (the number the output is for and the array shown), plus the runs of
 the summarizing flow that are still suspended in a delay. Three kinds of
 transition change it:
 - an event from the screen (`TextChanged` or `Summarize`), handled by `OnEvent`;
 - `Tick`, one suspended run waking up after its delay, checking its gate
   `outputFor == target` and, if the gate holds, emitting its next array;
 - `Collect`, the merge of both cells into the UI state that the combining
   collector performs when it starts.
 Which run wakes next is left open; within one run, elements come in order.
 */
module Summarizer {
  import opened Triangles
  import opened Validation

  datatype UserInput = UserInput(input: Text, error: string)

  /** `numbers` is the array shown for `outputFor`. */
  datatype Output = Output(outputFor: int, numbers: seq<int>)

  datatype UIState = UIState(inputValue: Text, inputError: string, processedVal: int, numbers: seq<int>)

  datatype Event = TextChanged(userInput: Text) | Summarize

  /**
   A run of the summarizing flow started for `target`, suspended before its
   element `next` (elements run from 0 to target - 1).
   */
  datatype Run = Run(target: int, next: nat)

  datatype ViewModel = ViewModel(userInput: UserInput, output: Output, runs: seq<Run>, ui: UIState)

  /** Result of handling an event: `Summarize` on empty text makes `toInt` throw. */
  datatype Outcome = Running(vm: ViewModel) | Crashed

  /** The defaults of the UI state class, shown before the collector first merges. */
  const DefaultUI: UIState := UIState(Utf16("0"), "", 0, [])

  /** The view model as constructed: empty input, output for 0, no runs. */
  function Init(): (vm: ViewModel)
    ensures vm.userInput.input == [] && vm.userInput.error == ""
    ensures vm.output == Output(0, []) && vm.runs == []
  {
    ViewModel(UserInput([], ""), Output(0, []), [], DefaultUI)
  }

  /** The UI state: a field-by-field projection of the two cells. */
  function Merge(u: UserInput, o: Output): (ui: UIState)
    ensures ui.inputValue == u.input && ui.inputError == u.error
    ensures ui.processedVal == o.outputFor && ui.numbers == o.numbers
  {
    UIState(u.input, u.error, o.outputFor, o.numbers)
  }

  /** True when the UI state shows the current cells. */
  predicate Synced(vm: ViewModel)
  {
    vm.ui == Merge(vm.userInput, vm.output)
  }

  /** The collector merging both cells into the UI state. */
  function Collect(vm: ViewModel): (vm': ViewModel)
    ensures Synced(vm')
    ensures vm'.userInput == vm.userInput && vm'.output == vm.output && vm'.runs == vm.runs
  {
    vm.(ui := Merge(vm.userInput, vm.output))
  }

  /** Replaces the output cell and republishes. */
  function WithOutput(vm: ViewModel, o: Output, runs: seq<Run>): ViewModel
  {
    ViewModel(vm.userInput, o, runs, Merge(vm.userInput, o))
  }

  /** The text-changed event: validate, replace both input fields, republish. */
  function OnTextChanged(vm: ViewModel, t: Text): (vm': ViewModel)
    ensures vm'.userInput == UserInput(t, Validate(t))
    ensures vm'.output == vm.output && vm'.runs == vm.runs
    ensures Synced(vm')
  {
    var u := UserInput(t, Validate(t));
    ViewModel(u, vm.output, vm.runs, Merge(u, vm.output))
  }

  /** The run a summarize for `n` launches; `0 until 0` is empty, so 0 launches none. */
  function Launch(n: int): (runs: seq<Run>)
    ensures n > 0 ==> runs == [Run(n, 0)]
    ensures n <= 0 ==> runs == []
  {
    if n > 0 then [Run(n, 0)] else []
  }

  /**
   The summarize event. Ignored while the error is not blank; otherwise the text
   is parsed (empty text throws) and, unless the output is already for that
   number, the output is reset and a new run is launched for it.
   */
  function OnSummarize(vm: ViewModel): (o: Outcome)
    ensures !IsBlank(vm.userInput.error) ==> o == Running(vm)
    ensures IsBlank(vm.userInput.error) && ToInt(vm.userInput.input).NumberFormatException? ==> o.Crashed?
    ensures o.Running? && o.vm != vm ==>
              && ToInt(vm.userInput.input).Number?
              && var n := ToInt(vm.userInput.input).value;
              && n != vm.output.outputFor
              && o.vm.output == Output(n, [])
              && o.vm.runs == vm.runs + Launch(n)
              && o.vm.userInput == vm.userInput
  {
    if !IsBlank(vm.userInput.error) then Running(vm)
    else match ToInt(vm.userInput.input)
      case NumberFormatException => Crashed
      case Number(n) =>
        if vm.output.outputFor == n then Running(vm)
        else Running(WithOutput(vm, Output(n, []), vm.runs + Launch(n)))
  }

  /**
   `onEvent`: dispatches on the kind of event. Only a summarize can crash,
   and a text change never touches the output or the runs.
   */
  function OnEvent(vm: ViewModel, e: Event): (o: Outcome)
    ensures o.Crashed? ==> e.Summarize?
    ensures e.TextChanged? ==>
              && o.Running?
              && o.vm.userInput == UserInput(e.userInput, Validate(e.userInput))
              && o.vm.output == vm.output && o.vm.runs == vm.runs
    ensures e.Summarize? ==> o == OnSummarize(vm)
  {
    match e
    case TextChanged(t) => Running(OnTextChanged(vm, t))
    case Summarize => OnSummarize(vm)
  }

  /** `s` without its element at index `k`. */
  function RemoveAt<T>(s: seq<T>, k: nat): (s': seq<T>)
    requires k < |s|
    ensures |s'| == |s| - 1
    ensures forall i :: 0 <= i < k ==> s'[i] == s[i]
    ensures forall i :: k <= i < |s'| ==> s'[i] == s[i + 1]
  {
    s[..k] + s[k + 1..]
  }

  /**
   Run `k` wakes after its delay. If the output is still for its target, it
   emits the array for its element `next` into `numbers` and stays suspended
   for the following element, or finishes after the last one. If the output is
   for another number, the gate fails and the run ends without emitting.
   */
  function Tick(vm: ViewModel, k: nat): (vm': ViewModel)
    requires k < |vm.runs|
    ensures vm'.userInput == vm.userInput && vm'.output.outputFor == vm.output.outputFor
    ensures Synced(vm')
    ensures var r := vm.runs[k];
            if vm.output.outputFor == r.target then
              && vm'.output.numbers == Emission(r.next)
              && vm'.runs == (if r.next + 1 < r.target then vm.runs[k := Run(r.target, r.next + 1)]
                              else RemoveAt(vm.runs, k))
            else
              && vm'.output == vm.output
              && vm'.runs == RemoveAt(vm.runs, k)
  {
    var r := vm.runs[k];
    if vm.output.outputFor == r.target then
      var runs := if r.next + 1 < r.target then vm.runs[k := r.(next := r.next + 1)] else RemoveAt(vm.runs, k);
      WithOutput(vm, vm.output.(numbers := Emission(r.next)), runs)
    else
      WithOutput(vm, vm.output, RemoveAt(vm.runs, k))
  }

  /** One step of a trace: an event, a wake-up of run `k`, or the collector's merge. */
  datatype Action = Deliver(e: Event) | Wake(k: nat) | Merged

  /**
   One step; a crashed view model stays crashed, and a wake-up naming no
   suspended run changes nothing.
   */
  function Step(o: Outcome, a: Action): (o': Outcome)
    ensures o.Crashed? ==> o'.Crashed?
    ensures o'.Crashed? ==> o.Crashed? || a.Deliver?
    ensures o.Running? && a.Merged? ==> o' == Running(o.vm.(ui := Merge(o.vm.userInput, o.vm.output)))
    ensures o.Running? && a.Wake? && a.k >= |o.vm.runs| ==> o' == o
    ensures o.Running? && a.Wake? && a.k < |o.vm.runs| ==>
              o'.Running? && o'.vm.userInput == o.vm.userInput && o'.vm.output.outputFor == o.vm.output.outputFor
  {
    match o
    case Crashed => Crashed
    case Running(vm) =>
      match a
      case Deliver(e) => OnEvent(vm, e)
      case Wake(k) => if k < |vm.runs| then Running(Tick(vm, k)) else o
      case Merged => Running(Collect(vm))
  }

  function Steps(o: Outcome, actions: seq<Action>): Outcome
    decreases |actions|
  {
    if actions == [] then o else Steps(Step(o, actions[0]), actions[1..])
  }
}
