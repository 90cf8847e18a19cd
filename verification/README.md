# Flow summarizer view model in Dafny

This project models `SummarizerViewModel`, the view model of a small Android
app. The user types a number of at most two digits and presses send. The view
model then reveals, one array at a time and with growing delays, the arrays
`[T(1)]`, `[T(1), T(2)]`, ..., `[T(1), ..., T(n)]`, where `T(i) = i(i+1)/2` is
the i-th triangular number.

The model is a sequential state machine over immutable values:

- `Triangles`: the arrays a run emits. Each is written with the source's closed
  form `(i+1)(i+2)/2`. A reference definition by summation (`SumTo`) is its
  partner. The module also proves that recomputing every array from scratch
  gives the same arrays as extending the previous one.
- `Pacing`: the per-element waits `(e+1) * 100` ms and when each element is due.
- `Validation`: the validator, Kotlin's `String.toInt()` on digit strings, and
  decimal rendering as the round-trip partner of the parse. Text is a sequence
  of UTF-16 code units, because Kotlin's `String.length` counts code units.
- `Summarizer`: the view model. It holds the `UserInput` and `Output` cells,
  the UI state (`SummarizerUIState`), and the runs of the summarizing flow that
  are still suspended in a delay. The transitions are:
  - `OnTextChanged` and `OnSummarize` for the two events;
  - `Tick(vm, k)`: run `k` wakes up after its delay, checks the `takeWhile`
    gate `outputFor == target` and, if the gate holds, emits its next array;
  - `Collect`: the combining collector's merge.

  `Step`/`Steps` run traces of these actions.
- `SummarizerProofs`: the invariant of reachable states, frame properties, and
  how an undisturbed run delivers its arrays.
- `Scenarios`: concrete traces, including the 5-then-2 scenario.

Notes on what the code does:

- The too-long message is `"Input is to long"`, with the typo.
- The empty text passes validation. `Summarize` on it makes `toInt` throw; the
  model returns `Crashed`. This also happens right after start, because the
  initial `UserInput` text is `""`.
- The UI state class defaults to the text `"0"`. The view model's input cell
  starts at `""`, so once the collector merges, the UI shows `""`
  (`SummarizerProofs.InitialState`).
- The gate compares numbers only; there is no generation counter. A run for 5
  that is still suspended when the target goes 5 → 2 → 5 passes its gate again
  and emits, interleaved with the new run, so each array is shown twice
  (`Scenarios.StaleRunResumesAfterReturn`). The older run started first, so
  under the real delays it is always ahead of the newer one
  (`Pacing.EarlierRunIsAhead`); it is the newer run's emissions that shorten
  the shown array. Even so, the UI always shows a prefix of the triangular
  series of the current target (`SummarizerProofs.Inv`).

## Model

| member | source | states |
|---|---|---|
| Triangles.EntryIsSum | app/src/main/java/cafe/serenity/windytest/MainActivity.kt:182-184 | The closed form `(i+1)(i+2)/2` used for entry i equals the sum 1 + ... + (i+1). |
| Triangles.Emission | app/src/main/java/cafe/serenity/windytest/MainActivity.kt:181-184 | The array for element e has e+1 entries, and entry i is 1 + ... + (i+1). |
| Triangles.NewTriangleArray | app/src/main/java/cafe/serenity/windytest/MainActivity.kt:182-184 | Filling an `IntArray(e+1)` index by index, as its constructor does, gives e+1 entries with entry i equal to 1 + ... + (i+1), and exactly the value `Emission(e)` that the state machine uses. |
| Triangles.EmissionIsStrictPrefixOfNext | app/src/main/java/cafe/serenity/windytest/MainActivity.kt:181-184 | Each array is a strict prefix of the array for the next element. |
| Triangles.EmissionExtendsByRunningSum | app/src/main/java/cafe/serenity/windytest/MainActivity.kt:172-184 | Recomputing each array from scratch gives the previous array extended by its last entry plus e+2. This is what an incremental running sum would build. |
| Triangles.EmissionIsIncreasingTriangularPrefix | app/src/main/java/cafe/serenity/windytest/MainActivity.kt:181-184 | Every emitted array starts at 1, is a prefix of the triangular series, and strictly increases. |
| Triangles.SumToStrictlyIncreasing | app/src/main/java/cafe/serenity/windytest/MainActivity.kt:183 | Triangular numbers strictly increase. |
| Triangles.TriangularPrefixIsEmission | app/src/main/java/cafe/serenity/windytest/MainActivity.kt:181-184 | A non-empty prefix of the triangular series is exactly the array for element length-1. |
| Pacing.DelayGrows | app/src/main/java/cafe/serenity/windytest/MainActivity.kt:167-168 | Each wait is 100 ms longer than the one before. |
| Pacing.DueAtIsTriangular | app/src/main/java/cafe/serenity/windytest/MainActivity.kt:167-168 | Element e is due 100·T(e+1) ms after the run starts, because the waits add up. |
| Pacing.DueAtIncreasing | app/src/main/java/cafe/serenity/windytest/MainActivity.kt:167-168 | The elements of one run fall due in strictly increasing order. |
| Pacing.EarlierRunIsAhead | app/src/main/java/cafe/serenity/windytest/MainActivity.kt:167-168 | Of two runs started at different times, an element of the later run that falls due no later than element x of the earlier run has a smaller index than x: the earlier run is always ahead. |
| Validation.Validate | app/src/main/java/cafe/serenity/windytest/MainActivity.kt:152-158 | The error is empty exactly when the text has at most two code units, all ASCII digits. Otherwise it is one of the two messages. |
| Validation.TooLongWhateverItHolds | app/src/main/java/cafe/serenity/windytest/MainActivity.kt:154-155 | Any text longer than two code units gets exactly `"Input is to long"`, whatever its characters. |
| Validation.ShortTextNotNumericIff | app/src/main/java/cafe/serenity/windytest/MainActivity.kt:156-158 | Up to two code units, the error is `"Input is not numeric"` iff some unit is outside `'0'..'9'`. It is `""` iff every unit is a digit. |
| Validation.EmptyTextAccepted | app/src/main/java/cafe/serenity/windytest/MainActivity.kt:153-158 | The empty text gets the error `""`. |
| Validation.IsBlank | app/src/main/java/cafe/serenity/windytest/MainActivity.kt:163 | `isBlank` holds of the empty string and fails for a string that starts with a non-whitespace character, as every validator message does. `Validation.BlankIffTrimsToEmpty` gives the full characterization. |
| Validation.BlankIffTrimsToEmpty | app/src/main/java/cafe/serenity/windytest/MainActivity.kt:163 | A string is blank exactly when trimming its leading whitespace leaves nothing. |
| Validation.ValidateBlankIffAccepted | app/src/main/java/cafe/serenity/windytest/MainActivity.kt:153-163 | The validator's error is blank (`isBlank`) iff it is empty, iff the text is accepted. |
| Validation.ToInt | app/src/main/java/cafe/serenity/windytest/MainActivity.kt:164 | `toInt` succeeds exactly on non-empty digit strings and yields a value below 10^length. The empty string throws. |
| Validation.AcceptedTextParses | app/src/main/java/cafe/serenity/windytest/MainActivity.kt:154-164 | On accepted text, `toInt` throws iff the text is empty. Otherwise it gives a number in 0..99. |
| Validation.DecimalRoundTrip | app/src/main/java/cafe/serenity/windytest/MainActivity.kt:164 | Parsing the decimal rendering of n gives n back. |
| Validation.SmallDecimalAccepted | app/src/main/java/cafe/serenity/windytest/MainActivity.kt:154-158 | The rendering of every number in 0..99 passes validation. |
| Validation.AcceptedTextRoundTrip | app/src/main/java/cafe/serenity/windytest/MainActivity.kt:164 | Accepted non-empty text without a leading zero parses to a number that renders back to the same text. |
| Summarizer.Init | app/src/main/java/cafe/serenity/windytest/MainActivity.kt:196-198 | The view model starts with input `""`, error `""`, output for 0 with no numbers, and no runs. |
| Summarizer.Merge | app/src/main/java/cafe/serenity/windytest/MainActivity.kt:139-145 | The UI state takes input, error, `outputFor` and numbers field by field from the two cells. |
| Summarizer.Collect | app/src/main/java/cafe/serenity/windytest/MainActivity.kt:136-146 | The collector's merge leaves both cells and the runs unchanged, and afterwards the UI shows the cells. |
| Summarizer.OnTextChanged | app/src/main/java/cafe/serenity/windytest/MainActivity.kt:151-160 | A text change stores the text with its validator error, leaves the output and runs unchanged, and the UI shows the new cells. |
| Summarizer.OnEvent | app/src/main/java/cafe/serenity/windytest/MainActivity.kt:149-151 | `onEvent` dispatches on the event: only a summarize can crash, a text change stores the text with its validator error and leaves output and runs alone, and a summarize is handled by `OnSummarize`. |
| Summarizer.Launch | app/src/main/java/cafe/serenity/windytest/MainActivity.kt:167 | Summarizing n launches one run for n, with all n elements `0 until n` pending, when n > 0, and no run for 0. |
| Summarizer.OnSummarize | app/src/main/java/cafe/serenity/windytest/MainActivity.kt:162-189 | A non-blank error means no change. With a blank error, an unparseable text crashes. Any other change resets the output to the parsed n, which differs from the old `outputFor`, and appends its run. |
| Summarizer.Tick | app/src/main/java/cafe/serenity/windytest/MainActivity.kt:167-188 | When the gate holds, a wake-up shows the array for the run's next element and advances or finishes the run. When the gate fails, it removes the run and leaves the output unchanged. |
| Summarizer.Step | app/src/main/java/cafe/serenity/windytest/MainActivity.kt:149-188 | One step of a trace: a crashed view model stays crashed, only an event can crash it, the merge publishes the cells, a wake-up naming no run changes nothing, and a wake-up of a run keeps the input and `outputFor`. |
| SummarizerProofs.InitialState | app/src/main/java/cafe/serenity/windytest/MainActivity.kt:219-223 | The constructed view model keeps the invariant. Its UI shows `"0"` while the input is `""`. After the merge, the UI shows `""`. |
| SummarizerProofs.TextChangedLeavesOutputAlone | app/src/main/java/cafe/serenity/windytest/MainActivity.kt:151-160 | A text event replaces input and error only. Output, runs and everything else stay, and the invariant is kept. |
| SummarizerProofs.SummarizeCrashesIffEmpty | app/src/main/java/cafe/serenity/windytest/MainActivity.kt:163-164 | In a reachable state, summarize throws exactly when the text is empty. |
| SummarizerProofs.SummarizeIgnored | app/src/main/java/cafe/serenity/windytest/MainActivity.kt:163-165 | Summarize changes nothing while an error is shown, or when the text parses to the current `outputFor`. |
| SummarizerProofs.SummarizeStartsRun | app/src/main/java/cafe/serenity/windytest/MainActivity.kt:165-167 | Summarize for a new n sets the output to (n, []), keeps the input, and adds one run for n with n elements pending, or none for 0. |
| SummarizerProofs.SummarizeIdempotent | app/src/main/java/cafe/serenity/windytest/MainActivity.kt:163-166 | Summarizing again right after a summarize changes nothing: no reset and no second run. |
| SummarizerProofs.TickChangesOnlyNumbers | app/src/main/java/cafe/serenity/windytest/MainActivity.kt:169-186 | A tick keeps the input, `outputFor` and every other run. `numbers` changes only when `outputFor` equals the run's target. |
| SummarizerProofs.FailedGateEndsRun | app/src/main/java/cafe/serenity/windytest/MainActivity.kt:169-171 | When the gate fails, nothing is emitted and exactly that run leaves the suspended runs, so it never emits again. |
| SummarizerProofs.TickEmitsNextArray | app/src/main/java/cafe/serenity/windytest/MainActivity.kt:181-186 | A passing tick shows next+1 triangular numbers. If the run continues, that array is a strict prefix of the run's next one. |
| SummarizerProofs.StepPreservesInv | app/src/main/java/cafe/serenity/windytest/MainActivity.kt:149-193 | Every event, tick and merge keeps the invariant. The error stays the validator's verdict, and the UI shows a triangular prefix no longer than `outputFor`. Runs keep targets in 1..99. A merged UI stays merged. |
| SummarizerProofs.StepsPreserveInv | app/src/main/java/cafe/serenity/windytest/MainActivity.kt:149-193 | Any trace from an invariant, merged state keeps both properties. |
| SummarizerProofs.ReachableStates | app/src/main/java/cafe/serenity/windytest/MainActivity.kt:136-193 | After the first merge and any trace, the view model has crashed, or it keeps the invariant and its UI equals the merge of the two cells. |
| SummarizerProofs.UndisturbedRunDelivers | app/src/main/java/cafe/serenity/windytest/MainActivity.kt:167-188 | A run whose target is shown delivers, after j wake-ups, the array for element next+j-1, in order. After its last element it is gone. |
| Scenarios.EmptyInputCrashes | app/src/main/java/cafe/serenity/windytest/MainActivity.kt:163-164 | Summarize right after start, or after clearing the text, crashes. |
| Scenarios.SupplementaryCharacterCountsTwice | app/src/main/java/cafe/serenity/windytest/MainActivity.kt:154 | A two-character text with a character above U+FFFF takes three code units and is too long. |
| Scenarios.ThreeDeliversInOrder | app/src/main/java/cafe/serenity/windytest/MainActivity.kt:162-188 | For 3 the UI shows [1], then [1, 3], then [1, 3, 6], and then the run is finished. |
| Scenarios.SupersededRunNeverEmits | app/src/main/java/cafe/serenity/windytest/MainActivity.kt:165-188 | After 5 and then 2, the run for 5 ends at its first wake-up without emitting. The run for 2 shows [1, 3]. |
| Scenarios.ReturnLeavesTwoRunsForFive | app/src/main/java/cafe/serenity/windytest/MainActivity.kt:165-167 | After summarizing 5, then 2, then 5, the output is for 5 with nothing shown, and two runs for 5 are suspended besides the run for 2. |
| Scenarios.StaleRunResumesAfterReturn | app/src/main/java/cafe/serenity/windytest/MainActivity.kt:169-171 | After 5 → 2 → 5, the older run for 5 wakes first, as its earlier start makes it, passes its gate and shows [1]; the newer run shows [1] again; then the older run shows [1, 3]. |
| Scenarios.ZeroLaunchesNothing | app/src/main/java/cafe/serenity/windytest/MainActivity.kt:165-167 | Summarizing 0 right after start changes nothing. After 3, summarizing 0 resets the output and launches no run. |

## Left out

- The activity and the composable screen, including its own blank-error guards on send: these are presentation. The view model repeats the guard, and it is modelled.
- Coroutines, `StateFlow`, `combine`, `launchIn` and `viewModelScope`: the model replaces them with discrete steps. A merged UI state is modelled as a field of the view model, set by every change.
- The conflation of `StateFlow`/`combine`: the UI may skip intermediate states, and the model publishes every one.
- Real time: the delays become ticks, and which suspended run wakes next is left open. `Pacing` records the waits, but the state machine does not use them to order runs.
- Cancelling runs when `viewModelScope` is cleared (`cancellable()`): there is no teardown transition.
- The hand-written `equals`/`hashCode`: they only give content equality on `IntArray`, which sequence equality already is.
- The commented-out `runningFold` variant: it is dead code, and `runningFold` would also emit its initial empty array ungated at launch. `Triangles.EmissionExtendsByRunningSum` only states the recurrence between consecutive arrays, not that variant.
- Kotlin `Int` overflow: values are at most T(99) = 4950, so mathematical integers are exact. `(i+1)(i+2)` is never negative and always even, so the way division rounds does not matter.
- Validation.ToInt: signs, non-ASCII digits and 32-bit overflow in Kotlin's `toInt` are not modelled. Text containing anything but ASCII digits is treated as unparseable. Only accepted text, at most two ASCII digits, ever reaches it.
- Summarizer.Step: a wake-up naming no suspended run is a no-op. No coroutine exists for it to resume.
- Validation.IsBlank: `isBlank` is modelled with Java's whitespace and space-separator characters. It is only ever applied to the three validator messages.
