/**
 Concrete traces of the summarizer view model, each starting from the view
 model as constructed and merged by the collector.
 */
module Scenarios {
  import opened Triangles
  import opened Validation
  import opened Summarizer

  function Start(): ViewModel
  {
    Collect(Init())
  }

  function Type(vm: ViewModel, s: string): ViewModel
  {
    OnTextChanged(vm, Utf16(s))
  }

  /**
   Pressing send right after start, or after clearing the text, makes `toInt`
   throw on the empty text: the empty input passes validation.
   */
  lemma EmptyInputCrashes()
    ensures OnSummarize(Start()) == Crashed
    ensures Steps(Running(Start()), [Deliver(TextChanged(Utf16("7"))), Deliver(TextChanged([])), Deliver(Summarize)]) == Crashed
  {
  }

  /** A text of two characters that takes three UTF-16 code units is reported too long. */
  lemma SupplementaryCharacterCountsTwice()
    ensures |"a\U{1F600}"| == 2
    ensures Validate(Utf16("a\U{1F600}")) == TooLong
  {
  }

  /** For 3 the run shows [1], then [1, 3], then [1, 3, 6], and then it is finished. */
  lemma ThreeDeliversInOrder()
    ensures var vm := OnSummarize(Type(Start(), "3"));
            && vm.Running?
            && vm.vm.output == Output(3, []) && vm.vm.runs == [Run(3, 0)]
            && Tick(vm.vm, 0).output.numbers == [1]
            && Tick(Tick(vm.vm, 0), 0).output.numbers == [1, 3]
            && Tick(Tick(Tick(vm.vm, 0), 0), 0).output == Output(3, [1, 3, 6])
            && Tick(Tick(Tick(vm.vm, 0), 0), 0).runs == []
  {
    DecimalRoundTrip(3);
    assert Utf16("3") == Decimal(3);
    var vm2 := OnSummarize(Type(Start(), "3")).vm;
    assert vm2.runs == [Run(3, 0)];
    assert Emission(0) == [1];
    assert Emission(1) == [1, 3];
    assert Emission(2) == [1, 3, 6];
  }

  /**
   Summarizing 5 and then 2 before the first delay ends: the run for 5 finds
   its gate closed, ends without emitting, and the run for 2 shows [1, 3].
   */
  lemma SupersededRunNeverEmits()
    ensures var vm5 := OnSummarize(Type(Start(), "5")).vm;
            var vm2 := OnSummarize(Type(vm5, "2")).vm;
            && vm2.runs == [Run(5, 0), Run(2, 0)]
            && Tick(vm2, 0).output == Output(2, [])
            && Tick(vm2, 0).runs == [Run(2, 0)]
            && Tick(Tick(Tick(vm2, 0), 0), 0).output == Output(2, [1, 3])
            && Tick(Tick(Tick(vm2, 0), 0), 0).runs == []
  {
    DecimalRoundTrip(5);
    DecimalRoundTrip(2);
    assert Utf16("5") == Decimal(5) && Utf16("2") == Decimal(2);
    var vm5 := OnSummarize(Type(Start(), "5")).vm;
    assert vm5.output == Output(5, []) && vm5.runs == [Run(5, 0)];
    var vm2 := OnSummarize(Type(vm5, "2")).vm;
    assert vm2.output == Output(2, []);
    assert Emission(0) == [1];
    assert Emission(1) == [1, 3];
  }

  /** The view model after summarizing 5, then 2, then 5 again, before any run wakes. */
  function FiveTwoFive(): ViewModel
  {
    var vm5 := OnSummarize(Type(Start(), "5")).vm;
    var vm2 := OnSummarize(Type(vm5, "2")).vm;
    OnSummarize(Type(vm2, "5")).vm
  }

  /** Returning to 5 leaves two runs for 5 suspended: the older one and a new one. */
  lemma ReturnLeavesTwoRunsForFive()
    ensures FiveTwoFive().output == Output(5, [])
    ensures FiveTwoFive().runs == [Run(5, 0), Run(2, 0), Run(5, 0)]
  {
    DecimalRoundTrip(5);
    DecimalRoundTrip(2);
    assert Utf16("5") == Decimal(5) && Utf16("2") == Decimal(2);
    var vm5 := OnSummarize(Type(Start(), "5")).vm;
    assert vm5.output == Output(5, []) && vm5.runs == [Run(5, 0)];
    var vm2 := OnSummarize(Type(vm5, "2")).vm;
    assert vm2.output == Output(2, []) && vm2.runs == [Run(5, 0), Run(2, 0)];
  }

  /**
   The gate compares numbers only. The older run for 5 was started first, so
   its first element falls due first: it passes the gate and shows [1]; the
   newer run then shows [1] again, and next the older one shows [1, 3] ahead
   of the newer one.
   */
  lemma StaleRunResumesAfterReturn()
    ensures var vm := FiveTwoFive();
            && Tick(vm, 0).output == Output(5, [1])
            && Tick(vm, 0).runs == [Run(5, 1), Run(2, 0), Run(5, 0)]
            && Tick(Tick(vm, 0), 2).output == Output(5, [1])
            && Tick(Tick(Tick(vm, 0), 2), 0).output == Output(5, [1, 3])
            && Tick(Tick(Tick(vm, 0), 2), 0).runs == [Run(5, 2), Run(2, 0), Run(5, 1)]
  {
    ReturnLeavesTwoRunsForFive();
    assert Emission(0) == [1];
    assert Emission(1) == [1, 3];
  }

  /**
   Summarizing 0 right after start changes nothing, since the output is
   already for 0; after 3, summarizing 0 resets the output and launches no run.
   */
  lemma ZeroLaunchesNothing()
    ensures OnSummarize(Type(Start(), "0")) == Running(Type(Start(), "0"))
    ensures var vm3 := OnSummarize(Type(Start(), "3")).vm;
            var vm0 := OnSummarize(Type(vm3, "0")).vm;
            vm0.output == Output(0, []) && vm0.runs == vm3.runs == [Run(3, 0)]
  {
    DecimalRoundTrip(0);
    DecimalRoundTrip(3);
    assert Utf16("0") == Decimal(0) && Utf16("3") == Decimal(3);
  }
}
