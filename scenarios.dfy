/**
 * Whole runs of the engine, as a script would drive it: each method builds a
 * fresh engine, issues a sequence of commands and returns what the commands
 * report, and its postcondition states those reports.
 */
module Scenarios {
  import opened Types
  import opened Tally
  import opened Validation
  import opened Machine

  /**
   * One button selling Cola at 15 with coin kinds 1, 5 and 10. The load
   * throws because its pop loop reads popCounts.get(1) of a one-element list,
   * leaving the pop slot empty, so pressing the button after paying 20 gives
   * nothing and the chute stays empty.
   */
  method OneButtonCola(blank: Button) returns (loaded: Outcome, pressed: Outcome, items: Result<seq<Item>>)
    ensures loaded == Fail(IndexOutOfBounds)
    ensures pressed == Ok
    ensures items == Success([])
  {
    var f := new VendingMachineFactory(blank);
    var o := f.Construct([1, 5, 10], 1);
    assert StopFrom([1, 5, 10], 0) == 3 by {
      assert Count([1, 5, 10], 1) == 1 && Count([1, 5, 10], 5) == 1 && Count([1, 5, 10], 10) == 1;
    }
    o := f.Configure(["Cola"], [15]);
    loaded := f.Load([3, 0, 0], [1]);
    o := f.Insert(10);
    o := f.Insert(10);
    pressed := f.Press(0);
    items := f.Extract();
  }
}
