/**
 * The validation that construct and configure perform, as the scans their
 * loops carry out: where each scan stops and which exception it throws there.
 */
module Validation {
  import opened Types
  import opened Tally

  /** A coin kind passes construct's checks: it is positive and occurs only once in the whole list. */
  predicate Acceptable(kinds: seq<int>, k: int)
  {
    k > 0 && Count(kinds, k) <= 1
  }

  /** The index of the first kind at or after `from` that construct rejects, or |kinds|. */
  function StopFrom(kinds: seq<int>, from: nat): (r: nat)
    requires from <= |kinds|
    ensures from <= r <= |kinds|
    ensures forall j :: from <= j < r ==> Acceptable(kinds, kinds[j])
    ensures r < |kinds| ==> !Acceptable(kinds, kinds[r])
    decreases |kinds| - from
  {
    if from == |kinds| || !Acceptable(kinds, kinds[from]) then from else StopFrom(kinds, from + 1)
  }

  /**
   * How many coin kinds construct adds to the new machine before it returns
   * or throws: none when the button count is not positive (that check comes
   * first), otherwise every kind before the first rejected one.
   */
  function KindsAdded(kinds: seq<int>, buttonCount: int): (r: nat)
    ensures r <= |kinds|
    ensures forall j :: 0 <= j < r ==> kinds[j] > 0 && Count(kinds, kinds[j]) == 1
  {
    if buttonCount <= 0 then 0 else StopFrom(kinds, 0)
  }

  /**
   * What construct returns or throws: IllegalArgumentException for a
   * non-positive button count or a non-positive kind, IllegalStateException
   * for a duplicated kind, whichever the scan meets first.
   */
  function ConstructVerdict(kinds: seq<int>, buttonCount: int): (r: Outcome)
    ensures r == Fail(IllegalArgument) || r == Fail(IllegalState) || r == Ok
    ensures r == Ok <==> buttonCount > 0 && KindsAdded(kinds, buttonCount) == |kinds|
  {
    if buttonCount <= 0 then Fail(IllegalArgument)
    else
      var r := StopFrom(kinds, 0);
      if r == |kinds| then Ok
      else if kinds[r] <= 0 then Fail(IllegalArgument)
      else Fail(IllegalState)
  }

  /** Every kind the scan passes before it stops is positive and occurs once, so that prefix is distinct. */
  lemma AcceptedPrefixValid(kinds: seq<int>, i: nat)
    requires i <= StopFrom(kinds, 0)
    ensures Positive(kinds[..i]) && Distinct(kinds[..i])
  {
    forall a, b | 0 <= a < b < i ensures kinds[..i][a] != kinds[..i][b] {
      if kinds[a] == kinds[b] {
        CountTwice(kinds, a, b);
      }
    }
  }

  /**
   * construct succeeds exactly when the button count is positive and the
   * coin kinds are positive and pairwise different.
   */
  lemma ConstructAcceptsExactly(kinds: seq<int>, buttonCount: int)
    ensures ConstructVerdict(kinds, buttonCount) == Ok <==>
      buttonCount > 0 && Positive(kinds) && Distinct(kinds)
  {
    if buttonCount > 0 {
      if StopFrom(kinds, 0) == |kinds| {
        AcceptedPrefixValid(kinds, |kinds|);
        assert kinds[..|kinds|] == kinds;
      } else if Positive(kinds) && Distinct(kinds) {
        CountDistinct(kinds, StopFrom(kinds, 0));
      }
    }
  }

  /** The index of the first non-positive cost, or |costs| when every cost is positive. */
  function FirstNonPositive(costs: seq<int>): (r: nat)
    ensures r <= |costs|
    ensures forall j :: 0 <= j < r ==> costs[j] > 0
    ensures r < |costs| ==> costs[r] <= 0
  {
    if costs == [] || costs[0] <= 0 then 0 else 1 + FirstNonPositive(costs[1..])
  }

  /**
   * The number of buttons configure sets before it returns or throws: its loop
   * checks the cost at i, then reads button i, so it stops at the first
   * non-positive cost or at the end of the button list, whichever is first.
   */
  function ConfigureStop(costs: seq<int>, buttons: nat): (r: nat)
    ensures r <= |costs| && r <= buttons
  {
    var f := FirstNonPositive(costs);
    if f <= buttons then f else buttons
  }

  /** What configure's loop returns or throws. */
  function ConfigureVerdict(costs: seq<int>, buttons: nat): (r: Outcome)
    ensures r == Ok || r == Fail(IllegalArgument) || r == Fail(IndexOutOfBounds)
    ensures r == Ok ==> Positive(costs) && |costs| <= buttons
    ensures r == Fail(IndexOutOfBounds) ==> buttons < |costs|
  {
    var r := ConfigureStop(costs, buttons);
    if r == |costs| then Ok
    else if costs[r] <= 0 then Fail(IllegalArgument)
    else Fail(IndexOutOfBounds)
  }

  /**
   * On a machine with a button per cost, configure's loop succeeds exactly
   * when every cost is positive; otherwise it sets the buttons before the
   * first non-positive cost and throws IllegalArgumentException.
   */
  lemma ConfigureAcceptsExactly(costs: seq<int>, buttons: nat)
    requires |costs| <= buttons
    ensures ConfigureVerdict(costs, buttons) == Ok <==> Positive(costs)
    ensures !Positive(costs) ==>
      ConfigureVerdict(costs, buttons) == Fail(IllegalArgument) &&
      forall j :: 0 <= j < ConfigureStop(costs, buttons) ==> costs[j] > 0
  {
  }
}
