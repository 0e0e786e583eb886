/**
 * What load adds to the machine. The coin loop `for (j = 1; j <= count; j++)`
 * adds max(count, 0) coins. The pop loop's bound reads popCounts.get(j), not
 * popCounts.get(i), so it runs the same number of times for every slot and
 * reads past the end of popCounts when j reaches popCounts.size().
 */
module Loading {
  import opened Types
  import opened Tally
  import opened Change

  /** How many times `for (j = 1; j <= c; j++)` runs. */
  function Clamp(c: int): (r: nat)
    ensures r == c || (c < 0 && r == 0)
  {
    if c < 0 then 0 else c
  }

  /** The value the coin loop of load adds: Clamp(counts[i]) coins of value denoms[i], for each i. */
  function LoadValue(denoms: seq<int>, counts: seq<int>): int
    requires |denoms| == |counts|
  {
    if counts == [] then 0
    else LoadValue(denoms[..|denoms| - 1], counts[..|counts| - 1])
         + Clamp(counts[|counts| - 1]) * denoms[|denoms| - 1]
  }

  /** Slot i of `after` is slot i of `before` followed by Clamp(counts[i]) coins of value denoms[i]. */
  predicate Restocked(before: seq<seq<int>>, after: seq<seq<int>>, denoms: seq<int>, counts: seq<int>)
  {
    |before| == |after| == |denoms| == |counts| &&
    forall i :: 0 <= i < |after| ==> after[i] == before[i] + Repeat(denoms[i], Clamp(counts[i]))
  }

  /** The coins load adds raise the dispenser's value by exactly LoadValue. */
  lemma {:induction false} RestockValue(before: seq<seq<int>>, after: seq<seq<int>>, denoms: seq<int>, counts: seq<int>)
    requires Restocked(before, after, denoms, counts)
    ensures SlotsValue(after) == SlotsValue(before) + LoadValue(denoms, counts)
    decreases |after|
  {
    if after != [] {
      var n := |after| - 1;
      RestockValue(before[..n], after[..n], denoms[..n], counts[..n]);
      SumAppend(before[n], Repeat(denoms[n], Clamp(counts[n])));
      SumRepeat(denoms[n], Clamp(counts[n]));
    }
  }

  /** Restocking adds coins of each slot's own kind only. */
  lemma RestockKeepsUniform(before: seq<seq<int>>, after: seq<seq<int>>, denoms: seq<int>, counts: seq<int>)
    requires Restocked(before, after, denoms, counts) && Uniform(denoms, before)
    ensures Uniform(denoms, after)
  {
    forall j, c | 0 <= j < |after| && c in after[j] ensures c == denoms[j] {
      var x :| 0 <= x < |after[j]| && after[j][x] == c;
      if x < |before[j]| {
        assert after[j][x] == before[j][x];
        assert before[j][x] in before[j];
      } else {
        assert after[j][x] == Repeat(denoms[j], Clamp(counts[j]))[x - |before[j]|];
      }
    }
  }

  /** The coin loop of load: slot i gets coinCounts[i] more coins of kind i, one at a time. */
  method RestockCoins(dispenser: seq<seq<int>>, denoms: seq<int>, coinCounts: seq<int>)
    returns (after: seq<seq<int>>)
    requires |dispenser| == |denoms| == |coinCounts|
    ensures Restocked(dispenser, after, denoms, coinCounts)
  {
    after := dispenser;
    var i := 0;
    while i < |coinCounts|
      invariant 0 <= i <= |coinCounts| == |after|
      invariant forall k :: 0 <= k < |coinCounts| ==>
        after[k] == dispenser[k] + if k < i then Repeat(denoms[k], Clamp(coinCounts[k])) else []
    {
      var coinValue := denoms[i];
      ghost var slotsAt := after;
      var j := 1;
      while j <= coinCounts[i]
        invariant 1 <= j <= Clamp(coinCounts[i]) + 1
        invariant after == slotsAt[i := slotsAt[i] + Repeat(coinValue, j - 1)]
      {
        assert slotsAt[i] + Repeat(coinValue, j) == slotsAt[i] + Repeat(coinValue, j - 1) + [coinValue];
        after := after[i := after[i] + [coinValue]];
        j := j + 1;
      }
      i := i + 1;
    }
  }

  /**
   * One run of the inner pop loop: how many pops it adds, and whether it ends
   * by reading popCounts past its end (an IndexOutOfBoundsException).
   */
  datatype PopRun = PopRun(added: nat, overrun: bool)

  /** The inner pop loop from bound index j on: it goes on while j <= popCounts.get(j). */
  function PopRunFrom(popCounts: seq<int>, j: nat): (r: PopRun)
    ensures j <= |popCounts| ==> j + r.added <= |popCounts|
    ensures r.overrun ==> j + r.added >= |popCounts|
    decreases |popCounts| - j
  {
    if j >= |popCounts| then PopRun(0, true)
    else if j <= popCounts[j] then
      var r := PopRunFrom(popCounts, j + 1);
      PopRun(r.added + 1, r.overrun)
    else PopRun(0, false)
  }

  /** Every index the inner pop loop started at j passes is in range and passes the bound test. */
  lemma {:induction false} PopRunCovers(popCounts: seq<int>, j: nat, t: int)
    requires j <= t < j + PopRunFrom(popCounts, j).added
    ensures t < |popCounts| && t <= popCounts[t]
    decreases |popCounts| - j
  {
    if t > j {
      PopRunCovers(popCounts, j + 1, t);
    }
  }

  /**
   * The inner pop loop started at j adds one pop for each index t from j on
   * with t <= popCounts[t]; it stops cleanly at the first t with
   * popCounts[t] < t, and overruns exactly when no such t is left.
   */
  lemma {:induction false} PopRunShape(popCounts: seq<int>, j: nat)
    ensures forall t :: j <= t < j + PopRunFrom(popCounts, j).added ==> t < |popCounts| && t <= popCounts[t]
    ensures PopRunFrom(popCounts, j).overrun <==> j + PopRunFrom(popCounts, j).added >= |popCounts|
    ensures !PopRunFrom(popCounts, j).overrun ==>
      popCounts[j + PopRunFrom(popCounts, j).added] < j + PopRunFrom(popCounts, j).added
    decreases |popCounts| - j
  {
    forall t | j <= t < j + PopRunFrom(popCounts, j).added ensures t < |popCounts| && t <= popCounts[t] {
      PopRunCovers(popCounts, j, t);
    }
    if j < |popCounts| && j <= popCounts[j] {
      PopRunShape(popCounts, j + 1);
    } else if j < |popCounts| {
      assert PopRunFrom(popCounts, j) == PopRun(0, false);
    } else {
      assert PopRunFrom(popCounts, j) == PopRun(0, true);
    }
  }

  /** With a single button, the pop loop always reads popCounts.get(1) past the end. */
  lemma OneButtonOverruns(popCounts: seq<int>)
    requires |popCounts| == 1
    ensures PopRunFrom(popCounts, 1) == PopRun(0, true)
  {
  }

  /**
   * The number of pop slots load stocks: none without counts or buttons; only
   * slot 0 when the inner loop overruns (it throws during slot 0); otherwise
   * every slot up to the shorter of popCounts and the button list.
   */
  function PopSlotsFilled(popCounts: seq<int>, buttons: nat): (r: nat)
    ensures r <= |popCounts| && r <= buttons
  {
    if |popCounts| == 0 || buttons == 0 then 0
    else if PopRunFrom(popCounts, 1).overrun then 1
    else if |popCounts| <= buttons then |popCounts|
    else buttons
  }

  /** What the pop loop of load returns or throws. */
  function PopPhaseVerdict(popCounts: seq<int>, buttons: nat): (r: Outcome)
    ensures r == Ok || r == Fail(IndexOutOfBounds)
    ensures |popCounts| == 1 ==> r == Fail(IndexOutOfBounds)
    ensures r == Ok ==> |popCounts| <= buttons
  {
    if |popCounts| == 0 then Ok
    else if buttons == 0 || PopRunFrom(popCounts, 1).overrun || buttons < |popCounts| then Fail(IndexOutOfBounds)
    else Ok
  }

  /**
   * The pop loop of load: for each button i, pops named after button i go
   * into slot i while j <= popCounts.get(j); it throws when j or i runs past
   * the end of its list, keeping the pops added so far.
   */
  method StockPops(slots: seq<seq<string>>, buttons: seq<Button>, popCounts: seq<int>)
    returns (o: Outcome, after: seq<seq<string>>)
    requires |slots| == |buttons|
    ensures o == PopPhaseVerdict(popCounts, |buttons|)
    ensures |after| == |slots|
    ensures forall b :: 0 <= b < |after| ==>
      after[b] == slots[b] +
        if b < PopSlotsFilled(popCounts, |buttons|) then Repeat(buttons[b].name, PopRunFrom(popCounts, 1).added) else []
  {
    after := slots;
    ghost var run := PopRunFrom(popCounts, 1);
    var i := 0;
    while i < |popCounts|
      invariant 0 <= i <= |popCounts|
      invariant i > 0 ==> !run.overrun && i <= |buttons|
      invariant |after| == |buttons|
      invariant forall b :: 0 <= b < |after| ==>
        after[b] == slots[b] + if b < i then Repeat(buttons[b].name, run.added) else []
    {
      if i >= |buttons| {
        return Fail(IndexOutOfBounds), after;
      }
      var popName := buttons[i].name;
      var j := 1;
      while j < |popCounts| && j <= popCounts[j]
        invariant 1 <= j <= |popCounts|
        invariant run == PopRun(j - 1 + PopRunFrom(popCounts, j).added, PopRunFrom(popCounts, j).overrun)
        invariant |after| == |buttons|
        invariant forall b :: 0 <= b < |after| ==>
          after[b] == slots[b] +
            if b < i then Repeat(buttons[b].name, run.added)
            else if b == i then Repeat(popName, j - 1)
            else []
      {
        after := after[i := after[i] + [popName]];
        j := j + 1;
      }
      if j >= |popCounts| {
        // popCounts.get(j) reads past the end of popCounts
        return Fail(IndexOutOfBounds), after;
      }
      i := i + 1;
    }
    return Ok, after;
  }

  /**
   * When the pop loop succeeds, every button's slot gets the same number of
   * pops, fixed by the first index t >= 1 with popCounts[t] < t and not by
   * the button's own count.
   */
  lemma PopPhaseOk(popCounts: seq<int>, buttons: nat)
    requires |popCounts| > 0 && PopPhaseVerdict(popCounts, buttons) == Ok
    ensures PopSlotsFilled(popCounts, buttons) == |popCounts|
    ensures var k := PopRunFrom(popCounts, 1).added;
      1 + k < |popCounts| && popCounts[1 + k] < 1 + k &&
      forall t :: 1 <= t <= k ==> t <= popCounts[t]
  {
    PopRunShape(popCounts, 1);
  }

  /** Counts [2, 0] ask for two pops in slot 0 and get none anywhere. */
  lemma OwnCountIgnored()
    ensures PopRunFrom([2, 0], 1) == PopRun(0, false)
    ensures PopPhaseVerdict([2, 0], 2) == Ok
  {
  }

  /**
   * Two buttons with counts [1, 1]: slot 0 gets one pop, then the loop
   * reads popCounts.get(2) and throws before slot 1 gets any.
   */
  lemma TwoButtonsOverrunAfterOnePop()
    ensures PopRunFrom([1, 1], 1) == PopRun(1, true)
    ensures PopSlotsFilled([1, 1], 2) == 1
    ensures PopPhaseVerdict([1, 1], 2) == Fail(IndexOutOfBounds)
  {
    assert PopRunFrom([1, 1], 2) == PopRun(0, true);
  }
}
