/**
 * The change-making algorithm of the vending machine (makeChange): a greedy
 * scan over the coin slots in construction order, LAST slot first, that pays
 * coins of a slot while the slot is not empty and the amount still owed is at
 * least the slot's value. The scan is by slot index, not by coin value, and a
 * remainder that cannot be paid is dropped.
 */
module Change {
  import opened Tally

  /** Every coin in slot j has the value of coin kind j. */
  predicate Uniform(denoms: seq<int>, slots: seq<seq<int>>)
    requires |denoms| == |slots|
  {
    forall j, c :: 0 <= j < |slots| && c in slots[j] ==> c == denoms[j]
  }

  /** What makeChange leaves behind: the coin slots, the coins paid into the chute, the unpaid rest. */
  datatype Payout = Payout(slots: seq<seq<int>>, coins: seq<int>, remainder: int)

  /** The measure the scan decreases: the slots still to visit, then the coins left in the current one. */
  function Pending(slots: seq<seq<int>>, i: nat): nat
    requires i <= |slots|
  {
    if i == 0 then 0 else |slots[i - 1]|
  }

  /**
   * The scan over slots i-1, i-2, ..., 0 with amount still owed, one coin at
   * a time: while slot i-1 is not empty and the amount is at least its coin
   * kind, one coin leaves the front of the slot and a coin of that kind is
   * paid; otherwise the scan moves on to slot i-2.
   */
  function GreedyFrom(denoms: seq<int>, slots: seq<seq<int>>, i: nat, amount: int): (p: Payout)
    requires |denoms| == |slots| && i <= |slots| && Positive(denoms)
    ensures |p.slots| == |slots|
    ensures amount <= 0 ==> p == Payout(slots, [], amount)
    decreases i, Pending(slots, i)
  {
    if i == 0 then Payout(slots, [], amount)
    else if slots[i - 1] != [] && amount >= denoms[i - 1] then
      var p := GreedyFrom(denoms, slots[i - 1 := slots[i - 1][1..]], i, amount - denoms[i - 1]);
      Payout(p.slots, [denoms[i - 1]] + p.coins, p.remainder)
    else
      GreedyFrom(denoms, slots, i - 1, amount)
  }

  /** The scan from slot i-1 down leaves the slots from i up as they were. */
  lemma {:induction false} GreedyKeepsAbove(denoms: seq<int>, slots: seq<seq<int>>, i: nat, amount: int, j: nat)
    requires |denoms| == |slots| && i <= j < |slots| && Positive(denoms)
    ensures GreedyFrom(denoms, slots, i, amount).slots[j] == slots[j]
    decreases i, Pending(slots, i)
  {
    if i > 0 {
      if slots[i - 1] != [] && amount >= denoms[i - 1] {
        GreedyKeepsAbove(denoms, slots[i - 1 := slots[i - 1][1..]], i, amount - denoms[i - 1], j);
      } else {
        GreedyKeepsAbove(denoms, slots, i - 1, amount, j);
      }
    }
  }

  /** makeChange(amount) on the whole dispenser: the scan starts at the last slot. */
  function Greedy(denoms: seq<int>, slots: seq<seq<int>>, amount: int): (p: Payout)
    requires |denoms| == |slots| && Positive(denoms)
    ensures |p.slots| == |slots|
    ensures amount <= 0 ==> p == Payout(slots, [], amount)
  {
    GreedyFrom(denoms, slots, |slots|, amount)
  }

  /** a is what remains of b after some elements were taken from its front. */
  predicate IsSuffix(a: seq<int>, b: seq<int>)
  {
    |a| <= |b| && a == b[|b| - |a|..]
  }

  /** What remains of a list after its first element went is what remains of the list. */
  lemma SuffixOfTail(a: seq<int>, b: seq<int>)
    requires b != [] && IsSuffix(a, b[1..])
    ensures IsSuffix(a, b)
  {
    assert b[1..][|b| - 1 - |a|..] == b[|b| - |a|..];
  }

  /** Every slot afterwards is what remains of it after coins were taken from its front. */
  predicate Shrunk(before: seq<seq<int>>, after: seq<seq<int>>)
  {
    |before| == |after| && forall j :: 0 <= j < |before| ==> IsSuffix(after[j], before[j])
  }

  /** The coins taken from the fronts of slots i-1, ..., 0, in that order. */
  function Removed(before: seq<seq<int>>, after: seq<seq<int>>, i: nat): seq<int>
    requires Shrunk(before, after) && i <= |before|
  {
    if i == 0 then []
    else before[i - 1][..|before[i - 1]| - |after[i - 1]|] + Removed(before, after, i - 1)
  }

  /** The value paid plus the value dropped is exactly the amount owed. */
  lemma {:induction false} GreedyConserves(denoms: seq<int>, slots: seq<seq<int>>, i: nat, amount: int)
    requires |denoms| == |slots| && i <= |slots| && Positive(denoms)
    ensures Sum(GreedyFrom(denoms, slots, i, amount).coins) + GreedyFrom(denoms, slots, i, amount).remainder == amount
    decreases i, Pending(slots, i)
  {
    if i > 0 {
      var d := denoms[i - 1];
      if slots[i - 1] != [] && amount >= d {
        var s' := slots[i - 1 := slots[i - 1][1..]];
        GreedyConserves(denoms, s', i, amount - d);
        SumAppend([d], GreedyFrom(denoms, s', i, amount - d).coins);
        assert Sum([d]) == d by { assert [d][..0] == []; }
      } else {
        GreedyConserves(denoms, slots, i - 1, amount);
      }
    }
  }

  /** The unpaid rest never exceeds the amount and, when something was owed, is not negative. */
  lemma {:induction false} GreedyRemainder(denoms: seq<int>, slots: seq<seq<int>>, i: nat, amount: int)
    requires |denoms| == |slots| && i <= |slots| && Positive(denoms)
    ensures GreedyFrom(denoms, slots, i, amount).remainder <= amount
    ensures amount >= 0 ==> GreedyFrom(denoms, slots, i, amount).remainder >= 0
    decreases i, Pending(slots, i)
  {
    if i > 0 {
      var d := denoms[i - 1];
      if slots[i - 1] != [] && amount >= d {
        GreedyRemainder(denoms, slots[i - 1 := slots[i - 1][1..]], i, amount - d);
      } else {
        GreedyRemainder(denoms, slots, i - 1, amount);
      }
    }
  }

  /** The value paid out never exceeds a non-negative amount owed. */
  lemma NeverOverpays(denoms: seq<int>, slots: seq<seq<int>>, amount: int)
    requires |denoms| == |slots| && Positive(denoms) && amount >= 0
    ensures 0 <= Sum(Greedy(denoms, slots, amount).coins) <= amount
  {
    GreedyConserves(denoms, slots, |slots|, amount);
    GreedyRemainder(denoms, slots, |slots|, amount);
  }

  /** Nothing taken is a way of taking from the front. */
  lemma ShrunkNothing(slots: seq<seq<int>>)
    ensures Shrunk(slots, slots)
  {
    forall j | 0 <= j < |slots| ensures IsSuffix(slots[j], slots[j]) {
      assert slots[j][0..] == slots[j];
    }
  }

  /** Taking the first coin of slot i and then more from the fronts is still taking from the fronts. */
  lemma ShrunkAfterTake(slots: seq<seq<int>>, i: nat, after: seq<seq<int>>)
    requires i < |slots| && slots[i] != []
    requires Shrunk(slots[i := slots[i][1..]], after)
    ensures Shrunk(slots, after)
  {
    var s' := slots[i := slots[i][1..]];
    forall j | 0 <= j < |slots| ensures IsSuffix(after[j], slots[j]) {
      if j == i {
        SuffixOfTail(after[j], slots[j]);
      } else {
        assert s'[j] == slots[j];
      }
    }
  }

  /** Coins leave a slot only from its front; no slot grows. */
  lemma {:induction false} GreedyShrinks(denoms: seq<int>, slots: seq<seq<int>>, i: nat, amount: int)
    requires |denoms| == |slots| && i <= |slots| && Positive(denoms)
    ensures Shrunk(slots, GreedyFrom(denoms, slots, i, amount).slots)
    decreases i, Pending(slots, i)
  {
    if i == 0 {
      ShrunkNothing(slots);
    } else if slots[i - 1] != [] && amount >= denoms[i - 1] {
      var s' := slots[i - 1 := slots[i - 1][1..]];
      GreedyShrinks(denoms, s', i, amount - denoms[i - 1]);
      ShrunkAfterTake(slots, i - 1, GreedyFrom(denoms, s', i, amount - denoms[i - 1]).slots);
    } else {
      assert GreedyFrom(denoms, slots, i, amount) == GreedyFrom(denoms, slots, i - 1, amount);
      GreedyShrinks(denoms, slots, i - 1, amount);
    }
  }

  /**
   * The change scan as the source runs it: from the last slot down to the
   * first, coins leave the front of a slot while the slot is not empty and
   * the amount still owed is at least that slot's kind; each pays one coin
   * of that kind.
   */
  method PayChange(denoms: seq<int>, slots: seq<seq<int>>, amount: int)
    returns (left: seq<seq<int>>, coins: seq<int>)
    requires |denoms| == |slots| && Positive(denoms)
    ensures left == Greedy(denoms, slots, amount).slots
    ensures coins == Greedy(denoms, slots, amount).coins
  {
    ghost var target := Greedy(denoms, slots, amount);
    left := slots;
    coins := [];
    var rest := amount;
    var i := |left| - 1;
    while i >= 0
      invariant -1 <= i < |left| == |denoms|
      invariant var p := GreedyFrom(denoms, left, i + 1, rest);
        target == Payout(p.slots, coins + p.coins, p.remainder)
    {
      while left[i] != [] && rest >= denoms[i]
        invariant |left| == |denoms|
        invariant var p := GreedyFrom(denoms, left, i + 1, rest);
          target == Payout(p.slots, coins + p.coins, p.remainder)
        decreases |left[i]|
      {
        ghost var p := GreedyFrom(denoms, left[i := left[i][1..]], i + 1, rest - denoms[i]);
        assert coins + ([denoms[i]] + p.coins) == (coins + [denoms[i]]) + p.coins;
        rest := rest - denoms[i];
        left := left[i := left[i][1..]];
        coins := coins + [denoms[i]];
      }
      i := i - 1;
    }
  }

  /** Paying change keeps every slot holding coins of its own kind only. */
  lemma GreedyKeepsUniform(denoms: seq<int>, slots: seq<seq<int>>, amount: int)
    requires |denoms| == |slots| && Positive(denoms) && Uniform(denoms, slots)
    ensures Uniform(denoms, Greedy(denoms, slots, amount).slots)
  {
    GreedyShrinks(denoms, slots, |slots|, amount);
    var after := Greedy(denoms, slots, amount).slots;
    forall j, c | 0 <= j < |after| && c in after[j] ensures c == denoms[j] {
      assert IsSuffix(after[j], slots[j]);
      var m := |slots[j]| - |after[j]|;
      var x :| 0 <= x < |after[j]| && after[j][x] == c;
      assert after[j][x] == slots[j][m..][x] == slots[j][m + x];
      assert slots[j][m + x] in slots[j];
    }
  }

  /**
   * Once the scan is over, every slot it visited is either empty or holds
   * coins worth more than the unpaid rest: no further coin could be paid.
   */
  lemma {:induction false} GreedyExhausts(denoms: seq<int>, slots: seq<seq<int>>, i: nat, amount: int)
    requires |denoms| == |slots| && i <= |slots| && Positive(denoms)
    ensures forall j :: 0 <= j < i ==>
      GreedyFrom(denoms, slots, i, amount).slots[j] == [] ||
      GreedyFrom(denoms, slots, i, amount).remainder < denoms[j]
    decreases i, Pending(slots, i)
  {
    if i > 0 {
      if slots[i - 1] != [] && amount >= denoms[i - 1] {
        GreedyExhausts(denoms, slots[i - 1 := slots[i - 1][1..]], i, amount - denoms[i - 1]);
      } else {
        GreedyExhausts(denoms, slots, i - 1, amount);
        GreedyRemainder(denoms, slots, i - 1, amount);
        GreedyKeepsAbove(denoms, slots, i - 1, amount, i - 1);
      }
    }
  }

  /**
   * The value of the coins the scan took from slots j, ..., i-1, each coin
   * counted at its slot's kind: what it had paid when it left slot j.
   */
  function TakenValue(denoms: seq<int>, before: seq<seq<int>>, after: seq<seq<int>>, j: nat, i: nat): int
    requires |denoms| == |before| == |after| && j <= i <= |before|
    decreases i - j
  {
    if i == j then 0
    else (|before[i - 1]| - |after[i - 1]|) * denoms[i - 1] + TakenValue(denoms, before, after, j, i - 1)
  }

  /** TakenValue looks only at the slots below i. */
  lemma {:induction false} TakenValueBelow(denoms: seq<int>, b1: seq<seq<int>>, b2: seq<seq<int>>, after: seq<seq<int>>, j: nat, i: nat)
    requires |denoms| == |b1| == |b2| == |after| && j <= i <= |b1|
    requires forall k :: j <= k < i ==> b1[k] == b2[k]
    ensures TakenValue(denoms, b1, after, j, i) == TakenValue(denoms, b2, after, j, i)
    decreases i - j
  {
    if i > j {
      TakenValueBelow(denoms, b1, b2, after, j, i - 1);
    }
  }

  /**
   * The exit test of the inner loop, slot by slot: the scan leaves slot j
   * only when the slot is empty or the amount still owed at that moment (the
   * amount less what slots i-1 down to j paid) is below slot j's kind.
   */
  lemma {:induction false} GreedyLeavesSlot(denoms: seq<int>, slots: seq<seq<int>>, i: nat, amount: int, j: nat)
    requires |denoms| == |slots| && j < i <= |slots| && Positive(denoms)
    ensures var p := GreedyFrom(denoms, slots, i, amount);
      p.slots[j] == [] || amount - TakenValue(denoms, slots, p.slots, j, i) < denoms[j]
    decreases i, Pending(slots, i)
  {
    var p := GreedyFrom(denoms, slots, i, amount);
    var d := denoms[i - 1];
    if slots[i - 1] != [] && amount >= d {
      var s' := slots[i - 1 := slots[i - 1][1..]];
      GreedyLeavesSlot(denoms, s', i, amount - d, j);
      assert p.slots == GreedyFrom(denoms, s', i, amount - d).slots;
      TakenValueBelow(denoms, slots, s', p.slots, j, i - 1);
      var n := |slots[i - 1]| - |p.slots[i - 1]|;
      assert (n - 1) * d + d == n * d;
    } else {
      assert p == GreedyFrom(denoms, slots, i - 1, amount);
      GreedyKeepsAbove(denoms, slots, i - 1, amount, i - 1);
      if j < i - 1 {
        GreedyLeavesSlot(denoms, slots, i - 1, amount, j);
      }
    }
  }

  /** Removed looks only at the slots below i. */
  lemma {:induction false} RemovedBelow(b1: seq<seq<int>>, b2: seq<seq<int>>, after: seq<seq<int>>, i: nat)
    requires Shrunk(b1, after) && Shrunk(b2, after) && i <= |b1|
    requires forall j :: 0 <= j < i ==> b1[j] == b2[j]
    ensures Removed(b1, after, i) == Removed(b2, after, i)
  {
    if i > 0 {
      RemovedBelow(b1, b2, after, i - 1);
    }
  }

  /** Taking the first coin of a slot keeps every slot holding coins of its own kind only. */
  lemma UniformAfterTake(denoms: seq<int>, slots: seq<seq<int>>, i: nat)
    requires |denoms| == |slots| && i < |slots| && slots[i] != [] && Uniform(denoms, slots)
    ensures Uniform(denoms, slots[i := slots[i][1..]])
    ensures slots[i][0] == denoms[i]
  {
    var s' := slots[i := slots[i][1..]];
    forall j, c | 0 <= j < |s'| && c in s'[j] ensures c == denoms[j] {
      if j == i { assert c in slots[j]; }
    }
    assert slots[i][0] in slots[i];
  }

  /** The coins removed from slots i, ..., 0 begin with the first coin of slot i when it was taken. */
  lemma RemovedAfterTake(slots: seq<seq<int>>, i: nat, after: seq<seq<int>>)
    requires i < |slots| && slots[i] != []
    requires Shrunk(slots[i := slots[i][1..]], after) && Shrunk(slots, after)
    ensures Removed(slots, after, i + 1) == [slots[i][0]] + Removed(slots[i := slots[i][1..]], after, i + 1)
  {
    var s' := slots[i := slots[i][1..]];
    assert IsSuffix(after[i], s'[i]);
    TakenFromFront(after[i], slots[i]);
    RemovedBelow(s', slots, after, i);
    assert Removed(slots, after, i + 1) == slots[i][..|slots[i]| - |after[i]|] + Removed(slots, after, i);
    assert Removed(s', after, i + 1) == s'[i][..|s'[i]| - |after[i]|] + Removed(s', after, i);
  }

  /** What was taken from the front of b before a was left starts with b's first element. */
  lemma TakenFromFront(a: seq<int>, b: seq<int>)
    requires b != [] && IsSuffix(a, b[1..])
    ensures b[..|b| - |a|] == [b[0]] + b[1..][..|b| - 1 - |a|]
  {
  }

  /**
   * With every slot holding coins of its own kind, the coins paid into the
   * chute are exactly the coins taken out of the slots, last slot first.
   */
  lemma {:induction false} GreedyPaysRemoved(denoms: seq<int>, slots: seq<seq<int>>, i: nat, amount: int)
    requires |denoms| == |slots| && i <= |slots| && Positive(denoms) && Uniform(denoms, slots)
    ensures Shrunk(slots, GreedyFrom(denoms, slots, i, amount).slots)
    ensures GreedyFrom(denoms, slots, i, amount).coins == Removed(slots, GreedyFrom(denoms, slots, i, amount).slots, i)
    decreases i, Pending(slots, i)
  {
    GreedyShrinks(denoms, slots, i, amount);
    if i > 0 {
      var p := GreedyFrom(denoms, slots, i, amount);
      if slots[i - 1] != [] && amount >= denoms[i - 1] {
        var s' := slots[i - 1 := slots[i - 1][1..]];
        var q := GreedyFrom(denoms, s', i, amount - denoms[i - 1]);
        assert p == Payout(q.slots, [denoms[i - 1]] + q.coins, q.remainder);
        UniformAfterTake(denoms, slots, i - 1);
        GreedyPaysRemoved(denoms, s', i, amount - denoms[i - 1]);
        RemovedAfterTake(slots, i - 1, p.slots);
      } else {
        assert p == GreedyFrom(denoms, slots, i - 1, amount);
        GreedyPaysRemoved(denoms, slots, i - 1, amount);
        GreedyKeepsAbove(denoms, slots, i - 1, amount, i - 1);
        assert slots[i - 1][..0] == [];
      }
    }
  }

  /**
   * The scan goes by construction order, not by value: with kinds declared as
   * 5 then 1, five 1-coins are paid although one 5-coin is in stock.
   */
  lemma ScanFollowsDeclarationOrder()
    ensures Greedy([5, 1], [[5], [1, 1, 1, 1, 1]], 5) == Payout([[5], []], [1, 1, 1, 1, 1], 0)
  {
    var d := [5, 1];
    assert [1][1..] == [] && [1, 1][1..] == [1] && [1, 1, 1][1..] == [1, 1];
    assert [1, 1, 1, 1][1..] == [1, 1, 1] && [1, 1, 1, 1, 1][1..] == [1, 1, 1, 1];
    assert [[5], [1]][1 := [1][1..]] == [[5], []];
    assert [[5], [1, 1]][1 := [1, 1][1..]] == [[5], [1]];
    assert [[5], [1, 1, 1]][1 := [1, 1, 1][1..]] == [[5], [1, 1]];
    assert [[5], [1, 1, 1, 1]][1 := [1, 1, 1, 1][1..]] == [[5], [1, 1, 1]];
    assert [[5], [1, 1, 1, 1, 1]][1 := [1, 1, 1, 1, 1][1..]] == [[5], [1, 1, 1, 1]];
    assert GreedyFrom(d, [[5], []], 1, 0) == Payout([[5], []], [], 0);
    assert GreedyFrom(d, [[5], []], 2, 0) == Payout([[5], []], [], 0);
    assert GreedyFrom(d, [[5], [1]], 2, 1) == Payout([[5], []], [1], 0);
    assert GreedyFrom(d, [[5], [1, 1]], 2, 2) == Payout([[5], []], [1, 1], 0);
    assert GreedyFrom(d, [[5], [1, 1, 1]], 2, 3) == Payout([[5], []], [1, 1, 1], 0);
    assert GreedyFrom(d, [[5], [1, 1, 1, 1]], 2, 4) == Payout([[5], []], [1, 1, 1, 1], 0);
  }

  /**
   * Owing 5 with kinds 1, 5 and 10 and only three 1-coins in stock: the
   * 10 and 5 slots are empty, the three 1-coins are paid and 2 is dropped.
   */
  lemma ShortChangeDropsRemainder()
    ensures Greedy([1, 5, 10], [[1, 1, 1], [], []], 5) == Payout([[], [], []], [1, 1, 1], 2)
  {
    var d := [1, 5, 10];
    assert [1][1..] == [] && [1, 1][1..] == [1] && [1, 1, 1][1..] == [1, 1];
    assert [[1], [], []][0 := [1][1..]] == [[], [], []];
    assert [[1, 1], [], []][0 := [1, 1][1..]] == [[1], [], []];
    assert [[1, 1, 1], [], []][0 := [1, 1, 1][1..]] == [[1, 1], [], []];
    assert GreedyFrom(d, [[], [], []], 1, 2) == Payout([[], [], []], [], 2);
    assert GreedyFrom(d, [[1], [], []], 1, 3) == Payout([[], [], []], [1], 2);
    assert GreedyFrom(d, [[1, 1], [], []], 1, 4) == Payout([[], [], []], [1, 1], 2);
    assert GreedyFrom(d, [[1, 1, 1], [], []], 1, 5) == Payout([[], [], []], [1, 1, 1], 2);
  }
}
