/**
 * The vending-machine engine: the state of the current machine and the
 * operations that the script driver calls on it (construct, configure, load,
 * insert, press with its change-making, extract and unload).
 */
module Machine {
  import opened Types
  import opened Tally
  import opened Change
  import opened Validation
  import opened Loading

  /** The chute's coins as extracted items, in order. */
  function CoinItems(coins: seq<int>): (r: seq<Item>)
    ensures |r| == |coins|
    ensures forall i :: 0 <= i < |coins| ==> r[i] == CoinItem(coins[i])
  {
    if coins == [] then [] else CoinItems(coins[..|coins| - 1]) + [CoinItem(coins[|coins| - 1])]
  }

  /** The chute's pops as extracted items, in order. */
  function PopItems(pops: seq<string>): (r: seq<Item>)
    ensures |r| == |pops|
    ensures forall i :: 0 <= i < |pops| ==> r[i] == PopItem(pops[i])
  {
    if pops == [] then [] else PopItems(pops[..|pops| - 1]) + [PopItem(pops[|pops| - 1])]
  }

  /**
   * The coin half of unload: adds up the value of every coin, slot by slot,
   * and empties each slot after counting it.
   */
  method ClearCoinSlots(slots: seq<seq<int>>) returns (value: int, cleared: seq<seq<int>>)
    ensures value == SlotsValue(slots)
    ensures cleared == Repeat([], |slots|)
  {
    cleared := slots;
    value := 0;
    var i := 0;
    while i < |cleared|
      invariant 0 <= i <= |cleared| == |slots|
      invariant value == SlotsValue(slots[..i])
      invariant forall k :: 0 <= k < |cleared| ==> cleared[k] == if k < i then [] else slots[k]
    {
      var coinKind := cleared[i];
      var j := 0;
      while j < |coinKind|
        invariant 0 <= j <= |coinKind|
        invariant value == SlotsValue(slots[..i]) + Sum(coinKind[..j])
      {
        assert coinKind[..j + 1][..j] == coinKind[..j];
        value := value + coinKind[j];
        j := j + 1;
      }
      assert coinKind[..j] == coinKind;
      assert slots[..i + 1][..i] == slots[..i];
      cleared := cleared[i := []];
      i := i + 1;
    }
    assert slots[..i] == slots;
  }

  /**
   * The pop half of unload: lists every stocked pop, slot by slot and each
   * slot in order, and empties each slot after listing it.
   */
  method ClearPopSlots(slots: seq<seq<string>>) returns (pops: seq<string>, cleared: seq<seq<string>>)
    ensures pops == Flatten(slots)
    ensures cleared == Repeat([], |slots|)
  {
    cleared := slots;
    pops := [];
    var i := 0;
    while i < |cleared|
      invariant 0 <= i <= |cleared| == |slots|
      invariant pops == Flatten(slots[..i])
      invariant forall k :: 0 <= k < |cleared| ==> cleared[k] == if k < i then [] else slots[k]
    {
      var popKind := cleared[i];
      var j := 0;
      while j < |popKind|
        invariant 0 <= j <= |popKind|
        invariant pops == Flatten(slots[..i]) + popKind[..j]
      {
        assert popKind[..j + 1] == popKind[..j] + [popKind[j]];
        pops := pops + [popKind[j]];
        j := j + 1;
      }
      assert popKind[..j] == popKind;
      assert slots[..i + 1][..i] == slots[..i];
      cleared := cleared[i := []];
      i := i + 1;
    }
    assert slots[..i] == slots;
  }

  /**
   * One vending machine. Coins are their values and pops their names; slot i
   * of the coin dispenser holds the coins of kind i, slot b of the pop
   * dispenser the pops of button b.
   */
  class VendingMachine {
    // configuration
    var coinDenominations: seq<int>
    var selectionButtons: seq<Button>
    var selectionButtonCount: int
    // inventories
    var coinDispenser: seq<seq<int>>
    var popDispenser: seq<seq<string>>
    // delivery chute
    var change: seq<int>
    var unextractedPop: seq<string>
    // ledger
    var currentPaymentCredit: int
    var totalPayments: int
    var loadedCoins: seq<int>

    ghost function Config(): (seq<int>, seq<Button>, int)
      reads this
    {
      (coinDenominations, selectionButtons, selectionButtonCount)
    }

    ghost function Stock(): (seq<seq<int>>, seq<seq<string>>)
      reads this
    {
      (coinDispenser, popDispenser)
    }

    ghost function Chute(): (seq<int>, seq<string>)
      reads this
    {
      (change, unextractedPop)
    }

    ghost function Ledger(): (int, int, seq<int>)
      reads this
    {
      (currentPaymentCredit, totalPayments, loadedCoins)
    }

    /**
     * What holds of every machine apart from the credit: one coin slot per
     * positive, distinct coin kind, each slot holding coins of its own kind;
     * one pop slot per button; total payments are the value of the accepted
     * coins.
     */
    ghost predicate Wellformed()
      reads this
    {
      && |coinDenominations| == |coinDispenser|
      && Positive(coinDenominations)
      && Distinct(coinDenominations)
      && Uniform(coinDenominations, coinDispenser)
      && |selectionButtons| == |popDispenser|
      && totalPayments == Sum(loadedCoins)
    }

    /** The machine invariant: the credit is never negative and never more than the total paid. */
    ghost predicate Valid()
      reads this
    {
      Wellformed() && 0 <= currentPaymentCredit <= totalPayments
    }

    /** `new VendingMachine(selectionButtonCount)`: an empty machine that records the button count. */
    constructor (selectionButtonCount: int)
      ensures Valid()
      ensures Config() == ([], [], selectionButtonCount)
      ensures Stock() == ([], []) && Chute() == ([], []) && Ledger() == (0, 0, [])
    {
      coinDenominations := [];
      selectionButtons := [];
      this.selectionButtonCount := selectionButtonCount;
      coinDispenser := [];
      popDispenser := [];
      change := [];
      unextractedPop := [];
      currentPaymentCredit := 0;
      totalPayments := 0;
      loadedCoins := [];
    }
  }

  /**
   * The engine: it holds the current machine, null until the first
   * construct, and implements the script commands on it. blankButton is what
   * a newly made selection button holds before configure sets it.
   */
  class VendingMachineFactory {
    var vendingMachine: VendingMachine?
    const blankButton: Button

    ghost predicate Valid()
      reads this, vendingMachine
    {
      vendingMachine != null ==> vendingMachine.Valid()
    }

    /** A factory before any construct: there is no current machine. */
    constructor (blankButton: Button)
      ensures Valid() && vendingMachine == null && this.blankButton == blankButton
    {
      vendingMachine := null;
      this.blankButton := blankButton;
    }

    /**
     * Returns the chute's coins (in order) followed by its pops (in order)
     * and empties the chute.
     */
    method Extract() returns (r: Result<seq<Item>>)
      requires Valid()
      modifies vendingMachine
      ensures Valid()
      ensures vendingMachine == null ==> r == Failure(NullPointer)
      ensures vendingMachine != null ==>
        && r == Success(CoinItems(old(vendingMachine.change)) + PopItems(old(vendingMachine.unextractedPop)))
        && vendingMachine.Chute() == ([], [])
        && vendingMachine.Config() == old(vendingMachine.Config())
        && vendingMachine.Stock() == old(vendingMachine.Stock())
        && vendingMachine.Ledger() == old(vendingMachine.Ledger())
    {
      if vendingMachine == null {
        return Failure(NullPointer);
      }
      var vm := vendingMachine;
      var unloadedItems: seq<Item> := [];
      var i := 0;
      while i < |vm.change|
        invariant 0 <= i <= |vm.change|
        invariant unloadedItems == CoinItems(vm.change[..i])
      {
        assert vm.change[..i + 1][..i] == vm.change[..i];
        unloadedItems := unloadedItems + [CoinItem(vm.change[i])];
        i := i + 1;
      }
      assert vm.change[..i] == vm.change;
      vm.change := [];
      i := 0;
      while i < |vm.unextractedPop|
        invariant 0 <= i <= |vm.unextractedPop|
        invariant unloadedItems == CoinItems(old(vm.change)) + PopItems(vm.unextractedPop[..i])
      {
        assert vm.unextractedPop[..i + 1][..i] == vm.unextractedPop[..i];
        unloadedItems := unloadedItems + [PopItem(vm.unextractedPop[i])];
        i := i + 1;
      }
      assert vm.unextractedPop[..i] == vm.unextractedPop;
      vm.unextractedPop := [];
      return Success(unloadedItems);
    }

    /**
     * A coin of an accepted kind raises the credit and the total paid and is
     * kept among the payment coins; a coin of any other value goes straight to
     * the chute.
     */
    method Insert(value: int) returns (o: Outcome)
      requires Valid()
      modifies vendingMachine
      ensures Valid()
      ensures value <= 0 ==> o == Fail(IllegalArgument)
      ensures value <= 0 && vendingMachine != null ==> unchanged(vendingMachine)
      ensures value > 0 && vendingMachine == null ==> o == Fail(NullPointer)
      ensures value > 0 && vendingMachine != null ==>
        && o == Ok
        && vendingMachine.Config() == old(vendingMachine.Config())
        && vendingMachine.Stock() == old(vendingMachine.Stock())
      ensures value > 0 && vendingMachine != null && value in old(vendingMachine.coinDenominations) ==>
        && vendingMachine.currentPaymentCredit == old(vendingMachine.currentPaymentCredit) + value
        && vendingMachine.totalPayments == old(vendingMachine.totalPayments) + value
        && vendingMachine.loadedCoins == old(vendingMachine.loadedCoins) + [value]
        && vendingMachine.Chute() == old(vendingMachine.Chute())
      ensures value > 0 && vendingMachine != null && value !in old(vendingMachine.coinDenominations) ==>
        && vendingMachine.change == old(vendingMachine.change) + [value]
        && vendingMachine.unextractedPop == old(vendingMachine.unextractedPop)
        && vendingMachine.Ledger() == old(vendingMachine.Ledger())
    {
      if value <= 0 {
        return Fail(IllegalArgument);
      }
      if vendingMachine == null {
        return Fail(NullPointer);
      }
      var vm := vendingMachine;
      if value in vm.coinDenominations {
        vm.currentPaymentCredit := vm.currentPaymentCredit + value;
        vm.totalPayments := vm.totalPayments + value;
        SumAppend(vm.loadedCoins, [value]);
        vm.loadedCoins := vm.loadedCoins + [value];
      } else {
        vm.change := vm.change + [value];
      }
      return Ok;
    }

    /**
     * Pays `amount` in change into the chute by the greedy scan of Change.Greedy
     * (last coin slot first), drops what it cannot pay and zeroes the credit.
     */
    method MakeChange(amount: int) returns (o: Outcome)
      requires vendingMachine != null ==> vendingMachine.Wellformed() && vendingMachine.totalPayments >= 0
      modifies vendingMachine
      ensures Valid()
      ensures vendingMachine == null ==> o == Fail(NullPointer)
      ensures vendingMachine != null ==>
        && o == Ok
        && var p := Greedy(old(vendingMachine.coinDenominations), old(vendingMachine.coinDispenser), amount);
        && vendingMachine.coinDispenser == p.slots
        && vendingMachine.change == old(vendingMachine.change) + p.coins
        && vendingMachine.currentPaymentCredit == 0
        && vendingMachine.popDispenser == old(vendingMachine.popDispenser)
        && vendingMachine.unextractedPop == old(vendingMachine.unextractedPop)
        && vendingMachine.Config() == old(vendingMachine.Config())
        && vendingMachine.totalPayments == old(vendingMachine.totalPayments)
        && vendingMachine.loadedCoins == old(vendingMachine.loadedCoins)
    {
      if vendingMachine == null {
        return Fail(NullPointer);
      }
      var vm := vendingMachine;
      var dispenser, coins := PayChange(vm.coinDenominations, vm.coinDispenser, amount);
      GreedyKeepsUniform(vm.coinDenominations, vm.coinDispenser, amount);
      vm.coinDispenser := dispenser;
      vm.change := vm.change + coins;
      vm.currentPaymentCredit := 0;
      return Ok;
    }

    /**
     * Selection button `value`: when its slot is stocked and the credit covers
     * its price, one pop leaves the slot, a pop with the button's name goes to
     * the chute, and the credit minus the price is paid back as change.
     * An empty slot or too little credit changes nothing.
     */
    method Press(value: int) returns (o: Outcome)
      requires Valid()
      modifies vendingMachine
      ensures Valid()
      ensures value < 0 ==> o == Fail(IllegalArgument)
      ensures value < 0 && vendingMachine != null ==> unchanged(vendingMachine)
      ensures value >= 0 && vendingMachine == null ==> o == Fail(NullPointer)
      ensures vendingMachine != null && value >= old(vendingMachine.selectionButtonCount) ==>
        o == Fail(IllegalArgument) && unchanged(vendingMachine)
      ensures vendingMachine != null && 0 <= value < old(vendingMachine.selectionButtonCount)
                && value >= old(|vendingMachine.selectionButtons|) ==>
        o == Fail(IndexOutOfBounds) && unchanged(vendingMachine)
      ensures vendingMachine != null && 0 <= value < old(vendingMachine.selectionButtonCount)
                && value < old(|vendingMachine.selectionButtons|) ==>
        && o == Ok
        && var button := old(vendingMachine.selectionButtons[value]);
        && var credit := old(vendingMachine.currentPaymentCredit);
        && if old(vendingMachine.popDispenser[value]) == [] || credit < button.price then
             unchanged(vendingMachine)
           else
             && vendingMachine.popDispenser == old(vendingMachine.popDispenser)[value := old(vendingMachine.popDispenser[value])[1..]]
             && vendingMachine.unextractedPop == old(vendingMachine.unextractedPop) + [button.name]
             && var p := Greedy(old(vendingMachine.coinDenominations), old(vendingMachine.coinDispenser), credit - button.price);
             && vendingMachine.coinDispenser == p.slots
             && vendingMachine.change == old(vendingMachine.change) + p.coins
             && vendingMachine.currentPaymentCredit == 0
             && vendingMachine.Config() == old(vendingMachine.Config())
             && vendingMachine.totalPayments == old(vendingMachine.totalPayments)
             && vendingMachine.loadedCoins == old(vendingMachine.loadedCoins)
    {
      if value < 0 {
        return Fail(IllegalArgument);
      }
      if vendingMachine == null {
        return Fail(NullPointer);
      }
      var vm := vendingMachine;
      if value >= vm.selectionButtonCount {
        return Fail(IllegalArgument);
      }
      if value >= |vm.selectionButtons| {
        return Fail(IndexOutOfBounds);
      }
      var price := vm.selectionButtons[value].price;
      if vm.popDispenser[value] == [] {
        // nothing is dispensed
      } else if vm.currentPaymentCredit >= price {
        vm.popDispenser := vm.popDispenser[value := vm.popDispenser[value][1..]];
        vm.unextractedPop := vm.unextractedPop + [vm.selectionButtons[value].name];
        vm.currentPaymentCredit := vm.currentPaymentCredit - price;
        var made := MakeChange(vm.currentPaymentCredit);
      }
      return Ok;
    }

    /**
     * Replaces the current machine with a new one, then validates while it
     * fills it: the button count first, then each coin kind in order (not
     * positive: IllegalArgument; occurring twice in the list: IllegalState),
     * adding the kinds that pass; the buttons are added only if every check
     * passes. A failure leaves the partly built machine current.
     */
    method Construct(coinKinds: seq<int>, selectionButtonCount: int) returns (o: Outcome)
      modifies this
      ensures Valid()
      ensures vendingMachine != null && fresh(vendingMachine)
      ensures o == ConstructVerdict(coinKinds, selectionButtonCount)
      ensures vendingMachine.coinDenominations == coinKinds[..KindsAdded(coinKinds, selectionButtonCount)]
      ensures vendingMachine.coinDispenser == Repeat([], KindsAdded(coinKinds, selectionButtonCount))
      ensures vendingMachine.selectionButtonCount == selectionButtonCount
      ensures o == Ok ==>
        && |vendingMachine.selectionButtons| == selectionButtonCount
        && (forall b :: 0 <= b < |vendingMachine.selectionButtons| ==> vendingMachine.selectionButtons[b] == blankButton)
        && vendingMachine.popDispenser == Repeat([], |vendingMachine.selectionButtons|)
      ensures o != Ok ==> vendingMachine.selectionButtons == [] && vendingMachine.popDispenser == []
      ensures vendingMachine.Chute() == ([], []) && vendingMachine.Ledger() == (0, 0, [])
    {
      vendingMachine := new VendingMachine(selectionButtonCount);
      var vm := vendingMachine;
      if selectionButtonCount <= 0 {
        return Fail(IllegalArgument);
      }
      var i := 0;
      while i < |coinKinds|
        invariant vendingMachine == vm && fresh(vm)
        invariant 0 <= i <= StopFrom(coinKinds, 0)
        invariant vm.coinDenominations == coinKinds[..i] && vm.coinDispenser == Repeat([], i)
        invariant Positive(vm.coinDenominations) && Distinct(vm.coinDenominations)
        invariant vm.selectionButtons == [] && vm.popDispenser == []
        invariant vm.selectionButtonCount == selectionButtonCount
        invariant vm.Chute() == ([], []) && vm.Ledger() == (0, 0, [])
        invariant vm.Valid()
      {
        var coinKind := coinKinds[i];
        if coinKind <= 0 {
          return Fail(IllegalArgument);
        }
        if Count(coinKinds, coinKind) > 1 {
          return Fail(IllegalState);
        }
        assert coinKinds[..i + 1] == coinKinds[..i] + [coinKind];
        vm.coinDenominations := vm.coinDenominations + [coinKind];
        vm.coinDispenser := vm.coinDispenser + [[]];
        i := i + 1;
        AcceptedPrefixValid(coinKinds, i);
      }
      var b := 0;
      while b < selectionButtonCount
        invariant vendingMachine == vm && fresh(vm) && vm.Valid()
        invariant i == StopFrom(coinKinds, 0)
        invariant vm.coinDenominations == coinKinds[..i] && vm.coinDispenser == Repeat([], i)
        invariant vm.selectionButtonCount == selectionButtonCount
        invariant vm.Chute() == ([], []) && vm.Ledger() == (0, 0, [])
        invariant 0 <= b <= selectionButtonCount
        invariant |vm.selectionButtons| == b
        invariant forall k :: 0 <= k < b ==> vm.selectionButtons[k] == blankButton
        invariant vm.popDispenser == Repeat([], b)
      {
        vm.selectionButtons := vm.selectionButtons + [blankButton];
        vm.popDispenser := vm.popDispenser + [[]];
        b := b + 1;
      }
      return Ok;
    }

    /**
     * Sets button i's name and price to popNames[i] and popCosts[i], button by
     * button; a non-positive cost stops it with the earlier buttons already set.
     */
    method Configure(popNames: seq<string>, popCosts: seq<int>) returns (o: Outcome)
      requires Valid()
      modifies vendingMachine
      ensures Valid()
      ensures |popNames| != |popCosts| ==> o == Fail(IllegalArgument)
      ensures |popNames| != |popCosts| && vendingMachine != null ==> unchanged(vendingMachine)
      ensures |popNames| == |popCosts| && vendingMachine == null ==> o == Fail(NullPointer)
      ensures |popNames| == |popCosts| && vendingMachine != null && |popNames| != old(vendingMachine.selectionButtonCount) ==>
        o == Fail(IllegalArgument) && unchanged(vendingMachine)
      ensures |popNames| == |popCosts| && vendingMachine != null && |popNames| == old(vendingMachine.selectionButtonCount) ==>
        && var stop := ConfigureStop(popCosts, old(|vendingMachine.selectionButtons|));
        && o == ConfigureVerdict(popCosts, old(|vendingMachine.selectionButtons|))
        && |vendingMachine.selectionButtons| == old(|vendingMachine.selectionButtons|)
        && (forall b :: 0 <= b < |vendingMachine.selectionButtons| ==>
              vendingMachine.selectionButtons[b] ==
                if b < stop then Button(popNames[b], popCosts[b]) else old(vendingMachine.selectionButtons[b]))
        && vendingMachine.coinDenominations == old(vendingMachine.coinDenominations)
        && vendingMachine.selectionButtonCount == old(vendingMachine.selectionButtonCount)
        && vendingMachine.Stock() == old(vendingMachine.Stock())
        && vendingMachine.Chute() == old(vendingMachine.Chute())
        && vendingMachine.Ledger() == old(vendingMachine.Ledger())
    {
      if |popNames| != |popCosts| {
        return Fail(IllegalArgument);
      }
      if vendingMachine == null {
        return Fail(NullPointer);
      }
      var vm := vendingMachine;
      if |popNames| != vm.selectionButtonCount {
        return Fail(IllegalArgument);
      }
      ghost var stop := ConfigureStop(popCosts, |vm.selectionButtons|);
      var i := 0;
      while i < vm.selectionButtonCount
        invariant 0 <= i <= stop
        invariant |vm.selectionButtons| == old(|vm.selectionButtons|)
        invariant forall b :: 0 <= b < |vm.selectionButtons| ==>
          vm.selectionButtons[b] == if b < i then Button(popNames[b], popCosts[b]) else old(vm.selectionButtons[b])
        invariant vm.coinDenominations == old(vm.coinDenominations)
        invariant vm.selectionButtonCount == old(vm.selectionButtonCount)
        invariant vm.Stock() == old(vm.Stock()) && vm.Chute() == old(vm.Chute()) && vm.Ledger() == old(vm.Ledger())
      {
        if popCosts[i] <= 0 {
          return Fail(IllegalArgument);
        }
        if i >= |vm.selectionButtons| {
          return Fail(IndexOutOfBounds);
        }
        vm.selectionButtons := vm.selectionButtons[i := Button(popNames[i], popCosts[i])];
        i := i + 1;
      }
      return Ok;
    }

    /**
     * Adds coinCounts[i] coins of kind i to coin slot i (none for a negative
     * count), then runs the pop loop whose bound reads popCounts.get(j): every
     * button's slot gets PopRunFrom(popCounts, 1).added pops bearing the
     * button's current name, and the loop throws when j reaches the end of
     * popCounts or i the end of the button list.
     */
    method Load(coinCounts: seq<int>, popCounts: seq<int>) returns (o: Outcome)
      requires Valid()
      modifies vendingMachine
      ensures Valid()
      ensures vendingMachine == null ==> o == Fail(NullPointer)
      ensures vendingMachine != null && (|coinCounts| != old(|vendingMachine.coinDispenser|)
                || |popCounts| != old(vendingMachine.selectionButtonCount)) ==>
        o == Fail(IllegalArgument) && unchanged(vendingMachine)
      ensures vendingMachine != null && |coinCounts| == old(|vendingMachine.coinDispenser|)
                && |popCounts| == old(vendingMachine.selectionButtonCount) ==>
        && var buttons := old(vendingMachine.selectionButtons);
        && var filled := PopSlotsFilled(popCounts, |buttons|);
        && var added := PopRunFrom(popCounts, 1).added;
        && o == PopPhaseVerdict(popCounts, |buttons|)
        && Restocked(old(vendingMachine.coinDispenser), vendingMachine.coinDispenser,
                     vendingMachine.coinDenominations, coinCounts)
        && |vendingMachine.popDispenser| == old(|vendingMachine.popDispenser|)
        && (forall b :: 0 <= b < |vendingMachine.popDispenser| ==>
              vendingMachine.popDispenser[b] ==
                old(vendingMachine.popDispenser[b]) + if b < filled then Repeat(buttons[b].name, added) else [])
        && vendingMachine.Config() == old(vendingMachine.Config())
        && vendingMachine.Chute() == old(vendingMachine.Chute())
        && vendingMachine.Ledger() == old(vendingMachine.Ledger())
    {
      if vendingMachine == null {
        return Fail(NullPointer);
      }
      var vm := vendingMachine;
      if |coinCounts| != |vm.coinDispenser| {
        return Fail(IllegalArgument);
      }
      if |popCounts| != vm.selectionButtonCount {
        return Fail(IllegalArgument);
      }
      var dispenser := RestockCoins(vm.coinDispenser, vm.coinDenominations, coinCounts);
      RestockKeepsUniform(vm.coinDispenser, dispenser, vm.coinDenominations, coinCounts);
      vm.coinDispenser := dispenser;
      var slots;
      o, slots := StockPops(vm.popDispenser, vm.selectionButtons, popCounts);
      vm.popDispenser := slots;
    }

    /**
     * Reports the value of the coins in the coin dispenser, the total paid and
     * every stocked pop (slot by slot), and empties every coin and pop slot.
     * The total paid, the credit, the payment coins and the chute are kept.
     */
    method Unload() returns (r: Result<Teardown>)
      requires Valid()
      modifies vendingMachine
      ensures Valid()
      ensures vendingMachine == null ==> r == Failure(NullPointer)
      ensures vendingMachine != null ==>
        && r == Success(Teardown(SlotsValue(old(vendingMachine.coinDispenser)),
                                 old(vendingMachine.totalPayments),
                                 Flatten(old(vendingMachine.popDispenser))))
        && vendingMachine.coinDispenser == Repeat([], old(|vendingMachine.coinDispenser|))
        && vendingMachine.popDispenser == Repeat([], old(|vendingMachine.popDispenser|))
        && vendingMachine.Config() == old(vendingMachine.Config())
        && vendingMachine.Chute() == old(vendingMachine.Chute())
        && vendingMachine.Ledger() == old(vendingMachine.Ledger())
    {
      if vendingMachine == null {
        return Failure(NullPointer);
      }
      var vm := vendingMachine;
      var valueOfUnusedCoins, coinSlots := ClearCoinSlots(vm.coinDispenser);
      vm.coinDispenser := coinSlots;
      var pops, popSlots := ClearPopSlots(vm.popDispenser);
      vm.popDispenser := popSlots;
      return Success(Teardown(valueOfUnusedCoins, vm.totalPayments, pops));
    }
  }
}
