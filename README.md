# Vending machine engine, modelled in Dafny

This project models the engine of a pop vending machine, the class `VendingMachineFactory`. A script driver calls seven commands on it; an eighth operation, `makeChange`, is called only from `press`:
- `construct(coinKinds, selectionButtonCount)` makes a new machine, with one coin slot per coin kind and one pop slot per selection button.
- `configure(popNames, popCosts)` names and prices each button.
- `load(coinCounts, popCounts)` stocks the coin slots and the pop slots.
- `insert(value)` accepts a coin. A coin of a known kind raises the credit; any other coin goes straight to the delivery chute.
- `press(value)` sells a pop when the slot has one and the credit covers the price. It then pays the rest of the credit back as change through `makeChange`.
- `extract()` empties the delivery chute: coins first, then pops.
- `unload()` reports three things: the value of the coins in the coin slots, the total ever paid, and every stocked pop. It empties the slots.

Behaviours the model keeps exactly as the code has them:
- **Change goes by construction order, not by value.** Change is paid greedily by coin slot, from the last slot declared at construction to the first, not in order of value. An amount that cannot be paid is dropped, and the credit is zeroed either way.
- **`construct` fails part-way.** It replaces the current machine before it validates anything. A failure leaves the partly built machine in place. A duplicated coin kind throws `IllegalStateException`, not `IllegalArgumentException`.
- **`configure` fails part-way.** It sets buttons one by one, so a non-positive price stops it with the earlier buttons already set.
- **`load`'s pop loop reads the wrong index.** It reads its bound from `popCounts.get(j)` instead of `popCounts.get(i)`. So every button gets the same number of pops, fixed by the first `t >= 1` with `popCounts[t] < t`. The loop throws `IndexOutOfBoundsException` when `j` reaches the end of `popCounts`, which a one-button machine always does.
- **Paid coins never refill the dispenser.** `insert` keeps accepted coins in a separate list of paid coins.
- **`unload` keeps the totals.** It does not reset the total paid or the credit.

The state is split over two classes:
- `Machine.VendingMachine` holds the fields of the machine. Coins are their integer values and pops are their names.
- `Machine.VendingMachineFactory` holds the current machine, which is `null` before the first `construct`. Every command on a `null` machine fails with `NullPointer`, at the point where the code first dereferences it.

A Java exception is an error tag: `IllegalArgument`, `IllegalState`, `NullPointer` or `IndexOutOfBounds`. A command returns that tag as `Fail(e)` or `Failure(e)`, after the state changes that happened before the throw.

The loops of `makeChange`, `load` and `unload` run on local copies, in methods that change nothing:
- `Change.PayChange` is proved against `Change.Greedy` / `Change.GreedyFrom`.
- `Loading.RestockCoins` is proved against `Loading.Restocked`.
- `Loading.StockPops` is proved against `Loading.PopRunFrom`.
- `Machine.ClearCoinSlots` and `Machine.ClearPopSlots` are proved against `Tally.SlotsValue` and `Tally.Flatten`.

The command then stores the result. `construct`, `configure` and `extract` update the machine's fields in their own loops. The invariants of the `construct` and `configure` loops use `Validation.StopFrom` and `Validation.ConfigureStop`. The lemmas below are proved about these specification functions.

The class's own documentation lists `construct(3, 2, 1; 2) load(1, 0, 0; 1, 1)` as a correct load of one pop of each kind. In the code, the pop loop of that load stocks one pop in slot 0 and then throws `IndexOutOfBoundsException`, reading `popCounts.get(2)` of a two-element list; `Loading.TwoButtonsOverrunAfterOnePop` proves this. The model follows the code.

`Scenarios.OneButtonCola` is a whole run on one button selling Cola at 15, with coin kinds 1, 5 and 10. Three 1-coins are loaded, 20 is paid and the button is pressed. `load([3, 0, 0], [1])` throws before any pop is stocked, because its pop loop reads `popCounts.get(1)` of a one-element list. So the press dispenses nothing and the chute stays empty.

## Model

| member | source | states |
|---|---|---|
| Machine.VendingMachineFactory.constructor | src/ca/ucalgary/seng301/myvendingmachine/VendingMachineFactory.java:431 | a new engine has no current machine |
| Machine.VendingMachine.constructor | src/ca/ucalgary/seng301/myvendingmachine/VendingMachineFactory.java:520 | a new machine records the button count and has no coin kinds, buttons, stock, chute contents, credit or payments |
| Machine.VendingMachineFactory.Extract | src/ca/ucalgary/seng301/myvendingmachine/VendingMachineFactory.java:447-460 | returns the chute's coins in order followed by its pops in order, empties the chute, changes nothing else and keeps the machine invariant; a null machine gives NullPointer |
| Machine.CoinItems | src/ca/ucalgary/seng301/myvendingmachine/VendingMachineFactory.java:450-452 | one coin item per chute coin, same order and values |
| Machine.PopItems | src/ca/ucalgary/seng301/myvendingmachine/VendingMachineFactory.java:455-457 | one pop item per chute pop, same order and names |
| Machine.VendingMachineFactory.Insert | src/ca/ucalgary/seng301/myvendingmachine/VendingMachineFactory.java:463-475 | a non-positive coin gives IllegalArgument and changes nothing, even with no machine; a coin of a known kind raises credit and total by its value and is kept as paid; any other coin goes to the chute and nothing else changes |
| Machine.VendingMachineFactory.Press | src/ca/ucalgary/seng301/myvendingmachine/VendingMachineFactory.java:479-502 | a negative index gives IllegalArgument and changes nothing, even with no machine; with no machine any other index gives NullPointer; an index at or beyond the button count gives IllegalArgument; an index with no button object gives IndexOutOfBounds; an empty slot or too little credit changes nothing; otherwise the first pop leaves the slot, the button's name goes to the chute, and the credit minus the price is paid as greedy change |
| Machine.VendingMachineFactory.MakeChange | src/ca/ucalgary/seng301/myvendingmachine/VendingMachineFactory.java:504-516 | the coin slots become the slots of the greedy payout, its coins are appended to the chute, the credit becomes 0, nothing else changes and every slot still holds coins of its own kind only |
| Change.GreedyFrom | src/ca/ucalgary/seng301/myvendingmachine/VendingMachineFactory.java:506-515 | the scan from slot i-1 down to slot 0 keeps one slot per coin kind, and owing nothing or less pays no coin and leaves every slot as it was |
| Change.Greedy | src/ca/ucalgary/seng301/myvendingmachine/VendingMachineFactory.java:504-516 | makeChange's scan over all slots, last first: one slot per coin kind afterwards, and no change at all when the amount owed is not positive (an exact payment) |
| Change.PayChange | src/ca/ucalgary/seng301/myvendingmachine/VendingMachineFactory.java:506-515 | the nested scan loops leave exactly the slots and pay exactly the coins of the greedy payout |
| Change.GreedyKeepsAbove | src/ca/ucalgary/seng301/myvendingmachine/VendingMachineFactory.java:506-515 | the scan from slot i-1 down leaves every slot from i up untouched |
| Change.GreedyConserves | src/ca/ucalgary/seng301/myvendingmachine/VendingMachineFactory.java:508-513 | the value of the coins paid plus the dropped remainder equals the amount owed |
| Change.GreedyRemainder | src/ca/ucalgary/seng301/myvendingmachine/VendingMachineFactory.java:508-510 | the dropped remainder never exceeds the amount, and is not negative when the amount is not |
| Change.NeverOverpays | src/ca/ucalgary/seng301/myvendingmachine/VendingMachineFactory.java:504-516 | for a non-negative amount, the change paid is worth between 0 and the amount |
| Change.GreedyShrinks | src/ca/ucalgary/seng301/myvendingmachine/VendingMachineFactory.java:510 | coins leave a slot only from its front, so each slot afterwards is a suffix of what it was |
| Change.GreedyKeepsUniform | src/ca/ucalgary/seng301/myvendingmachine/VendingMachineFactory.java:506-515 | after the scan every slot still holds coins of its own kind only |
| Change.GreedyExhausts | src/ca/ucalgary/seng301/myvendingmachine/VendingMachineFactory.java:508 | afterwards every slot is empty or its kind exceeds the remainder, so no further coin could be paid |
| Change.GreedyLeavesSlot | src/ca/ucalgary/seng301/myvendingmachine/VendingMachineFactory.java:508 | the scan leaves a slot only when it is empty or the amount still owed at that moment, the amount less what the slots from the last down to this one paid, is below the slot's kind |
| Change.GreedyPaysRemoved | src/ca/ucalgary/seng301/myvendingmachine/VendingMachineFactory.java:510-513 | when slots hold coins of their own kind, the chute receives exactly the coins removed from the slot fronts, last slot first |
| Change.ScanFollowsDeclarationOrder | src/ca/ucalgary/seng301/myvendingmachine/VendingMachineFactory.java:506 | with kinds declared 5 then 1, owing 5 pays five 1-coins although a 5-coin is in stock |
| Change.ShortChangeDropsRemainder | src/ca/ucalgary/seng301/myvendingmachine/VendingMachineFactory.java:506-515 | owing 5 with only three 1-coins in stock pays the three coins and drops 2 |
| Machine.VendingMachineFactory.Construct | src/ca/ucalgary/seng301/myvendingmachine/VendingMachineFactory.java:519-544 | a fresh machine replaces the old one in every case; the verdict is ConstructVerdict; the accepted prefix of kinds, each with an empty slot, is stored; blank buttons and empty pop slots are added only on success; the machine invariant holds |
| Validation.KindsAdded | src/ca/ucalgary/seng301/myvendingmachine/VendingMachineFactory.java:522-535 | construct adds no more kinds than it is given, and every kind it adds is positive and occurs exactly once in the list |
| Validation.ConstructVerdict | src/ca/ucalgary/seng301/myvendingmachine/VendingMachineFactory.java:519-544 | construct only ever throws IllegalArgument or IllegalState, and it succeeds exactly when the button count is positive and every kind was added |
| Validation.StopFrom | src/ca/ucalgary/seng301/myvendingmachine/VendingMachineFactory.java:526-535 | the index where the kind scan stops: every earlier kind is positive and occurs once in the whole list, and the kind there, if any, is not |
| Validation.AcceptedPrefixValid | src/ca/ucalgary/seng301/myvendingmachine/VendingMachineFactory.java:526-535 | every prefix the scan accepts is positive and free of repetitions |
| Validation.ConstructAcceptsExactly | src/ca/ucalgary/seng301/myvendingmachine/VendingMachineFactory.java:519-544 | construct succeeds if and only if the button count is positive and the kinds are positive and pairwise different |
| Tally.Count | src/ca/ucalgary/seng301/myvendingmachine/VendingMachineFactory.java:530 | the frequency of x in s equals its multiplicity in the multiset of s |
| Tally.CountTwice | src/ca/ucalgary/seng301/myvendingmachine/VendingMachineFactory.java:530 | a value at two positions has frequency at least two |
| Tally.CountDistinct | src/ca/ucalgary/seng301/myvendingmachine/VendingMachineFactory.java:530 | in a list without repetitions every element has frequency one |
| Machine.VendingMachineFactory.Configure | src/ca/ucalgary/seng301/myvendingmachine/VendingMachineFactory.java:547-571 | lists of different sizes give IllegalArgument, even with no machine; a size other than the button count gives IllegalArgument; otherwise buttons before ConfigureStop get their name and price, later ones are kept, the verdict is ConfigureVerdict, and nothing else changes |
| Validation.FirstNonPositive | src/ca/ucalgary/seng301/myvendingmachine/VendingMachineFactory.java:560-563 | the index of the first non-positive cost: all costs before it are positive, and the cost there, if any, is not |
| Validation.ConfigureStop | src/ca/ucalgary/seng301/myvendingmachine/VendingMachineFactory.java:560-568 | configure sets at most as many buttons as there are costs and as there are buttons |
| Validation.ConfigureVerdict | src/ca/ucalgary/seng301/myvendingmachine/VendingMachineFactory.java:560-569 | configure's loop only ever throws IllegalArgument or IndexOutOfBounds; success means every cost is positive and there is a button per cost, and IndexOutOfBounds means there are fewer buttons than costs |
| Validation.ConfigureAcceptsExactly | src/ca/ucalgary/seng301/myvendingmachine/VendingMachineFactory.java:547-571 | with a button per cost, configure succeeds if and only if every cost is positive; otherwise it throws IllegalArgument after setting only buttons with positive costs |
| Machine.VendingMachineFactory.Load | src/ca/ucalgary/seng301/myvendingmachine/VendingMachineFactory.java:574-603 | size mismatches give IllegalArgument and change nothing; otherwise the coin slots are restocked, the first PopSlotsFilled pop slots each get PopRunFrom(popCounts, 1).added pops named after their button, the verdict is PopPhaseVerdict, and the invariant holds |
| Loading.Clamp | src/ca/ucalgary/seng301/myvendingmachine/VendingMachineFactory.java:589 | the loop from 1 to c runs c times, or none for a negative c |
| Loading.Restocked | src/ca/ucalgary/seng301/myvendingmachine/VendingMachineFactory.java:587-592 | defines what load's coin loop leaves: one slot per kind, and slot i holds what it held followed by Clamp(coinCounts[i]) coins of kind i |
| Loading.RestockCoins | src/ca/ucalgary/seng301/myvendingmachine/VendingMachineFactory.java:587-592 | slot i ends as before followed by Clamp(coinCounts[i]) coins of kind i |
| Loading.RestockValue | src/ca/ucalgary/seng301/myvendingmachine/VendingMachineFactory.java:587-592 | the dispenser's value grows by exactly the value of the coins loaded |
| Loading.RestockKeepsUniform | src/ca/ucalgary/seng301/myvendingmachine/VendingMachineFactory.java:587-592 | after loading every slot still holds coins of its own kind only |
| Loading.StockPops | src/ca/ucalgary/seng301/myvendingmachine/VendingMachineFactory.java:596-601 | the pop loop's verdict is PopPhaseVerdict, and slot b gains PopRunFrom(popCounts, 1).added pops named after button b exactly when b < PopSlotsFilled |
| Loading.PopRunFrom | src/ca/ucalgary/seng301/myvendingmachine/VendingMachineFactory.java:598 | the inner pop loop from bound index j adds no more pops than indexes remain in popCounts, and it overruns only by reaching the end of popCounts |
| Loading.PopRunCovers | src/ca/ucalgary/seng301/myvendingmachine/VendingMachineFactory.java:598 | every index the inner pop loop passes is within popCounts and passes the bound test |
| Loading.PopRunShape | src/ca/ucalgary/seng301/myvendingmachine/VendingMachineFactory.java:598 | the inner pop loop adds one pop per passing index, stops at the first t with popCounts[t] < t, and overruns if and only if it reaches the end of popCounts |
| Loading.PopSlotsFilled | src/ca/ucalgary/seng301/myvendingmachine/VendingMachineFactory.java:596-601 | load stocks no more slots than there are counts and buttons |
| Loading.PopPhaseVerdict | src/ca/ucalgary/seng301/myvendingmachine/VendingMachineFactory.java:596-601 | the pop loop only ever throws IndexOutOfBounds; with a single count it always throws; when it succeeds there are at least as many buttons as counts |
| Loading.OneButtonOverruns | src/ca/ucalgary/seng301/myvendingmachine/VendingMachineFactory.java:598 | with one count, the pop loop adds nothing and reads past the end |
| Loading.PopPhaseOk | src/ca/ucalgary/seng301/myvendingmachine/VendingMachineFactory.java:596-601 | when the pop loop succeeds, it stocks every slot, and the number of pops per slot is fixed by the first index t with popCounts[t] < t |
| Loading.OwnCountIgnored | src/ca/ucalgary/seng301/myvendingmachine/VendingMachineFactory.java:598 | counts [2, 0] stock no pops at all and load succeeds |
| Loading.TwoButtonsOverrunAfterOnePop | src/ca/ucalgary/seng301/myvendingmachine/VendingMachineFactory.java:596-601 | counts [1, 1] put one pop in slot 0 and then throw IndexOutOfBounds |
| Machine.VendingMachineFactory.Unload | src/ca/ucalgary/seng301/myvendingmachine/VendingMachineFactory.java:606-630 | reports the coin slots' value, the total paid and all stocked pops slot by slot; empties every slot and keeps configuration, chute and ledger |
| Machine.ClearCoinSlots | src/ca/ucalgary/seng301/myvendingmachine/VendingMachineFactory.java:611-617 | the value counted is the value of all coins in all slots, and every slot ends empty |
| Machine.ClearPopSlots | src/ca/ucalgary/seng301/myvendingmachine/VendingMachineFactory.java:623-628 | the pops listed are all pops, slot by slot and in order, and every slot ends empty |
| Tally.EmptySlots | src/ca/ucalgary/seng301/myvendingmachine/VendingMachineFactory.java:611-628 | emptied slots hold no value and no pops, so an unload right after an unload reports nothing in stock |
| Scenarios.OneButtonCola | src/ca/ucalgary/seng301/myvendingmachine/VendingMachineFactory.java:596-601 | on the one-button Cola run, load throws IndexOutOfBounds, the press after paying 20 succeeds without dispensing, and extract returns nothing |

## Left out

- The `VendingMachine`, `SelectionButton`, `Coin` and `Pop` classes are not part of this model.
  - The machine's fields are inferred from their uses in the engine.
  - `new VendingMachine(n)` is taken to record n and start with everything empty.
  - A new `SelectionButton` is the engine constructor's `blankButton` parameter, because its defaults are not visible.
- Java `int` overflow is not modelled. Four quantities are unbounded integers here: the credit, the total paid, the change amount, and the sum of coin values that `unload` reports (VendingMachineFactory.java:611-614). In Java they wrap once more than 2^31-1 in coin value is inserted or held in the coin slots. For example, three loaded coins of kind 10^9 make `unload` report a negative value, while the model reports 3000000000.
- `null` lists passed to `construct`, `configure` and `load` are not modelled, because a Dafny sequence cannot be null. `configure` and `load` check for them. `construct` throws `NullPointerException` at its `for` loop, after the old machine was already replaced.
- The script parser, the `Driver`, `main` and the path constructor are left out. They are I/O around the engine.
- Object identity of coins and pops, and the Java exception classes beyond their type, are left out.
  - Coins are their values and pops are their names.
  - An exception is only its tag; the message text is not kept.
- Machine.VendingMachineFactory.MakeChange, Load and Unload: the lists are updated in place in the source. The model runs the same loops on local values in Change.PayChange, Loading.RestockCoins, Loading.StockPops, Machine.ClearCoinSlots and Machine.ClearPopSlots, then stores the result. So aliasing between those lists and other references is not captured.
- Machine.VendingMachineFactory.MakeChange requires a machine whose slots hold coins of their own kind and whose total paid is not negative. The other commands keep both, and it is only called from press.
- Machine.VendingMachineFactory.Press, Extract, Insert, Configure, Load and Unload require the machine invariant; every command keeps it. `construct` re-establishes it for a fresh machine.
