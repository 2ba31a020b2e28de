# Vending machine settlement engine, in Dafny

This project models the core of a Java vending-machine design:

- **The coin vault.** It is a chain of responsibility of `DenominationChainService` links, one per coin denomination. Each link holds a `Denomination` counter.
- **The product stock.** This is a `Dispenser` behind `DispenserService`.
- **The customer's basket.** This is `SelectProductService`.
- **The five state objects.** They are Idle, InsertMoney, ProcessTransaction, Maintenance and OutOfService.
- **The `VendingMachine` facade.** It forwards each call to its current state object and installs a new state object after some calls.

The model is functional. Each Java object becomes an immutable datatype, and each mutating call becomes a function that returns the new value.

- **The chain.** It is a `seq<Denomination>`. Link `i`'s `next` is link `i + 1`, and the last link plays the part of the Java link whose `next` is `null`.
- **Exceptions.** `Outcomes.Exception` tells apart `UnsupportedOperationException`, `IllegalArgumentException` and the `NullPointerException` raised when a missing map entry is used: either a method is called on an absent `Product` (src/models/Dispenser.java:28), or an absent basket quantity is unboxed (src/services/SelectProductService.java:33).
- **Partial mutations.** A void call that can throw after it has already changed something returns the changed services together with a `Completion`, as Java would leave them.
- **Map iteration order.** `HashMap` iteration order is not specified, so the settlement call takes the iteration orders of the basket and of the inserted money as explicit parameters. `KeyOrder.Enumerates` states that such an order lists every key exactly once.

The model follows the code as written, including where the code departs from the evident design:

- The tail link never looks at its own denomination. Coins of the tail's face value are never counted, and the tail pays out only an amount of 0.
- `canWithdrawMoney` asks a link for exactly `amount / value` coins or fails. It does not take `min(needed, count)` as a greedy change-maker would.
- Both `addMoney` and `withdrawMoney` descend into `next` twice after a successful step. For a credit the effect compounds: every crediting link sends the offer down the rest of the chain twice, so a link below it is credited again on each visit while it has room. One coin each offered to empty 10s, 5s and 2s links above the tail leaves them holding 1, 2 and 4 coins. A withdrawal re-sends the full amount.
- `Dispenser.dispenseProduct` has an inverted guard, so it throws on every input. Every settlement with a non-empty basket whose checks pass therefore throws after the deposit and the payout have run. Those two calls need not change the vault: an empty payment for a basket of zero units owes change 0 and leaves the vault as it was.
- `selectProduct` only prints a warning when the stock cannot serve the request, and it replaces an earlier quantity rather than adding to it.
- `VendingMachine.insertMoney` never consults the state object. `VendingMachine.updateSelectedProduct` is answered by the state's `selectProduct`.

## Model

| member | source | states |
|---|---|---|
| Denominations.New | src/models/Denomination.java:11-16 | A new denomination keeps its face value and capacity, starts with no coins and is not available. |
| Denominations.WithdrawMoney | src/models/Denomination.java:39-43 | An empty or negative counter is left alone; otherwise exactly `n` coins are subtracted, with no lower bound. Face value and capacity never change. |
| Denominations.AddMoney | src/models/Denomination.java:45-47 | The count grows by exactly `n`, with no capacity check; face value and capacity never change. |
| Denominations.AddThenWithdrawRestores | src/models/Denomination.java:39-47 | Crediting `n > 0` coins and then debiting them restores the counter: the rollback used by the chain is exact. |
| Denominations.WithdrawThenAddRestores | src/models/Denomination.java:39-47 | On an available counter, a debit followed by a credit of the same amount restores it. |
| Denominations.AvailableIffWithdrawTakesEffect | src/models/Denomination.java:35-43 | `isAvailable` (a positive count) holds exactly when a non-zero debit changes the counter. |
| Denominations.CountersAreUnchecked | src/models/Denomination.java:39-47 | Concrete inputs where a counter exceeds its capacity or goes negative. |
| DenominationChain.CanAddMoney | src/services/DenominationChainService.java:19-36 | True exactly when, for every non-tail link from `i` on whose face value is offered, offered count plus held count is at most capacity. |
| DenominationChain.AddMoney | src/services/DenominationChainService.java:38-60 | The credit keeps every link's value and capacity, leaves the links before `i` and the tail untouched, and leaves every link whose value is not offered untouched. |
| DenominationChain.AddMoneyAlwaysSucceeds | src/services/DenominationChainService.java:38-60 | `addMoney` always answers true, because the tail does; so its rollback branch is dead code. |
| DenominationChain.AddMoneyWithinCapacity | src/services/DenominationChainService.java:19-60 | Without the `canAddMoney` guard, for any non-negative offer every count stays within `[0, capacity]` and never shrinks: each link tests its own room before it is credited. |
| DenominationChain.AddMoneyNeverShrinks | src/services/DenominationChainService.java:38-60 | For non-negative offers, a credit never lowers any link's count. |
| DenominationChain.AddMoneyCreditsEveryOfferedLink | src/services/DenominationChainService.java:38-60 | Under the capacity guard and for non-negative offers, every offered non-tail link from `i` on gains at least its offered count. |
| DenominationChain.AddMoneyCreditsFirstLinkOnce | src/services/DenominationChainService.java:43-50 | The starting link `i`, offered or not, gains its offered count exactly once when it has room for it and is otherwise unchanged; only the later links see the double descent. |
| DenominationChain.CanWithdrawMoney | src/services/DenominationChainService.java:62-80 | Paying out 0 is always feasible and a negative amount never is. When every non-tail link from `i` on has a face value above the amount, no link can contribute, and the answer is true exactly for 0. |
| DenominationChain.WithdrawSucceedsOnlyOnZero | src/services/DenominationChainService.java:82-107 | `withdrawMoney` answers true exactly when the amount is 0, and then changes nothing: every positive payout reports failure, because the full amount is re-sent to the tail. |
| DenominationChain.WithdrawInfeasibleChangesNothing | src/services/DenominationChainService.java:82-107 | When `canWithdrawMoney` is false, `withdrawMoney` changes no link and answers false. |
| DenominationChain.WithdrawMoney | src/services/DenominationChainService.java:82-107 | The payout keeps the slots, leaves links before `i` and the tail untouched. |
| DenominationChain.WithdrawWithinCapacity | src/services/DenominationChainService.java:62-107 | Without the `canWithdrawMoney` guard, for any amount, counts stay within `[0, capacity]` and never grow: each link debits only coins it holds. |
| DenominationChain.CanWithdrawStep | src/services/DenominationChainService.java:67-79 | One non-tail step of `canWithdrawMoney`: the link must hold its exact-quotient take, and the rest of the chain must pay what is left. |
| DenominationChain.CanWithdrawIsGreedyFit | src/services/DenominationChainService.java:62-80 | On an in-bounds vault, `canWithdrawMoney` holds exactly when the exact-quotient greedy plan (take `amount / value` of each link in order) fits every count and sums to the amount. |
| DenominationChain.CanWithdrawIsSound | src/services/DenominationChainService.java:62-80 | When `canWithdrawMoney` holds, some choice of coin counts within the stock pays the amount exactly. |
| DenominationChain.GreedyIsIncomplete | src/services/DenominationChainService.java:62-80 | Counter-example to the converse: a vault of two 4s and two 3s can pay 6, but the check refuses it. |
| DenominationChain.TailIsNeverRead | src/services/DenominationChainService.java:19-22 | Replacing the tail link by any other denomination changes neither the add nor the withdraw check. |
| DenominationChain.GreedyTakes | src/services/DenominationChainService.java:67-72 | The reference plan lists one non-negative coin count per non-tail link. |
| DenominationService.CanWithdrawMoney | src/services/DenominationService.java:36-38 | Delegates to the chain; an amount of 0 is payable and a negative amount is not. |
| DenominationService.CanAddMoney | src/services/DenominationService.java:40-42 | Delegates to the chain, with the same per-link capacity characterisation. |
| DenominationService.WithdrawMoney | src/services/DenominationService.java:12-18 | A refused payout changes nothing; otherwise the chain pays out, keeping the slots, the tail and the capacity bounds. |
| DenominationService.AddMoney | src/services/DenominationService.java:20-26 | A refused deposit changes nothing; otherwise only offered denominations change, the tail is untouched, and the capacity bounds hold for non-negative offers. |
| DenominationService.AddMoneyCreditsHead | src/services/DenominationService.java:20-26 | An accepted deposit adds exactly the offered count to the head link. |
| DenominationService.GiveChange | src/services/DenominationService.java:28-34 | `giveChange` has exactly the effect of `withdrawMoney`. |
| DenominationService.WithdrawGuardIsRedundant | src/services/DenominationService.java:12-18 | The feasibility guard changes nothing: an unguarded chain payout has the same effect. |
| DenominationService.AddGuardIsNeeded | src/services/DenominationService.java:20-26 | Counter-example: without its guard, the chain credits the 5s link while the full 10s link refuses and stays at capacity, so the deposit is not all-or-nothing; with the guard nothing changes. |
| Products.New | src/models/Product.java:10-16 | A new product holds exactly the given id, name, price, quantity and capacity. |
| Products.CanUpdateQuantity | src/models/Product.java:49-51 | True exactly when the unchecked increase by `delta` would land within `[0, capacity]`. |
| Products.IsAvailable | src/models/Product.java:58-60 | True exactly when one unit can be taken without the quantity going negative. |
| Products.UpdateQuantity | src/models/Product.java:42-51 | Throws IllegalArgument exactly when the new quantity would leave `[0, capacity]`; otherwise adds the delta and changes nothing else. |
| Products.UpdateQuantityGuard | src/models/Product.java:42-51 | `updateQuantity` succeeds if and only if `0 <= quantity + delta <= capacity`. |
| Products.ReduceQuantity | src/models/Product.java:62-66 | An unavailable product is left alone; otherwise the quantity drops by `n`, unchecked, and no other field changes. |
| Products.IncreaseQuantity | src/models/Product.java:68-70 | The quantity grows by `n`, unchecked, and no other field changes. |
| Products.SetName | src/models/Product.java:26-28 | Only the name changes. |
| Products.IdentityIsFixed | src/models/Product.java:26-70 | No mutator changes a product's id, price or capacity. |
| Products.UncheckedCountersLeaveBounds | src/models/Product.java:62-70 | Concrete inputs where the unchecked counters leave `[0, capacity]`. |
| Dispensers.New | src/models/Dispenser.java:10-13 | A new dispenser holds no products. |
| Dispensers.AddProduct | src/models/Dispenser.java:15-17 | Stores the product under its id, replacing any earlier one, and keeps every other entry; a stock keyed by id stays so. |
| Dispensers.RemoveProduct | src/models/Dispenser.java:19-21 | Drops exactly that id and keeps every other entry. |
| Dispensers.GetProduct | src/models/Dispenser.java:23-25 | Returns the product stored under the id, or null when there is none. |
| Dispensers.IsProductAvailable | src/models/Dispenser.java:27-29 | Throws a null dereference exactly when the id is unknown; otherwise answers whether the quantity is positive. |
| Dispensers.CanDispenseProduct | src/models/Dispenser.java:31-39 | True exactly when the product exists and `0 <= quantity <= stock`. |
| Dispensers.DispenseProduct | src/models/Dispenser.java:41-48 | The inverted guard makes it throw IllegalArgument on every input. |
| DispenserService.DispenseProduct | src/services/DispenserService.java:14-24 | An unknown id throws a null dereference; every known id throws IllegalArgument. |
| DispenserService.CanDispenseIn | src/services/DispenserService.java:26-37 | Walking the ids in the given order, the answer is true exactly when every walked product is in stock with enough quantity; it throws only on an unknown id. |
| DispenserService.CanDispenseProducts | src/services/DispenserService.java:26-37 | True exactly when every selected product exists, is available and covers its quantity; a throw happens only when some selected id is not stocked. |
| DispenserService.GetProduct | src/services/DispenserService.java:39-41 | Delegates to the dispenser's lookup. |
| DispenserService.AddProduct | src/services/DispenserService.java:48-50 | Delegates to the dispenser: the product is stored under its id. |
| DispenserService.AddNewProduct | src/services/DispenserService.java:43-46 | Builds the product from its fields and stores it under its id, keeping every other entry. |
| DispenserService.RemoveProduct | src/services/DispenserService.java:52-59 | An unknown id throws a null dereference; a sold-out product throws IllegalArgument; otherwise exactly that entry is dropped. |
| DispenserService.UpdateProductQuantity | src/services/DispenserService.java:61-67 | Succeeds exactly when the product exists, is available and the new quantity stays in `[0, capacity]`; only that product's quantity changes. |
| SelectProductService.New | src/services/SelectProductService.java:11-14 | A new basket is empty. |
| SelectProductService.SelectProduct | src/services/SelectProductService.java:16-23 | Never throws: stores the quantity under the id whatever the stock says, and keeps every other entry. |
| SelectProductService.Clear | src/services/SelectProductService.java:25-27 | Empties the basket. |
| SelectProductService.Update | src/services/SelectProductService.java:29-39 | An id not in the basket throws a null dereference; otherwise the quantity is added to that entry alone. |
| SelectProductService.RemoveProduct | src/services/SelectProductService.java:41-47 | An id unknown to the stock throws a null dereference; otherwise exactly that basket entry is dropped. |
| SelectProductService.SelectReplacesUpdateAccumulates | src/services/SelectProductService.java:16-39 | Selecting twice keeps only the second quantity, while select-then-update gives the sum. |
| Operations.Permits | src/states/IdleState.java:20-66 | Together with the other four state classes: OutOfService supports nothing; processTransaction only in ProcessTransaction, insertMoney only in InsertMoney, addProducts only in Maintenance; the selection calls only in Idle; giveChange and dispenseProducts in no state. |
| Operations.Reject | src/states/OutOfServiceState.java:9-11 | A refused call throws UnsupportedOperationException and leaves the state and the services untouched. |
| IdleMode.Step | src/states/IdleState.java:20-66 | Idle supports exactly the selection calls and showProducts; these work on the basket alone and never touch stock or vault. |
| InsertMoneyMode.Step | src/states/InsertMoneyState.java:16-58 | Only insertMoney is supported: it replaces the held money map and touches no service. |
| OutOfServiceMode.Step | src/states/OutOfServiceState.java:9-52 | Every call is refused with UnsupportedOperationException and nothing changes. |
| MaintenanceMode.AddProducts | src/states/MaintenanceState.java:20-24 | Loads every product under its id; for repeated ids the last one wins; other entries are kept. |
| MaintenanceMode.Step | src/states/MaintenanceState.java:20-65 | Only addProducts and showProducts are supported; the basket and the vault are never touched. |
| ProcessTransactionMode.InsertedAmount | src/states/ProcessTransactionState.java:80-84 | The amount inserted is never negative when no face value or coin count is. |
| ProcessTransactionMode.SelectionPrice | src/states/ProcessTransactionState.java:73-78 | The basket price is never negative when no quantity or price is. |
| ProcessTransactionMode.Change | src/states/ProcessTransactionState.java:73-86 | With an empty basket the change is the whole amount inserted; with no money inserted it is minus the basket price. |
| ProcessTransactionMode.InsertedAmountRemoveAt | src/states/ProcessTransactionState.java:80-84 | Taking one coin entry out of the walk takes exactly its worth off the inserted amount. |
| ProcessTransactionMode.InsertedAmountOrderFree | src/states/ProcessTransactionState.java:80-84 | Any two orders that list the same coin map once each count the same amount. |
| ProcessTransactionMode.SelectionPriceRemoveAt | src/states/ProcessTransactionState.java:73-78 | Taking one basket entry out of the walk takes exactly its price off the total. |
| ProcessTransactionMode.SelectionPriceOrderFree | src/states/ProcessTransactionState.java:73-78 | Any two orders that list the same basket once each give the same price. |
| ProcessTransactionMode.ChangeIsOrderFree | src/states/ProcessTransactionState.java:73-86 | The change owed does not depend on the HashMap iteration order of the basket or of the money. |
| ProcessTransactionMode.SettleIsOrderFree | src/states/ProcessTransactionState.java:67-102 | Whether the checks pass, the services the settlement leaves and whether it returns normally do not depend on iteration order. |
| ProcessTransactionMode.DispenseSelection | src/states/ProcessTransactionState.java:95-97 | The dispense loop completes only on an empty basket; a stocked first product throws IllegalArgument. |
| ProcessTransactionMode.Settle | src/states/ProcessTransactionState.java:67-102 | If any check fails, the settlement throws and nothing changes. If the checks pass, the vault becomes deposit-then-payout of the change. It returns normally exactly when the checks pass and the basket is empty. A non-empty basket throws IllegalArgument after the deposit and the payout have run and keeps the basket. A failed check throws IllegalArgument when every selected id is stocked; a null dereference happens only when some selected id is not. The stock never changes. |
| ProcessTransactionMode.Step | src/states/ProcessTransactionState.java:24-102 | Only processTransaction is supported, and it settles. |
| ProcessTransactionMode.UnderpaymentIsRejected | src/states/ProcessTransactionState.java:86-90 | Money that does not cover the price gives a negative change, which the payout check refuses, so nothing changes. |
| VendingMachine.Dispatch | src/states/VendingMachineState.java:1-30 | A call on the current state is refused exactly when that state does not support it. Only insertMoney can change the state object, and only a settlement can change the vault. |
| VendingMachine.Step | src/VendingMachine.java:27-79 | A machine call is refused exactly when the state does not support the routed call, and a refused call changes nothing. A call that throws keeps the state. A successful select moves to InsertMoney, and a successful clear or settlement moves to Idle. Only insertMoney changes the machine's money field. |
| VendingMachine.ProcessTransactionSettles | src/VendingMachine.java:75-79 | In the settlement state, processTransaction is the settlement: a normal return installs a fresh Idle state, and a throw keeps the state and money field with whatever the settlement changed. |
| VendingMachine.InsertMoneyIgnoresState | src/VendingMachine.java:58-61 | From any state, insertMoney succeeds, stores the money and moves to the settlement state without touching the services. |
| VendingMachine.SelectFromIdle | src/VendingMachine.java:31-35 | From Idle, a selection always succeeds, stores that quantity, and moves to InsertMoney carrying the machine's money field. |
| VendingMachine.UpdateIsRoutedToSelect | src/VendingMachine.java:41-43 | updateSelectedProduct from Idle replaces the quantity, as select does, and moves to no new state. |
| VendingMachine.StepKeepsVaultInvariant | src/VendingMachine.java:27-79 | Every call keeps every vault count within `[0, capacity]`, provided inserted coin counts are never negative. |
| AppScenarios.AddMoneyTrace | src/App.java:67-83 | In the test vault, crediting three 10s and one 5 gives 53 tens and 52 fives: the 5 is credited twice. |
| AppScenarios.WithdrawMoneyTrace | src/App.java:67-83 | Paying out 40 debits four 10s and then eight 5s, and still answers false. |
| AppScenarios.OnesAreNeverCounted | src/App.java:76-81 | The hundred 1s in the tail can never be used: 1 and 3 are unpayable while 40 is payable. |
| AppScenarios.PurchaseScenario | src/App.java:105-124 | Buying a Coke with two 10s throws IllegalArgument after the vault took the 10s and paid out one 5; the basket and stock stay and the state stays settlement. |
| AppScenarios.SelectThenPay | src/VendingMachine.java:31-61 | From an idle machine with an empty basket, selecting then inserting money both succeed: the basket holds exactly the selection and the machine ends in the settlement state with that money. |
| AppScenarios.PurchaseSetup | src/App.java:110-115 | Selecting then inserting money moves Idle to InsertMoney to ProcessTransaction with the basket `{101: 1}`. |
| AppScenarios.CokeSettlement | src/states/ProcessTransactionState.java:67-97 | For any stock selling a Coke at 15 and any vault that accepts two 10s and can pay 5, the settlement credits and debits the vault and then throws IllegalArgument with basket and stock kept. |
| AppScenarios.ThrowingSettlementStep | src/VendingMachine.java:75-79 | When the settlement throws IllegalArgument, the machine keeps its settlement state and money field and takes the services the settlement left. |
| AppScenarios.PurchaseFinalStep | src/App.java:116 | The machine call `processTransaction` after the Coke setup throws IllegalArgument with the vault of PurchaseVaultTrace. |
| AppScenarios.PurchaseSettlement | src/App.java:116 | The Coke settlement passes every check, leaves the vault at 52 tens and 49 fives, keeps basket and stock, and throws IllegalArgument. |
| AppScenarios.PurchaseVaultTrace | src/App.java:112-116 | The vault after the Coke purchase: 52 tens, 49 fives, the 1s untouched. |
| AppScenarios.UnderpaymentScenario | src/App.java:126-145 | Paying 5 for a Water is refused with IllegalArgument and nothing changes. |
| AppScenarios.NoChangeScenario | src/App.java:168-199 | A vault whose only link is a 50 cannot give change of 35; the purchase is refused and nothing changes. |
| AppScenarios.ClearAfterSelectionIsUnsupported | src/App.java:224-239 | After a selection the machine is in InsertMoney, which refuses clearSelectedProducts. |
| AppScenarios.AddProductsAfterSelectionIsUnsupported | src/App.java:241-260 | After a selection, addProducts is refused with UnsupportedOperationException and nothing changes. |
| AppScenarios.MaintenanceLoadScenario | src/App.java:262-283 | In Maintenance, loading Chips succeeds and adds it to the (shared) stock. |
| AppScenarios.NoChangeAsWired | src/App.java:168-199 | As the harness wires it, the settlement reads an empty basket, owes the whole 50 back, is refused with IllegalArgument and changes nothing. |
| AppScenarios.AddMoneyCompounds | src/services/DenominationChainService.java:46-59 | One coin each offered to empty 10s, 5s and 2s links above the tail leaves them holding 1, 2 and 4 coins. |
| KeyOrder.EnumeratesEmpty | src/states/ProcessTransactionState.java:75-97 | An iteration order is empty exactly when the map it enumerates is empty. |
| KeyOrder.EnumeratesRemoveAt | src/states/ProcessTransactionState.java:75-97 | Dropping one position from an iteration order gives an iteration order of the map without that key. |
| KeyOrder.EnumeratesDrop | src/states/ProcessTransactionState.java:75-97 | The first key of one iteration order sits somewhere in any other order of the same map, and removing it from both leaves two orders of the same smaller map. |

## Left out

- Integer width: Java `int` arithmetic wraps at 32 bits. The model uses unbounded integers, so overflow in sums, products and counters is not modelled.
- Prices: `Product.price` is a `double`, and the settlement adds `quantity * price` into an `int` with truncation. The model takes integer prices, for which the truncation is the identity.
- Face values: a zero face value makes `amount / value` throw ArithmeticException, and a negative one divides differently in Java than in Dafny. The whole machine model assumes positive face values on the non-tail links (`DenominationService.Valid`, required of every call, not only of the settlement), and that exception is not modelled. Face values never change once the vault is built, so this restricts the model to well-built vaults rather than losing any behaviour of one.
- Console output: `showProducts`, `showSelectedProducts` and every warning that is only printed are modelled as calls that succeed or are refused, with no output.
- `Transaction` and `TransactionService` are not part of this model. The settlement never uses them.
- Denomination ids: `Denomination` draws a random id that nothing reads, so the model has no id field.
- `IdleState.addProduct()` takes no arguments, is declared on Idle alone and always throws. No caller reaches it through the machine.
- The machine before its first `setState`: its state is `null`. `insertMoney` and `showProducts` still succeed there, because they do not read the state; every other call throws a null dereference. The model always starts from a given state.
- Separate service instances: some harness tests build the machine with a different `SelectProductService` or `Dispenser` than its states use. The model has one stock, one vault and one basket shared by the machine and all states, and this changes two replayed scenarios:
  - `testCase8_MaintenanceMode` (src/App.java:262-283) loads Chips into a fresh `Dispenser`, so the machine's own stock never gains them. MaintenanceLoadScenario shows the shared-stock outcome instead.
  - `testCase4_NoChangeAvailable` (src/App.java:168-199) selects into a basket the machine never reads. The settlement sees an empty basket and owes 50, not 35. NoChangeScenario replays the shared-basket run; NoChangeAsWired replays the settlement as wired. Both are refused with nothing changed.
- `confirmInsertMoney`: the harness calls this method, but `VendingMachine.java` does not declare it. The scenarios leave that call out.
- Null money maps: a `null` map passed to `insertMoney` would throw at settlement time. The model's money maps are never null.
- HashMap iteration order: this is a parameter of the settlement, not a fixed order.
- DenominationChain.WithdrawMoney: the `ok` flag that the chain returns is described by WithdrawSucceedsOnlyOnZero and not by the function's own contract. The payout amounts of a feasible withdrawal are pinned down only by the concrete traces, not by an all-inputs lemma.
- DenominationService.CanWithdrawMoney: its full characterisation is the chain-level lemma CanWithdrawIsGreedyFit. The function's own contract states only the sign cases.
- ProcessTransactionMode.InsertedAmount, ProcessTransactionMode.SelectionPrice: their own contracts state only the sign; the order-independence lemmas are their partners.
- VendingMachine.StepKeepsVaultInvariant: this assumes that inserted coin counts are never negative, which the Java code does not check.
