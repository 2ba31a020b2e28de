/** The scenarios of the console test harness (App.java), replayed on the model. */
module AppScenarios {
  import DenominationService
  import ProcessTransactionMode
  import KeyOrder
  import opened Outcomes
  import opened Denominations
  import opened DenominationChain
  import opened Products
  import opened Operations
  import opened VendingMachine

  /** The vault the harness builds: fifty 10s, fifty 5s, and a hundred 1s in the tail link. */
  function AppVault(): seq<Denomination>
  {
    [Denomination(10, 100, 50), Denomination(5, 100, 50), Denomination(1, 500, 100)]
  }

  /** Crediting three 10s and one 5: the 5s link is reached twice, the 10s link once. */
  lemma AddMoneyTrace()
    ensures var r := DenominationChain.AddMoney(AppVault(), 0, map[10 := 3, 5 := 1]);
            r.ok && r.chain == [Denomination(10, 100, 53), Denomination(5, 100, 52), Denomination(1, 500, 100)]
  {
  }

  /** Paying out 40: four 10s are taken, then the full 40 is re-sent and eight 5s are taken;
      the tail then refuses 40 and the call answers false with both debits kept. */
  lemma WithdrawMoneyTrace()
    ensures var r := DenominationChain.WithdrawMoney(AppVault(), 0, 40);
            !r.ok && r.chain == [Denomination(10, 100, 46), Denomination(5, 100, 42), Denomination(1, 500, 100)]
  {
  }

  /** The chain used to show compounding: 10s, 5s and 2s links holding the given counts
      above a tail of 1s, every link with room for a hundred coins. */
  function Ladder(tens: int, fives: int, twos: int): seq<Denomination>
  {
    [Denomination(10, 100, tens), Denomination(5, 100, fives), Denomination(2, 100, twos),
     Denomination(1, 100, 0)]
  }

  /** One coin of each face value above the tail. */
  function LadderOffer(): DenominationChain.Money
  {
    map[10 := 1, 5 := 1, 2 := 1]
  }

  /** The 2s link is credited once and the tail accepts. */
  lemma LadderTwos(tens: int, fives: int, twos: int)
    requires twos + 1 <= 100
    ensures DenominationChain.AddMoney(Ladder(tens, fives, twos), 2, LadderOffer())
            == Reply(Ladder(tens, fives, twos + 1), true)
  {
    var m := LadderOffer();
    assert 2 in m && m[2] == 1;
    assert Ladder(tens, fives, twos)[2 := Denominations.AddMoney(Ladder(tens, fives, twos)[2], 1)]
           == Ladder(tens, fives, twos + 1);
  }

  /** The 5s link is credited once and sends the offer below it twice: the 2s gain two. */
  lemma LadderFives(tens: int, fives: int, twos: int)
    requires fives + 1 <= 100 && twos + 2 <= 100
    ensures DenominationChain.AddMoney(Ladder(tens, fives, twos), 1, LadderOffer())
            == Reply(Ladder(tens, fives + 1, twos + 2), true)
  {
    var m := LadderOffer();
    assert 5 in m && m[5] == 1;
    assert Ladder(tens, fives, twos)[1 := Denominations.AddMoney(Ladder(tens, fives, twos)[1], 1)]
           == Ladder(tens, fives + 1, twos);
    LadderTwos(tens, fives + 1, twos);
    LadderTwos(tens, fives + 1, twos + 1);
  }

  /** The double descent compounds: with three empty offered links above the tail, one coin
      of each face value leaves the links holding 1, 2 and 4 coins. */
  lemma AddMoneyCompounds()
    ensures var r := DenominationChain.AddMoney(Ladder(0, 0, 0), 0, LadderOffer());
            r.ok && r.chain == Ladder(1, 2, 4)
  {
    var m := LadderOffer();
    assert 10 in m && m[10] == 1;
    assert Ladder(0, 0, 0)[0 := Denominations.AddMoney(Ladder(0, 0, 0)[0], 1)] == Ladder(1, 0, 0);
    LadderFives(1, 0, 0);
    LadderFives(1, 1, 2);
  }

  /** The hundred 1s in the tail can never be paid out. */
  lemma OnesAreNeverCounted()
    ensures !CanWithdrawMoney(AppVault(), 0, 1) && !CanWithdrawMoney(AppVault(), 0, 3)
    ensures CanWithdrawMoney(AppVault(), 0, 40)
  {
  }

  /** The three products the harness stocks: Coke, Pepsi and Water. */
  function AppStock(): map<int, Product>
  {
    map[101 := Product(101, "Coke", 15, 10, 10),
        102 := Product(102, "Pepsi", 12, 5, 5),
        103 := Product(103, "Water", 10, 20, 20)]
  }

  /** The harness machine, idle, with nothing selected and no money inserted yet. */
  function AppMachine(): Machine
  {
    Machine(IdleState, Services(AppStock(), AppVault(), map[]), None)
  }

  /** Adding products after a selection is refused with UnsupportedOperationException,
      the exception kind the harness tells apart. */
  lemma AddProductsAfterSelectionIsUnsupported()
    ensures var r1 := Step(AppMachine(), SelectProduct(101, 1));
            && r1.completion == Normal
            && r1.machine.state == InsertMoneyState(None)
            && Step(r1.machine, AddProducts([])) == Outcome(r1.machine, Raised(Unsupported))
  {
  }

  /** A selection cannot be cancelled once made: InsertMoneyState rejects the clear call. */
  lemma ClearAfterSelectionIsUnsupported()
    ensures var r1 := Step(AppMachine(), SelectProduct(101, 1));
            Step(r1.machine, ClearSelectedProducts) == Outcome(r1.machine, Raised(Unsupported))
  {
  }

  /** Paying 5 for a Water priced 10 is rejected with nothing changed. */
  lemma UnderpaymentScenario()
    ensures var r1 := Step(AppMachine(), SelectProduct(103, 1));
            var r2 := Step(r1.machine, InsertMoney(map[5 := 1]));
            var r3 := Step(r2.machine, ProcessTransaction([103], [5]));
            && r3.completion == Raised(IllegalArgument)
            && r3.machine == r2.machine
            && r3.machine.services == Services(AppStock(), AppVault(), map[103 := 1])
  {
    var paid := map[5 := 1];
    var svc := Services(AppStock(), AppVault(), map[103 := 1]);
    SelectThenPay(AppMachine(), 103, 1, paid);
    assert KeyOrder.Enumerates([103], svc.basket) && KeyOrder.Enumerates([5], paid);
    assert ProcessTransactionMode.Settle(paid, svc, [103], [5]) ==
           Effect(ProcessTransactionState(paid), svc, Raised(IllegalArgument)) by {
      assert ProcessTransactionMode.Change(paid, svc, [103], [5]) == -5;
      ProcessTransactionMode.UnderpaymentIsRejected(paid, svc, [103], [5]);
    }
    ThrowingSettlementStep(paid, svc, [103], [5], svc);
  }

  /** Paying 50 for a Coke priced 15 from a vault whose only link (a 50) is the tail: the
      change of 35 cannot be paid and nothing changes. */
  lemma NoChangeScenario()
    ensures var vault := [Denomination(50, 10, 0)];
            var m := Machine(IdleState, Services(map[101 := Product(101, "Coke", 15, 10, 10)], vault, map[]), None);
            var r1 := Step(m, SelectProduct(101, 1));
            var r2 := Step(r1.machine, InsertMoney(map[50 := 1]));
            var r3 := Step(r2.machine, ProcessTransaction([101], [50]));
            && r3.completion == Raised(IllegalArgument)
            && r3.machine == r2.machine
            && r3.machine.services.vault == vault
  {
    var vault := [Denomination(50, 10, 0)];
    var stock := map[101 := Product(101, "Coke", 15, 10, 10)];
    var paid := map[50 := 1];
    var svc := Services(stock, vault, map[101 := 1]);
    SelectThenPay(Machine(IdleState, Services(stock, vault, map[]), None), 101, 1, paid);
    assert KeyOrder.Enumerates([101], svc.basket) && KeyOrder.Enumerates([50], paid);
    assert ProcessTransactionMode.Settle(paid, svc, [101], [50]) ==
           Effect(ProcessTransactionState(paid), svc, Raised(IllegalArgument)) by {
      assert ProcessTransactionMode.Change(paid, svc, [101], [50]) == 35;
      assert !DenominationService.CanWithdrawMoney(vault, 35);
      assert !ProcessTransactionMode.ChecksPass(paid, svc, [101], [50]);
    }
    ThrowingSettlementStep(paid, svc, [101], [50], svc);
  }

  /** The same purchase as the harness wires it: the selection lands in a basket the machine
      never reads, so the settlement sees an empty basket and owes the whole 50 back. The
      tail-only vault refuses that payout too, and nothing changes. */
  lemma NoChangeAsWired()
    ensures var stock := map[101 := Product(101, "Coke", 15, 10, 10)];
            var svc := Services(stock, [Denomination(50, 10, 0)], map[]);
            var e := ProcessTransactionMode.Settle(map[50 := 1], svc, [], [50]);
            && ProcessTransactionMode.Change(map[50 := 1], svc, [], [50]) == 50
            && e.completion == Raised(IllegalArgument)
            && e.services == svc
  {
    var svc := Services(map[101 := Product(101, "Coke", 15, 10, 10)], [Denomination(50, 10, 0)], map[]);
    assert KeyOrder.Enumerates([], svc.basket);
    assert KeyOrder.Enumerates([50], map[50 := 1]);
    assert ProcessTransactionMode.InsertedAmount(map[50 := 1], [50]) == 50;
    assert !DenominationService.CanWithdrawMoney(svc.vault, 50);
  }

  /** Loading stock in Maintenance succeeds. The stock here is the machine's own; the harness
      loads into a fresh dispenser, which this shared-stock model does not separate. */
  lemma MaintenanceLoadScenario()
    ensures var m := AppMachine().(state := MaintenanceState);
            var r := Step(m, AddProducts([Product(201, "Chips", 5, 50, 100)]));
            && r.completion == Normal
            && r.machine.state == MaintenanceState
            && r.machine.services.stock == AppStock()[201 := Product(201, "Chips", 5, 50, 100)]
  {
  }

  /** The vault side of a purchase paid with two 10s that owes 5 in change: the 10s are
      credited, one 5 is paid out, and the 1s in the tail are never touched. */
  lemma PurchaseVaultTrace()
    ensures DenominationService.CanAddMoney(AppVault(), map[10 := 2])
    ensures DenominationService.CanWithdrawMoney(AppVault(), 5)
    ensures DenominationService.WithdrawMoney(DenominationService.AddMoney(AppVault(), map[10 := 2]), 5) ==
            [Denomination(10, 100, 52), Denomination(5, 100, 49), Denomination(1, 500, 100)]
  {
    assert DenominationChain.CanAddMoney(AppVault(), 0, map[10 := 2]);
    var m := map[10 := 2];
    var c1 := [Denomination(10, 100, 52), Denomination(5, 100, 50), Denomination(1, 500, 100)];
    assert 5 !in m;
    assert DenominationChain.AddMoney(c1, 2, m) == Reply(c1, true);
    assert DenominationChain.AddMoney(c1, 1, m) == Reply(c1, true);
    assert AppVault()[0 := Denominations.AddMoney(AppVault()[0], 2)] == c1;
    var credited := DenominationChain.AddMoney(AppVault(), 0, m).chain;
    assert credited == [Denomination(10, 100, 52), Denomination(5, 100, 50), Denomination(1, 500, 100)];
    assert DenominationChain.CanWithdrawMoney(credited, 0, 5);
    assert DenominationChain.WithdrawMoney(credited, 0, 5).chain ==
           [Denomination(10, 100, 52), Denomination(5, 100, 49), Denomination(1, 500, 100)];
  }

  /** From an idle machine with an empty basket and no money, selecting and then paying
      succeed: the first call stores the quantity and moves to InsertMoney, the second stores
      the money and moves to the settlement state. */
  lemma SelectThenPay(m: Machine, id: int, quantity: int, paid: DenominationChain.Money)
    requires m.state == IdleState && m.money == None && m.services.basket == map[]
    requires DenominationService.Valid(m.services.vault)
    ensures var svc := m.services.(basket := map[id := quantity]);
            var r1 := Step(m, SelectProduct(id, quantity));
            && r1 == Outcome(Machine(InsertMoneyState(None), svc, None), Normal)
            && Step(r1.machine, InsertMoney(paid)) == Outcome(Machine(ProcessTransactionState(paid), svc, Some(paid)), Normal)
  {
    var svc := m.services.(basket := map[id := quantity]);
    SelectFromIdle(m, id, quantity);
    assert map[][id := quantity] == map[id := quantity];
    InsertMoneyIgnoresState(Machine(InsertMoneyState(None), svc, None), paid);
  }

  /** The selection and the payment of the paid purchase below, one step each. */
  lemma PurchaseSetup()
    ensures var svc := Services(AppStock(), AppVault(), map[101 := 1]);
            var r1 := Step(AppMachine(), SelectProduct(101, 1));
            && r1 == Outcome(Machine(InsertMoneyState(None), svc, None), Normal)
            && Step(r1.machine, InsertMoney(map[10 := 2])) ==
                 Outcome(Machine(ProcessTransactionState(map[10 := 2]), svc, Some(map[10 := 2])), Normal)
  {
    SelectThenPay(AppMachine(), 101, 1, map[10 := 2]);
  }

  /** A stock that can sell one Coke at 15. */
  predicate SellsCoke(stock: map<int, Product>)
  {
    101 in stock && stock[101].quantity > 0 && stock[101].price == 15
  }

  /** The Coke settlement for any stock that sells a Coke and any vault that accepts the two
      10s and can pay out 5: the checks pass, the vault is credited and debited, and the
      dispense throws. */
  lemma CokeSettlement(stock: map<int, Product>, vault: seq<Denomination>)
    requires SellsCoke(stock) && DenominationService.Valid(vault)
    requires DenominationService.CanAddMoney(vault, map[10 := 2])
    requires DenominationService.CanWithdrawMoney(vault, 5)
    ensures var paid := map[10 := 2];
            ProcessTransactionMode.Settle(paid, Services(stock, vault, map[101 := 1]), [101], [10]) ==
              Effect(ProcessTransactionState(paid),
                     Services(stock, DenominationService.WithdrawMoney(DenominationService.AddMoney(vault, paid), 5),
                              map[101 := 1]),
                     Raised(IllegalArgument))
  {
    var paid := map[10 := 2];
    var svc := Services(stock, vault, map[101 := 1]);
    assert KeyOrder.Enumerates([101], svc.basket);
    assert KeyOrder.Enumerates([10], paid);
    assert ProcessTransactionMode.Change(paid, svc, [101], [10]) == 5;
    assert ProcessTransactionMode.ChecksPass(paid, svc, [101], [10]);
  }

  /** The machine's processTransaction in the settlement state, for any settlement that
      throws IllegalArgument leaving `after`: the machine keeps its state and money field and
      takes the services the settlement left. */
  lemma ThrowingSettlementStep(paid: DenominationChain.Money, svc: Services, basketOrder: seq<int>,
                               moneyOrder: seq<int>, after: Services)
    requires KeyOrder.Enumerates(basketOrder, svc.basket) && KeyOrder.Enumerates(moneyOrder, paid)
    requires DenominationService.Valid(svc.vault)
    requires ProcessTransactionMode.Settle(paid, svc, basketOrder, moneyOrder) ==
             Effect(ProcessTransactionState(paid), after, Raised(IllegalArgument))
    ensures var m := Machine(ProcessTransactionState(paid), svc, Some(paid));
            Step(m, ProcessTransaction(basketOrder, moneyOrder)) == Outcome(m.(services := after), Raised(IllegalArgument))
  {
    ProcessTransactionSettles(Machine(ProcessTransactionState(paid), svc, Some(paid)), basketOrder, moneyOrder);
  }

  /** The settlement of the paid purchase: every check passes, the vault takes the two 10s
      and pays out one 5, and then the dispense throws. */
  lemma PurchaseSettlement()
    ensures var paid := map[10 := 2];
            var svc := Services(AppStock(), AppVault(), map[101 := 1]);
            ProcessTransactionMode.Settle(paid, svc, [101], [10]) ==
              Effect(ProcessTransactionState(paid),
                     Services(AppStock(), [Denomination(10, 100, 52), Denomination(5, 100, 49), Denomination(1, 500, 100)],
                              map[101 := 1]),
                     Raised(IllegalArgument))
  {
    PurchaseVaultTrace();
    CokeSettlement(AppStock(), AppVault());
  }

  /** The settlement call on the machine after the Coke was selected and paid for. */
  lemma PurchaseFinalStep()
    ensures var paid := map[10 := 2];
            var m := Machine(ProcessTransactionState(paid), Services(AppStock(), AppVault(), map[101 := 1]), Some(paid));
            var r := Step(m, ProcessTransaction([101], [10]));
            && r.completion == Raised(IllegalArgument)
            && r.machine.state == ProcessTransactionState(paid)
            && r.machine.services.basket == map[101 := 1]
            && r.machine.services.stock == AppStock()
            && r.machine.services.vault ==
                 [Denomination(10, 100, 52), Denomination(5, 100, 49), Denomination(1, 500, 100)]
  {
    var paid := map[10 := 2];
    var svc := Services(AppStock(), AppVault(), map[101 := 1]);
    var after := Services(AppStock(), [Denomination(10, 100, 52), Denomination(5, 100, 49), Denomination(1, 500, 100)],
                          map[101 := 1]);
    assert KeyOrder.Enumerates([101], svc.basket) && KeyOrder.Enumerates([10], paid);
    PurchaseSettlement();
    ThrowingSettlementStep(paid, svc, [101], [10], after);
  }

  /** A paid purchase of one Coke with two 10s, end to end: the vault change stays, the
      basket and the stock are untouched, and the machine stays in the settlement state. */
  lemma PurchaseScenario()
    ensures var r1 := Step(AppMachine(), SelectProduct(101, 1));
            var r2 := Step(r1.machine, InsertMoney(map[10 := 2]));
            var r3 := Step(r2.machine, ProcessTransaction([101], [10]));
            && r3.completion == Raised(IllegalArgument)
            && r3.machine.state == ProcessTransactionState(map[10 := 2])
            && r3.machine.services.basket == map[101 := 1]
            && r3.machine.services.stock == AppStock()
            && r3.machine.services.vault ==
                 [Denomination(10, 100, 52), Denomination(5, 100, 49), Denomination(1, 500, 100)]
  {
    PurchaseSetup();
    PurchaseFinalStep();
  }
}
