/**
 * The settlement state (states/ProcessTransactionState.java). Only processTransaction is
 * implemented: check the basket against the stock, price it, count the inserted coins, ask
 * the vault whether it can take the coins and pay the change, then credit, debit, dispense
 * and clear.
 */
module ProcessTransactionMode {
  import opened Outcomes
  import opened KeyOrder
  import opened Operations
  import D = Dispensers
  import Chain = DenominationChain
  import DS = DenominationService
  import DispenserService

  /** Σ value · count over the inserted coins, visiting the face values in `keys`. */
  function InsertedAmount(paid: Chain.Money, keys: seq<int>): (r: int)
    requires forall j :: 0 <= j < |keys| ==> keys[j] in paid
    ensures (forall j :: 0 <= j < |keys| ==> keys[j] >= 0 && paid[keys[j]] >= 0) ==> r >= 0
    decreases |keys|
  {
    if keys == [] then 0 else keys[0] * paid[keys[0]] + InsertedAmount(paid, keys[1..])
  }

  /** Σ quantity · price over the basket, visiting the ids in `keys`. */
  function SelectionPrice(stock: D.Stock, basket: map<int, int>, keys: seq<int>): (r: int)
    requires forall j :: 0 <= j < |keys| ==> keys[j] in basket && keys[j] in stock
    ensures (forall j :: 0 <= j < |keys| ==> basket[keys[j]] >= 0 && stock[keys[j]].price >= 0) ==> r >= 0
    decreases |keys|
  {
    if keys == [] then 0 else basket[keys[0]] * stock[keys[0]].price + SelectionPrice(stock, basket, keys[1..])
  }

  /** Every id an order of a dispensable basket visits is stocked, so the basket can be priced. */
  lemma SelectionIsStocked(stock: D.Stock, basket: map<int, int>, keys: seq<int>)
    requires Enumerates(keys, basket) && DispenserService.Dispensable(stock, basket)
    ensures forall j :: 0 <= j < |keys| ==> keys[j] in basket && keys[j] in stock
  {
    forall j | 0 <= j < |keys|
      ensures keys[j] in basket && keys[j] in stock
    {
      var id := keys[j];
      assert id in basket;
      assert id in stock && stock[id].quantity > 0 && basket[id] <= stock[id].quantity;
    }
  }

  /** What the customer is owed: inserted money less the price of the basket. Negative when
      the customer underpays. */
  function Change(paid: Chain.Money, svc: Services, basketOrder: seq<int>, moneyOrder: seq<int>): (r: int)
    requires Enumerates(basketOrder, svc.basket) && Enumerates(moneyOrder, paid)
    requires DispenserService.Dispensable(svc.stock, svc.basket)
    ensures svc.basket == map[] ==> r == InsertedAmount(paid, moneyOrder)
    ensures paid == map[] ==>
              (SelectionIsStocked(svc.stock, svc.basket, basketOrder);
               r == -SelectionPrice(svc.stock, svc.basket, basketOrder))
  {
    EnumeratesEmpty(basketOrder, svc.basket);
    EnumeratesEmpty(moneyOrder, paid);
    SelectionIsStocked(svc.stock, svc.basket, basketOrder);
    InsertedAmount(paid, moneyOrder) - SelectionPrice(svc.stock, svc.basket, basketOrder)
  }

  /** All three checks that precede the first change pass. */
  predicate ChecksPass(paid: Chain.Money, svc: Services, basketOrder: seq<int>, moneyOrder: seq<int>)
    requires Enumerates(basketOrder, svc.basket) && Enumerates(moneyOrder, paid) && DS.Valid(svc.vault)
  {
    && DispenserService.Dispensable(svc.stock, svc.basket)
    && DS.CanAddMoney(svc.vault, paid)
    && DS.CanWithdrawMoney(svc.vault, Change(paid, svc, basketOrder, moneyOrder))
  }

  /** The dispensing loop, in basket iteration order. DispenserService.DispenseProduct never
      returns normally, so the loop ends by throwing at its first entry. */
  function DispenseSelection(stock: D.Stock, basket: map<int, int>, keys: seq<int>): (r: Result<D.Stock>)
    requires forall j :: 0 <= j < |keys| ==> keys[j] in basket
    ensures r.Ok? <==> keys == []
    ensures r.Ok? ==> r.value == stock
    ensures keys != [] && keys[0] in stock ==> r == Throw(IllegalArgument)
  {
    if keys == [] then Ok(stock)
    else DispenserService.DispenseProduct(stock, keys[0], basket[keys[0]])
  }

  /** processTransaction. A failed check throws before anything changes. Once the checks pass
      the vault is credited and debited, and then, if the basket is not empty, the first
      dispense throws: the vault change stays and the basket and stock are as they were. Only
      an empty basket lets the call return normally. */
  function Settle(paid: Chain.Money, svc: Services, basketOrder: seq<int>, moneyOrder: seq<int>): (e: Effect)
    requires Enumerates(basketOrder, svc.basket) && Enumerates(moneyOrder, paid) && DS.Valid(svc.vault)
    ensures e.state == ProcessTransactionState(paid)
    ensures e.services.stock == svc.stock && DS.Valid(e.services.vault)
    ensures !ChecksPass(paid, svc, basketOrder, moneyOrder) ==>
              e.services == svc && e.completion.Raised? && e.completion.exc != Unsupported
    ensures ChecksPass(paid, svc, basketOrder, moneyOrder) ==>
              e.services.vault == DS.WithdrawMoney(DS.AddMoney(svc.vault, paid), Change(paid, svc, basketOrder, moneyOrder))
    ensures e.completion == Normal <==> ChecksPass(paid, svc, basketOrder, moneyOrder) && svc.basket == map[]
    ensures ChecksPass(paid, svc, basketOrder, moneyOrder) && svc.basket != map[] ==>
              e.completion == Raised(IllegalArgument)
    ensures e.completion.Raised? ==> e.services.basket == svc.basket && e.completion.exc != Unsupported
    ensures !ChecksPass(paid, svc, basketOrder, moneyOrder) && svc.basket.Keys <= svc.stock.Keys ==>
              e.completion == Raised(IllegalArgument)
    ensures e.completion == Raised(NullDeref) ==> !(svc.basket.Keys <= svc.stock.Keys)
    ensures e.completion == Normal ==> e.services.basket == map[]
  {
    var here := ProcessTransactionState(paid);
    match DispenserService.CanDispenseProducts(svc.stock, svc.basket, basketOrder)
    case Throw(x) => Effect(here, svc, Raised(x))
    case Ok(dispensable) =>
      if !dispensable then Effect(here, svc, Raised(IllegalArgument))
      else
        var change := Change(paid, svc, basketOrder, moneyOrder);
        if !DS.CanAddMoney(svc.vault, paid) || !DS.CanWithdrawMoney(svc.vault, change) then
          Effect(here, svc, Raised(IllegalArgument))
        else
          var credited := DS.AddMoney(svc.vault, paid);
          var vault := DS.WithdrawMoney(credited, change);
          EnumeratesEmpty(basketOrder, svc.basket);
          match DispenseSelection(svc.stock, svc.basket, basketOrder)
          case Throw(x) => Effect(here, svc.(vault := vault), Raised(x))
          case Ok(stock) => Effect(here, Services(stock, vault, map[]), Normal)
  }

  /** Only processTransaction is implemented; every other call is rejected with no effect. */
  function Step(paid: Chain.Money, svc: Services, op: Op): (e: Effect)
    requires op.ProcessTransaction? ==>
               Enumerates(op.basketOrder, svc.basket) && Enumerates(op.moneyOrder, paid) && DS.Valid(svc.vault)
    ensures e.state == ProcessTransactionState(paid)
    ensures e.completion == Raised(Unsupported) <==> !Permits(ProcessTransactionState(paid), op)
    ensures e.completion == Raised(Unsupported) ==> e.services == svc
    ensures op.ProcessTransaction? ==> e == Settle(paid, svc, op.basketOrder, op.moneyOrder)
  {
    var here := ProcessTransactionState(paid);
    match op
    case AddProducts(_) => Reject(here, svc)
    case SelectProduct(_, _) => Reject(here, svc)
    case UpdateSelectedProduct(_, _) => Reject(here, svc)
    case RemoveSelectedProduct(_) => Reject(here, svc)
    case ShowSelectedProducts => Reject(here, svc)
    case ClearSelectedProducts => Reject(here, svc)
    case InsertMoney(_) => Reject(here, svc)
    case GiveChange(_) => Reject(here, svc)
    case DispenseProducts => Reject(here, svc)
    case ShowProducts => Reject(here, svc)
    case ProcessTransaction(basketOrder, moneyOrder) => Settle(paid, svc, basketOrder, moneyOrder)
  }

  /** An underpaying customer is turned away by the vault check: the change is negative and
      no negative amount can be withdrawn. */
  lemma UnderpaymentIsRejected(paid: Chain.Money, svc: Services, basketOrder: seq<int>, moneyOrder: seq<int>)
    requires Enumerates(basketOrder, svc.basket) && Enumerates(moneyOrder, paid) && DS.Valid(svc.vault)
    requires DispenserService.Dispensable(svc.stock, svc.basket)
    requires Change(paid, svc, basketOrder, moneyOrder) < 0
    ensures var e := Settle(paid, svc, basketOrder, moneyOrder);
            e.services == svc && e.completion == Raised(IllegalArgument)
  {
  }

  // ---------------------------------------------------------------------------------------------
  // The sums do not depend on HashMap iteration order

  /** Taking the coins at position `j` out of the walk takes exactly their worth off the sum. */
  lemma {:induction false} InsertedAmountRemoveAt(paid: Chain.Money, keys: seq<int>, j: nat)
    requires forall l :: 0 <= l < |keys| ==> keys[l] in paid
    requires j < |keys|
    ensures InsertedAmount(paid, keys) == keys[j] * paid[keys[j]] + InsertedAmount(paid, keys[..j] + keys[j + 1..])
    decreases j
  {
    if j == 0 {
      assert keys[..0] + keys[1..] == keys[1..];
    } else {
      var rest := keys[1..];
      InsertedAmountRemoveAt(paid, rest, j - 1);
      var shorter := keys[..j] + keys[j + 1..];
      assert shorter[0] == keys[0];
      assert shorter[1..] == rest[..j - 1] + rest[j..];
    }
  }

  /** Any two walks over the same coin map count the same amount. */
  lemma {:induction false} InsertedAmountOrderFree(paid: Chain.Money, a: seq<int>, b: seq<int>, m: Chain.Money)
    requires Enumerates(a, m) && Enumerates(b, m) && m.Keys <= paid.Keys
    ensures InsertedAmount(paid, a) == InsertedAmount(paid, b)
    decreases |a|
  {
    if a == [] {
      EnumeratesEmpty(a, m);
      EnumeratesEmpty(b, m);
    } else {
      var j := EnumeratesDrop(a, b, m);
      InsertedAmountOrderFree(paid, a[1..], b[..j] + b[j + 1..], m - {a[0]});
      InsertedAmountRemoveAt(paid, b, j);
    }
  }

  /** Taking the basket entry at position `j` out of the walk takes exactly its price off. */
  lemma {:induction false} SelectionPriceRemoveAt(stock: D.Stock, basket: map<int, int>, keys: seq<int>, j: nat)
    requires forall l :: 0 <= l < |keys| ==> keys[l] in basket && keys[l] in stock
    requires j < |keys|
    ensures SelectionPrice(stock, basket, keys) ==
            basket[keys[j]] * stock[keys[j]].price + SelectionPrice(stock, basket, keys[..j] + keys[j + 1..])
    decreases j
  {
    if j == 0 {
      assert keys[..0] + keys[1..] == keys[1..];
    } else {
      var rest := keys[1..];
      SelectionPriceRemoveAt(stock, basket, rest, j - 1);
      var shorter := keys[..j] + keys[j + 1..];
      assert shorter[0] == keys[0];
      assert shorter[1..] == rest[..j - 1] + rest[j..];
    }
  }

  /** Any two walks over the same basket price it the same. */
  lemma {:induction false} SelectionPriceOrderFree(stock: D.Stock, basket: map<int, int>, a: seq<int>, b: seq<int>, m: map<int, int>)
    requires Enumerates(a, m) && Enumerates(b, m) && m.Keys <= basket.Keys && m.Keys <= stock.Keys
    ensures SelectionPrice(stock, basket, a) == SelectionPrice(stock, basket, b)
    decreases |a|
  {
    if a == [] {
      EnumeratesEmpty(a, m);
      EnumeratesEmpty(b, m);
    } else {
      var j := EnumeratesDrop(a, b, m);
      SelectionPriceOrderFree(stock, basket, a[1..], b[..j] + b[j + 1..], m - {a[0]});
      SelectionPriceRemoveAt(stock, basket, b, j);
    }
  }

  /** The change owed is the same whatever order the basket and the coins are walked in. */
  lemma ChangeIsOrderFree(paid: Chain.Money, svc: Services, basketOrder: seq<int>, moneyOrder: seq<int>,
                          basketOrder': seq<int>, moneyOrder': seq<int>)
    requires Enumerates(basketOrder, svc.basket) && Enumerates(moneyOrder, paid)
    requires Enumerates(basketOrder', svc.basket) && Enumerates(moneyOrder', paid)
    requires DispenserService.Dispensable(svc.stock, svc.basket)
    ensures Change(paid, svc, basketOrder, moneyOrder) == Change(paid, svc, basketOrder', moneyOrder')
  {
    InsertedAmountOrderFree(paid, moneyOrder, moneyOrder', paid);
    assert forall id :: id in svc.basket ==> id in svc.stock;
    SelectionPriceOrderFree(svc.stock, svc.basket, basketOrder, basketOrder', svc.basket);
  }

  /** Whether the checks pass, what the settlement leaves in the vault, the basket and the stock,
      and whether it returns normally, do not depend on iteration order; only which exception a
      missing product raises may. */
  lemma SettleIsOrderFree(paid: Chain.Money, svc: Services, basketOrder: seq<int>, moneyOrder: seq<int>,
                          basketOrder': seq<int>, moneyOrder': seq<int>)
    requires Enumerates(basketOrder, svc.basket) && Enumerates(moneyOrder, paid) && DS.Valid(svc.vault)
    requires Enumerates(basketOrder', svc.basket) && Enumerates(moneyOrder', paid)
    ensures ChecksPass(paid, svc, basketOrder, moneyOrder) <==> ChecksPass(paid, svc, basketOrder', moneyOrder')
    ensures Settle(paid, svc, basketOrder, moneyOrder).services == Settle(paid, svc, basketOrder', moneyOrder').services
    ensures Settle(paid, svc, basketOrder, moneyOrder).completion.Normal? <==>
            Settle(paid, svc, basketOrder', moneyOrder').completion.Normal?
  {
    if DispenserService.Dispensable(svc.stock, svc.basket) {
      ChangeIsOrderFree(paid, svc, basketOrder, moneyOrder, basketOrder', moneyOrder');
    }
  }
}
