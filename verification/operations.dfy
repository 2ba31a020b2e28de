/**
 * The vocabulary shared by the machine and its states (states/VendingMachineState.java):
 * the eleven operations, the five state objects, the services they act on, and the
 * permission table the state classes implement between them.
 */
module Operations {
  import opened Outcomes
  import opened Products
  import opened Denominations
  import Chain = DenominationChain
  import D = Dispensers
  import SPS = SelectProductService

  /** One call of the state interface. `ProcessTransaction` carries the iteration orders of the
      basket's and the inserted money's key sets, which the settlement loops walk. */
  datatype Op =
    | AddProducts(products: seq<Product>)
    | InsertMoney(money: Chain.Money)
    | SelectProduct(id: int, quantity: int)
    | UpdateSelectedProduct(id: int, quantity: int)
    | RemoveSelectedProduct(id: int)
    | ShowSelectedProducts
    | ClearSelectedProducts
    | ShowProducts
    | ProcessTransaction(basketOrder: seq<int>, moneyOrder: seq<int>)
    | GiveChange(amount: int)
    | DispenseProducts

  /** The state objects, with the fields they own. InsertMoneyState keeps the machine's money
      map, which is null until money has been inserted once. */
  datatype State =
    | IdleState
    | InsertMoneyState(held: Option<Chain.Money>)
    | ProcessTransactionState(paid: Chain.Money)
    | MaintenanceState
    | OutOfServiceState

  /** The stock, the coin vault and the basket every state object shares. */
  datatype Services = Services(stock: D.Stock, vault: seq<Denomination>, basket: SPS.Basket)

  /** What a state's method leaves behind: the state object (with its own fields), the services,
      and how the call ended. Effects made before a throw are kept, as in Java. */
  datatype Effect = Effect(state: State, services: Services, completion: Completion)

  /** The permission table: the calls each state class implements instead of throwing
      UnsupportedOperationException. */
  predicate Permits(st: State, op: Op): (r: bool)
    ensures st.OutOfServiceState? ==> !r
    ensures r && op.ProcessTransaction? ==> st.ProcessTransactionState?
    ensures r && op.InsertMoney? ==> st.InsertMoneyState?
    ensures r && op.AddProducts? ==> st.MaintenanceState?
    ensures (r && (|| op.SelectProduct? || op.UpdateSelectedProduct? || op.RemoveSelectedProduct?
                   || op.ShowSelectedProducts? || op.ClearSelectedProducts?)) ==> st.IdleState?
    ensures !(op.GiveChange? && r) && !(op.DispenseProducts? && r)
  {
    match st
    case IdleState =>
      || op.SelectProduct? || op.UpdateSelectedProduct? || op.RemoveSelectedProduct?
      || op.ShowSelectedProducts? || op.ClearSelectedProducts? || op.ShowProducts?
    case InsertMoneyState(_) => op.InsertMoney?
    case ProcessTransactionState(_) => op.ProcessTransaction?
    case MaintenanceState => op.AddProducts? || op.ShowProducts?
    case OutOfServiceState => false
  }

  /** A call the state does not support: it throws and touches nothing. */
  function Reject(st: State, svc: Services): (e: Effect)
    ensures e.completion == Raised(Unsupported) && e.state == st && e.services == svc
  {
    Effect(st, svc, Raised(Unsupported))
  }
}
