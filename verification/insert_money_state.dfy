/** The state after a selection (states/InsertMoneyState.java). */
module InsertMoneyMode {
  import opened Outcomes
  import opened Operations

  /** Only insertMoney is implemented, and it replaces the stored map wholesale; every other
      call is rejected, including every selection call, so a selection cannot be cancelled
      here. The services are never touched. */
  function Step(held: Option<Operations.Chain.Money>, svc: Services, op: Op): (e: Effect)
    ensures e.services == svc
    ensures e.completion == Raised(Unsupported) <==> !Permits(InsertMoneyState(held), op)
    ensures op.InsertMoney? ==> e.state == InsertMoneyState(Some(op.money)) && e.completion == Normal
    ensures !op.InsertMoney? ==> e.state == InsertMoneyState(held)
  {
    var here := InsertMoneyState(held);
    match op
    case AddProducts(_) => Reject(here, svc)
    case SelectProduct(_, _) => Reject(here, svc)
    case UpdateSelectedProduct(_, _) => Reject(here, svc)
    case RemoveSelectedProduct(_) => Reject(here, svc)
    case ShowSelectedProducts => Reject(here, svc)
    case ClearSelectedProducts => Reject(here, svc)
    case InsertMoney(money) => Effect(InsertMoneyState(Some(money)), svc, Normal)
    case GiveChange(_) => Reject(here, svc)
    case DispenseProducts => Reject(here, svc)
    case ShowProducts => Reject(here, svc)
    case ProcessTransaction(_, _) => Reject(here, svc)
  }
}
