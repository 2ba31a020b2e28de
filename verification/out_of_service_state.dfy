/** The locked state (states/OutOfServiceState.java): the class has no fields and implements
    nothing. */
module OutOfServiceMode {
  import opened Outcomes
  import opened Operations

  /** Every call throws and has no effect. */
  function Step(svc: Services, op: Op): (e: Effect)
    ensures e.completion == Raised(Unsupported) && !Permits(OutOfServiceState, op)
    ensures e.state == OutOfServiceState && e.services == svc
  {
    match op
    case AddProducts(_) => Reject(OutOfServiceState, svc)
    case SelectProduct(_, _) => Reject(OutOfServiceState, svc)
    case UpdateSelectedProduct(_, _) => Reject(OutOfServiceState, svc)
    case RemoveSelectedProduct(_) => Reject(OutOfServiceState, svc)
    case ShowSelectedProducts => Reject(OutOfServiceState, svc)
    case ClearSelectedProducts => Reject(OutOfServiceState, svc)
    case InsertMoney(_) => Reject(OutOfServiceState, svc)
    case GiveChange(_) => Reject(OutOfServiceState, svc)
    case DispenseProducts => Reject(OutOfServiceState, svc)
    case ShowProducts => Reject(OutOfServiceState, svc)
    case ProcessTransaction(_, _) => Reject(OutOfServiceState, svc)
  }
}
