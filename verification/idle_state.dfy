/** The state a machine waits in for a customer (states/IdleState.java). */
module IdleMode {
  import opened Outcomes
  import opened Operations
  import SPS = SelectProductService

  /** Selection calls go to the basket and showing is allowed; every other call is rejected.
      Nothing here touches the stock or the vault. */
  function Step(svc: Services, op: Op): (e: Effect)
    ensures e.state == IdleState
    ensures e.completion == Raised(Unsupported) <==> !Permits(IdleState, op)
    ensures e.completion == Raised(Unsupported) ==> e.services == svc
    ensures e.services.stock == svc.stock && e.services.vault == svc.vault
    ensures op.SelectProduct? ==>
              e.completion == Normal && e.services.basket == SPS.SelectProduct(svc.basket, svc.stock, op.id, op.quantity)
    ensures op.UpdateSelectedProduct? ==>
              match SPS.Update(svc.basket, svc.stock, op.id, op.quantity)
              case Throw(x) => e.completion == Raised(x) && e.services == svc
              case Ok(b) => e.completion == Normal && e.services.basket == b
    ensures op.RemoveSelectedProduct? ==>
              match SPS.RemoveProduct(svc.basket, svc.stock, op.id)
              case Throw(x) => e.completion == Raised(x) && e.services == svc
              case Ok(b) => e.completion == Normal && e.services.basket == b
    ensures op.ClearSelectedProducts? ==> e.completion == Normal && e.services.basket == map[]
  {
    match op
    case AddProducts(_) => Reject(IdleState, svc)
    case SelectProduct(id, quantity) =>
      Effect(IdleState, svc.(basket := SPS.SelectProduct(svc.basket, svc.stock, id, quantity)), Normal)
    case UpdateSelectedProduct(id, quantity) =>
      (match SPS.Update(svc.basket, svc.stock, id, quantity)
       case Throw(x) => Effect(IdleState, svc, Raised(x))
       case Ok(b) => Effect(IdleState, svc.(basket := b), Normal))
    case RemoveSelectedProduct(id) =>
      (match SPS.RemoveProduct(svc.basket, svc.stock, id)
       case Throw(x) => Effect(IdleState, svc, Raised(x))
       case Ok(b) => Effect(IdleState, svc.(basket := b), Normal))
    case ShowSelectedProducts => Effect(IdleState, svc, Normal)
    case ClearSelectedProducts => Effect(IdleState, svc.(basket := SPS.Clear(svc.basket)), Normal)
    case InsertMoney(_) => Reject(IdleState, svc)
    case GiveChange(_) => Reject(IdleState, svc)
    case DispenseProducts => Reject(IdleState, svc)
    case ShowProducts => Effect(IdleState, svc, Normal)
    case ProcessTransaction(_, _) => Reject(IdleState, svc)
  }
}
