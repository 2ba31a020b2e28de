/** The service-staff state (states/MaintenanceState.java): stock can be loaded and shown. */
module MaintenanceMode {
  import opened Outcomes
  import opened Products
  import opened Operations
  import D = Dispensers
  import DispenserService

  /** Adds the products one by one in list order, so a later product with an id already seen
      replaces the earlier one. */
  function AddProducts(stock: D.Stock, products: seq<Product>): (r: D.Stock)
    ensures forall k :: k in r <==> k in stock || exists j :: 0 <= j < |products| && products[j].id == k
    ensures forall k :: k in stock && (forall j :: 0 <= j < |products| ==> products[j].id != k) ==> r[k] == stock[k]
    ensures forall j :: 0 <= j < |products| && (forall l :: j < l < |products| ==> products[l].id != products[j].id) ==>
                         products[j].id in r && r[products[j].id] == products[j]
    decreases |products|
  {
    if products == [] then stock
    else
      var rest := products[1..];
      assert forall j :: 1 <= j < |products| ==> products[j] == rest[j - 1];
      AddProducts(DispenserService.AddProduct(stock, products[0]), rest)
  }

  /** addProducts and showProducts are implemented; every other call is rejected. The vault and
      the basket are never touched. */
  function Step(svc: Services, op: Op): (e: Effect)
    ensures e.state == MaintenanceState
    ensures e.completion == Raised(Unsupported) <==> !Permits(MaintenanceState, op)
    ensures e.completion == Raised(Unsupported) ==> e.services == svc
    ensures e.services.vault == svc.vault && e.services.basket == svc.basket
    ensures op.AddProducts? ==> e.completion == Normal && e.services.stock == AddProducts(svc.stock, op.products)
  {
    match op
    case AddProducts(products) => Effect(MaintenanceState, svc.(stock := AddProducts(svc.stock, products)), Normal)
    case SelectProduct(_, _) => Reject(MaintenanceState, svc)
    case UpdateSelectedProduct(_, _) => Reject(MaintenanceState, svc)
    case RemoveSelectedProduct(_) => Reject(MaintenanceState, svc)
    case ShowSelectedProducts => Reject(MaintenanceState, svc)
    case ClearSelectedProducts => Reject(MaintenanceState, svc)
    case InsertMoney(_) => Reject(MaintenanceState, svc)
    case GiveChange(_) => Reject(MaintenanceState, svc)
    case DispenseProducts => Reject(MaintenanceState, svc)
    case ShowProducts => Effect(MaintenanceState, svc, Normal)
    case ProcessTransaction(_, _) => Reject(MaintenanceState, svc)
  }
}
