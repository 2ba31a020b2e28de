/** Stock checks and stock changes on behalf of the states (services/DispenserService.java). */
module DispenserService {
  import opened Outcomes
  import opened Products
  import opened KeyOrder
  import D = Dispensers

  /** Product id -> requested quantity. */
  type Selection = map<int, int>

  /** Every selected product is in stock, has some quantity left, and has at least the quantity
      selected. */
  predicate Dispensable(s: D.Stock, selection: Selection)
  {
    forall id :: id in selection ==> id in s && s[id].quantity > 0 && selection[id] <= s[id].quantity
  }

  /** Throws unless the product is known and in stock and the quantity is available; then asks
      the dispenser, which always throws as well. */
  function DispenseProduct(s: D.Stock, id: int, quantity: int): (r: Result<D.Stock>)
    ensures id !in s ==> r == Throw(NullDeref)
    ensures id in s ==> r == Throw(IllegalArgument)
  {
    match D.IsProductAvailable(s, id)
    case Throw(e) => Throw(e)
    case Ok(available) =>
      if !available then Throw(IllegalArgument)
      else if quantity > s[id].quantity then Throw(IllegalArgument)
      else D.DispenseProduct(s, id, quantity)
  }

  /** The loop of canDispenseProducts over the ids in `keys`, in that order. */
  function CanDispenseIn(s: D.Stock, selection: Selection, keys: seq<int>): (r: Result<bool>)
    requires forall j :: 0 <= j < |keys| ==> keys[j] in selection
    ensures r.Throw? ==> r.exc == NullDeref && exists j :: 0 <= j < |keys| && keys[j] !in s
    ensures (forall j :: 0 <= j < |keys| ==> keys[j] in s) ==> r.Ok?
    ensures r == Ok(true) <==>
              forall j :: 0 <= j < |keys| ==>
                keys[j] in s && s[keys[j]].quantity > 0 && selection[keys[j]] <= s[keys[j]].quantity
    decreases |keys|
  {
    if keys == [] then Ok(true)
    else
      var id := keys[0];
      match D.IsProductAvailable(s, id)
      case Throw(e) => Throw(e)
      case Ok(available) =>
        if !available then Ok(false)
        else if selection[id] > s[id].quantity then Ok(false)
        else CanDispenseIn(s, selection, keys[1..])
  }

  /** Whether the whole selection can be dispensed, visiting the ids in the map's iteration
      order `keys`. The answer does not depend on that order; only an id unknown to the
      stock can make it throw instead of answering false, depending on where that id comes. */
  function CanDispenseProducts(s: D.Stock, selection: Selection, keys: seq<int>): (r: Result<bool>)
    requires Enumerates(keys, selection)
    ensures r == Ok(true) <==> Dispensable(s, selection)
    ensures selection.Keys <= s.Keys ==> r.Ok?
    ensures r.Throw? ==> r.exc == NullDeref && !(selection.Keys <= s.Keys)
  {
    var r := CanDispenseIn(s, selection, keys);
    assert r == Ok(true) ==> Dispensable(s, selection) by {
      if r == Ok(true) {
        forall id | id in selection
          ensures id in s && s[id].quantity > 0 && selection[id] <= s[id].quantity
        {
          assert id in keys;
          var j :| 0 <= j < |keys| && keys[j] == id;
        }
      }
    }
    r
  }

  function GetProduct(s: D.Stock, id: int): (r: Option<Product>)
    ensures r.None? <==> id !in s
    ensures r.Some? ==> r.value == s[id]
  {
    D.GetProduct(s, id)
  }

  /** Both overloads of addProduct insert or replace the entry for the product's id. */
  function AddProduct(s: D.Stock, p: Product): (r: D.Stock)
    ensures r.Keys == s.Keys + {p.id} && r[p.id] == p
    ensures forall k :: k in s && k != p.id ==> r[k] == s[k]
  {
    D.AddProduct(s, p)
  }

  function AddNewProduct(s: D.Stock, id: int, name: string, price: int, quantity: int, capacity: int): (r: D.Stock)
    ensures r.Keys == s.Keys + {id}
    ensures r[id] == Product(id, name, price, quantity, capacity)
    ensures forall k :: k in s && k != id ==> r[k] == s[k]
  {
    D.AddProduct(s, Products.New(id, name, price, quantity, capacity))
  }

  /** Removes a product, but only one that is known and in stock. */
  function RemoveProduct(s: D.Stock, id: int): (r: Result<D.Stock>)
    ensures id !in s ==> r == Throw(NullDeref)
    ensures id in s && s[id].quantity <= 0 ==> r == Throw(IllegalArgument)
    ensures r.Ok? <==> id in s && s[id].quantity > 0
    ensures r.Ok? ==> r.value.Keys == s.Keys - {id} && forall k :: k in r.value ==> r.value[k] == s[k]
  {
    match D.IsProductAvailable(s, id)
    case Throw(e) => Throw(e)
    case Ok(available) =>
      if !available then Throw(IllegalArgument)
      else Ok(D.RemoveProduct(s, id))
  }

  /** Restocks through updateQuantity, but only a product that still has stock: a product at
      zero can never be restocked this way. */
  function UpdateProductQuantity(s: D.Stock, id: int, delta: int): (r: Result<D.Stock>)
    ensures id !in s ==> r == Throw(NullDeref)
    ensures id in s && s[id].quantity <= 0 ==> r == Throw(IllegalArgument)
    ensures r.Ok? <==> id in s && s[id].quantity > 0 && 0 <= s[id].quantity + delta <= s[id].capacity
    ensures r.Ok? ==> r.value.Keys == s.Keys && r.value[id].quantity == s[id].quantity + delta
    ensures r.Ok? ==> r.value[id] == s[id].(quantity := s[id].quantity + delta)
    ensures r.Ok? ==> forall k :: k in s && k != id ==> r.value[k] == s[k]
  {
    match D.IsProductAvailable(s, id)
    case Throw(e) => Throw(e)
    case Ok(available) =>
      if !available then Throw(IllegalArgument)
      else
        match UpdateQuantity(s[id], delta)
        case Throw(e) => Throw(e)
        case Ok(p) => Ok(s[id := p])
  }
}
