/** The product map of the machine (models/Dispenser.java): product id -> product. */
module Dispensers {
  import opened Outcomes
  import opened Products

  type Stock = map<int, Product>

  /** Every entry sits under its product's own id; addProduct keeps it so. */
  predicate KeyedById(s: Stock)
  {
    forall k :: k in s ==> s[k].id == k
  }

  function New(): (s: Stock)
    ensures |s| == 0 && KeyedById(s)
  {
    map[]
  }

  /** Puts `p` under its id, replacing any earlier entry with that id. */
  function AddProduct(s: Stock, p: Product): (r: Stock)
    ensures r.Keys == s.Keys + {p.id} && r[p.id] == p
    ensures forall k :: k in s && k != p.id ==> r[k] == s[k]
    ensures KeyedById(s) ==> KeyedById(r)
  {
    s[p.id := p]
  }

  function RemoveProduct(s: Stock, id: int): (r: Stock)
    ensures r.Keys == s.Keys - {id}
    ensures forall k :: k in r ==> r[k] == s[k]
    ensures KeyedById(s) ==> KeyedById(r)
  {
    s - {id}
  }

  /** The entry for `id`, or null. */
  function GetProduct(s: Stock, id: int): (r: Option<Product>)
    ensures r.Some? <==> id in s
    ensures r.Some? ==> r.value == s[id]
  {
    if id in s then Some(s[id]) else None
  }

  /** Dereferences the entry: an unknown id throws a null dereference. */
  function IsProductAvailable(s: Stock, id: int): (r: Result<bool>)
    ensures r.Throw? <==> id !in s
    ensures r.Throw? ==> r.exc == NullDeref
    ensures r.Ok? ==> (r.value <==> s[id].quantity > 0)
  {
    match GetProduct(s, id)
    case None => Throw(NullDeref)
    case Some(p) => Ok(IsAvailable(p))
  }

  /** Whether `quantity` units of `id` are in stock; a zero quantity is accepted. */
  function CanDispenseProduct(s: Stock, id: int, quantity: int): (ok: bool)
    ensures ok <==> id in s && 0 <= quantity <= s[id].quantity
  {
    var product := GetProduct(s, id);
    if quantity < 0 || product.None? || product.value.quantity < quantity then false else true
  }

  /** The guard is inverted: it throws precisely when updateQuantity(quantity) would succeed,
      and otherwise calls updateQuantity, which then throws. So it never returns normally,
      and the quantity is never reduced (updateQuantity adds). */
  function DispenseProduct(s: Stock, id: int, quantity: int): (r: Result<Stock>)
    ensures r == Throw(IllegalArgument)
  {
    var product := GetProduct(s, id);
    if product.None? || CanUpdateQuantity(product.value, quantity) then Throw(IllegalArgument)
    else
      match UpdateQuantity(product.value, quantity)
      case Throw(e) => Throw(e)
      case Ok(p) => Ok(s[id := p])
  }
}
