/** A stocked item (models/Product.java): a quantity counter bounded by a capacity. */
module Products {
  import opened Outcomes

  /** The price is a whole number of coin units (the harness only uses whole prices). */
  datatype Product = Product(id: int, name: string, price: int, quantity: int, capacity: int)

  /** The constructor stores what it is given; it does not check quantity <= capacity. */
  function New(id: int, name: string, price: int, quantity: int, capacity: int): (p: Product)
    ensures p.id == id && p.name == name && p.price == price
    ensures p.quantity == quantity && p.capacity == capacity
  {
    Product(id, name, price, quantity, capacity)
  }

  /** Whether adding `delta` is allowed: exactly when the unchecked increase would land
      within [0, capacity]. */
  predicate CanUpdateQuantity(p: Product, delta: int): (r: bool)
    ensures r <==> 0 <= IncreaseQuantity(p, delta).quantity <= IncreaseQuantity(p, delta).capacity
  {
    0 <= p.quantity + delta <= p.capacity
  }

  /** Adds `delta` to the quantity, throwing when the result would leave [0, capacity]. */
  function UpdateQuantity(p: Product, delta: int): (r: Result<Product>)
    ensures r.Throw? ==> r.exc == IllegalArgument
    ensures r.Ok? ==> 0 <= r.value.quantity <= r.value.capacity
    ensures r.Ok? ==> r.value.quantity - p.quantity == delta
    ensures r.Ok? ==> r.value.(quantity := p.quantity) == p
    ensures r.Throw? ==> p.quantity + delta < 0 || p.quantity + delta > p.capacity
  {
    if !CanUpdateQuantity(p, delta) then Throw(IllegalArgument)
    else Ok(p.(quantity := p.quantity + delta))
  }

  /** In stock: exactly when one unit can be taken without the quantity going negative. */
  predicate IsAvailable(p: Product): (r: bool)
    ensures r <==> IncreaseQuantity(p, -1).quantity >= 0
  {
    p.quantity > 0
  }

  /** Subtracts `n` while the product is in stock; there is no lower bound. */
  function ReduceQuantity(p: Product, n: int): (r: Product)
    ensures r.(quantity := p.quantity) == p
    ensures p.quantity <= 0 ==> r == p
    ensures p.quantity > 0 ==> r.quantity == p.quantity - n
  {
    if IsAvailable(p) then p.(quantity := p.quantity - n) else p
  }

  /** Adds `n` with no capacity check. */
  function IncreaseQuantity(p: Product, n: int): (r: Product)
    ensures r.(quantity := p.quantity) == p
    ensures r.quantity - p.quantity == n
  {
    p.(quantity := p.quantity + n)
  }

  function SetName(p: Product, name: string): (r: Product)
    ensures r.name == name && r.(name := p.name) == p
  {
    p.(name := name)
  }

  /** Id, price and capacity never change after construction: no operation writes them. */
  lemma IdentityIsFixed(p: Product, n: int, name: string)
    ensures var q := ReduceQuantity(p, n); q.id == p.id && q.price == p.price && q.capacity == p.capacity
    ensures var q := IncreaseQuantity(p, n); q.id == p.id && q.price == p.price && q.capacity == p.capacity
    ensures var q := SetName(p, name); q.id == p.id && q.price == p.price && q.capacity == p.capacity
    ensures UpdateQuantity(p, n).Ok? ==>
              var q := UpdateQuantity(p, n).value; q.id == p.id && q.price == p.price && q.capacity == p.capacity
  {
  }

  /** updateQuantity keeps the stock invariant, and its check is exactly the bound it keeps. */
  lemma UpdateQuantityGuard(p: Product, delta: int)
    ensures UpdateQuantity(p, delta).Ok? <==> 0 <= p.quantity + delta <= p.capacity
  {
  }

  /** The unchecked counters can leave the bounds that updateQuantity keeps. */
  lemma UncheckedCountersLeaveBounds()
    ensures IncreaseQuantity(New(1, "x", 1, 5, 5), 1).quantity > 5
    ensures ReduceQuantity(New(1, "x", 1, 1, 5), 3).quantity < 0
  {
  }
}
