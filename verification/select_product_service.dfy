/**
 * The customer's basket (services/SelectProductService.java): product id -> quantity.
 * Its availability checks only print a message, so they never stop a change.
 */
module SelectProductService {
  import opened Outcomes
  import D = Dispensers

  type Basket = map<int, int>

  function New(): (b: Basket)
    ensures |b| == 0
  {
    map[]
  }

  /** Stores `quantity` for `id`, replacing any earlier quantity. The stock check
      (Dispensers.CanDispenseProduct) only decides whether a message is printed, so it is left
      out: unknown ids, zero or negative and over-stock quantities are all stored. */
  function SelectProduct(b: Basket, s: D.Stock, id: int, quantity: int): (r: Basket)
    ensures r.Keys == b.Keys + {id} && r[id] == quantity
    ensures forall k :: k in b && k != id ==> r[k] == b[k]
  {
    b[id := quantity]
  }

  function Clear(b: Basket): (r: Basket)
    ensures |r| == 0
  {
    map[]
  }

  /** Adds `quantity` to a selected id's quantity whatever the stock says (the stock check only
      prints); an id that is not selected fails when its null quantity is unboxed. */
  function Update(b: Basket, s: D.Stock, id: int, quantity: int): (r: Result<Basket>)
    ensures id !in b ==> r == Throw(NullDeref)
    ensures id in b ==> r.Ok? && r.value.Keys == b.Keys && r.value[id] == b[id] + quantity
    ensures r.Ok? ==> forall k :: k in b && k != id ==> r.value[k] == b[k]
  {
    if id !in b then Throw(NullDeref)
    else
      Ok(b[id := b[id] + quantity])
  }

  /** Drops the entry for `id`, after a stock probe that dereferences the product and so fails
      for ids unknown to the stock. */
  function RemoveProduct(b: Basket, s: D.Stock, id: int): (r: Result<Basket>)
    ensures id !in s ==> r == Throw(NullDeref)
    ensures id in s ==> r.Ok? && r.value.Keys == b.Keys - {id}
    ensures r.Ok? ==> forall k :: k in r.value ==> r.value[k] == b[k]
  {
    match D.IsProductAvailable(s, id)
    case Throw(e) => Throw(e)
    case Ok(_) => Ok(b - {id})
  }

  /** Selecting twice keeps only the second quantity; updating adds to it. */
  lemma SelectReplacesUpdateAccumulates(b: Basket, s: D.Stock, id: int, q1: int, q2: int)
    ensures SelectProduct(SelectProduct(b, s, id, q1), s, id, q2)[id] == q2
    ensures Update(SelectProduct(b, s, id, q1), s, id, q2) == Ok(SelectProduct(b, s, id, q1 + q2))
  {
    assert b[id := q1][id := q1 + q2] == b[id := q1 + q2];
  }
}
