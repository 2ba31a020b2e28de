/** One coin slot of the vault (models/Denomination.java): a plain counter with no checks of its own. */
module Denominations {

  /** Face value, capacity and the number of coins held. The random id is dropped. */
  datatype Denomination = Denomination(value: int, capacity: int, count: int)

  /** A new slot is empty; value and capacity have no setters, so they never change afterwards. */
  function New(value: int, capacity: int): (d: Denomination)
    ensures d.count == 0 && !IsAvailable(d)
    ensures d.value == value && d.capacity == capacity
  {
    Denomination(value, capacity, 0)
  }

  /** Holds coins; AvailableIffWithdrawTakesEffect says what that means for a debit. */
  predicate IsAvailable(d: Denomination)
  {
    d.count > 0
  }

  /** Takes `n` coins out, but only while the slot holds some; there is no lower bound. */
  function WithdrawMoney(d: Denomination, n: int): (r: Denomination)
    ensures r.value == d.value && r.capacity == d.capacity
    ensures d.count <= 0 ==> r == d
    ensures d.count > 0 ==> r.count == d.count - n
  {
    if IsAvailable(d) then d.(count := d.count - n) else d
  }

  /** Puts `n` coins in, with no capacity check. */
  function AddMoney(d: Denomination, n: int): (r: Denomination)
    ensures r.value == d.value && r.capacity == d.capacity
    ensures r.count - d.count == n
  {
    d.(count := d.count + n)
  }

  /** The undo the chain relies on when a credit must be taken back. */
  lemma AddThenWithdrawRestores(d: Denomination, n: int)
    requires n > 0 && d.count >= 0
    ensures WithdrawMoney(AddMoney(d, n), n) == d
  {
  }

  /** The undo the chain relies on when a debit must be taken back. */
  lemma WithdrawThenAddRestores(d: Denomination, n: int)
    requires IsAvailable(d)
    ensures AddMoney(WithdrawMoney(d, n), n) == d
  {
  }

  /** Neither counter operation looks at the capacity, and a debit can go below zero. */
  lemma CountersAreUnchecked()
    ensures AddMoney(New(10, 1), 5).count == 5 > New(10, 1).capacity
    ensures WithdrawMoney(AddMoney(New(10, 5), 1), 3).count == -2
  {
  }

  /** A slot is available exactly when a non-zero debit changes it. */
  lemma AvailableIffWithdrawTakesEffect(d: Denomination, n: int)
    requires n != 0
    ensures IsAvailable(d) <==> WithdrawMoney(d, n) != d
  {
  }
}
