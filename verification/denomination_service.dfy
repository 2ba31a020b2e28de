/**
 * The check-then-act wrapper around the head of the chain (services/DenominationService.java).
 * Each mutator asks the chain whether the request is feasible and only then performs it; the
 * chain's own boolean answer is dropped, so no mutator reports failure to its caller.
 */
module DenominationService {
  import opened Denominations
  import Chain = DenominationChain

  /** A vault the service can drive: at least one link, and positive face values to divide by. */
  predicate Valid(vault: seq<Denomination>)
  {
    |vault| > 0 && Chain.PositiveFaces(vault)
  }

  function CanWithdrawMoney(vault: seq<Denomination>, amount: int): (ok: bool)
    requires Valid(vault)
    ensures amount == 0 ==> ok
    ensures amount < 0 ==> !ok
  {
    Chain.CanWithdrawMoney(vault, 0, amount)
  }

  function CanAddMoney(vault: seq<Denomination>, money: Chain.Money): (ok: bool)
    requires Valid(vault)
    ensures ok <==> forall k :: 0 <= k < |vault| - 1 && vault[k].value in money ==>
                                money[vault[k].value] + vault[k].count <= vault[k].capacity
  {
    Chain.CanAddMoney(vault, 0, money)
  }

  /** Pays `amount` out when the chain says it can; an infeasible request changes nothing. */
  function WithdrawMoney(vault: seq<Denomination>, amount: int): (r: seq<Denomination>)
    requires Valid(vault)
    ensures Chain.SameSlots(vault, r) && Valid(r)
    ensures r[|vault| - 1] == vault[|vault| - 1]
    ensures !CanWithdrawMoney(vault, amount) ==> r == vault
    ensures amount == 0 ==> r == vault
    ensures Chain.WithinCapacity(vault) ==> Chain.WithinCapacity(r)
  {
    if Chain.CanWithdrawMoney(vault, 0, amount) then
      Chain.WithdrawSucceedsOnlyOnZero(vault, 0, amount);
      assert Chain.WithinCapacity(vault) ==> Chain.WithinCapacity(Chain.WithdrawMoney(vault, 0, amount).chain) by {
        if Chain.WithinCapacity(vault) {
          Chain.WithdrawWithinCapacity(vault, 0, amount);
        }
      }
      Chain.WithdrawMoney(vault, 0, amount).chain
    else
      vault
  }

  /** Credits `money` when the chain says it can; an infeasible offer changes nothing. */
  function AddMoney(vault: seq<Denomination>, money: Chain.Money): (r: seq<Denomination>)
    requires Valid(vault)
    ensures Chain.SameSlots(vault, r) && Valid(r)
    ensures r[|vault| - 1] == vault[|vault| - 1]
    ensures !CanAddMoney(vault, money) ==> r == vault
    ensures forall k :: 0 <= k < |vault| && vault[k].value !in money ==> r[k] == vault[k]
    ensures Chain.WithinCapacity(vault) && Chain.NonNegativeOffer(money) ==> Chain.WithinCapacity(r)
  {
    if Chain.CanAddMoney(vault, 0, money) then
      assert Chain.WithinCapacity(vault) && Chain.NonNegativeOffer(money) ==>
               Chain.WithinCapacity(Chain.AddMoney(vault, 0, money).chain) by {
        if Chain.WithinCapacity(vault) && Chain.NonNegativeOffer(money) {
          Chain.AddMoneyWithinCapacity(vault, 0, money);
        }
      }
      Chain.AddMoney(vault, 0, money).chain
    else
      vault
  }

  /** A feasible offer credits the head link by exactly the coins offered for its face value. */
  lemma AddMoneyCreditsHead(vault: seq<Denomination>, money: Chain.Money)
    requires Valid(vault) && |vault| > 1
    requires CanAddMoney(vault, money) && vault[0].value in money
    ensures AddMoney(vault, money)[0].count == vault[0].count + money[vault[0].value]
  {
    Chain.AddMoneyCreditsFirstLinkOnce(vault, 0, money);
  }

  /** giveChange is withdrawMoney under another name. */
  function GiveChange(vault: seq<Denomination>, amount: int): (r: seq<Denomination>)
    requires Valid(vault)
    ensures r == WithdrawMoney(vault, amount)
  {
    if Chain.CanWithdrawMoney(vault, 0, amount) then Chain.WithdrawMoney(vault, 0, amount).chain else vault
  }

  /** The guard in withdrawMoney changes nothing: the unguarded chain call already leaves an
      infeasible amount alone. */
  lemma WithdrawGuardIsRedundant(vault: seq<Denomination>, amount: int)
    requires Valid(vault)
    ensures WithdrawMoney(vault, amount) == Chain.WithdrawMoney(vault, 0, amount).chain
  {
    if !Chain.CanWithdrawMoney(vault, 0, amount) {
      Chain.WithdrawInfeasibleChangesNothing(vault, 0, amount);
    }
  }

  /** The guard in addMoney matters: unguarded, the chain credits the links with room even when
      another link refuses the offer, so the chain's credit is not all-or-nothing. */
  lemma AddGuardIsNeeded()
    ensures var vault := [Denomination(10, 100, 100), Denomination(5, 100, 0), Denomination(1, 10, 0)];
            var money := map[10 := 1, 5 := 1];
            && AddMoney(vault, money) == vault
            && Chain.AddMoney(vault, 0, money).chain == [Denomination(10, 100, 100), Denomination(5, 100, 1), Denomination(1, 10, 0)]
  {
  }
}
