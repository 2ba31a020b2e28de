/**
 * The coin vault as a chain of responsibility (services/DenominationChainService.java).
 *
 * The Java links are objects with a `next` pointer; here the chain is a sequence and link `i`
 * hands over to link `i + 1`. The last link is the one whose `next` is null: every request
 * that reaches it is answered there without looking at its own denomination.
 */
module DenominationChain {
  import opened Denominations

  /** Coins offered or held: face value -> number of coins. */
  type Money = map<int, int>

  /** What a mutating request returns: the chain after the call, and the Java method's boolean. */
  datatype Reply = Reply(chain: seq<Denomination>, ok: bool)

  /** The links a withdrawal divides by carry positive face values. */
  predicate PositiveFaces(chain: seq<Denomination>)
  {
    forall k :: 0 <= k < |chain| - 1 ==> chain[k].value > 0
  }

  /** Every slot holds between zero and its capacity. */
  predicate WithinCapacity(chain: seq<Denomination>)
  {
    forall k :: 0 <= k < |chain| ==> 0 <= chain[k].count <= chain[k].capacity
  }

  predicate NonNegativeOffer(money: Money)
  {
    forall v :: v in money ==> money[v] >= 0
  }

  /** Same links with the same face values and capacities; only the counts may differ. */
  predicate SameSlots(a: seq<Denomination>, b: seq<Denomination>)
  {
    |a| == |b| && forall k :: 0 <= k < |a| ==> a[k].value == b[k].value && a[k].capacity == b[k].capacity
  }

  /** Link `k` would accept the coins of its face value that `money` offers. */
  predicate Accepts(d: Denomination, money: Money)
  {
    d.value in money && money[d.value] + d.count <= d.capacity
  }

  // ---------------------------------------------------------------------------------------------
  // canAddMoney / addMoney

  /** Every non-tail link from `i` on whose face value is offered has room for the offered coins;
      face values that match no non-tail link are ignored. */
  function CanAddMoney(chain: seq<Denomination>, i: nat, money: Money): (ok: bool)
    requires i < |chain|
    ensures ok <==> forall k :: i <= k < |chain| - 1 && chain[k].value in money ==>
                                money[chain[k].value] + chain[k].count <= chain[k].capacity
    decreases |chain| - i
  {
    if i == |chain| - 1 then true
    else
      var d := chain[i];
      if d.value in money then
        if money[d.value] + d.count > d.capacity then false
        else CanAddMoney(chain, i + 1, money)
      else CanAddMoney(chain, i + 1, money)
  }

  /** Credits each non-tail link that accepts its offered coins. After the downstream call
      answers, a credited link descends a second time (line 59 runs after line 50). */
  function AddMoney(chain: seq<Denomination>, i: nat, money: Money): (r: Reply)
    requires i < |chain|
    ensures SameSlots(chain, r.chain)
    ensures forall k :: 0 <= k < i ==> r.chain[k] == chain[k]
    ensures r.chain[|chain| - 1] == chain[|chain| - 1]
    ensures forall k :: 0 <= k < |chain| && chain[k].value !in money ==> r.chain[k] == chain[k]
    decreases |chain| - i
  {
    if i == |chain| - 1 then Reply(chain, true)
    else
      var d := chain[i];
      if d.value in money && money[d.value] + d.count <= d.capacity then
        var need := money[d.value];
        var credited := chain[i := Denominations.AddMoney(d, need)];
        var first := AddMoney(credited, i + 1, money);
        if !first.ok then
          Reply(first.chain[i := Denominations.WithdrawMoney(first.chain[i], need)], false)
        else
          AddMoney(first.chain, i + 1, money)
      else
        AddMoney(chain, i + 1, money)
  }

  /** The only `return false` of addMoney needs a downstream `false`, which never comes:
      the tail answers true, so the rollback is unreachable. */
  lemma {:induction false} AddMoneyAlwaysSucceeds(chain: seq<Denomination>, i: nat, money: Money)
    requires i < |chain|
    ensures AddMoney(chain, i, money).ok
    decreases |chain| - i
  {
    if i < |chain| - 1 {
      var d := chain[i];
      if d.value in money && money[d.value] + d.count <= d.capacity {
        var credited := chain[i := Denominations.AddMoney(d, money[d.value])];
        AddMoneyAlwaysSucceeds(credited, i + 1, money);
        var first := AddMoney(credited, i + 1, money);
        AddMoneyAlwaysSucceeds(first.chain, i + 1, money);
      } else {
        AddMoneyAlwaysSucceeds(chain, i + 1, money);
      }
    }
  }

  /** With non-negative offers every credit is guarded by the capacity test, so counts stay in
      [0, capacity]; and they only grow. */
  lemma {:induction false} AddMoneyWithinCapacity(chain: seq<Denomination>, i: nat, money: Money)
    requires i < |chain|
    requires WithinCapacity(chain) && NonNegativeOffer(money)
    ensures WithinCapacity(AddMoney(chain, i, money).chain)
    ensures forall k :: 0 <= k < |chain| ==> AddMoney(chain, i, money).chain[k].count >= chain[k].count
    decreases |chain| - i
  {
    if i < |chain| - 1 {
      var d := chain[i];
      if d.value in money && money[d.value] + d.count <= d.capacity {
        var credited := chain[i := Denominations.AddMoney(d, money[d.value])];
        AddMoneyWithinCapacity(credited, i + 1, money);
        var first := AddMoney(credited, i + 1, money);
        AddMoneyAlwaysSucceeds(credited, i + 1, money);
        AddMoneyWithinCapacity(first.chain, i + 1, money);
      } else {
        AddMoneyWithinCapacity(chain, i + 1, money);
      }
    }
  }

  /** The link a request starts at is credited once, by exactly its offered coins, when it has
      room for them; a link without room is skipped silently rather than failing the request. */
  lemma AddMoneyCreditsFirstLinkOnce(chain: seq<Denomination>, i: nat, money: Money)
    requires i < |chain| - 1
    ensures AddMoney(chain, i, money).chain[i].count ==
            if Accepts(chain[i], money) then chain[i].count + money[chain[i].value] else chain[i].count
  {
    var d := chain[i];
    if Accepts(d, money) {
      var credited := chain[i := Denominations.AddMoney(d, money[d.value])];
      AddMoneyAlwaysSucceeds(credited, i + 1, money);
    }
  }

  /** With non-negative offers a credit never takes coins out of any link. */
  lemma {:induction false} AddMoneyNeverShrinks(chain: seq<Denomination>, i: nat, money: Money)
    requires i < |chain| && NonNegativeOffer(money)
    ensures forall k :: 0 <= k < |chain| ==> AddMoney(chain, i, money).chain[k].count >= chain[k].count
    decreases |chain| - i
  {
    if i < |chain| - 1 {
      var d := chain[i];
      if d.value in money && money[d.value] + d.count <= d.capacity {
        var credited := chain[i := Denominations.AddMoney(d, money[d.value])];
        AddMoneyNeverShrinks(credited, i + 1, money);
        AddMoneyAlwaysSucceeds(credited, i + 1, money);
        var first := AddMoney(credited, i + 1, money);
        AddMoneyNeverShrinks(first.chain, i + 1, money);
      } else {
        AddMoneyNeverShrinks(chain, i + 1, money);
      }
    }
  }

  /** When the guard holds, every non-tail link from `i` on whose face value is offered gains
      at least the offered coins. It may gain more: each link that credits sends the request
      down the rest of the chain twice, and each visit to a link that still has room credits
      it again. */
  lemma {:induction false} AddMoneyCreditsEveryOfferedLink(chain: seq<Denomination>, i: nat, money: Money)
    requires i < |chain| && NonNegativeOffer(money) && CanAddMoney(chain, i, money)
    ensures forall k :: i <= k < |chain| - 1 && chain[k].value in money ==>
              AddMoney(chain, i, money).chain[k].count >= chain[k].count + money[chain[k].value]
    decreases |chain| - i
  {
    if i < |chain| - 1 {
      var d := chain[i];
      var r := AddMoney(chain, i, money);
      if d.value in money {
        var credited := chain[i := Denominations.AddMoney(d, money[d.value])];
        assert CanAddMoney(credited, i + 1, money);
        AddMoneyCreditsEveryOfferedLink(credited, i + 1, money);
        AddMoneyAlwaysSucceeds(credited, i + 1, money);
        var first := AddMoney(credited, i + 1, money);
        AddMoneyNeverShrinks(first.chain, i + 1, money);
        assert r == AddMoney(first.chain, i + 1, money);
        forall k | i <= k < |chain| - 1 && chain[k].value in money
          ensures r.chain[k].count >= chain[k].count + money[chain[k].value]
        {
          if k == i {
            assert r.chain[i] == first.chain[i] == credited[i];
          } else {
            assert credited[k] == chain[k];
          }
        }
      } else {
        assert CanAddMoney(chain, i + 1, money);
        AddMoneyCreditsEveryOfferedLink(chain, i + 1, money);
      }
    }
  }

  // ---------------------------------------------------------------------------------------------
  // canWithdrawMoney / withdrawMoney

  /** Demands exactly amount / value coins of every non-tail link the amount reaches, and
      exactly nothing left for the tail; it never falls back to fewer coins. Nothing owed is
      always feasible, a negative amount never is, and an amount below every face value from
      `i` on reaches the tail untouched, so only 0 of it is payable. */
  function CanWithdrawMoney(chain: seq<Denomination>, i: nat, amount: int): (ok: bool)
    requires i < |chain| && PositiveFaces(chain)
    ensures amount == 0 ==> ok
    ensures ok ==> amount >= 0
    ensures (forall k :: i <= k < |chain| - 1 ==> amount < chain[k].value) ==> (ok <==> amount == 0)
    decreases |chain| - i
  {
    if i == |chain| - 1 then amount == 0
    else
      var d := chain[i];
      if amount >= d.value then
        var need := amount / d.value;
        if need <= d.count then CanWithdrawMoney(chain, i + 1, amount - need * d.value)
        else false
      else CanWithdrawMoney(chain, i + 1, amount)
  }

  /** Debits amount / value coins of a link the amount reaches and passes the remainder on,
      rolling the debit back if that fails; on success it descends again with the ORIGINAL
      amount (line 106). */
  function WithdrawMoney(chain: seq<Denomination>, i: nat, amount: int): (r: Reply)
    requires i < |chain| && PositiveFaces(chain)
    ensures SameSlots(chain, r.chain)
    ensures forall k :: 0 <= k < i ==> r.chain[k] == chain[k]
    ensures r.chain[|chain| - 1] == chain[|chain| - 1]
    decreases |chain| - i
  {
    if i == |chain| - 1 then Reply(chain, amount == 0)
    else
      var d := chain[i];
      if amount >= d.value then
        var need := amount / d.value;
        if need <= d.count then
          var debited := chain[i := Denominations.WithdrawMoney(d, need)];
          var first := WithdrawMoney(debited, i + 1, amount - need * d.value);
          if !first.ok then
            Reply(first.chain[i := Denominations.AddMoney(first.chain[i], need)], false)
          else
            WithdrawMoney(first.chain, i + 1, amount)
        else
          Reply(chain, false)
      else
        WithdrawMoney(chain, i + 1, amount)
  }

  /** Integer facts about one greedy step. */
  lemma DivisionStep(amount: int, value: int)
    requires amount >= value > 0
    ensures amount / value >= 1
    ensures 0 <= amount - (amount / value) * value < value
  {
  }

  /** Only the links from `i` on are consulted. */
  lemma CanWithdrawReadsSuffix(a: seq<Denomination>, b: seq<Denomination>, i: nat, amount: int)
    requires i < |a| == |b| && PositiveFaces(a) && PositiveFaces(b)
    requires forall k :: i <= k < |a| ==> a[k] == b[k]
    ensures CanWithdrawMoney(a, i, amount) == CanWithdrawMoney(b, i, amount)
    decreases |a| - i
  {
    if i < |a| - 1 {
      var d := a[i];
      if amount >= d.value {
        CanWithdrawReadsSuffix(a, b, i + 1, amount - (amount / d.value) * d.value);
      } else {
        CanWithdrawReadsSuffix(a, b, i + 1, amount);
      }
    }
  }

  /** withdrawMoney answers true exactly for a zero amount: any positive amount is re-sent in
      full down the chain after the first descent, and the tail rejects it. */
  lemma {:induction false} WithdrawSucceedsOnlyOnZero(chain: seq<Denomination>, i: nat, amount: int)
    requires i < |chain| && PositiveFaces(chain)
    ensures WithdrawMoney(chain, i, amount).ok <==> amount == 0
    ensures amount == 0 ==> WithdrawMoney(chain, i, amount).chain == chain
    decreases |chain| - i
  {
    if i < |chain| - 1 {
      var d := chain[i];
      if amount >= d.value {
        var need := amount / d.value;
        if need <= d.count {
          var debited := chain[i := Denominations.WithdrawMoney(d, need)];
          var rest := amount - need * d.value;
          WithdrawSucceedsOnlyOnZero(debited, i + 1, rest);
          var first := WithdrawMoney(debited, i + 1, rest);
          if first.ok {
            WithdrawSucceedsOnlyOnZero(first.chain, i + 1, amount);
          }
        }
      } else {
        WithdrawSucceedsOnlyOnZero(chain, i + 1, amount);
      }
    }
  }

  /** An infeasible withdrawal leaves every count as it was: each debit is rolled back when
      the remainder fails downstream. */
  lemma {:induction false} WithdrawInfeasibleChangesNothing(chain: seq<Denomination>, i: nat, amount: int)
    requires i < |chain| && PositiveFaces(chain)
    requires !CanWithdrawMoney(chain, i, amount)
    ensures WithdrawMoney(chain, i, amount) == Reply(chain, false)
    decreases |chain| - i
  {
    if i < |chain| - 1 {
      var d := chain[i];
      if amount >= d.value {
        var need := amount / d.value;
        if need <= d.count {
          DivisionStep(amount, d.value);
          var debited := chain[i := Denominations.WithdrawMoney(d, need)];
          var rest := amount - need * d.value;
          CanWithdrawReadsSuffix(chain, debited, i + 1, rest);
          WithdrawInfeasibleChangesNothing(debited, i + 1, rest);
          assert debited[i := Denominations.AddMoney(debited[i], need)] == chain;
        }
      } else {
        WithdrawInfeasibleChangesNothing(chain, i + 1, amount);
      }
    }
  }

  /** Debits are guarded by need <= count and rollbacks restore the prior count, so counts stay
      in [0, capacity]; and they only shrink. */
  lemma {:induction false} WithdrawWithinCapacity(chain: seq<Denomination>, i: nat, amount: int)
    requires i < |chain| && PositiveFaces(chain) && WithinCapacity(chain)
    ensures WithinCapacity(WithdrawMoney(chain, i, amount).chain)
    ensures forall k :: 0 <= k < |chain| ==> WithdrawMoney(chain, i, amount).chain[k].count <= chain[k].count
    decreases |chain| - i
  {
    if i < |chain| - 1 {
      var d := chain[i];
      if amount >= d.value {
        var need := amount / d.value;
        if need <= d.count {
          DivisionStep(amount, d.value);
          var debited := chain[i := Denominations.WithdrawMoney(d, need)];
          var rest := amount - need * d.value;
          WithdrawWithinCapacity(debited, i + 1, rest);
          var first := WithdrawMoney(debited, i + 1, rest);
          if first.ok {
            WithdrawWithinCapacity(first.chain, i + 1, amount);
          }
        }
      } else {
        WithdrawWithinCapacity(chain, i + 1, amount);
      }
    }
  }

  // ---------------------------------------------------------------------------------------------
  // What canWithdrawMoney decides

  /** The coins the greedy walk takes from each non-tail link from `i` on: amount / value when
      the amount still owed reaches the face value, otherwise none. */
  function GreedyTakes(chain: seq<Denomination>, i: nat, amount: int): (t: seq<int>)
    requires i < |chain| && PositiveFaces(chain)
    ensures |t| == |chain| - 1 - i
    ensures forall j :: 0 <= j < |t| ==> t[j] >= 0
    decreases |chain| - i
  {
    if i == |chain| - 1 then []
    else
      var take := Take(chain[i], amount);
      [take] + GreedyTakes(chain, i + 1, amount - take * chain[i].value)
  }

  /** The coins canWithdrawMoney asks of one link: amount / value when the amount reaches the
      face value, otherwise none. */
  function Take(d: Denomination, amount: int): (n: int)
    requires d.value > 0
    ensures n >= 0
  {
    if amount >= d.value then amount / d.value else 0
  }

  /** One step of canWithdrawMoney in terms of Take: the link must hold its take, and the rest
      of the chain must pay what is left. */
  lemma CanWithdrawStep(chain: seq<Denomination>, i: nat, amount: int)
    requires i < |chain| - 1 && PositiveFaces(chain) && WithinCapacity(chain)
    ensures var take := Take(chain[i], amount);
            CanWithdrawMoney(chain, i, amount) ==
              (take <= chain[i].count && CanWithdrawMoney(chain, i + 1, amount - take * chain[i].value))
  {
    if amount < chain[i].value {
      assert 0 <= chain[i].count;
    }
  }

  /** The value of taking t[j] coins from link i + j. */
  function Worth(chain: seq<Denomination>, i: nat, t: seq<int>): int
    requires i + |t| <= |chain|
    decreases |t|
  {
    if t == [] then 0 else t[0] * chain[i].value + Worth(chain, i + 1, t[1..])
  }

  /** Taking t[j] coins from link i + j never asks for more coins than the link holds. */
  predicate WithinCounts(chain: seq<Denomination>, i: nat, t: seq<int>)
    requires i + |t| <= |chain|
  {
    forall j :: 0 <= j < |t| ==> t[j] <= chain[i + j].count
  }

  /** The amount can be paid out of the non-tail links' coins in some way. */
  ghost predicate Payable(chain: seq<Denomination>, i: nat, amount: int)
    requires i < |chain|
  {
    exists t: seq<int> ::
      && |t| == |chain| - 1 - i
      && (forall j :: 0 <= j < |t| ==> 0 <= t[j])
      && WithinCounts(chain, i, t)
      && Worth(chain, i, t) == amount
  }

  /** Worth and WithinCounts of a plan that starts with `take` coins from link i. */
  lemma PlanCons(chain: seq<Denomination>, i: nat, take: int, t: seq<int>)
    requires i + 1 + |t| <= |chain|
    ensures Worth(chain, i, [take] + t) == take * chain[i].value + Worth(chain, i + 1, t)
    ensures WithinCounts(chain, i, [take] + t) <==> take <= chain[i].count && WithinCounts(chain, i + 1, t)
  {
    var p := [take] + t;
    assert p[1..] == t;
    if take <= chain[i].count && WithinCounts(chain, i + 1, t) {
      forall j | 0 <= j < |p| ensures p[j] <= chain[i + j].count {
        if j > 0 {
          assert p[j] == t[j - 1];
        }
      }
    }
    if WithinCounts(chain, i, p) {
      assert p[0] <= chain[i].count;
      forall j | 0 <= j < |t| ensures t[j] <= chain[i + 1 + j].count {
        assert t[j] == p[j + 1];
      }
    }
  }

  /** canWithdrawMoney holds exactly when the greedy takes fit within the links' counts and add
      up to the whole amount: the tail's coins never contribute. */
  lemma {:induction false} CanWithdrawIsGreedyFit(chain: seq<Denomination>, i: nat, amount: int)
    requires i < |chain| && PositiveFaces(chain) && WithinCapacity(chain)
    ensures CanWithdrawMoney(chain, i, amount) <==>
              && WithinCounts(chain, i, GreedyTakes(chain, i, amount))
              && Worth(chain, i, GreedyTakes(chain, i, amount)) == amount
    decreases |chain| - i
  {
    if i < |chain| - 1 {
      var take := Take(chain[i], amount);
      var rest := amount - take * chain[i].value;
      CanWithdrawIsGreedyFit(chain, i + 1, rest);
      var t' := GreedyTakes(chain, i + 1, rest);
      assert GreedyTakes(chain, i, amount) == [take] + t';
      PlanCons(chain, i, take, t');
      CanWithdrawStep(chain, i, amount);
    }
  }

  /** Whatever canWithdrawMoney accepts can really be paid from the coins held. */
  lemma CanWithdrawIsSound(chain: seq<Denomination>, i: nat, amount: int)
    requires i < |chain| && PositiveFaces(chain) && WithinCapacity(chain)
    requires CanWithdrawMoney(chain, i, amount)
    ensures Payable(chain, i, amount)
  {
    CanWithdrawIsGreedyFit(chain, i, amount);
    var t := GreedyTakes(chain, i, amount);
    assert |t| == |chain| - 1 - i && (forall j :: 0 <= j < |t| ==> 0 <= t[j]);
  }

  /** The greedy walk is not a change-making search: with two 4s and two 3s in the vault, 6 is
      refused because one 4 is taken first, although 3 + 3 would do. */
  lemma GreedyIsIncomplete()
    ensures var chain := [Denomination(4, 10, 2), Denomination(3, 10, 2), Denomination(1, 10, 0)];
            Payable(chain, 0, 6) && !CanWithdrawMoney(chain, 0, 6)
  {
    var chain := [Denomination(4, 10, 2), Denomination(3, 10, 2), Denomination(1, 10, 0)];
    var t := [0, 2];
    assert Worth(chain, 0, t) == 6 by {
      assert t[1..] == [2];
      assert [2][1..] == [];
    }
    assert WithinCounts(chain, 0, t);
  }

  /** The tail's denomination is never read: replacing it changes no feasibility answer. */
  lemma {:induction false} TailIsNeverRead(chain: seq<Denomination>, i: nat, tail: Denomination, money: Money, amount: int)
    requires i < |chain| && PositiveFaces(chain)
    ensures CanAddMoney(chain[|chain| - 1 := tail], i, money) == CanAddMoney(chain, i, money)
    ensures CanWithdrawMoney(chain[|chain| - 1 := tail], i, amount) == CanWithdrawMoney(chain, i, amount)
    decreases |chain| - i
  {
    var other := chain[|chain| - 1 := tail];
    if i < |chain| - 1 {
      var d := chain[i];
      assert other[i] == d;
      if amount >= d.value {
        TailIsNeverRead(chain, i + 1, tail, money, amount - (amount / d.value) * d.value);
      } else {
        TailIsNeverRead(chain, i + 1, tail, money, amount);
      }
    }
  }
}
