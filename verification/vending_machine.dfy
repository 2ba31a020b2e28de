/**
 * The machine (VendingMachine.java): it forwards each call to its current state object and
 * installs a new state object after some calls. Two calls bypass the state object:
 * insertMoney, which always stores the money and moves to ProcessTransactionState, and
 * showProducts, which asks the dispenser directly.
 */
module VendingMachine {
  import opened Outcomes
  import opened KeyOrder
  import opened Operations
  import Chain = DenominationChain
  import DS = DenominationService
  import IdleMode
  import InsertMoneyMode
  import ProcessTransactionMode
  import MaintenanceMode
  import OutOfServiceMode

  /** The current state object, the shared services, and the machine's own `money` field
      (null until insertMoney is first called). */
  datatype Machine = Machine(state: State, services: Services, money: Option<Chain.Money>)

  /** The machine after a call, and how the call ended. */
  datatype Outcome = Outcome(machine: Machine, completion: Completion)

  /** What a call on a state object needs: a vault the settlement can drive, and iteration
      orders that fit the maps a settlement walks. */
  predicate CanCall(st: State, svc: Services, op: Op)
  {
    && DS.Valid(svc.vault)
    && (st.ProcessTransactionState? && op.ProcessTransaction? ==>
          Enumerates(op.basketOrder, svc.basket) && Enumerates(op.moneyOrder, st.paid))
  }

  /** Virtual dispatch to the current state object. */
  function Dispatch(st: State, svc: Services, op: Op): (e: Effect)
    requires CanCall(st, svc, op)
    ensures e.completion == Raised(Unsupported) <==> !Permits(st, op)
    ensures e.completion == Raised(Unsupported) ==> e.state == st && e.services == svc
    ensures !op.InsertMoney? ==> e.state == st
    ensures DS.Valid(e.services.vault)
    ensures !(st.ProcessTransactionState? && op.ProcessTransaction?) ==> e.services.vault == svc.vault
    ensures st.ProcessTransactionState? && op.ProcessTransaction? ==>
              e == ProcessTransactionMode.Settle(st.paid, svc, op.basketOrder, op.moneyOrder)
  {
    match st
    case IdleState => IdleMode.Step(svc, op)
    case InsertMoneyState(held) => InsertMoneyMode.Step(held, svc, op)
    case ProcessTransactionState(paid) => ProcessTransactionMode.Step(paid, svc, op)
    case MaintenanceState => MaintenanceMode.Step(svc, op)
    case OutOfServiceState => OutOfServiceMode.Step(svc, op)
  }

  /** The calls the machine lets through in each state. insertMoney and showProducts never
      reach the state object, and updateSelectedProduct is answered by the state's
      selectProduct. */
  predicate MachinePermits(st: State, op: Op)
  {
    match op
    case InsertMoney(_) => true
    case ShowProducts => true
    case UpdateSelectedProduct(id, quantity) => Permits(st, SelectProduct(id, quantity))
    case _ => Permits(st, op)
  }

  /** The op that reaches the state object. */
  function Routed(op: Op): Op
  {
    match op
    case UpdateSelectedProduct(id, quantity) => SelectProduct(id, quantity)
    case _ => op
  }

  predicate Ready(m: Machine, op: Op)
  {
    CanCall(m.state, m.services, Routed(op))
  }

  /** Forward the call and keep the state object. */
  function Delegate(m: Machine, op: Op): (r: Outcome)
    requires CanCall(m.state, m.services, op) && !op.InsertMoney?
  {
    var e := Dispatch(m.state, m.services, op);
    Outcome(m.(services := e.services), e.completion)
  }

  /** Forward the call and, only if it returns normally, install `next`. */
  function DelegateThenMove(m: Machine, op: Op, next: State): (r: Outcome)
    requires CanCall(m.state, m.services, op) && !op.InsertMoney?
  {
    var e := Dispatch(m.state, m.services, op);
    if e.completion.Normal? then Outcome(Machine(next, e.services, m.money), Normal)
    else Outcome(m.(services := e.services), e.completion)
  }

  /** One call on the machine. */
  function Step(m: Machine, op: Op): (r: Outcome)
    requires Ready(m, op)
    ensures DS.Valid(r.machine.services.vault)
    ensures r.completion == Raised(Unsupported) <==> !MachinePermits(m.state, op)
    ensures r.completion == Raised(Unsupported) ==> r.machine == m
    ensures r.completion.Raised? ==> r.machine.state == m.state && r.machine.money == m.money
    ensures op.SelectProduct? && r.completion == Normal ==> r.machine.state == InsertMoneyState(m.money)
    ensures (op.ClearSelectedProducts? || op.ProcessTransaction?) && r.completion == Normal ==>
              r.machine.state == IdleState
    ensures (|| op.AddProducts? || op.UpdateSelectedProduct? || op.RemoveSelectedProduct?
             || op.ShowSelectedProducts? || op.ShowProducts? || op.GiveChange? || op.DispenseProducts?) ==>
              r.machine.state == m.state
    ensures !op.InsertMoney? ==> r.machine.money == m.money
    ensures !(op.ProcessTransaction? && m.state.ProcessTransactionState?) ==>
              r.machine.services.vault == m.services.vault
  {
    match op
    case AddProducts(_) => Delegate(m, op)
    case SelectProduct(_, _) => DelegateThenMove(m, op, InsertMoneyState(m.money))
    case UpdateSelectedProduct(id, quantity) => Delegate(m, SelectProduct(id, quantity))
    case RemoveSelectedProduct(_) => Delegate(m, op)
    case ShowSelectedProducts => Delegate(m, op)
    case ClearSelectedProducts => DelegateThenMove(m, op, IdleState)
    case InsertMoney(money) => Outcome(Machine(ProcessTransactionState(money), m.services, Some(money)), Normal)
    case GiveChange(_) => Delegate(m, op)
    case DispenseProducts => Delegate(m, op)
    case ShowProducts => Outcome(m, Normal)
    case ProcessTransaction(_, _) => DelegateThenMove(m, op, IdleState)
  }

  /** processTransaction in the settlement state runs the settlement; only a normal return
      installs a fresh Idle state, and a throw keeps the settlement state with whatever the
      settlement already changed. */
  lemma ProcessTransactionSettles(m: Machine, basketOrder: seq<int>, moneyOrder: seq<int>)
    requires m.state.ProcessTransactionState? && Ready(m, ProcessTransaction(basketOrder, moneyOrder))
    ensures var e := ProcessTransactionMode.Settle(m.state.paid, m.services, basketOrder, moneyOrder);
            Step(m, ProcessTransaction(basketOrder, moneyOrder)) ==
              if e.completion.Normal? then Outcome(Machine(IdleState, e.services, m.money), Normal)
              else Outcome(m.(services := e.services), e.completion)
  {
  }

  /** insertMoney ignores the current state: from anywhere it stores the map and moves to the
      settlement state, leaving the services alone. */
  lemma InsertMoneyIgnoresState(m: Machine, money: Chain.Money)
    requires DS.Valid(m.services.vault)
    ensures var r := Step(m, InsertMoney(money));
            && r.completion == Normal
            && r.machine.state == ProcessTransactionState(money)
            && r.machine.money == Some(money)
            && r.machine.services == m.services
  {
  }

  /** From Idle a selection cannot fail: the machine moves on to InsertMoneyState with the
      quantity stored (replacing any earlier one) and no other basket entry changed. */
  lemma SelectFromIdle(m: Machine, id: int, quantity: int)
    requires m.state == IdleState && DS.Valid(m.services.vault)
    ensures var r := Step(m, SelectProduct(id, quantity));
            && r.completion == Normal
            && r.machine.state == InsertMoneyState(m.money)
            && r.machine.services.basket.Keys == m.services.basket.Keys + {id}
            && r.machine.services.basket[id] == quantity
            && (forall k :: k in m.services.basket && k != id ==> r.machine.services.basket[k] == m.services.basket[k])
            && r.machine.services.stock == m.services.stock
  {
  }

  /** updateSelectedProduct is answered by the state's selectProduct: in InsertMoneyState it
      is rejected, and in Idle it replaces the quantity instead of adding to it. */
  lemma UpdateIsRoutedToSelect(m: Machine, id: int, quantity: int)
    requires DS.Valid(m.services.vault)
    ensures m.state.InsertMoneyState? ==>
              Step(m, UpdateSelectedProduct(id, quantity)) == Outcome(m, Raised(Unsupported))
    ensures m.state == IdleState ==>
              var r := Step(m, UpdateSelectedProduct(id, quantity));
              r.completion == Normal && r.machine.state == IdleState && r.machine.services.basket[id] == quantity
  {
  }

  /** The settlement invariant of the vault: a drivable chain with every count in
      [0, capacity], and no negative coin count waiting to be credited. */
  predicate VaultInvariant(m: Machine)
  {
    && DS.Valid(m.services.vault)
    && Chain.WithinCapacity(m.services.vault)
    && (m.state.ProcessTransactionState? ==> Chain.NonNegativeOffer(m.state.paid))
  }

  /** Every call keeps the vault within capacity, provided inserted coin counts are never
      negative. */
  lemma StepKeepsVaultInvariant(m: Machine, op: Op)
    requires Ready(m, op) && VaultInvariant(m)
    requires op.InsertMoney? ==> Chain.NonNegativeOffer(op.money)
    ensures VaultInvariant(Step(m, op).machine)
  {
    var r := Step(m, op);
    if op.ProcessTransaction? && m.state.ProcessTransactionState? {
      var paid := m.state.paid;
      var svc := m.services;
      if ProcessTransactionMode.ChecksPass(paid, svc, op.basketOrder, op.moneyOrder) {
        var credited := DS.AddMoney(svc.vault, paid);
        assert Chain.WithinCapacity(credited);
      }
    }
  }
}
