/** The strategy over runs of the whole system: donations stay outside, the latch is one-way. */
module StrategyProofs {
  import opened Common
  import opened Token
  import opened Accounting
  import opened StrategyModel
  import opened System
  import opened Effects
  import opened NavAccounting
  import opened Traces

  // ---- how transactions act on one strategy ----

  predicate ByController(w: World, call: Call, a: Address) {
    call.Controller? && call.strategy == a
  }

  /** What an accepted transaction adds to a strategy's tracked idle balance. */
  function LocalMove(w: World, call: Call, a: Address): int
    requires a in w.strategies
  {
    match call
    case ToSubaccount(_, sub, amount) => if sub == a && Kind(w.book, a) == Strategy then amount else 0
    case FromSubaccount(_, sub, amount) =>
      if sub == a && Kind(w.book, a) == Strategy then -Received(w, a, amount) else 0
    case Controller(strategy, _, move) => if strategy == a then ControllerLocalMove(move) else 0
    case _ => 0
  }

  function ControllerLocalMove(call: ControllerCall): int {
    match call
    case DeployToProtocol(_, amount) => -amount
    case RecallFromProtocol(_, amount) => amount
    case SeedLocalBalance(amount) => amount
    case _ => 0
  }

  lemma DepositStrategies(w: World, s: Signers, operator: Address, sub: Address, amount: int, a: Address)
    requires Valid(w) && a in w.strategies && DepositToSubaccount(w, s, operator, sub, amount).Ok?
    ensures var w' := DepositToSubaccount(w, s, operator, sub, amount).value;
            && a in w'.strategies
            && w'.strategies[a] == w.strategies[a].(
                 local := w.strategies[a].local + LocalMove(w, ToSubaccount(operator, sub, amount), a))
  {
    TransferExact(w.token, w.self, sub, amount);
  }

  lemma WithdrawalStrategies(w: World, s: Signers, operator: Address, sub: Address, amount: int, a: Address)
    requires Valid(w) && a in w.strategies && WithdrawFromSubaccount(w, s, operator, sub, amount).Ok?
    ensures var w' := WithdrawFromSubaccount(w, s, operator, sub, amount).value;
            && a in w'.strategies
            && w'.strategies[a] == w.strategies[a].(
                 local := w.strategies[a].local + LocalMove(w, FromSubaccount(operator, sub, amount), a))
  {
    if Kind(w.book, sub) == Strategy {
      PushEffect(w.strategies[sub], sub, w.token, w.self, amount);
    }
  }

  lemma ControllerLocal(
    st: StrategyState, me: Address, t: Ledger, auth: set<Address>,
    vault: Address, controller: Address, call: ControllerCall)
    requires TokenValid(t) && StrategyValid(st, me, t, vault) && me != vault
    requires ControllerStep(st, me, t, auth, controller, call).Ok?
    ensures var st' := ControllerStep(st, me, t, auth, controller, call).value.0;
            st'.local == st.local + ControllerLocalMove(call) && st'.reachable == st.reachable
  {
    if call.RecallFromProtocol? {
      TransferExact(t, call.protocol, me, call.amount);
    }
  }

  /** Only its own controller changes a strategy's deployed total and latch; its tracked balance moves
      with vault transfers and controller calls and with nothing else. */
  lemma StepStrategy(w: World, tx: Tx, a: Address)
    requires Valid(w) && a in w.strategies && Step(w, tx).Ok?
    ensures var w' := Step(w, tx).value;
            && a in w'.strategies
            && w'.strategies[a].local == w.strategies[a].local + LocalMove(w, tx.call, a)
            && (!tx.call.SetReachable? ==> w'.strategies[a].reachable == w.strategies[a].reachable)
            && (!ByController(w, tx.call, a) ==>
                  && w'.strategies[a].deployed == w.strategies[a].deployed
                  && w'.strategies[a].latched == w.strategies[a].latched)
            && (ByController(w, tx.call, a) ==>
                  var r := ControllerStep(w.strategies[a], a, w.token, tx.signers.auth,
                                          tx.call.controller, tx.call.call);
                  r.Ok? && r.value.0 == w'.strategies[a])
  {
    hide UserStep, DepositToSubaccount, WithdrawFromSubaccount, ManageStep, ControllerStep;
    match tx.call
    case User(user) => UserEffect(w, tx.signers, user);
    case ToSubaccount(operator, sub, amount) => DepositStrategies(w, tx.signers, operator, sub, amount, a);
    case FromSubaccount(operator, sub, amount) => WithdrawalStrategies(w, tx.signers, operator, sub, amount, a);
    case Controller(strategy, controller, move) =>
      if strategy == a {
        ControllerLocal(w.strategies[a], a, w.token, tx.signers.auth, w.self, controller, move);
      }
    case _ =>
  }

  // ---- donation isolation ----

  /** In every valid state the tracker is covered, so the report is tracker plus deployed total, however
      many tokens the address really holds. */
  lemma ReportIgnoresDonations(w: World, a: Address)
    requires Valid(w) && a in w.strategies
    ensures w.strategies[a].local <= Balance(w.token, a)
    ensures GetBalance(w.strategies[a], a, w.token) == Exact(w.strategies[a].local + w.strategies[a].deployed)
  {
    BalanceWithinTotal(w.token, a);
  }

  /** Inflows the vault did not make, and their recovery by the controller. */
  predicate OutsideFlow(call: Call) {
    call.User? || call.TokenTransfer? || (call.Controller? && call.call.RecoverDonation?)
  }

  /** No outside flow changes what any strategy reports. */
  lemma OutsideFlowsInvisible(w: World, tx: Tx, a: Address)
    requires Valid(w) && a in w.strategies && OutsideFlow(tx.call)
    ensures var w' := Apply(w, tx);
            a in w'.strategies && GetBalance(w'.strategies[a], a, w'.token) == GetBalance(w.strategies[a], a, w.token)
  {
    hide Step, GetBalance, Valid, NavChange, SupplyMove;
    if Step(w, tx).Ok? {
      StepStrategy(w, tx, a);
      StepEffect(w, tx);
      ReportIgnoresDonations(w, a);
      ReportIgnoresDonations(Step(w, tx).value, a);
    }
  }

  function TotalLocalMoves(w: World, txs: seq<Tx>, a: Address): int
    decreases |txs|
  {
    if txs == [] then 0
    else (if Step(w, txs[0]).Ok? && a in w.strategies then LocalMove(w, txs[0].call, a) else 0)
         + TotalLocalMoves(Apply(w, txs[0]), txs[1..], a)
  }

  /** From construction on, the tracked balance is seeds, vault deposits and recalls minus vault
      withdrawals and deployments, and tokens cover it in every reachable state. */
  lemma {:induction false} LocalBalanceLedger(w: World, txs: seq<Tx>, a: Address)
    requires Valid(w) && a in w.strategies
    ensures var w' := Run(w, txs);
            && a in w'.strategies
            && w'.strategies[a].local == w.strategies[a].local + TotalLocalMoves(w, txs, a)
            && w'.strategies[a].local <= Balance(w'.token, a)
    decreases |txs|
  {
    hide Step;
    if txs != [] {
      if Step(w, txs[0]).Ok? {
        StepStrategy(w, txs[0], a);
      }
      ApplyValid(w, txs[0]);
      LocalBalanceLedger(Apply(w, txs[0]), txs[1..], a);
    }
  }

  // ---- the bootstrap latch ----

  /** A settle move inside the per-call bounds. */
  predicate WithinSettleBounds(prev: int, next: int) {
    if next >= prev then (next - prev) * BPS_DIVISOR <= prev * SETTLE_INCREASE_BPS
    else (prev - next) * BPS_DIVISOR <= prev * SETTLE_DECREASE_BPS
  }

  /** A seed or settle that writes a nonzero total from outside the bounds. */
  predicate EscapesLimit(st: StrategyState, call: ControllerCall) {
    match call
    case SeedDeployedTotal(amount) => amount != 0
    case SettleProtocolReturns(newTotal) => newTotal != 0 && !WithinSettleBounds(st.deployed, newTotal)
    case _ => false
  }

  lemma LatchStep(
    st: StrategyState, me: Address, t: Ledger, auth: set<Address>,
    vault: Address, controller: Address, call: ControllerCall)
    requires TokenValid(t) && StrategyValid(st, me, t, vault)
    requires ControllerStep(st, me, t, auth, controller, call).Ok?
    ensures var st' := ControllerStep(st, me, t, auth, controller, call).value.0;
            && (st.latched ==> st'.latched)
            && (EscapesLimit(st, call) ==> !st.latched && st'.latched)
            && (st.latched && st.deployed == 0 && !call.DeployToProtocol? ==> st'.deployed == 0)
  {
  }

  function Escapes(w: World, txs: seq<Tx>, a: Address): nat
    decreases |txs|
  {
    if txs == [] then 0
    else (if Step(w, txs[0]).Ok? && ByController(w, txs[0].call, a) && a in w.strategies
             && EscapesLimit(w.strategies[a], txs[0].call.call) then 1 else 0)
         + Escapes(Apply(w, txs[0]), txs[1..], a)
  }

  predicate NoDeploy(txs: seq<Tx>, a: Address) {
    forall i :: 0 <= i < |txs| ==>
      !(txs[i].call.Controller? && txs[i].call.strategy == a && txs[i].call.call.DeployToProtocol?)
  }

  lemma StepLatch(w: World, tx: Tx, a: Address)
    requires Valid(w) && a in w.strategies && Step(w, tx).Ok?
    ensures var w' := Step(w, tx).value;
            && a in w'.strategies
            && (w.strategies[a].latched ==> w'.strategies[a].latched)
            && (ByController(w, tx.call, a) && EscapesLimit(w.strategies[a], tx.call.call) ==>
                  !w.strategies[a].latched && w'.strategies[a].latched)
            && (w.strategies[a].latched && w.strategies[a].deployed == 0 && NoDeploy([tx], a) ==>
                 w'.strategies[a].deployed == 0)
  {
    hide Step, ControllerStep;
    StepStrategy(w, tx, a);
    if ByController(w, tx.call, a) {
      assert [tx][0] == tx;
      LatchStep(w.strategies[a], a, w.token, tx.signers.auth, w.self, tx.call.controller, tx.call.call);
    }
  }

  /** The latch is one-way, before it nothing is deployed, and at most one nonzero seed or settle of any
      run escapes the rate limit; none does once the latch is set. */
  lemma {:induction false} LatchOneWay(w: World, txs: seq<Tx>, a: Address)
    requires Valid(w) && a in w.strategies
    ensures var w' := Run(w, txs);
            && a in w'.strategies
            && (w.strategies[a].latched ==> w'.strategies[a].latched)
            && (!w'.strategies[a].latched ==> w'.strategies[a].deployed == 0)
            && Escapes(w, txs, a) <= (if w.strategies[a].latched then 0 else 1)
    decreases |txs|
  {
    hide Step, EscapesLimit;
    if txs != [] {
      if Step(w, txs[0]).Ok? {
        StepLatch(w, txs[0], a);
      }
      ApplyValid(w, txs[0]);
      LatchOneWay(Apply(w, txs[0]), txs[1..], a);
    }
  }

  /** Once latched at zero, the deployed total stays zero until the next deployment. */
  lemma {:induction false} ZeroStaysUntilDeploy(w: World, txs: seq<Tx>, a: Address)
    requires Valid(w) && a in w.strategies && NoDeploy(txs, a)
    requires w.strategies[a].latched && w.strategies[a].deployed == 0
    ensures var w' := Run(w, txs); a in w'.strategies && w'.strategies[a].latched && w'.strategies[a].deployed == 0
    decreases |txs|
  {
    hide Step;
    if txs != [] {
      if Step(w, txs[0]).Ok? {
        assert NoDeploy([txs[0]], a);
        StepLatch(w, txs[0], a);
      }
      ApplyValid(w, txs[0]);
      ZeroStaysUntilDeploy(Apply(w, txs[0]), txs[1..], a);
    }
  }
}
