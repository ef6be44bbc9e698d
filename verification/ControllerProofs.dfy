/** Exactly when a strategy's controller is obeyed, and exactly what each call leaves behind. */
module ControllerProofs {
  import opened Common
  import opened Token
  import opened StrategyModel
  import opened System
  import opened Effects
  import opened NavAccounting
  import opened StrategyProofs
  import opened CapitalProofs

  /** A settle of a latched total moves it by at most a tenth up and a twentieth down, products in range. */
  predicate SettleWithin(prev: int, next: int) {
    if next > prev then next - prev <= I128_MAX && prev * 1_000 <= I128_MAX && (next - prev) * 10_000 <= prev * 1_000
    else prev * 500 <= I128_MAX && (prev - next) * 10_000 <= prev * 500
  }

  /** When a controller call is accepted, signature and reachability aside. */
  predicate Obeys(st: StrategyState, me: Address, t: Ledger, auth: set<Address>, call: ControllerCall) {
    match call
    case DeployToProtocol(protocol, amount) =>
      protocol != me && protocol != st.vault && 0 < amount <= st.local && st.deployed + amount <= I128_MAX
    case RecallFromProtocol(protocol, amount) =>
      protocol != me && protocol != st.vault && protocol in auth && 0 < amount <= Balance(t, protocol)
    case SettleProtocolReturns(newTotal) =>
      0 <= newTotal && (newTotal == st.deployed || !st.latched || SettleWithin(st.deployed, newTotal))
    case SetController(newController) => newController != st.vault && newController != me
    case RecoverDonation(recipient, amount) =>
      recipient != me && recipient != st.vault && 0 < amount <= Balance(t, me) - st.local
    case SeedLocalBalance(amount) => st.local == 0 && 0 <= amount <= Balance(t, me)
    case SeedDeployedTotal(amount) => !st.latched && 0 <= amount
  }

  /** What an accepted controller call leaves on the strategy. */
  function After(st: StrategyState, call: ControllerCall): StrategyState {
    match call
    case DeployToProtocol(_, amount) =>
      st.(local := st.local - amount, deployed := st.deployed + amount, latched := true)
    case RecallFromProtocol(_, amount) =>
      st.(local := st.local + amount, deployed := if amount > st.deployed then 0 else st.deployed - amount)
    case SettleProtocolReturns(newTotal) => st.(deployed := newTotal, latched := st.latched || newTotal > 0)
    case SetController(newController) => st.(controller := newController)
    case RecoverDonation(_, _) => st
    case SeedLocalBalance(amount) => st.(local := amount)
    case SeedDeployedTotal(amount) => st.(deployed := amount, latched := true)
  }

  /** Which tokens an accepted controller call moves. */
  ghost predicate Moves(t: Ledger, t': Ledger, me: Address, call: ControllerCall) {
    match call
    case DeployToProtocol(protocol, amount) => OnlyMoved(t, t', me, protocol, amount)
    case RecallFromProtocol(protocol, amount) => OnlyMoved(t, t', protocol, me, amount)
    case RecoverDonation(recipient, amount) => OnlyMoved(t, t', me, recipient, amount)
    case _ => t' == t
  }

  lemma SettleExactly(st: StrategyState, newTotal: int)
    requires 0 <= st.deployed && (!st.latched ==> st.deployed == 0)
    ensures Settle(st, newTotal).Ok? <==>
              0 <= newTotal && (newTotal == st.deployed || !st.latched || SettleWithin(st.deployed, newTotal))
    ensures Settle(st, newTotal).Ok? ==> Settle(st, newTotal).value == After(st, SettleProtocolReturns(newTotal))
  {
  }

  lemma MovingExactly(
    st: StrategyState, me: Address, t: Ledger, auth: set<Address>, vault: Address, call: ControllerCall)
    requires TokenValid(t) && StrategyValid(st, me, t, vault) && me != vault
    requires call.DeployToProtocol? || call.RecallFromProtocol? || call.RecoverDonation?
    ensures var r := ControllerStep(st, me, t, auth, st.controller, call);
            && (r.Ok? <==> st.controller in auth && Obeys(st, me, t, auth, call))
            && (r.Ok? ==> r.value.0 == After(st, call) && Moves(t, r.value.1, me, call))
  {
    hide Transfer, OnlyMoved;
    BalanceWithinTotal(t, me);
    match call
    case DeployToProtocol(protocol, amount) => TransferMoves(t, me, protocol, amount);
    case RecallFromProtocol(protocol, amount) =>
      TransferMoves(t, protocol, me, amount);
      if Transfer(t, protocol, me, amount).Ok? {
        TransferExact(t, protocol, me, amount);
        BalanceWithinTotal(Transfer(t, protocol, me, amount).value, me);
      }
    case RecoverDonation(recipient, amount) =>
      TransferMoves(t, me, recipient, amount);
      if Transfer(t, me, recipient, amount).Ok? {
        TransferExact(t, me, recipient, amount);
      }
  }

  lemma ObeyedExactly(
    st: StrategyState, me: Address, t: Ledger, auth: set<Address>,
    vault: Address, controller: Address, call: ControllerCall)
    requires TokenValid(t) && StrategyValid(st, me, t, vault) && me != vault
    ensures var r := ControllerStep(st, me, t, auth, controller, call);
            && (r.Ok? <==> controller == st.controller && controller in auth && Obeys(st, me, t, auth, call))
            && (r.Ok? ==> r.value.0 == After(st, call) && Moves(t, r.value.1, me, call))
  {
    match call
    case SettleProtocolReturns(newTotal) => SettleExactly(st, newTotal);
    case SetController(_) =>
    case SeedLocalBalance(_) =>
    case SeedDeployedTotal(_) =>
    case _ => MovingExactly(st, me, t, auth, vault, call);
  }

  /** A controller call is accepted exactly when the strategy can be reached, its own controller signs, and
      the call is obeyed; it leaves exactly that strategy and those tokens changed. */
  lemma ControllerExactly(w: World, s: Signers, a: Address, controller: Address, call: ControllerCall)
    requires Valid(w)
    ensures var r := Step(w, Tx(s, Controller(a, controller, call)));
            && (r.Ok? <==>
                  && WellSigned(w, s) && a in w.strategies && w.strategies[a].reachable
                  && controller == w.strategies[a].controller && controller in s.auth
                  && Obeys(w.strategies[a], a, w.token, s.auth, call))
            && (r.Ok? ==>
                  && a in w.strategies && Moves(w.token, r.value.token, a, call)
                  && r.value == w.(token := r.value.token,
                                   strategies := w.strategies[a := After(w.strategies[a], call)]))
  {
    hide ControllerStep, Obeys, After, Moves;
    if a in w.strategies {
      ObeyedExactly(w.strategies[a], a, w.token, s.auth, w.self, controller, call);
    }
  }

  /** The report never counts more idle tokens than are tracked or than are really there. */
  lemma ReportExactly(st: StrategyState, me: Address, t: Ledger)
    requires 0 <= st.local && 0 <= st.deployed && 0 <= Balance(t, me)
    ensures GetBalance(st, me, t).Ok? ==>
              var idle := GetBalance(st, me, t).value - st.deployed;
              idle <= st.local && idle <= Balance(t, me) && (idle == st.local || idle == Balance(t, me))
    ensures st.local + st.deployed <= I128_MAX && Balance(t, me) <= I128_MAX ==> GetBalance(st, me, t).Ok?
  {
  }

  // ---- seeding the deployed total ----

  predicate SeedsDeployment(call: Call, a: Address) {
    call.Controller? && call.strategy == a && call.call.SeedDeployedTotal?
  }

  function DeploymentSeeds(w: World, txs: seq<Tx>, a: Address): nat
    decreases |txs|
  {
    if txs == [] then 0
    else (if Step(w, txs[0]).Ok? && SeedsDeployment(txs[0].call, a) then 1 else 0)
         + DeploymentSeeds(Apply(w, txs[0]), txs[1..], a)
  }

  lemma StepSeeds(w: World, tx: Tx, a: Address)
    requires Valid(w) && a in w.strategies && Step(w, tx).Ok?
    ensures var w' := Step(w, tx).value;
            && Valid(w') && a in w'.strategies && (w.strategies[a].latched ==> w'.strategies[a].latched)
            && (SeedsDeployment(tx.call, a) ==> !w.strategies[a].latched && w'.strategies[a].latched)
  {
    hide Step;
    StepEffect(w, tx);
    StepLatch(w, tx, a);
    if SeedsDeployment(tx.call, a) {
      ControllerExactly(w, tx.signers, a, tx.call.controller, tx.call.call);
    }
  }

  /** seed_deployed_total is single-use, even for zero: no run accepts it twice, and none once latched. */
  lemma {:induction false} DeploymentSeededOnce(w: World, txs: seq<Tx>, a: Address)
    requires Valid(w) && a in w.strategies
    ensures DeploymentSeeds(w, txs, a) <= (if w.strategies[a].latched then 0 else 1)
    decreases |txs|
  {
    hide Step;
    if txs != [] {
      if Step(w, txs[0]).Ok? {
        StepSeeds(w, txs[0], a);
      }
      DeploymentSeededOnce(Apply(w, txs[0]), txs[1..], a);
    }
  }

  // ---- who can be a controller ----

  /** A strategy is constructed exactly for three different accounts, empty and unlatched. */
  lemma ConstructedExactly(me: Address, vault: Address, controller: Address)
    ensures Construct(me, vault, controller).Ok? <==> me != vault && me != controller && vault != controller
    ensures Construct(me, vault, controller).Ok? ==>
              var st := Construct(me, vault, controller).value;
              && st.vault == vault && st.controller == controller
              && st.local == 0 && st.deployed == 0 && !st.latched
  {
  }

  /** No strategy is controlled by itself or by its vault. */
  ghost predicate OutsideControl(w: World) {
    forall a :: a in w.strategies ==> w.strategies[a].controller != a && w.strategies[a].controller != w.self
  }

  lemma StepOutsideControl(w: World, tx: Tx)
    requires Valid(w) && OutsideControl(w) && Step(w, tx).Ok?
    ensures OutsideControl(Step(w, tx).value)
  {
    hide UserStep, DepositToSubaccount, WithdrawFromSubaccount, ControllerStep, CanTake, OnlyMoved, Valid, Moves,
         Obeys, After, CanGive;
    match tx.call
    case User(user) => UserEffect(w, tx.signers, user);
    case ToSubaccount(operator, sub, amount) => FundingExactly(w, tx.signers, operator, sub, amount);
    case FromSubaccount(operator, sub, amount) => CollectionExactly(w, tx.signers, operator, sub, amount);
    case Controller(a, controller, call) =>
      ControllerExactly(w, tx.signers, a, controller, call);
      ObeyingStaysOutside(w, a, tx.signers.auth, call);
    case _ =>
  }

  lemma ObeyingStaysOutside(w: World, a: Address, auth: set<Address>, call: ControllerCall)
    requires Valid(w) && OutsideControl(w) && a in w.strategies && Obeys(w.strategies[a], a, w.token, auth, call)
    ensures After(w.strategies[a], call).controller != a && After(w.strategies[a], call).controller != w.self
  {
  }

  /** Once so, always so, in every run. */
  lemma {:induction false} ControllersStayOutside(w: World, txs: seq<Tx>)
    requires Valid(w) && OutsideControl(w)
    ensures OutsideControl(Run(w, txs))
    decreases |txs|
  {
    hide Step, OutsideControl;
    if txs != [] {
      if Step(w, txs[0]).Ok? {
        StepOutsideControl(w, txs[0]);
      }
      ApplyValid(w, txs[0]);
      ControllersStayOutside(Apply(w, txs[0]), txs[1..]);
    }
  }

  /** And it is so at construction. */
  lemma GenesisOutsideControl(start: World)
    requires Genesis(start)
    ensures OutsideControl(start)
  {
    forall a | a in start.strategies
      ensures start.strategies[a].controller != a && start.strategies[a].controller != start.self
    {
      ConstructedExactly(a, start.self, start.strategies[a].controller);
    }
  }
}
