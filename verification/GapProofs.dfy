/** The tracker-sum ledger over runs: the gap is exactly what the escape hatches contributed. */
module GapProofs {
  import opened Common
  import Token
  import opened Accounting
  import opened AccountingProofs
  import opened StrategyModel
  import opened System
  import opened Effects
  import opened NavAccounting

  /** What an accepted transaction adds to the gap between the aggregate and the tracker sum. */
  function GapMove(w: World, call: Call): int {
    if call.Management? then Contribution(w.book, call.manage) else 0
  }

  lemma StepGap(w: World, tx: Tx)
    requires Valid(w) && Step(w, tx).Ok?
    ensures Gap(Step(w, tx).value.book) == Gap(w.book) + GapMove(w, tx.call)
  {
    hide UserStep, DepositToSubaccount, WithdrawFromSubaccount, ManageStep, ControllerStep;
    var w' := Step(w, tx).value;
    match tx.call
    case User(user) => UserEffect(w, tx.signers, user);
    case ToSubaccount(operator, sub, amount) => ToSubaccountEffect(w, tx.signers, operator, sub, amount);
    case FromSubaccount(operator, sub, amount) => FromSubaccountEffect(w, tx.signers, operator, sub, amount);
    case Management(manage) => ManageEffect(w, w', ContextOf(w, tx.signers, manage), manage);
    case _ =>
  }

  function TotalGapMoves(w: World, txs: seq<Tx>): int
    decreases |txs|
  {
    if txs == [] then 0
    else (if Step(w, txs[0]).Ok? then GapMove(w, txs[0].call) else 0) + TotalGapMoves(Apply(w, txs[0]), txs[1..])
  }

  /** Over any run the gap moves by exactly the contributions of the three escape hatches. */
  lemma {:induction false} GapLedger(w: World, txs: seq<Tx>)
    requires Valid(w)
    ensures Valid(Run(w, txs)) && Gap(Run(w, txs).book) == Gap(w.book) + TotalGapMoves(w, txs)
    decreases |txs|
  {
    hide Step;
    if txs != [] {
      if Step(w, txs[0]).Ok? {
        StepEffect(w, txs[0]);
        StepGap(w, txs[0]);
      }
      GapLedger(Apply(w, txs[0]), txs[1..]);
    }
  }

  /** From construction, with contributions adding up to zero, the trackers add up to the aggregate. */
  lemma TrackersMatchAggregate(start: World, txs: seq<Tx>)
    requires Genesis(start) && TotalGapMoves(start, txs) == 0
    ensures TrackerSum(Run(start, txs).book) == Run(start, txs).book.deployed
  {
    hide Step;
    GenesisValid(start);
    GapLedger(start, txs);
  }

  // ---- underflow ----

  lemma ManagementNeverUnderflows(b: Book, c: Context, call: Manage)
    requires BookValid(b) && Gap(b) >= 0 && c.probe != Err(DeployedAssetsUnderflow)
    ensures ManageStep(b, c, call) != Err(DeployedAssetsUnderflow)
  {
    match call
    case UpdateWalletDeployed(operator, sub, newTracked) => UpdateNeverUnderflows(b, c, operator, sub, newTracked);
    case UpdateWalletDeployedBatch(operator, updates) => BatchNeverUnderflows(b, c, operator, updates);
    case _ =>
  }

  lemma PullNeverUnderflows(w: World, s: Signers, operator: Address, sub: Address, amount: int)
    requires Valid(w) && Gap(w.book) >= 0
    ensures WithdrawFromSubaccount(w, s, operator, sub, amount) != Err(DeployedAssetsUnderflow)
  {
    var pulled := Pull(w, s, sub, amount);
    if sub in w.book.subs && pulled.Ok? {
      var received := Token.Balance(pulled.value.0, w.self) - Local(w);
      if received > 0 {
        WithdrawalNeverUnderflows(w.book, sub, amount, received);
      }
    }
  }

  lemma UserNeverUnderflows(w: World, s: Signers, call: UserCall)
    ensures UserStep(w, s, call) != Err(DeployedAssetsUnderflow)
  {
    hide GetBalance;
    TotalAssetsNeverUnderflows(w, |w.book.subs|);
  }

  lemma {:induction false} TotalAssetsNeverUnderflows(w: World, n: nat)
    requires n <= |w.book.subs|
    ensures QueryStrategies(w, n) != Err(DeployedAssetsUnderflow)
  {
    if n > 0 {
      TotalAssetsNeverUnderflows(w, n - 1);
    }
  }

  lemma PushNeverUnderflows(w: World, s: Signers, operator: Address, sub: Address, amount: int)
    ensures DepositToSubaccount(w, s, operator, sub, amount) != Err(DeployedAssetsUnderflow)
  {
  }

  lemma ControllerNeverUnderflows(
    st: StrategyState, me: Address, t: Token.Ledger, auth: set<Address>,
    controller: Address, call: ControllerCall)
    ensures ControllerStep(st, me, t, auth, controller, call) != Err(DeployedAssetsUnderflow)
  {
  }

  /** While the aggregate covers the trackers no transaction fails with DeployedAssetsUnderflow. */
  lemma StepNeverUnderflows(w: World, tx: Tx)
    requires Valid(w) && Gap(w.book) >= 0
    ensures Step(w, tx) != Err(DeployedAssetsUnderflow)
  {
    hide UserStep, DepositToSubaccount, WithdrawFromSubaccount, ManageStep, ControllerStep;
    match tx.call
    case User(user) => UserNeverUnderflows(w, tx.signers, user);
    case ToSubaccount(operator, sub, amount) => PushNeverUnderflows(w, tx.signers, operator, sub, amount);
    case FromSubaccount(operator, sub, amount) => PullNeverUnderflows(w, tx.signers, operator, sub, amount);
    case Management(manage) => ManagementNeverUnderflows(w.book, ContextOf(w, tx.signers, manage), manage);
    case Controller(strategy, controller, move) =>
      if strategy in w.strategies {
        ControllerNeverUnderflows(w.strategies[strategy], strategy, w.token, tx.signers.auth, controller, move);
      }
    case _ =>
  }

  /** In every run from construction whose contributions so far are not negative, no next transaction,
      whatever it is, can fail with DeployedAssetsUnderflow. */
  lemma UnderflowUnreachable(start: World, txs: seq<Tx>, next: Tx)
    requires Genesis(start) && TotalGapMoves(start, txs) >= 0
    ensures Step(Run(start, txs), next) != Err(DeployedAssetsUnderflow)
  {
    hide Step;
    GenesisValid(start);
    GapLedger(start, txs);
    StepNeverUnderflows(Run(start, txs), next);
  }
}
