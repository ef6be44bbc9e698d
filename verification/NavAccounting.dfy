/** Net asset value across both contracts: every transaction moves it by a closed-form amount. */
module NavAccounting {
  import opened Common
  import opened Arithmetic
  import opened Sums
  import opened Token
  import opened Accounting
  import opened AccountingProofs
  import opened StrategyModel
  import opened System
  import opened Effects

  // ---- strategies on their own ----

  /** How a controller call moves a strategy's reported position, from its arguments and old totals. */
  function ControllerChange(st: StrategyState, call: ControllerCall): int {
    match call
    case RecallFromProtocol(_, amount) => if amount > st.deployed then amount - st.deployed else 0
    case SettleProtocolReturns(newTotal) => newTotal - st.deployed
    case SeedLocalBalance(amount) => amount
    case SeedDeployedTotal(amount) => amount
    case _ => 0
  }

  /** A controller call keeps its strategy backed and takes tokens from nobody but it and a signer. */
  lemma ControllerEffect(
    st: StrategyState, me: Address, t: Ledger, auth: set<Address>,
    vault: Address, controller: Address, call: ControllerCall)
    requires TokenValid(t) && StrategyValid(st, me, t, vault) && me != vault
    requires ControllerStep(st, me, t, auth, controller, call).Ok?
    ensures var (st', t') := ControllerStep(st, me, t, auth, controller, call).value;
            && TokenValid(t') && StrategyValid(st', me, t', vault)
            && st'.local + st'.deployed == st.local + st.deployed + ControllerChange(st, call)
            && Balance(t', vault) == Balance(t, vault)
            && (forall a :: a != me && a !in auth ==> Balance(t, a) <= Balance(t', a))
  {
    match call
    case DeployToProtocol(protocol, amount) => TransferExact(t, me, protocol, amount);
    case RecallFromProtocol(protocol, amount) => TransferExact(t, protocol, me, amount);
    case RecoverDonation(recipient, amount) => TransferExact(t, me, recipient, amount);
    case _ =>
  }

  /** A vault notification keeps the strategy backed and raises its tracked balance by what arrived. */
  lemma NotifyEffect(st: StrategyState, me: Address, t: Ledger, vault: Address, amount: int)
    requires 0 <= st.local && 0 <= st.deployed && st.vault == vault && (!st.latched ==> st.deployed == 0)
    requires amount > 0 && Deposit(st, me, t, vault, amount).Ok?
    ensures var st' := Deposit(st, me, t, vault, amount).value;
            StrategyValid(st', me, t, vault) && st' == st.(local := st.local + amount)
  {
  }

  /** A vault withdrawal pays the smaller of the request and the tracker, out of the tracker. */
  lemma PushEffect(st: StrategyState, me: Address, t: Ledger, vault: Address, amount: int)
    requires TokenValid(t) && StrategyValid(st, me, t, vault) && me != vault && amount > 0
    requires Withdraw(st, me, t, vault, amount).Ok?
    ensures var (st', t', actual) := Withdraw(st, me, t, vault, amount).value;
            && actual == Min(amount, st.local)
            && TokenValid(t') && StrategyValid(st', me, t', vault) && st' == st.(local := st.local - actual)
            && Balance(t', vault) == Balance(t, vault) + actual
            && (forall a :: a != me && a != vault ==> Balance(t', a) == Balance(t, a))
  {
    if st.local > 0 {
      TransferExact(t, me, vault, Min(amount, st.local));
    }
  }

  // ---- moves between the vault and its subaccounts ----

  /** A step that replaces one strategy, the token ledger and the books, and leaves the rest alone. */
  lemma StrategyStepValid(w: World, w': World, a: Address, st: StrategyState)
    requires Valid(w) && a in w.strategies
    requires w' == w.(token := w'.token, book := w'.book, strategies := w.strategies[a := st])
    requires BookValid(w'.book) && w'.book.subs == w.book.subs && w'.book.kinds == w.book.kinds
    requires TokenValid(w'.token) && StrategyValid(st, a, w'.token, w.self)
    requires forall b :: b in w.strategies && b != a ==> Balance(w.token, b) <= Balance(w'.token, b)
    ensures Valid(w')
    ensures Nav(w') == Nav(w) + Local(w') - Local(w) + w'.book.deployed - w.book.deployed + RegisteredChange(w, a, st)
  {
    PositionChange(w, w', a, st);
  }

  /** A step that only moves tokens and books. */
  lemma WalletStepValid(w: World, w': World)
    requires Valid(w) && w' == w.(token := w'.token, book := w'.book)
    requires BookValid(w'.book) && w'.book.subs == w.book.subs && w'.book.kinds == w.book.kinds
    requires TokenValid(w'.token) && Covered(w, w'.token)
    ensures Valid(w')
    ensures Nav(w') == Nav(w) + Local(w') - Local(w) + w'.book.deployed - w.book.deployed
  {
    SamePositions(w, w');
  }

  /** The bookkeeping half of a transfer moves the aggregate for wallets and nothing for strategies. */
  lemma NoteDepositShape(b: Book, sub: Address, requested: int, sent: int)
    requires BookValid(b) && sub in b.subs && sent > 0 && NoteDeposit(b, sub, requested, sent).Ok?
    ensures var b' := NoteDeposit(b, sub, requested, sent).value;
            && BookValid(b') && Gap(b') == Gap(b) && b'.subs == b.subs && b'.kinds == b.kinds
            && b'.deployed == b.deployed + (if Kind(b, sub) == Wallet then sent else 0)
  {
    NoteDepositKeeps(b, sub, requested, sent);
  }

  lemma NoteWithdrawalShape(b: Book, sub: Address, requested: int, received: int)
    requires BookValid(b) && sub in b.subs && received > 0 && NoteWithdrawal(b, sub, requested, received).Ok?
    ensures var b' := NoteWithdrawal(b, sub, requested, received).value;
            && BookValid(b') && Gap(b') == Gap(b) && b'.subs == b.subs && b'.kinds == b.kinds
            && b'.deployed == b.deployed - (if Kind(b, sub) == Wallet then received else 0)
  {
    NoteWithdrawalKeeps(b, sub, requested, received);
  }

  lemma ToStrategyEffect(w: World, w': World, sub: Address, amount: int)
    requires Valid(w) && sub in w.strategies && sub in w.book.subs && Kind(w.book, sub) == Strategy && amount > 0
    requires Transfer(w.token, w.self, sub, amount) == Ok(w'.token)
    requires Deposit(w.strategies[sub], sub, w'.token, w.self, amount).Ok?
    requires NoteDeposit(w.book, sub, amount, amount) == Ok(w'.book)
    requires w' == w.(token := w'.token, book := w'.book,
                      strategies := w.strategies[
                        sub := Deposit(w.strategies[sub], sub, w'.token, w.self, amount).value])
    ensures Valid(w') && Nav(w') == Nav(w) && Gap(w'.book) == Gap(w.book)
  {
    TransferExact(w.token, w.self, sub, amount);
    NotifyEffect(w.strategies[sub], sub, w'.token, w.self, amount);
    NoteDepositShape(w.book, sub, amount, amount);
    StrategyStepValid(w, w', sub, w'.strategies[sub]);
  }

  lemma ToWalletEffect(w: World, w': World, sub: Address, amount: int)
    requires Valid(w) && sub in w.book.subs && Kind(w.book, sub) == Wallet && amount > 0 && sub != w.self
    requires Transfer(w.token, w.self, sub, amount) == Ok(w'.token)
    requires NoteDeposit(w.book, sub, amount, amount) == Ok(w'.book)
    requires w' == w.(token := w'.token, book := w'.book)
    ensures Valid(w') && Nav(w') == Nav(w) && Gap(w'.book) == Gap(w.book)
  {
    TransferExact(w.token, w.self, sub, amount);
    NoteDepositShape(w.book, sub, amount, amount);
    WalletStepValid(w, w');
  }

  lemma ToSubaccountEffect(w: World, s: Signers, operator: Address, sub: Address, amount: int)
    requires Valid(w) && DepositToSubaccount(w, s, operator, sub, amount).Ok?
    ensures var w' := DepositToSubaccount(w, s, operator, sub, amount).value;
            && Valid(w') && Nav(w') == Nav(w) && Gap(w'.book) == Gap(w.book)
            && w' == w.(token := w'.token, strategies := w'.strategies, book := w'.book)
  {
    var w' := DepositToSubaccount(w, s, operator, sub, amount).value;
    TransferExact(w.token, w.self, sub, amount);
    if Kind(w.book, sub) == Strategy {
      ToStrategyEffect(w, w', sub, amount);
    } else {
      ToWalletEffect(w, w', sub, amount);
    }
  }

  lemma FromStrategyEffect(w: World, w': World, sub: Address, amount: int)
    requires Valid(w) && sub in w.strategies && sub in w.book.subs && Kind(w.book, sub) == Strategy && amount > 0
    requires Withdraw(w.strategies[sub], sub, w.token, w.self, amount).Ok?
    requires var (st, t, actual) := Withdraw(w.strategies[sub], sub, w.token, w.self, amount).value;
             && actual > 0 && NoteWithdrawal(w.book, sub, amount, actual) == Ok(w'.book)
             && w' == w.(token := t, book := w'.book, strategies := w.strategies[sub := st])
    ensures Valid(w') && Nav(w') == Nav(w) && Gap(w'.book) == Gap(w.book)
  {
    PushEffect(w.strategies[sub], sub, w.token, w.self, amount);
    NoteWithdrawalShape(w.book, sub, amount, Min(amount, w.strategies[sub].local));
    StrategyStepValid(w, w', sub, w'.strategies[sub]);
  }

  lemma FromWalletEffect(w: World, w': World, sub: Address, amount: int)
    requires Valid(w) && sub in w.book.subs && Kind(w.book, sub) == Wallet && amount > 0 && External(w, sub)
    requires Transfer(w.token, sub, w.self, amount) == Ok(w'.token)
    requires NoteWithdrawal(w.book, sub, amount, amount) == Ok(w'.book)
    requires w' == w.(token := w'.token, book := w'.book)
    ensures Valid(w') && Nav(w') == Nav(w) && Gap(w'.book) == Gap(w.book)
  {
    TransferExact(w.token, sub, w.self, amount);
    NoteWithdrawalShape(w.book, sub, amount, amount);
    WalletStepValid(w, w');
  }

  lemma FromSubaccountEffect(w: World, s: Signers, operator: Address, sub: Address, amount: int)
    requires Valid(w) && WellSigned(w, s) && WithdrawFromSubaccount(w, s, operator, sub, amount).Ok?
    ensures var w' := WithdrawFromSubaccount(w, s, operator, sub, amount).value;
            && Valid(w') && Nav(w') == Nav(w) && Gap(w'.book) == Gap(w.book)
            && w' == w.(token := w'.token, strategies := w'.strategies, book := w'.book)
  {
    var w' := WithdrawFromSubaccount(w, s, operator, sub, amount).value;
    if Kind(w.book, sub) == Strategy {
      PushEffect(w.strategies[sub], sub, w.token, w.self, amount);
      FromStrategyEffect(w, w', sub, amount);
    } else {
      TransferExact(w.token, sub, w.self, amount);
      FromWalletEffect(w, w', sub, amount);
    }
  }

  // ---- management ----

  /** How a management call moves the aggregate, from its arguments and the old trackers. */
  function DeployedChange(b: Book, call: Manage): int {
    match call
    case UpdateDeployedAssets(_, amount) => amount - b.deployed
    case RemoveWalletAndReconcile(_, _, _, newTotal) => newTotal - b.deployed
    case UpdateWalletDeployed(_, sub, newTracked) => newTracked - Tracker(b, sub)
    case UpdateWalletDeployedBatch(_, updates) => TargetSum(b, updates)
    case _ => 0
  }

  /** The sum of new minus old tracker over a batch. */
  function TargetSum(b: Book, updates: seq<(Address, int)>): int {
    SumBy(updates, (u: (Address, int)) => u.1 - Tracker(b, u.0))
  }

  lemma {:induction false} NetDeltaIsTargetSum(b: Book, updates: seq<(Address, int)>)
    requires NetDelta(b, updates).Ok?
    ensures NetDelta(b, updates).value == TargetSum(b, updates)
  {
    if updates != [] {
      NetDeltaIsTargetSum(b, updates[..|updates| - 1]);
    }
  }

  predicate MovesAggregate(call: Manage) {
    || call.UpdateDeployedAssets? || call.UpdateWalletDeployed? || call.UpdateWalletDeployedBatch?
    || call.RemoveWalletAndReconcile?
  }

  /** All four calls that reconcile the aggregate do it by one shared move of the same signed amount. */
  lemma AggregateMoves(b: Book, c: Context, call: Manage)
    requires MovesAggregate(call) && ManageStep(b, c, call).Ok?
    ensures var b' := ManageStep(b, c, call).value;
            var moved := ApplyChange(b, c, call.operator, b.deployed + DeployedChange(b, call));
            && moved.Ok? && b'.deployed == moved.value.deployed
            && b'.window == moved.value.window && b'.limits == moved.value.limits
            && (!call.RemoveWalletAndReconcile? ==> b'.subs == moved.value.subs && b'.kinds == moved.value.kinds)
  {
    hide ApplyChange, Overwrite, UpdateEvents, DistinctTargets;
    if call.UpdateWalletDeployedBatch? {
      NetDeltaIsTargetSum(b, call.updates);
    }
  }

  lemma ManageDeployed(b: Book, c: Context, call: Manage)
    requires ManageStep(b, c, call).Ok?
    ensures ManageStep(b, c, call).value.deployed == b.deployed + DeployedChange(b, call)
  {
    if MovesAggregate(call) {
      hide ManageStep;
      AggregateMoves(b, c, call);
      ApplyChangeKeeps(b, c, call.operator, b.deployed + DeployedChange(b, call));
    }
  }

  predicate ChangesWhitelist(call: Manage) {
    call.AddSubaccount? || call.RemoveSubaccount? || call.RemoveWalletAndReconcile?
  }

  lemma ManageSameWhitelist(b: Book, c: Context, call: Manage)
    requires !ChangesWhitelist(call) && ManageStep(b, c, call).Ok?
    ensures var b' := ManageStep(b, c, call).value; b'.subs == b.subs && b'.kinds == b.kinds
  {
    if MovesAggregate(call) {
      hide ManageStep;
      AggregateMoves(b, c, call);
      ApplyChangeKeeps(b, c, call.operator, b.deployed + DeployedChange(b, call));
    }
  }

  lemma ManageRegistration(b: Book, c: Context, call: Manage)
    requires call.AddSubaccount? && ManageStep(b, c, call).Ok?
    ensures var b' := ManageStep(b, c, call).value;
            && call.sub !in b.subs && b'.subs == b.subs + [call.sub] && b'.kinds == b.kinds[call.sub := call.kind]
            && (call.kind == Strategy ==> c.probe.Ok?)
  {
  }

  lemma ManageRemoval(b: Book, c: Context, call: Manage)
    requires call.RemoveSubaccount? || call.RemoveWalletAndReconcile?
    requires ManageStep(b, c, call).Ok?
    ensures var b' := ManageStep(b, c, call).value;
            && call.sub in b.subs && b'.subs == Without(b.subs, call.sub) && b'.kinds == b.kinds - {call.sub}
            && (call.RemoveWalletAndReconcile? ==> Kind(b, call.sub) == Wallet)
  {
  }

  /** How a management call moves the sum of strategy positions: only registration and removal do. */
  function PositionsChange(w: World, call: Manage): int {
    match call
    case AddSubaccount(_, sub, kind) =>
      if kind == Strategy && sub in w.strategies then w.strategies[sub].local + w.strategies[sub].deployed else 0
    case RemoveSubaccount(_, sub) => -Position(w, sub)
    case _ => 0
  }

  lemma RegistrationPositions(w: World, w': World, sub: Address, kind: SubaccountType)
    requires BookValid(w.book) && sub !in w.book.subs && w'.strategies == w.strategies
    requires w'.book.subs == w.book.subs + [sub] && w'.book.kinds == w.book.kinds[sub := kind]
    ensures Positions(w') == Positions(w) + Position(w', sub)
  {
    assert w'.book.subs[..|w'.book.subs| - 1] == w.book.subs;
    SumAgree(w.book.subs, a => Position(w, a), a => Position(w', a));
  }

  lemma RemovalPositions(w: World, w': World, sub: Address)
    requires BookValid(w.book) && sub in w.book.subs && w'.strategies == w.strategies
    requires w'.book.subs == Without(w.book.subs, sub) && w'.book.kinds == w.book.kinds - {sub}
    ensures Positions(w') == Positions(w) - Position(w, sub)
  {
    WithoutSum(w.book.subs, sub, a => Position(w, a));
    SumAgree(w'.book.subs, a => Position(w, a), a => Position(w', a));
  }

  lemma ManagePositions(w: World, w': World, c: Context, call: Manage)
    requires Valid(w) && ManageStep(w.book, c, call) == Ok(w'.book) && w' == w.(book := w'.book)
    requires c.probe == ProbeOf(w, call)
    ensures Positions(w') == Positions(w) + PositionsChange(w, call)
    ensures forall a :: a in w'.book.subs && Kind(w'.book, a) == Strategy ==> a in w.strategies
  {
    if call.AddSubaccount? {
      ManageRegistration(w.book, c, call);
      RegistrationPositions(w, w', call.sub, call.kind);
    } else if ChangesWhitelist(call) {
      ManageRemoval(w.book, c, call);
      RemovalPositions(w, w', call.sub);
      WithoutProperties(w.book.subs, call.sub);
    } else {
      ManageSameWhitelist(w.book, c, call);
      SamePositions(w, w');
    }
  }

  lemma ManageEffect(w: World, w': World, c: Context, call: Manage)
    requires Valid(w) && ManageStep(w.book, c, call) == Ok(w'.book) && w' == w.(book := w'.book)
    requires c.probe == ProbeOf(w, call)
    ensures Valid(w') && Nav(w') == Nav(w) + DeployedChange(w.book, call) + PositionsChange(w, call)
    ensures Gap(w'.book) == Gap(w.book) + Contribution(w.book, call)
  {
    ManageKeeps(w.book, c, call);
    ManageDeployed(w.book, c, call);
    ManagePositions(w, w', c, call);
  }

  // ---- every transaction ----

  /** How an accepted user call moves net asset value. */
  function UserChange(w: World, call: UserCall): int {
    match call
    case DepositCall(assets, _, _, _) => assets
    case MintCall(shares, _, _, _) => Amount(PreviewMint(w, shares))
    case WithdrawCall(assets, receiver, _, _) => if receiver == w.self then 0 else -assets
    case RedeemCall(shares, receiver, _, _) => if receiver == w.self then 0 else -Amount(PreviewRedeem(w, shares))
    case TransferCall(_, _, _, _) => 0
  }

  /** How an accepted user call moves share supply. */
  function SupplyChange(w: World, call: UserCall): int {
    match call
    case DepositCall(assets, _, _, _) => Amount(PreviewDeposit(w, assets))
    case MintCall(shares, _, _, _) => shares
    case WithdrawCall(assets, _, _, _) => -Amount(PreviewWithdraw(w, assets))
    case RedeemCall(shares, _, _, _) => -shares
    case TransferCall(_, _, _, _) => 0
  }

  function Amount(r: Result<int>): int {
    if r.Ok? then r.value else 0
  }

  lemma UserEffect(w: World, s: Signers, call: UserCall)
    requires Valid(w) && WellSigned(w, s) && UserStep(w, s, call).Ok?
    ensures var w' := UserStep(w, s, call).value;
            && Valid(w') && w' == w.(token := w'.token, shares := w'.shares)
            && Nav(w') == Nav(w) + UserChange(w, call)
            && w'.shares.supply == w.shares.supply + SupplyChange(w, call)
  {
    match call
    case DepositCall(assets, receiver, from, operator) =>
      ConversionsNonNegative(w, assets, Floor);
      DepositInternalEffect(w, s, receiver, assets, PreviewDeposit(w, assets).value, from, operator);
    case MintCall(shares, receiver, from, operator) =>
      ConversionsNonNegative(w, shares, Ceil);
      DepositInternalEffect(w, s, receiver, PreviewMint(w, shares).value, shares, from, operator);
    case WithdrawCall(assets, receiver, owner, operator) =>
      ConversionsNonNegative(w, assets, Ceil);
      WithdrawInternalEffect(w, s, receiver, owner, assets, PreviewWithdraw(w, assets).value, operator);
    case RedeemCall(shares, receiver, owner, operator) =>
      ConversionsNonNegative(w, shares, Floor);
      WithdrawInternalEffect(w, s, receiver, owner, PreviewRedeem(w, shares).value, shares, operator);
    case TransferCall(holder, to, amount, spender) => TransferSharesEffect(w, s, holder, to, amount, spender);
  }

  /** How an accepted transaction moves net asset value. */
  function NavChange(w: World, call: Call): int {
    match call
    case User(user) => UserChange(w, user)
    case ToSubaccount(_, _, _) => 0
    case FromSubaccount(_, _, _) => 0
    case Management(manage) => DeployedChange(w.book, manage) + PositionsChange(w, manage)
    case Controller(strategy, _, move) =>
      if strategy in w.strategies && strategy in w.book.subs && Kind(w.book, strategy) == Strategy
      then ControllerChange(w.strategies[strategy], move) else 0
    case TokenTransfer(from, to, amount) => if to == w.self then amount else 0
    case Tick(_) => 0
    case SetReachable(_, _) => 0
  }

  lemma ControllerStepEffect(w: World, w': World, s: Signers, strategy: Address, controller: Address,
    move: ControllerCall)
    requires Valid(w) && WellSigned(w, s) && strategy in w.strategies
    requires ControllerStep(w.strategies[strategy], strategy, w.token, s.auth, controller, move).Ok?
    requires var r := ControllerStep(w.strategies[strategy], strategy, w.token, s.auth, controller, move).value;
             w' == w.(token := r.1, strategies := w.strategies[strategy := r.0])
    ensures Valid(w') && Nav(w') == Nav(w) + NavChange(w, Call.Controller(strategy, controller, move))
  {
    forall a | a in w.strategies ensures a !in s.auth {
      assert !External(w, a);
    }
    ControllerEffect(w.strategies[strategy], strategy, w.token, s.auth, w.self, controller, move);
    StrategyStepValid(w, w', strategy, w'.strategies[strategy]);
  }

  lemma TokenTransferEffect(w: World, w': World, s: Signers, from: Address, to: Address, amount: int)
    requires Valid(w) && External(w, from)
    requires Transfer(w.token, from, to, amount) == Ok(w'.token) && w' == w.(token := w'.token)
    ensures Valid(w') && Nav(w') == Nav(w) + (if to == w.self then amount else 0)
  {
    TransferExact(w.token, from, to, amount);
    WalletStepValid(w, w');
  }

  lemma ReachableEffect(w: World, w': World, strategy: Address, up: bool)
    requires Valid(w) && strategy in w.strategies
    requires w' == w.(strategies := w.strategies[strategy := w.strategies[strategy].(reachable := up)])
    ensures Valid(w') && Nav(w') == Nav(w)
  {
    StrategyStepValid(w, w', strategy, w'.strategies[strategy]);
  }

  /** How an accepted transaction moves share supply: only users do. */
  function SupplyMove(w: World, call: Call): int {
    if call.User? then SupplyChange(w, call.user) else 0
  }

  /** Every accepted transaction keeps the invariant, moves net asset value by exactly NavChange and
      share supply by exactly SupplyMove, and never changes the vault's address or offset. */
  lemma StepEffect(w: World, tx: Tx)
    requires Valid(w) && Step(w, tx).Ok?
    ensures var w' := Step(w, tx).value;
            && Valid(w') && w'.self == w.self && w'.offset == w.offset
            && Nav(w') == Nav(w) + NavChange(w, tx.call)
            && w'.shares.supply == w.shares.supply + SupplyMove(w, tx.call)
            && (!tx.call.User? ==> w'.shares == w.shares)
  {
    hide UserStep, DepositToSubaccount, WithdrawFromSubaccount, ManageStep, ControllerStep, Transfer;
    var w' := Step(w, tx).value;
    match tx.call
    case User(user) => UserEffect(w, tx.signers, user);
    case ToSubaccount(operator, sub, amount) => ToSubaccountEffect(w, tx.signers, operator, sub, amount);
    case FromSubaccount(operator, sub, amount) => FromSubaccountEffect(w, tx.signers, operator, sub, amount);
    case Management(manage) => ManageEffect(w, w', ContextOf(w, tx.signers, manage), manage);
    case Controller(strategy, controller, move) => ControllerStepEffect(w, w', tx.signers, strategy, controller, move);
    case TokenTransfer(from, to, amount) => TokenTransferEffect(w, w', tx.signers, from, to, amount);
    case Tick(until) => SamePositions(w, w');
    case SetReachable(strategy, up) => ReachableEffect(w, w', strategy, up);
  }

  lemma ApplyValid(w: World, tx: Tx)
    requires Valid(w)
    ensures Valid(Apply(w, tx))
  {
    hide Step;
    if Step(w, tx).Ok? {
      StepEffect(w, tx);
    }
  }

  /** The invariant holds along every run. */
  lemma {:induction false} RunValid(w: World, txs: seq<Tx>)
    requires Valid(w)
    ensures Valid(Run(w, txs))
    decreases |txs|
  {
    if txs != [] {
      ApplyValid(w, txs[0]);
      RunValid(Apply(w, txs[0]), txs[1..]);
    }
  }
}
