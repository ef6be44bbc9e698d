/** Nobody loses anything without consent: shares and tokens need their holder, trackers and the aggregate
    need the operator, over whole runs. */
module ConsentProofs {
  import opened Common
  import opened Arithmetic
  import opened Token
  import opened Accounting
  import opened StrategyModel
  import opened System
  import opened Effects
  import opened NavAccounting
  import opened ShareProofs
  import opened WindowProofs
  import opened TradeProofs
  import LimitProofs
  import opened ManagementProofs
  import opened CapitalProofs
  import opened ControllerProofs

  predicate Involved(tx: Tx, a: Address) {
    a in tx.signers.auth || a in tx.signers.approvals
  }

  predicate Uninvolved(txs: seq<Tx>, a: Address) {
    forall i :: 0 <= i < |txs| ==> !Involved(txs[i], a)
  }

  lemma EntryTakesFromPayer(w: World, w': World, from: Address, receiver: Address, assets: int, shares: int, a: Address)
    requires Entered(w, w', from, receiver, assets, shares) && assets >= 0 && shares >= 0
    ensures SharesOf(w', a) >= SharesOf(w, a)
    ensures a != from ==> Balance(w'.token, a) >= Balance(w.token, a)
  {
    assert TokensMoved(w.token, w'.token, from, w.self, assets, a);
  }

  lemma ExitTakesFromOwner(w: World, w': World, owner: Address, receiver: Address, assets: int, shares: int, a: Address)
    requires Left(w, w', owner, receiver, assets, shares) && assets >= 0 && shares >= 0
    ensures a != owner ==> SharesOf(w', a) >= SharesOf(w, a)
    ensures a != w.self ==> Balance(w'.token, a) >= Balance(w.token, a)
  {
    assert TokensMoved(w.token, w'.token, w.self, receiver, assets, a);
  }

  /** What an accepted user call can take from an account that neither signed nor approved it: nothing. */
  lemma UserNeedsConsent(w: World, s: Signers, call: UserCall, a: Address)
    requires Valid(w) && UserStep(w, s, call).Ok? && a !in s.auth && a !in s.approvals
    ensures var w' := UserStep(w, s, call).value;
            && SharesOf(w', a) >= SharesOf(w, a)
            && (a != w.self ==> Balance(w'.token, a) >= Balance(w.token, a))
  {
    hide DepositAssets, MintShares, WithdrawAssets, RedeemShares, TransferShares, Valid, CoversAssets, CoversShares,
         Entered, Left, N, D, RoundsDown, RoundsUp, Readable, Withdrawable, Redeemable;
    var w' := UserStep(w, s, call).value;
    match call
    case DepositCall(assets, receiver, from, operator) =>
      DepositExactly(w, s, assets, receiver, from, operator);
      EntryTakesFromPayer(w, w', from, receiver, assets,
                          DepositAssets(w, s, assets, receiver, from, operator).value.1, a);
    case MintCall(shares, receiver, from, operator) =>
      MintExactly(w, s, shares, receiver, from, operator);
      EntryTakesFromPayer(w, w', from, receiver, MintShares(w, s, shares, receiver, from, operator).value.1, shares, a);
    case WithdrawCall(assets, receiver, owner, operator) =>
      WithdrawExactly(w, s, assets, receiver, owner, operator);
      CoversPositive(w, owner, assets);
      ExitTakesFromOwner(w, w', owner, receiver, assets,
                         WithdrawAssets(w, s, assets, receiver, owner, operator).value.1, a);
    case RedeemCall(shares, receiver, owner, operator) =>
      RedeemExactly(w, s, shares, receiver, owner, operator);
      CoversPositive(w, owner, shares);
      ExitTakesFromOwner(w, w', owner, receiver, RedeemShares(w, s, shares, receiver, owner, operator).value.1,
                         shares, a);
    case TransferCall(holder, to, amount, spender) =>
      TransferExactly(w, s, holder, to, amount, spender);
  }

  lemma CoversPositive(w: World, owner: Address, amount: int)
    ensures CoversAssets(w, owner, amount) || CoversShares(w, owner, amount) ==> amount >= 0
  {
  }

  lemma StepNeedsConsent(w: World, tx: Tx, a: Address)
    requires Valid(w) && Step(w, tx).Ok? && !Involved(tx, a)
    ensures var w' := Step(w, tx).value;
            && SharesOf(w', a) >= SharesOf(w, a)
            && (External(w, a) ==> Balance(w'.token, a) >= Balance(w.token, a))
  {
    hide UserStep, DepositToSubaccount, WithdrawFromSubaccount, ManageStep, ControllerStep, Transfer, Valid, CanTake,
         OnlyMoved, Moves, Obeys, After;
    var w' := Step(w, tx).value;
    match tx.call
    case User(user) => UserNeedsConsent(w, tx.signers, user, a);
    case ToSubaccount(operator, sub, amount) =>
      FundingExactly(w, tx.signers, operator, sub, amount);
      MovedTakesFromPayer(w.token, w'.token, w.self, sub, amount, a);
    case FromSubaccount(operator, sub, amount) =>
      CollectionExactly(w, tx.signers, operator, sub, amount);
      ReturnedNonNegative(w, tx.signers, sub, amount);
      MovedTakesFromPayer(w.token, w'.token, sub, w.self, Returned(w, sub, amount), a);
    case Controller(strategy, controller, call) =>
      ControllerExactly(w, tx.signers, strategy, controller, call);
      if External(w, a) {
        ControllerTakesConsented(w, w', tx.signers, strategy, call, a);
      }
    case TokenTransfer(from, to, amount) =>
      TransferMoves(w.token, from, to, amount);
      MovedTakesFromPayer(w.token, w'.token, from, to, amount, a);
    case _ =>
  }

  lemma MovedTakesFromPayer(t: Ledger, t': Ledger, from: Address, to: Address, amount: int, a: Address)
    requires OnlyMoved(t, t', from, to, amount) && amount >= 0
    ensures a != from ==> Balance(t', a) >= Balance(t, a)
  {
    assert TokensMoved(t, t', from, to, amount, a);
  }

  lemma ReturnedNonNegative(w: World, s: Signers, sub: Address, amount: int)
    requires amount > 0 && CanGive(w, s, sub, amount)
    ensures Returned(w, sub, amount) > 0
    ensures Kind(w.book, sub) == Strategy ==> sub in w.strategies
  {
  }

  lemma ControllerTakesConsented(w: World, w': World, s: Signers, strategy: Address, call: ControllerCall, a: Address)
    requires strategy in w.strategies && Obeys(w.strategies[strategy], strategy, w.token, s.auth, call)
    requires Moves(w.token, w'.token, strategy, call) && a !in s.auth && External(w, a)
    ensures Balance(w'.token, a) >= Balance(w.token, a)
  {
    match call
    case DeployToProtocol(protocol, amount) => MovedTakesFromPayer(w.token, w'.token, strategy, protocol, amount, a);
    case RecallFromProtocol(protocol, amount) => MovedTakesFromPayer(w.token, w'.token, protocol, strategy, amount, a);
    case RecoverDonation(recipient, amount) => MovedTakesFromPayer(w.token, w'.token, strategy, recipient, amount, a);
    case _ =>
  }

  /** No transaction adds or removes a contract. */
  lemma SameAccounts(w: World, tx: Tx)
    requires Valid(w) && Step(w, tx).Ok?
    ensures var w' := Step(w, tx).value; w'.self == w.self && w'.strategies.Keys == w.strategies.Keys
  {
    hide UserStep, DepositToSubaccount, WithdrawFromSubaccount, ManageStep, ControllerStep, Transfer, Valid, CanTake,
         OnlyMoved, Moves, Obeys, After;
    match tx.call
    case User(user) => UserEffect(w, tx.signers, user);
    case ToSubaccount(operator, sub, amount) => FundingExactly(w, tx.signers, operator, sub, amount);
    case FromSubaccount(operator, sub, amount) => CollectionExactly(w, tx.signers, operator, sub, amount);
    case _ =>
  }

  /** Over any run in which an account neither signs nor approves anything its shares do not fall, and
      neither do its tokens if it is no contract of the system. */
  lemma {:induction false} HoldingsNeedConsent(w: World, txs: seq<Tx>, a: Address)
    requires Valid(w) && Uninvolved(txs, a)
    ensures SharesOf(Run(w, txs), a) >= SharesOf(w, a)
    ensures External(w, a) ==> Balance(Run(w, txs).token, a) >= Balance(w.token, a)
    decreases |txs|
  {
    hide Step, Valid;
    if txs != [] {
      if Step(w, txs[0]).Ok? {
        StepNeedsConsent(w, txs[0], a);
        SameAccounts(w, txs[0]);
      }
      ApplyValid(w, txs[0]);
      HoldingsNeedConsent(Apply(w, txs[0]), txs[1..], a);
    }
  }

  // ---- the operator's consent ----

  predicate OperatorSilent(b: Book, auth: set<Address>) {
    b.operator.Some? ==> b.operator.value !in auth
  }

  /** No transaction of the run is signed by the operator of its time. */
  predicate OperatorSilentRun(w: World, txs: seq<Tx>)
    decreases |txs|
  {
    txs != [] ==> OperatorSilent(w.book, txs[0].signers.auth) && OperatorSilentRun(Apply(w, txs[0]), txs[1..])
  }

  /** A management call without the operator's signature. */
  lemma AdminAloneManages(w: World, b': Book, auth: set<Address>, call: Manage, a: Address)
    requires Valid(w) && Permits(w, auth, call) && Outcome(w.book, b', w.now, call) && OperatorSilent(w.book, auth)
    ensures b'.deployed == w.book.deployed && Tracker(b', a) >= Tracker(w.book, a)
  {
    hide Delisted, Answers, BatchPermitted, WindowMoved, Valid, LimitProofs.MayMove;
  }

  lemma StepNeedsOperator(w: World, tx: Tx, a: Address)
    requires WindowTimed(w) && Step(w, tx).Ok? && OperatorSilent(w.book, tx.signers.auth)
    ensures var b' := Step(w, tx).value.book;
            b'.deployed == w.book.deployed && Tracker(b', a) >= Tracker(w.book, a)
  {
    hide UserStep, DepositToSubaccount, WithdrawFromSubaccount, ManageStep, ControllerStep, Transfer, Valid, CanTake,
         OnlyMoved, Moves, Obeys, After, Permits, Outcome, Tracker;
    match tx.call
    case User(user) => UserEffect(w, tx.signers, user);
    case ToSubaccount(operator, sub, amount) => FundingExactly(w, tx.signers, operator, sub, amount);
    case FromSubaccount(operator, sub, amount) => CollectionExactly(w, tx.signers, operator, sub, amount);
    case Management(manage) =>
      ManagementExactly(w, tx.signers, manage);
      AdminAloneManages(w, Step(w, tx).value.book, tx.signers.auth, manage, a);
    case _ =>
  }

  /** The admin alone cannot strand value: over any run that the operator of the time signs no part of, the
      aggregate stays as it is and no wallet's tracker falls. */
  lemma {:induction false} TrackersNeedOperator(w: World, txs: seq<Tx>, a: Address)
    requires WindowTimed(w) && OperatorSilentRun(w, txs)
    ensures Run(w, txs).book.deployed == w.book.deployed
    ensures Tracker(Run(w, txs).book, a) >= Tracker(w.book, a)
    decreases |txs|
  {
    hide Step, WindowTimed;
    if txs != [] {
      if Step(w, txs[0]).Ok? {
        StepNeedsOperator(w, txs[0], a);
        StepTimed(w, txs[0]);
      }
      TrackersNeedOperator(Apply(w, txs[0]), txs[1..], a);
    }
  }
}
