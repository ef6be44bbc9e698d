/** Runs from construction on which the documentation's promises fail, one transaction at a time. */
module Witnesses {
  import opened Common
  import opened Arithmetic
  import opened Sums
  import opened Token
  import opened Limiter
  import opened Accounting
  import opened StrategyModel
  import opened System
  import opened Promises
  import opened WindowProofs

  const VAULT := Address(0)
  const USER := Address(1)
  const WALLET := Address(2)
  const ADMIN := Address(3)
  const OPERATOR := Address(4)
  const XLM := Address(5)
  const CONTROLLER := Address(6)
  const PROTOCOL := Address(7)
  const HEIR := Address(8)

  lemma {:induction false} RunSnoc(w: World, txs: seq<Tx>, tx: Tx)
    ensures Run(w, txs + [tx]) == Apply(Run(w, txs), tx)
    decreases |txs|
  {
    if txs == [] {
      assert Run(w, [tx]) == Run(Apply(w, tx), []);
    } else {
      assert (txs + [tx])[1..] == txs[1..] + [tx];
      RunSnoc(Apply(w, txs[0]), txs[1..], tx);
    }
  }

  lemma UnitOfThree()
    ensures Pow(10, 3) == 1000
  {
    assert Pow(10, 1) == 10;
  }

  // ---- one user, one wallet ----

  const START := World(1, VAULT, 3, map[USER := 100], Shares(map[], 0), InitialBook(ADMIN), map[])

  const TX_OPERATOR := Tx(Signers({ADMIN}, {}), Management(SetOperator(ADMIN, OPERATOR)))
  const TX_LIST := Tx(Signers({ADMIN}, {}), Management(AddSubaccount(ADMIN, WALLET, Wallet)))
  const TX_DEPOSIT := Tx(Signers({USER}, {}), User(DepositCall(100, USER, USER, USER)))
  const TX_INVEST := Tx(Signers({OPERATOR}, {}), ToSubaccount(OPERATOR, WALLET, 100))

  const CONFIGURED := START.(book := START.book.(operator := Some(OPERATOR)))
  const LISTED := CONFIGURED.(book := CONFIGURED.book.(
    subs := [WALLET], kinds := map[WALLET := Wallet], log := [SubaccountAdded(WALLET, Wallet)]))
  const FUNDED := LISTED.(token := map[USER := 0, VAULT := 100], shares := Shares(map[USER := 100_000], 100_000))
  const INVESTED := FUNDED.(
    token := map[USER := 0, VAULT := 0, WALLET := 100],
    book := FUNDED.book.(
      deployed := 100, trackers := map[WALLET := 100],
      log := [SubaccountAdded(WALLET, Wallet), DepositedToSubaccount(WALLET, 100, 100)]))

  const FUNDING := [TX_OPERATOR] + [TX_LIST] + [TX_DEPOSIT]

  lemma StartIsGenesis()
    ensures Genesis(START)
  {
    SumOverPick(START.token.Keys, a => Balance(START.token, a), USER);
    assert START.token.Keys - {USER} == {};
  }

  lemma Configures()
    ensures Step(START, TX_OPERATOR) == Ok(CONFIGURED)
  {
  }

  lemma Lists()
    ensures Step(CONFIGURED, TX_LIST) == Ok(LISTED)
  {
    var b := CONFIGURED.book;
    assert b.subs + [WALLET] == LISTED.book.subs && b.kinds[WALLET := Wallet] == LISTED.book.kinds;
    assert b.log + [SubaccountAdded(WALLET, Wallet)] == LISTED.book.log;
  }

  lemma WalletsAddNothing(w: World)
    requires w.book.subs == [WALLET] && Kind(w.book, WALLET) == Wallet
    ensures QueryStrategies(w, 1) == Ok(0)
  {
    assert QueryStrategies(w, 0) == Ok(0);
  }

  lemma Deposits()
    ensures Step(LISTED, TX_DEPOSIT) == Ok(FUNDED)
  {
    UnitOfThree();
    WalletsAddNothing(LISTED);
    assert TotalAssets(LISTED) == Ok(0);
    assert PreviewDeposit(LISTED, 100) == Ok(100_000);
    assert Credit(Credit(LISTED.token, USER, -100), VAULT, 100) == FUNDED.token;
    assert Credit(map[], USER, 100_000) == FUNDED.shares.balances;
  }

  lemma Invests(window: Window)
    ensures Step(FUNDED.(book := FUNDED.book.(window := window)), TX_INVEST)
            == Ok(INVESTED.(book := INVESTED.book.(window := window)))
  {
    assert Credit(Credit(FUNDED.token, VAULT, -100), WALLET, 100) == INVESTED.token;
    var b := FUNDED.book;
    assert b.trackers[WALLET := 100] == INVESTED.book.trackers;
    assert b.log + [DepositedToSubaccount(WALLET, 100, 100)] == INVESTED.book.log;
  }

  lemma FundingRun()
    ensures Run(START, FUNDING) == FUNDED
    ensures Run(START, FUNDING + [TX_INVEST]) == INVESTED
  {
    Configures();
    Lists();
    Deposits();
    Invests(INITIAL_WINDOW);
    RunSnoc(START, [], TX_OPERATOR);
    RunSnoc(START, [TX_OPERATOR], TX_LIST);
    RunSnoc(START, [TX_OPERATOR] + [TX_LIST], TX_DEPOSIT);
    RunSnoc(START, FUNDING, TX_INVEST);
    assert [] + [TX_OPERATOR] == [TX_OPERATOR];
  }

  // ---- remove_wallet_and_reconcile ----

  const TX_REMOVE := Tx(Signers({ADMIN, OPERATOR}, {}),
                        Management(RemoveWalletAndReconcile(ADMIN, OPERATOR, WALLET, 100)))
  const STRANDED := INVESTED.(book := INVESTED.book.(
    subs := [], kinds := map[], trackers := map[],
    log := INVESTED.book.log + [DeployedAssetsChanged(OPERATOR, 100, 100)] + [SubaccountRemoved(WALLET, 100, Wallet)]))

  lemma OnlyTracker(b: Book)
    requires b.subs == [WALLET]
    ensures TrackerSum(b) == Attributed(b, WALLET)
  {
    assert b.subs[..0] == [];
    assert SumBy(b.subs[..0], a => Attributed(b, a)) == 0;
  }

  lemma Removes()
    ensures Step(INVESTED, TX_REMOVE) == Ok(STRANDED)
  {
    var b := INVESTED.book;
    assert IndexOf(b.subs, WALLET) == 0 && Without(b.subs, WALLET) == [];
    assert b.kinds - {WALLET} == map[] && b.trackers - {WALLET} == map[];
  }

  /** The aggregate and the tracker agree at 100; removing the wallet without a write-down is accepted and
      leaves 100 units in the aggregate that no tracker accounts for. */
  lemma ReconcileStrandsValue()
    ensures Genesis(START)
    ensures var b := Run(START, FUNDING + [TX_INVEST]).book; TrackerSum(b) == b.deployed == 100
    ensures var b := Run(START, FUNDING + [TX_INVEST] + [TX_REMOVE]).book; TrackerSum(b) == 0 && b.deployed == 100
  {
    StartIsGenesis();
    FundingRun();
    OnlyTracker(INVESTED.book);
    Removes();
    RunSnoc(START, FUNDING + [TX_INVEST], TX_REMOVE);
  }

  // ---- DeployedAssetsChanged ----

  /** The accepted investment takes the aggregate from 0 to 100, and no event so far announces a change. */
  lemma InvestmentGoesUnannounced()
    ensures Genesis(START)
    ensures var w := Run(START, FUNDING);
            var r := Step(w, TX_INVEST);
            && r.Ok? && w.book.deployed == 0 && r.value.book.deployed == 100
            && !AnnouncedFrom(r.value.book.log, 0)
  {
    StartIsGenesis();
    FundingRun();
    Invests(INITIAL_WINDOW);
  }

  // ---- max_redeem after a loss ----

  const TX_LOSS := Tx(Signers({OPERATOR}, {}), Management(UpdateWalletDeployed(OPERATOR, WALLET, 95)))
  const TX_RETURN := Tx(Signers({OPERATOR}, {WALLET}), FromSubaccount(OPERATOR, WALLET, 95))
  const WRITTEN_DOWN := INVESTED.(book := INVESTED.book.(
    deployed := 95, trackers := map[WALLET := 95],
    window := INITIAL_WINDOW.(start := 1, decrease := 5, base := 100),
    log := INVESTED.book.log + [DeployedAssetsChanged(OPERATOR, 100, 95)] + [WalletDeployedUpdated(WALLET, 100, 95,
      -5)]))
  const RETURNED := WRITTEN_DOWN.(
    token := map[USER := 0, VAULT := 95, WALLET := 5],
    book := WRITTEN_DOWN.book.(
      deployed := 0, trackers := map[WALLET := 0],
      log := WRITTEN_DOWN.book.log + [WithdrawnFromSubaccount(WALLET, 95, 95)]))
  const LOSS := FUNDING + [TX_INVEST] + [TX_LOSS] + [TX_RETURN]

  lemma WritesDown()
    ensures Step(INVESTED, TX_LOSS) == Ok(WRITTEN_DOWN)
  {
    var b := INVESTED.book;
    assert CheckChange(b.limits, b.window, 1, 100, 95) == Ok(WRITTEN_DOWN.book.window);
    assert b.trackers[WALLET := 95] == WRITTEN_DOWN.book.trackers;
  }

  lemma Returns()
    ensures Step(WRITTEN_DOWN, TX_RETURN) == Ok(RETURNED)
  {
    assert Credit(Credit(WRITTEN_DOWN.token, WALLET, -95), VAULT, 95) == RETURNED.token;
    assert WRITTEN_DOWN.book.trackers[WALLET := 0] == RETURNED.book.trackers;
  }

  lemma LossRun()
    ensures Run(START, LOSS) == RETURNED
  {
    FundingRun();
    WritesDown();
    Returns();
    RunSnoc(START, FUNDING + [TX_INVEST], TX_LOSS);
    RunSnoc(START, FUNDING + [TX_INVEST] + [TX_LOSS], TX_RETURN);
  }

  lemma ReturnedTotal()
    ensures TotalAssets(RETURNED) == Ok(95) && Unit(RETURNED) == 1000
  {
    UnitOfThree();
    WalletsAddNothing(RETURNED);
  }

  /** After a 5% loss, with every unit back in the vault, max_redeem is below the only holder's balance. */
  lemma LossShrinksMaxRedeem()
    ensures Genesis(START)
    ensures var w := Run(START, LOSS);
            && TotalAssets(w) == Ok(Local(w)) && w.book.deployed == 0
            && SharesOf(w, USER) == w.shares.supply == 100_000 && MaxRedeem(w, USER) == Ok(99_947)
  {
    StartIsGenesis();
    LossRun();
    ReturnedTotal();
  }

  /** In the same state a redemption of one share, well within max_redeem, traps. */
  lemma DustTrapsWithinMaxRedeem()
    ensures var w := Run(START, LOSS);
            && MaxRedeem(w, USER).Ok? && 1 <= MaxRedeem(w, USER).value
            && Step(w, Tx(Signers({USER}, {}), User(RedeemCall(1, USER, USER, USER)))) == Err(VaultInvalidSharesAmount)
  {
    LossShrinksMaxRedeem();
    LossRun();
    ReturnedTotal();
  }

  // ---- a window reset at a zero aggregate ----

  const TX_RESET := Tx(Signers({ADMIN}, {}), Management(SetAumWindowLimits(ADMIN, 3_600, 1_000, 500)))
  const TX_RAISE := Tx(Signers({OPERATOR}, {}), Management(UpdateWalletDeployed(OPERATOR, WALLET, 110)))
  const ZERO_BASED := Window(3_600, 1_000, 500, 1, 0, 0, 0)
  const RAISED := INVESTED.(book := INVESTED.book.(
    window := ZERO_BASED, deployed := 110, trackers := map[WALLET := 110],
    log := INVESTED.book.log + [DeployedAssetsChanged(OPERATOR, 100, 110)] + [WalletDeployedUpdated(WALLET, 100, 110,
      10)]))

  lemma Raises()
    ensures Step(INVESTED_AT_ZERO, TX_RAISE) == Ok(RAISED)
  {
    var b := INVESTED.book;
    assert CheckChange(b.limits, ZERO_BASED, 1, 100, 110) == Ok(ZERO_BASED);
    assert b.trackers[WALLET := 110] == RAISED.book.trackers;
  }

  const ZERO_BASED_RUN := FUNDING + [TX_RESET] + [TX_INVEST]
  const INVESTED_AT_ZERO := INVESTED.(book := INVESTED.book.(window := ZERO_BASED))

  lemma ResetsAtZero()
    ensures Step(FUNDED, TX_RESET) == Ok(FUNDED.(book := FUNDED.book.(window := ZERO_BASED)))
  {
  }

  lemma ZeroBasedRun()
    ensures Run(START, ZERO_BASED_RUN) == INVESTED_AT_ZERO
  {
    hide Step;
    FundingRun();
    ResetsAtZero();
    Invests(ZERO_BASED);
    RunSnoc(START, FUNDING, TX_RESET);
    RunSnoc(START, FUNDING + [TX_RESET], TX_INVEST);
  }

  lemma RaiseAlone()
    ensures Run(INVESTED_AT_ZERO, [TX_RAISE]) == RAISED
    ensures TotalRatedIncrease(INVESTED_AT_ZERO, [TX_RAISE]) == 10 && TotalResets(INVESTED_AT_ZERO, [TX_RAISE]) == 0
  {
    Raises();
    hide Step;
    assert [TX_RAISE][1..] == [];
    assert Run(RAISED, []) == RAISED && TotalRatedIncrease(RAISED, []) == 0 && TotalResets(RAISED, []) == 0;
  }

  /** Why the two-base bound asks for a positive base: in a started window whose base is zero a 10% raise
      passes, although the limits of both bases together allow nothing. */
  lemma ZeroBaseBoundsNothing()
    ensures var w := Run(START, ZERO_BASED_RUN);
            var (win, win') := (w.book.window, Run(w, [TX_RAISE]).book.window);
            && win.start > 0 && win.base == win'.base == 0 && TotalResets(w, [TX_RAISE]) == 0
            && TotalRatedIncrease(w, [TX_RAISE]) * BPS > win.increaseBps * (win.base + win'.base)
  {
    ZeroBasedRun();
    RaiseAlone();
    hide Run, TotalRatedIncrease, TotalResets;
  }

  // ---- seed_local_balance ----

  const DONATED := World(1, VAULT, 3, map[XLM := 8], Shares(map[], 0), InitialBook(ADMIN),
                         map[XLM := StrategyState(VAULT, CONTROLLER, 0, 0, false, true)])

  function ControllerTx(call: ControllerCall): Tx {
    Tx(Signers({CONTROLLER}, {}), Controller(XLM, CONTROLLER, call))
  }

  const TX_SEED := ControllerTx(SeedLocalBalance(5))
  const TX_DEPLOY := ControllerTx(DeployToProtocol(PROTOCOL, 5))
  const TX_SEED_AGAIN := ControllerTx(SeedLocalBalance(3))

  const SEEDED := DONATED.(strategies := map[XLM := StrategyState(VAULT, CONTROLLER, 5, 0, false, true)])
  const DEPLOYED := World(1, VAULT, 3, map[XLM := 3, PROTOCOL := 5], Shares(map[], 0), InitialBook(ADMIN),
                          map[XLM := StrategyState(VAULT, CONTROLLER, 0, 5, true, true)])
  const RESEEDED := DEPLOYED.(strategies := map[XLM := StrategyState(VAULT, CONTROLLER, 3, 5, true, true)])

  lemma DonatedIsGenesis()
    ensures Genesis(DONATED)
  {
    SumOverPick(DONATED.token.Keys, a => Balance(DONATED.token, a), XLM);
    assert DONATED.token.Keys - {XLM} == {};
  }

  lemma Seeds()
    ensures Step(DONATED, TX_SEED) == Ok(SEEDED)
  {
    assert DONATED.strategies[XLM := SEEDED.strategies[XLM]] == SEEDED.strategies;
  }

  lemma Deploys()
    ensures Step(SEEDED, TX_DEPLOY) == Ok(DEPLOYED)
  {
    assert SEEDED.strategies[XLM := DEPLOYED.strategies[XLM]] == DEPLOYED.strategies;
    assert Credit(Credit(SEEDED.token, XLM, -5), PROTOCOL, 5) == DEPLOYED.token;
  }

  lemma SeedsAgain()
    ensures Step(DEPLOYED, TX_SEED_AGAIN) == Ok(RESEEDED)
  {
    assert DEPLOYED.strategies[XLM := RESEEDED.strategies[XLM]] == RESEEDED.strategies;
  }

  /** A strategy that was seeded and deployed the seed takes a second positive seed. */
  lemma SeedReopens()
    ensures Genesis(DONATED)
    ensures var w := Run(DONATED, [TX_SEED] + [TX_DEPLOY]);
            Step(w, TX_SEED_AGAIN).Ok? && SeedsPositively(TX_SEED_AGAIN.call, XLM)
    ensures PositiveSeeds(DONATED, [TX_SEED] + [TX_DEPLOY], XLM) == 1
  {
    DonatedIsGenesis();
    Seeds();
    Deploys();
    SeedsAgain();
    RunSnoc(DONATED, [], TX_SEED);
    RunSnoc(DONATED, [TX_SEED], TX_DEPLOY);
    assert [] + [TX_SEED] == [TX_SEED];
    var txs := [TX_SEED] + [TX_DEPLOY];
    assert txs[1..] == [TX_DEPLOY] && txs[1..][1..] == [];
    assert PositiveSeeds(SEEDED, [TX_DEPLOY], XLM) == 0 by {
      assert PositiveSeeds(DEPLOYED, [], XLM) == 0;
    }
  }

  // ---- handing the admin role over ----

  const TX_PROPOSE := Tx(Signers({ADMIN}, {}), Management(ProposeAdmin(ADMIN, HEIR, 10)))
  const TX_ACCEPT := Tx(Signers({HEIR}, {}), Management(AcceptAdmin))
  const TX_HEIR_PAUSES := Tx(Signers({HEIR}, {}), Management(Pause(HEIR)))

  const HEIR_PENDING := START.(book := START.book.(pendingAdmin := Some(HEIR), proposalExpiry := Some(10)))
  const HEIR_RULES := START.(book := START.book.(admin := HEIR))

  lemma ProposesAndAccepts()
    ensures Step(START, TX_PROPOSE) == Ok(HEIR_PENDING)
    ensures Step(HEIR_PENDING, TX_ACCEPT) == Ok(HEIR_RULES)
  {
  }

  /** Neither admin nor operator signs the acceptance, and yet it changes who may sign next. */
  lemma HeirTakesOver()
    ensures Genesis(START)
    ensures var w := Run(START, [TX_PROPOSE]);
            && w.book.admin !in TX_ACCEPT.signers.auth && w.book.operator.None?
            && Step(w, TX_ACCEPT).Ok? && Step(w, TX_HEIR_PAUSES).Err?
    ensures var w := Run(START, [TX_PROPOSE] + [TX_ACCEPT]);
            w.book.admin == HEIR && w.book.pendingAdmin.None? && Step(w, TX_HEIR_PAUSES).Ok?
  {
    StartIsGenesis();
    ProposesAndAccepts();
    RunSnoc(START, [], TX_PROPOSE);
    RunSnoc(START, [TX_PROPOSE], TX_ACCEPT);
    assert [] + [TX_PROPOSE] == [TX_PROPOSE];
  }
}
