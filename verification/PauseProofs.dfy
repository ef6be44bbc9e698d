/** Paused stretches: no share is created or burned, and attributed value can only go down. */
module PauseProofs {
  import opened Common
  import opened Accounting
  import opened AccountingProofs
  import opened StrategyModel
  import opened System
  import opened Effects
  import opened NavAccounting
  import opened BatchProofs
  import opened Traces

  /** How much an accepted seed raises a tracker. */
  function SeedRaise(w: World, call: Call, a: Address): int {
    if call.Management? && call.manage.SeedWalletNetDeployed? && call.manage.sub == a
    then call.manage.amount - Tracker(w.book, a) else 0
  }

  function TotalSeedRaise(w: World, txs: seq<Tx>, a: Address): int
    decreases |txs|
  {
    if txs == [] then 0
    else (if Step(w, txs[0]).Ok? then SeedRaise(w, txs[0].call, a) else 0)
         + TotalSeedRaise(Apply(w, txs[0]), txs[1..], a)
  }

  predicate NoUnpause(txs: seq<Tx>) {
    forall i :: 0 <= i < |txs| ==> !(txs[i].call.Management? && txs[i].call.manage.Unpause?)
  }

  lemma PausedMove(b: Book, c: Context, actor: Address, next: int)
    requires b.paused && ApplyChange(b, c, actor, next).Ok?
    ensures var b' := ApplyChange(b, c, actor, next).value;
            && b'.deployed == next <= b.deployed
            && b'.paused && b'.subs == b.subs && b'.trackers == b.trackers
  {
    ApplyChangeKeeps(b, c, actor, next);
  }

  /** A management call on a paused vault. */
  lemma PausedManage(b: Book, c: Context, call: Manage, a: Address)
    requires BookValid(b) && b.paused && !call.Unpause? && ManageStep(b, c, call).Ok?
    ensures var b' := ManageStep(b, c, call).value;
            && b'.paused && b'.deployed <= b.deployed && (a in b'.subs ==> a in b.subs)
            && Tracker(b', a) <=
                 (if call.SeedWalletNetDeployed? && call.sub == a then call.amount else Tracker(b, a))
  {
    hide ApplyChange, Without, NetDelta, Overwrite, UpdateEvents, DoUpdateWalletDeployedBatch;
    match call
    case UpdateWalletDeployedBatch(operator, updates) => PausedBatchRaisesNothing(b, c, operator, updates, a);
    case RemoveSubaccount(_, sub) => WithoutProperties(b.subs, sub);
    case RemoveWalletAndReconcile(_, operator, sub, newTotal) =>
      WithoutProperties(b.subs, sub);
      PausedMove(b, c, operator, newTotal);
    case UpdateDeployedAssets(operator, amount) => PausedMove(b, c, operator, amount);
    case UpdateWalletDeployed(operator, sub, newTracked) =>
      PausedMove(b, c, operator, b.deployed + newTracked - Tracker(b, sub));
    case _ =>
  }

  lemma PausedUser(w: World, s: Signers, call: UserCall)
    requires w.book.paused && UserStep(w, s, call).Ok?
    ensures call.TransferCall?
  {
  }

  lemma PausedStep(w: World, tx: Tx, a: Address)
    requires Valid(w) && w.book.paused && Step(w, tx).Ok? && NoUnpause([tx])
    ensures var w' := Step(w, tx).value;
            && w'.book.paused && w'.shares.supply == w.shares.supply
            && w'.book.deployed <= w.book.deployed && (a in w'.book.subs ==> a in w.book.subs)
            && Tracker(w'.book, a) <= Tracker(w.book, a) + SeedRaise(w, tx.call, a)
  {
    hide UserStep, DepositToSubaccount, WithdrawFromSubaccount, ManageStep, ControllerStep;
    StepBook(w, tx);
    StepEffect(w, tx);
    match tx.call
    case User(user) => PausedUser(w, tx.signers, user);
    case Management(manage) =>
      assert [tx][0].call.manage == manage;
      PausedManage(w.book, ContextOf(w, tx.signers, manage), manage, a);
    case _ =>
  }

  /** Over any run that starts paused and never unpauses: share supply is constant, the aggregate does
      not grow, no address joins the whitelist, and a tracker rises only by what was seeded into it. */
  lemma {:induction false} PausedStretch(w: World, txs: seq<Tx>, a: Address)
    requires Valid(w) && w.book.paused && NoUnpause(txs)
    ensures var w' := Run(w, txs);
            && w'.book.paused && w'.shares.supply == w.shares.supply
            && w'.book.deployed <= w.book.deployed && (a in w'.book.subs ==> a in w.book.subs)
            && Tracker(w'.book, a) <= Tracker(w.book, a) + TotalSeedRaise(w, txs, a)
    decreases |txs|
  {
    hide Step;
    if txs != [] {
      if Step(w, txs[0]).Ok? {
        assert NoUnpause([txs[0]]);
        PausedStep(w, txs[0], a);
      }
      ApplyValid(w, txs[0]);
      PausedStretch(Apply(w, txs[0]), txs[1..], a);
    }
  }
}
