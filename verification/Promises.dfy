/** Where the documentation promises more than the code keeps: exactly when each promise holds. */
module Promises {
  import opened Common
  import opened Token
  import opened Accounting
  import opened AccountingProofs
  import opened StrategyModel
  import opened System
  import opened Effects
  import opened NavAccounting
  import opened Traces
  import opened StrategyProofs

  // ---- remove_wallet_and_reconcile and the tracker sum ----

  /** Removing a wallet keeps tracker sum and aggregate in step exactly when the new total is the old one
      less the wallet's tracker. */
  lemma ReconcileKeepsSumExactly(b: Book, c: Context, admin: Address, operator: Address, sub: Address, newTotal: int)
    requires BookValid(b) && TrackerSum(b) == b.deployed
    requires ManageStep(b, c, RemoveWalletAndReconcile(admin, operator, sub, newTotal)).Ok?
    ensures var b' := ManageStep(b, c, RemoveWalletAndReconcile(admin, operator, sub, newTotal)).value;
            TrackerSum(b') == b'.deployed <==> newTotal == b.deployed - Tracker(b, sub)
  {
    ManageKeeps(b, c, RemoveWalletAndReconcile(admin, operator, sub, newTotal));
  }

  // ---- seed_local_balance ----

  predicate SeedsPositively(call: Call, a: Address) {
    call.Controller? && call.strategy == a && call.call.SeedLocalBalance? && call.call.amount > 0
  }

  /** A transaction that takes a positive idle tracker to zero. */
  predicate Drains(w: World, tx: Tx, a: Address) {
    var w' := Apply(w, tx);
    a in w.strategies && a in w'.strategies && w.strategies[a].local > 0 && w'.strategies[a].local == 0
  }

  /** Accepted seeds of a positive amount. */
  function PositiveSeeds(w: World, txs: seq<Tx>, a: Address): nat
    decreases |txs|
  {
    if txs == [] then 0
    else (if Step(w, txs[0]).Ok? && SeedsPositively(txs[0].call, a) then 1 else 0)
         + PositiveSeeds(Apply(w, txs[0]), txs[1..], a)
  }

  function Drainings(w: World, txs: seq<Tx>, a: Address): nat
    decreases |txs|
  {
    if txs == [] then 0
    else (if Drains(w, txs[0], a) then 1 else 0) + Drainings(Apply(w, txs[0]), txs[1..], a)
  }

  lemma SeedFillsEmptyTracker(w: World, tx: Tx, a: Address)
    requires Valid(w) && a in w.strategies && Step(w, tx).Ok? && SeedsPositively(tx.call, a)
    ensures w.strategies[a].local == 0
    ensures var w' := Step(w, tx).value; a in w'.strategies && w'.strategies[a].local > 0
  {
    StepStrategy(w, tx, a);
  }

  /** The exact sense in which seeding is one-time: each positive seed after the first needs the tracker
      to have been drained to zero in between, so a run that never drains it accepts at most one. */
  lemma {:induction false} SeedsNeedDrains(w: World, txs: seq<Tx>, a: Address)
    requires Valid(w) && a in w.strategies
    ensures PositiveSeeds(w, txs, a) <= Drainings(w, txs, a) + (if w.strategies[a].local == 0 then 1 else 0)
    decreases |txs|
  {
    hide Step;
    if txs != [] {
      ApplyValid(w, txs[0]);
      if Step(w, txs[0]).Ok? {
        StepStrategy(w, txs[0], a);
        if SeedsPositively(txs[0].call, a) {
          SeedFillsEmptyTracker(w, txs[0], a);
        }
      }
      SeedsNeedDrains(Apply(w, txs[0]), txs[1..], a);
    }
  }

  /** After any run from an empty tracker, a next positive seed by the controller is accepted exactly when
      everything the tracker took in has left it again and the tokens are there. */
  lemma NextSeedAcceptedExactly(w: World, txs: seq<Tx>, a: Address, s: Signers, amount: int)
    requires Valid(w) && a in w.strategies && w.strategies[a].local == 0 && amount > 0
    ensures a in Run(w, txs).strategies
    ensures var w' := Run(w, txs);
            var st := w'.strategies[a];
            Step(w', Tx(s, Controller(a, st.controller, SeedLocalBalance(amount)))).Ok? <==>
              && WellSigned(w', s) && st.controller in s.auth && st.reachable
              && amount <= Balance(w'.token, a) && TotalLocalMoves(w, txs, a) == 0
  {
    hide Run, TotalLocalMoves, Valid;
    LocalBalanceLedger(w, txs, a);
  }

  // ---- the event every aggregate change is said to emit ----

  predicate Announces(e: Event) {
    e.DeployedAssetsChanged?
  }

  /** Some event from position n on announces a change of the aggregate. */
  predicate AnnouncedFrom(log: seq<Event>, n: nat) {
    exists i :: n <= i < |log| && Announces(log[i])
  }

  lemma NoteDepositSilent(b: Book, sub: Address, requested: int, sent: int)
    requires NoteDeposit(b, sub, requested, sent).Ok?
    ensures !AnnouncedFrom(NoteDeposit(b, sub, requested, sent).value.log, |b.log|)
  {
  }

  lemma NoteWithdrawalSilent(b: Book, sub: Address, requested: int, received: int)
    requires NoteWithdrawal(b, sub, requested, received).Ok?
    ensures !AnnouncedFrom(NoteWithdrawal(b, sub, requested, received).value.log, |b.log|)
  {
  }

  /** Every reconciliation announces the aggregate it leaves behind. */
  lemma ReconciliationAnnounces(b: Book, c: Context, call: Manage)
    requires MovesAggregate(call) && ManageStep(b, c, call).Ok?
    ensures AnnouncedFrom(ManageStep(b, c, call).value.log, |b.log|)
  {
    hide ApplyChange, NetDelta, Overwrite, UpdateEvents, DistinctTargets;
    var log := ManageStep(b, c, call).value.log;
    var next := b.deployed + DeployedChange(b, call);
    if call.UpdateWalletDeployedBatch? {
      NetDeltaIsTargetSum(b, call.updates);
    }
    ApplyChangeKeeps(b, c, call.operator, next);
    assert Announces(log[|b.log|]);
  }

  /** A transaction that changes the aggregate announces it exactly when it is a reconciliation: wallet
      deposits and withdrawals write the aggregate without a DeployedAssetsChanged. */
  lemma AnnouncedExactly(w: World, tx: Tx)
    requires Valid(w) && Step(w, tx).Ok? && Step(w, tx).value.book.deployed != w.book.deployed
    ensures AnnouncedFrom(Step(w, tx).value.book.log, |w.book.log|) <==> tx.call.Management?
  {
    hide Step, ManageStep, NoteDeposit, NoteWithdrawal;
    StepBook(w, tx);
    match tx.call
    case ToSubaccount(_, sub, amount) => NoteDepositSilent(w.book, sub, amount, amount);
    case FromSubaccount(_, sub, amount) => NoteWithdrawalSilent(w.book, sub, amount, Received(w, sub, amount));
    case Management(manage) =>
      var c := ContextOf(w, tx.signers, manage);
      ManageDeployed(w.book, c, manage);
      ReconciliationAnnounces(w.book, c, manage);
    case _ =>
  }
}
