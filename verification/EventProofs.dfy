/** Events tell the truth: every field of every emitted event agrees with the state before and after. */
module EventProofs {
  import opened Common
  import opened Token
  import opened Accounting
  import opened AccountingProofs
  import opened System
  import opened Effects
  import opened NavAccounting
  import opened BatchProofs
  import opened WindowProofs
  import opened TradeProofs
  import opened LimitProofs
  import opened ManagementProofs
  import opened CapitalProofs

  /** What an event that accompanies the step from b to b' has to say. */
  predicate Truthful(e: Event, b: Book, b': Book) {
    match e
    case SubaccountAdded(sub, kind) => sub !in b.subs && sub in b'.subs && Kind(b', sub) == kind
    case SubaccountRemoved(sub, totalDeployed, kind) =>
      sub in b.subs && sub !in b'.subs && totalDeployed == b'.deployed && kind == Kind(b, sub)
    case DepositedToSubaccount(sub, requested, actual) => sub in b.subs && 0 < actual == requested
    case WithdrawnFromSubaccount(sub, requested, actual) => sub in b.subs && 0 < actual <= requested
    case DeployedAssetsChanged(caller, oldAmount, newAmount) =>
      Some(caller) == b.operator && oldAmount == b.deployed && newAmount == b'.deployed
    case WalletDeployedUpdated(sub, oldTracked, newTracked, delta) =>
      oldTracked == Tracker(b, sub) && newTracked == Tracker(b', sub) && delta == newTracked - oldTracked
    case WalletDeployedBatchApplied(count, netDelta) => netDelta == b'.deployed - b.deployed
    case WalletNetDeployedSeeded(sub, oldAmount, newAmount) =>
      oldAmount == Tracker(b, sub) && newAmount == Tracker(b', sub)
  }

  /** The log grew, by truthful events only. */
  predicate GrewTruthfully(b: Book, b': Book) {
    b.log <= b'.log && forall i :: |b.log| <= i < |b'.log| ==> Truthful(b'.log[i], b, b')
  }

  lemma OneMore(b: Book, b': Book, e: Event)
    requires b'.log == b.log + [e] && Truthful(e, b, b')
    ensures GrewTruthfully(b, b')
  {
  }

  lemma TwoMore(b: Book, b': Book, e: Event, f: Event)
    requires b'.log == b.log + [e] + [f] && Truthful(e, b, b') && Truthful(f, b, b')
    ensures GrewTruthfully(b, b')
  {
  }

  lemma ReconciliationTruthful(b: Book, c: Context, call: Manage)
    requires BookValid(b) && WindowValid(b.window) && ManageStep(b, c, call).Ok?
    requires call.UpdateDeployedAssets?
    ensures GrewTruthfully(b, ManageStep(b, c, call).value)
  {
    hide ApplyChange, GrewTruthfully, BookValid, WindowValid;
    MovesExactly(b, c, call.operator, call.amount);
    OneMore(b, ManageStep(b, c, call).value, DeployedAssetsChanged(call.operator, b.deployed, call.amount));
  }

  lemma SingleTruthful(b: Book, c: Context, call: Manage)
    requires BookValid(b) && WindowValid(b.window) && ManageStep(b, c, call).Ok?
    requires call.UpdateWalletDeployed?
    ensures GrewTruthfully(b, ManageStep(b, c, call).value)
  {
    hide ApplyChange, GrewTruthfully, BookValid, WindowValid, Kind, Records;
    var prev := Tracker(b, call.sub);
    var next := b.deployed + call.newTracked - prev;
    MovesExactly(b, c, call.operator, next);
    TwoMore(b, ManageStep(b, c, call).value, DeployedAssetsChanged(call.operator, b.deployed, next),
            WalletDeployedUpdated(call.sub, prev, call.newTracked, call.newTracked - prev));
  }

  lemma RemovalTruthful(b: Book, c: Context, call: Manage)
    requires BookValid(b) && WindowValid(b.window) && ManageStep(b, c, call).Ok?
    requires call.RemoveSubaccount? || call.RemoveWalletAndReconcile?
    ensures GrewTruthfully(b, ManageStep(b, c, call).value)
  {
    hide ApplyChange, GrewTruthfully, WindowValid, Without;
    var b' := ManageStep(b, c, call).value;
    WithoutProperties(b.subs, call.sub);
    if call.RemoveSubaccount? {
      OneMore(b, b', SubaccountRemoved(call.sub, b.deployed, Kind(b, call.sub)));
    } else {
      MovesExactly(b, c, call.operator, call.newTotal);
      TwoMore(b, b', DeployedAssetsChanged(call.operator, b.deployed, call.newTotal),
              SubaccountRemoved(call.sub, call.newTotal, Wallet));
    }
  }

  lemma BatchTruthful(b: Book, c: Context, call: Manage)
    requires BookValid(b) && WindowValid(b.window) && ManageStep(b, c, call).Ok? && call.UpdateWalletDeployedBatch?
    ensures var b' := ManageStep(b, c, call).value;
            && GrewTruthfully(b, b')
            && |b'.log| == |b.log| + |call.updates| + 2
            && b'.log[|b'.log| - 1] == WalletDeployedBatchApplied(|call.updates|, b'.deployed - b.deployed)
  {
    hide ApplyChange, NetDelta, Overwrite, WindowValid, BookValid, Records;
    var b' := ManageStep(b, c, call).value;
    var updates := call.updates;
    NetDeltaIsTargetSum(b, updates);
    MovesExactly(b, c, call.operator, b.deployed + TargetSum(b, updates));
    OverwriteLookup(b.trackers, updates);
    EntriesTruthful(b, b', updates);
    hide UpdateEvents;
    ManyMore(b, b', DeployedAssetsChanged(call.operator, b.deployed, b'.deployed), UpdateEvents(b, updates),
             WalletDeployedBatchApplied(|updates|, b'.deployed - b.deployed));
  }

  lemma EntriesTruthful(b: Book, b': Book, updates: seq<(Address, int)>)
    requires forall i :: 0 <= i < |updates| ==> Tracker(b', updates[i].0) == updates[i].1
    ensures |UpdateEvents(b, updates)| == |updates|
    ensures forall e :: e in UpdateEvents(b, updates) ==> Truthful(e, b, b')
  {
  }

  lemma ManyMore(b: Book, b': Book, e: Event, more: seq<Event>, f: Event)
    requires b'.log == b.log + [e] + more + [f] && Truthful(e, b, b') && Truthful(f, b, b')
    requires forall m :: m in more ==> Truthful(m, b, b')
    ensures GrewTruthfully(b, b')
  {
    hide Truthful;
    forall i | |b.log| <= i < |b'.log| ensures Truthful(b'.log[i], b, b') {
      if |b.log| < i < |b'.log| - 1 {
        assert b'.log[i] == more[i - |b.log| - 1];
      }
    }
  }

  lemma ManagementTruthful(b: Book, c: Context, call: Manage)
    requires BookValid(b) && WindowValid(b.window) && ManageStep(b, c, call).Ok?
    ensures GrewTruthfully(b, ManageStep(b, c, call).value)
  {
    match call
    case UpdateDeployedAssets(_, _) => ReconciliationTruthful(b, c, call);
    case UpdateWalletDeployed(_, _, _) => SingleTruthful(b, c, call);
    case RemoveSubaccount(_, _) => RemovalTruthful(b, c, call);
    case RemoveWalletAndReconcile(_, _, _, _) => RemovalTruthful(b, c, call);
    case UpdateWalletDeployedBatch(_, _) => BatchTruthful(b, c, call);
    case _ => hide WindowValid; PlainTruthful(b, c, call);
  }

  lemma PlainTruthful(b: Book, c: Context, call: Manage)
    requires ManageStep(b, c, call).Ok? && !MovesAggregate(call) && !call.RemoveSubaccount?
    ensures GrewTruthfully(b, ManageStep(b, c, call).value)
  {
    if call.AddSubaccount? {
      OneMore(b, ManageStep(b, c, call).value, SubaccountAdded(call.sub, call.kind));
    }
    if call.SeedWalletNetDeployed? {
      OneMore(b, ManageStep(b, c, call).value, WalletNetDeployedSeeded(call.sub, Tracker(b, call.sub), call.amount));
    }
  }

  /** Every accepted transaction only appends to the log, every appended event is truthful, and the amounts
      of subaccount transfers are those that left or reached the vault. */
  lemma EventsTruthful(w: World, tx: Tx)
    requires WindowTimed(w) && Step(w, tx).Ok?
    ensures var w' := Step(w, tx).value;
            && GrewTruthfully(w.book, w'.book)
            && (tx.call.ToSubaccount? ==>
                  w'.book.log == w.book.log + [
                    DepositedToSubaccount(tx.call.sub, tx.call.amount, Local(w) - Local(w'))])
            && (tx.call.FromSubaccount? ==>
                  w'.book.log == w.book.log + [
                    WithdrawnFromSubaccount(tx.call.sub, tx.call.amount, Local(w') - Local(w))])
  {
    hide UserStep, DepositToSubaccount, WithdrawFromSubaccount, ManageStep, Transfer, Valid, CanTake;
    var w' := Step(w, tx).value;
    match tx.call
    case User(user) => UserEffect(w, tx.signers, user);
    case ToSubaccount(operator, sub, amount) =>
      FundingExactly(w, tx.signers, operator, sub, amount);
      assert TokensMoved(w.token, w'.token, w.self, sub, amount, w.self);
      OneMore(w.book, w'.book, DepositedToSubaccount(sub, amount, amount));
    case FromSubaccount(operator, sub, amount) =>
      CollectionExactly(w, tx.signers, operator, sub, amount);
      CollectionFacts(w, tx.signers, sub, amount);
      assert TokensMoved(w.token, w'.token, sub, w.self, Returned(w, sub, amount), w.self);
      OneMore(w.book, w'.book, WithdrawnFromSubaccount(sub, amount, Returned(w, sub, amount)));
    case Management(manage) =>
      LocalNonNegative(w);
      ManagementTruthful(w.book, ContextOf(w, tx.signers, manage), manage);
    case _ =>
  }
}
