/** The emitted log is complete: folding it rebuilds whitelist, types, trackers and aggregate. */
module ReplayProofs {
  import opened Common
  import opened Accounting
  import opened AccountingProofs
  import opened System
  import opened Effects
  import opened NavAccounting
  import opened Traces

  /** What an indexer keeps. */
  datatype Record = Record(
    subs: seq<Address>, kinds: map<Address, SubaccountType>, trackers: map<Address, int>, deployed: int)

  const EMPTY_RECORD := Record([], map[], map[], 0)

  function RecordedTracker(r: Record, sub: Address): int {
    if sub in r.trackers then r.trackers[sub] else 0
  }

  /** How an indexer applies one event; it reads nothing but the event and its own record. */
  function ReplayOne(r: Record, e: Event): Record {
    match e
    case SubaccountAdded(sub, kind) => r.(subs := r.subs + [sub], kinds := r.kinds[sub := kind])
    case SubaccountRemoved(sub, _, _) =>
      r.(subs := if sub in r.subs then Without(r.subs, sub) else r.subs,
         kinds := r.kinds - {sub}, trackers := r.trackers - {sub})
    case DepositedToSubaccount(sub, _, actual) =>
      if sub in r.kinds && r.kinds[sub] == Wallet
      then r.(deployed := r.deployed + actual, trackers := r.trackers[sub := RecordedTracker(r, sub) + actual])
      else r
    case WithdrawnFromSubaccount(sub, _, actual) =>
      if sub in r.kinds && r.kinds[sub] == Wallet
      then r.(deployed := r.deployed - actual, trackers := r.trackers[sub := RecordedTracker(r, sub) - actual])
      else r
    case DeployedAssetsChanged(_, _, newAmount) => r.(deployed := newAmount)
    case WalletDeployedUpdated(sub, _, newTracked, _) => r.(trackers := r.trackers[sub := newTracked])
    case WalletDeployedBatchApplied(_, _) => r
    case WalletNetDeployedSeeded(sub, _, newAmount) => r.(trackers := r.trackers[sub := newAmount])
  }

  function Replay(log: seq<Event>): Record {
    if log == [] then EMPTY_RECORD else ReplayOne(Replay(log[..|log| - 1]), log[|log| - 1])
  }

  function RecordOf(b: Book): Record {
    Record(b.subs, b.kinds, b.trackers, b.deployed)
  }

  predicate Faithful(b: Book) {
    Replay(b.log) == RecordOf(b)
  }

  lemma ReplayAppend(log: seq<Event>, e: Event)
    ensures Replay(log + [e]) == ReplayOne(Replay(log), e)
  {
    assert (log + [e])[..|log|] == log;
  }

  /** Emitting an event that describes the change keeps the log faithful. */
  lemma EmitFaithful(b: Book, b': Book, e: Event)
    requires Faithful(b) && b'.log == b.log + [e] && ReplayOne(RecordOf(b), e) == RecordOf(b')
    ensures Faithful(b')
  {
    ReplayAppend(b.log, e);
  }

  lemma ApplyChangeFaithful(b: Book, c: Context, actor: Address, next: int)
    requires Faithful(b) && ApplyChange(b, c, actor, next).Ok?
    ensures Faithful(ApplyChange(b, c, actor, next).value)
  {
    ApplyChangeKeeps(b, c, actor, next);
    EmitFaithful(b, ApplyChange(b, c, actor, next).value, DeployedAssetsChanged(actor, b.deployed, next));
  }

  lemma RemoveFaithful(b: Book, sub: Address)
    requires Faithful(b) && Remove(b, sub).Ok?
    ensures Faithful(Remove(b, sub).value)
  {
    EmitFaithful(b, Remove(b, sub).value, SubaccountRemoved(sub, b.deployed, Kind(b, sub)));
  }

  /** The per-wallet events of a batch replay to its overwritten trackers. */
  lemma {:induction false} UpdateEventsReplay(b: Book, log: seq<Event>, updates: seq<(Address, int)>)
    ensures var r := Replay(log);
            Replay(log + UpdateEvents(b, updates)) == r.(trackers := Overwrite(r.trackers, updates))
  {
    hide Kind, RecordOf;
    if updates == [] {
      assert log + UpdateEvents(b, updates) == log;
    } else {
      hide UpdateEvents;
      EventsGrow(b, updates, |updates| - 1);
      assert updates[..|updates|] == updates;
      var init := updates[..|updates| - 1];
      var (sub, newTracked) := updates[|updates| - 1];
      var e := WalletDeployedUpdated(sub, Tracker(b, sub), newTracked, newTracked - Tracker(b, sub));
      UpdateEventsReplay(b, log, init);
      ReplayAppend(log + UpdateEvents(b, init), e);
      assert log + UpdateEvents(b, updates) == log + UpdateEvents(b, init) + [e];
    }
  }

  lemma BatchFaithful(b: Book, c: Context, operator: Address, updates: seq<(Address, int)>)
    requires Faithful(b) && DoUpdateWalletDeployedBatch(b, c, operator, updates).Ok?
    ensures Faithful(DoUpdateWalletDeployedBatch(b, c, operator, updates).value)
  {
    hide ApplyChange, NetDelta, UpdateEvents, Replay;
    var net := NetDelta(b, updates).value;
    ApplyChangeKeeps(b, c, operator, b.deployed + net);
    ApplyChangeFaithful(b, c, operator, b.deployed + net);
    var moved := ApplyChange(b, c, operator, b.deployed + net).value;
    UpdateEventsReplay(b, moved.log, updates);
    ReplayAppend(moved.log + UpdateEvents(b, updates), WalletDeployedBatchApplied(|updates|, net));
  }

  lemma UpdateWalletFaithful(b: Book, c: Context, operator: Address, sub: Address, newTracked: int)
    requires Faithful(b) && DoUpdateWalletDeployed(b, c, operator, sub, newTracked).Ok?
    ensures Faithful(DoUpdateWalletDeployed(b, c, operator, sub, newTracked).value)
  {
    hide Replay, ApplyChange;
    var prev := Tracker(b, sub);
    ApplyChangeKeeps(b, c, operator, b.deployed + newTracked - prev);
    ApplyChangeFaithful(b, c, operator, b.deployed + newTracked - prev);
    var moved := ApplyChange(b, c, operator, b.deployed + newTracked - prev).value;
    EmitFaithful(moved, DoUpdateWalletDeployed(b, c, operator, sub, newTracked).value,
                 WalletDeployedUpdated(sub, prev, newTracked, newTracked - prev));
  }

  lemma ManageFaithful(b: Book, c: Context, call: Manage)
    requires Faithful(b) && ManageStep(b, c, call).Ok?
    ensures Faithful(ManageStep(b, c, call).value)
  {
    hide ApplyChange, Remove, Replay, DoUpdateWalletDeployed, DoUpdateWalletDeployedBatch;
    var b' := ManageStep(b, c, call).value;
    match call
    case AddSubaccount(admin, sub, kind) => EmitFaithful(b, b', SubaccountAdded(sub, kind));
    case RemoveSubaccount(admin, sub) => RemoveFaithful(b, sub);
    case RemoveWalletAndReconcile(admin, operator, sub, newTotal) =>
      ApplyChangeFaithful(b, c, operator, newTotal);
      RemoveFaithful(ApplyChange(b, c, operator, newTotal).value, sub);
    case UpdateDeployedAssets(operator, amount) => ApplyChangeFaithful(b, c, operator, amount);
    case UpdateWalletDeployed(operator, sub, newTracked) => UpdateWalletFaithful(b, c, operator, sub, newTracked);
    case UpdateWalletDeployedBatch(operator, updates) => BatchFaithful(b, c, operator, updates);
    case SeedWalletNetDeployed(admin, sub, amount) =>
      EmitFaithful(b, b', WalletNetDeployedSeeded(sub, Tracker(b, sub), amount));
    case _ =>
  }

  lemma NoteDepositFaithful(b: Book, sub: Address, requested: int, sent: int)
    requires BookValid(b) && Faithful(b) && sub in b.subs && NoteDeposit(b, sub, requested, sent).Ok?
    ensures Faithful(NoteDeposit(b, sub, requested, sent).value)
  {
    hide Replay;
    EmitFaithful(b, NoteDeposit(b, sub, requested, sent).value, DepositedToSubaccount(sub, requested, sent));
  }

  lemma NoteWithdrawalFaithful(b: Book, sub: Address, requested: int, received: int)
    requires BookValid(b) && Faithful(b) && sub in b.subs && NoteWithdrawal(b, sub, requested, received).Ok?
    ensures Faithful(NoteWithdrawal(b, sub, requested, received).value)
  {
    hide Replay;
    EmitFaithful(b, NoteWithdrawal(b, sub, requested, received).value,
                 WithdrawnFromSubaccount(sub, requested, received));
  }

  lemma StepFaithful(w: World, tx: Tx)
    requires Valid(w) && Faithful(w.book) && Step(w, tx).Ok?
    ensures Faithful(Step(w, tx).value.book)
  {
    hide Step, ManageStep, NoteDeposit, NoteWithdrawal;
    StepBook(w, tx);
    match tx.call
    case ToSubaccount(_, sub, amount) => NoteDepositFaithful(w.book, sub, amount, amount);
    case FromSubaccount(_, sub, amount) => NoteWithdrawalFaithful(w.book, sub, amount, Received(w, sub, amount));
    case Management(manage) => ManageFaithful(w.book, ContextOf(w, tx.signers, manage), manage);
    case _ =>
  }

  lemma {:induction false} RunFaithful(w: World, txs: seq<Tx>)
    requires Valid(w) && Faithful(w.book)
    ensures Faithful(Run(w, txs).book)
    decreases |txs|
  {
    hide Step;
    if txs != [] {
      if Step(w, txs[0]).Ok? {
        StepFaithful(w, txs[0]);
      }
      ApplyValid(w, txs[0]);
      RunFaithful(Apply(w, txs[0]), txs[1..]);
    }
  }

  /** In every reachable state the log alone rebuilds whitelist, types, trackers and aggregate. */
  lemma ReplayRebuildsBooks(start: World, txs: seq<Tx>)
    requires Genesis(start)
    ensures var b := Run(start, txs).book; Replay(b.log) == Record(b.subs, b.kinds, b.trackers, b.deployed)
  {
    hide Step;
    GenesisValid(start);
    RunFaithful(start, txs);
  }
}
