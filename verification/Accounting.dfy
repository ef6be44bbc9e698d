/** The vault's instance storage as a value, and the entry points that only touch it. */
module Accounting {
  import opened Common
  import opened Sums
  import opened Limiter

  const MAX_SUBACCOUNTS: nat := 10

  datatype SubaccountType = Strategy | Wallet

  datatype Event =
    | SubaccountAdded(sub: Address, kind: SubaccountType)
    | SubaccountRemoved(sub: Address, totalDeployed: int, kind: SubaccountType)
    | DepositedToSubaccount(sub: Address, requested: int, actual: int)
    | WithdrawnFromSubaccount(sub: Address, requested: int, actual: int)
    | DeployedAssetsChanged(caller: Address, oldAmount: int, newAmount: int)
    | WalletDeployedUpdated(sub: Address, oldTracked: int, newTracked: int, delta: int)
    | WalletDeployedBatchApplied(count: int, netDelta: int)
    | WalletNetDeployedSeeded(sub: Address, oldAmount: int, newAmount: int)

  datatype Book = Book(
    admin: Address, operator: Option<Address>,
    deployed: int, subs: seq<Address>, kinds: map<Address, SubaccountType>, trackers: map<Address, int>,
    paused: bool, limits: Limits, window: Window, log: seq<Event>,
    pendingAdmin: Option<Address>, proposalExpiry: Option<int>)

  function InitialBook(admin: Address): Book {
    Book(admin, None, 0, [], map[], map[], false, INITIAL_LIMITS, INITIAL_WINDOW, [], None, None)
  }

  /** What an entry point can see beyond the storage: ledger time, the vault's own token balance,
      the signatures on the transaction, and how the interface smoke test of an address ends. */
  datatype Context = Context(now: int, local: int, auth: set<Address>, probe: Result<()>)

  // ---- storage reads ----

  function Kind(b: Book, a: Address): SubaccountType {
    if a in b.kinds then b.kinds[a] else Strategy
  }

  function Tracker(b: Book, a: Address): int {
    if a in b.trackers then b.trackers[a] else 0
  }

  /** What a whitelisted address adds to the tracker sum: strategies add nothing. */
  function Attributed(b: Book, a: Address): int {
    if Kind(b, a) == Wallet then Tracker(b, a) else 0
  }

  function TrackerSum(b: Book): int {
    SumBy(b.subs, a => Attributed(b, a))
  }

  // ---- storage writes ----

  function SetDeployed(b: Book, amount: int): Result<Book> {
    if amount < 0 then Err(InvalidAmount) else
    Ok(b.(deployed := amount))
  }

  function SetTracker(b: Book, sub: Address, amount: int): Result<Book> {
    if amount < 0 then Err(InvalidAmount) else
    Ok(b.(trackers := b.trackers[sub := amount]))
  }

  function Emit(b: Book, e: Event): Book {
    b.(log := b.log + [e])
  }

  // ---- guards ----

  function RequireAdmin(b: Book, auth: set<Address>, caller: Address): Result<()> {
    if caller !in auth then Err(MissingAuth) else Need(caller == b.admin, Unauthorized)
  }

  function RequireOperator(b: Book, auth: set<Address>, caller: Address): Result<()> {
    if caller !in auth then Err(MissingAuth) else Need(b.operator == Some(caller), Unauthorized)
  }

  function RequireNotPaused(b: Book): Result<()> {
    Need(!b.paused, VaultPaused)
  }

  function RequireWhitelisted(b: Book, sub: Address): Result<()> {
    Need(sub in b.subs, SubaccountNotWhitelisted)
  }

  function RequireWallet(b: Book, sub: Address): Result<()> {
    if sub !in b.subs then Err(SubaccountNotWhitelisted) else Need(Kind(b, sub) == Wallet, InvalidSubaccountType)
  }

  // ---- the shared aggregate move ----

  function ApplyChange(b: Book, c: Context, actor: Address, next: int): Result<Book> {
    var _ :- Checked(c.local + next);
    if b.paused && next > b.deployed then Err(VaultPaused) else
    var window :- CheckChange(b.limits, b.window, c.now, b.deployed, next);
    var moved :- SetDeployed(b.(window := window), next);
    Ok(Emit(moved, DeployedAssetsChanged(actor, b.deployed, next)))
  }

  // ---- entry points ----

  datatype Manage =
    | SetOperator(admin: Address, newOperator: Address)
    | SetAumLimits(admin: Address, increaseBps: int, decreaseBps: int)
    | SetAumWindowLimits(admin: Address, duration: int, increaseBps: int, decreaseBps: int)
    | Pause(admin: Address)
    | Unpause(admin: Address)
    | AddSubaccount(admin: Address, sub: Address, kind: SubaccountType)
    | RemoveSubaccount(admin: Address, sub: Address)
    | RemoveWalletAndReconcile(admin: Address, operator: Address, sub: Address, newTotal: int)
    | UpdateDeployedAssets(operator: Address, amount: int)
    | UpdateWalletDeployed(operator: Address, sub: Address, newTracked: int)
    | UpdateWalletDeployedBatch(operator: Address, updates: seq<(Address, int)>)
    | SeedWalletNetDeployed(admin: Address, sub: Address, amount: int)
    | ProposeAdmin(admin: Address, newAdmin: Address, deadline: int)
    | AcceptAdmin
    | CancelAdminProposal(admin: Address)

  function DoSetAumLimits(b: Book, c: Context, admin: Address, inc: int, dec: int): Result<Book> {
    var _ :- RequireAdmin(b, c.auth, admin);
    if !ValidBps(inc) || !ValidBps(dec) then Err(InvalidAumLimits) else
    Ok(b.(limits := Limits(inc, dec)))
  }

  function DoSetAumWindowLimits(b: Book, c: Context, admin: Address, duration: int, inc: int, dec: int): Result<Book> {
    var _ :- RequireAdmin(b, c.auth, admin);
    if !ValidWindowLimits(duration, inc, dec) then Err(InvalidAumLimits) else
    var configured := b.window.(duration := duration, increaseBps := inc, decreaseBps := dec);
    Ok(b.(window := Reset(configured, c.now, b.deployed)))
  }

  function DoAddSubaccount(b: Book, c: Context, admin: Address, sub: Address, kind: SubaccountType): Result<Book> {
    var _ :- RequireAdmin(b, c.auth, admin);
    var _ :- RequireNotPaused(b);
    if sub in b.subs then Err(SubaccountAlreadyRegistered) else
    if |b.subs| >= MAX_SUBACCOUNTS then Err(MaxSubaccountsReached) else
    var _ :- if kind == Strategy then c.probe else Ok(());
    Ok(Emit(b.(subs := b.subs + [sub], kinds := b.kinds[sub := kind]), SubaccountAdded(sub, kind)))
  }

  function IndexOf(subs: seq<Address>, sub: Address): (i: nat)
    requires sub in subs
    ensures i < |subs| && subs[i] == sub && sub !in subs[..i]
  {
    if subs[0] == sub then 0 else 1 + IndexOf(subs[1..], sub)
  }

  function Without(subs: seq<Address>, sub: Address): seq<Address>
    requires sub in subs
  {
    var i := IndexOf(subs, sub);
    subs[..i] + subs[i + 1..]
  }

  function Remove(b: Book, sub: Address): Result<Book> {
    var _ :- RequireWhitelisted(b, sub);
    var kind := Kind(b, sub);
    var removed := b.(subs := Without(b.subs, sub), kinds := b.kinds - {sub}, trackers := b.trackers - {sub});
    Ok(Emit(removed, SubaccountRemoved(sub, b.deployed, kind)))
  }

  function DoRemoveSubaccount(b: Book, c: Context, admin: Address, sub: Address): Result<Book> {
    var _ :- RequireAdmin(b, c.auth, admin);
    if Tracker(b, sub) != 0 then Err(WalletTrackerNotZero) else
    Remove(b, sub)
  }

  function DoRemoveWalletAndReconcile(
    b: Book, c: Context, admin: Address, operator: Address, sub: Address, newTotal: int): Result<Book>
  {
    var _ :- RequireAdmin(b, c.auth, admin);
    var _ :- if admin != operator then RequireOperator(b, c.auth, operator)
       else Need(b.operator == Some(operator), Unauthorized);
    if newTotal < 0 then Err(InvalidAmount) else
    var _ :- RequireWallet(b, sub);
    var moved :- ApplyChange(b, c, operator, newTotal);
    Remove(moved, sub)
  }

  function DoUpdateDeployedAssets(b: Book, c: Context, operator: Address, amount: int): Result<Book> {
    var _ :- RequireOperator(b, c.auth, operator);
    if amount < 0 then Err(InvalidAmount) else
    ApplyChange(b, c, operator, amount)
  }

  /** Moves the aggregate by a net delta, refusing to take it below zero. */
  function ShiftDeployed(b: Book, c: Context, operator: Address, delta: int): Result<Book> {
    var total :- Checked(b.deployed + delta);
    if total < 0 then Err(DeployedAssetsUnderflow) else
    ApplyChange(b, c, operator, total)
  }

  function DoUpdateWalletDeployed(b: Book, c: Context, operator: Address, sub: Address, newTracked: int): Result<Book> {
    var _ :- RequireOperator(b, c.auth, operator);
    if newTracked < 0 then Err(InvalidAmount) else
    var _ :- RequireWallet(b, sub);
    var prev := Tracker(b, sub);
    var delta :- Checked(newTracked - prev);
    var moved :- ShiftDeployed(b, c, operator, delta);
    var written :- SetTracker(moved, sub, newTracked);
    Ok(Emit(written, WalletDeployedUpdated(sub, prev, newTracked, delta)))
  }

  /** The first pass of a batch: every entry validated against the stored trackers, deltas added up. */
  function NetDelta(b: Book, updates: seq<(Address, int)>): Result<int> {
    if updates == [] then Ok(0)
    else
      var acc :- NetDelta(b, updates[..|updates| - 1]);
      var (sub, newTracked) := updates[|updates| - 1];
      if newTracked < 0 then Err(InvalidAmount) else
      var _ :- RequireWallet(b, sub);
      var delta :- Checked(newTracked - Tracker(b, sub));
      if b.paused && delta > 0 then Err(VaultPaused) else
      Checked(acc + delta)
  }

  function Overwrite(trackers: map<Address, int>, updates: seq<(Address, int)>): map<Address, int> {
    if updates == [] then trackers
    else
      var (sub, newTracked) := updates[|updates| - 1];
      Overwrite(trackers, updates[..|updates| - 1])[sub := newTracked]
  }

  function UpdateEvents(b: Book, updates: seq<(Address, int)>): seq<Event> {
    seq(|updates|, i requires 0 <= i < |updates| =>
      var (sub, newTracked) := updates[i];
      WalletDeployedUpdated(sub, Tracker(b, sub), newTracked, newTracked - Tracker(b, sub)))
  }

  predicate DistinctTargets(updates: seq<(Address, int)>) {
    forall i, j :: 0 <= i < j < |updates| ==> updates[i].0 != updates[j].0
  }

  function DoUpdateWalletDeployedBatch(
    b: Book, c: Context, operator: Address, updates: seq<(Address, int)>): Result<Book>
  {
    var _ :- RequireOperator(b, c.auth, operator);
    if updates == [] then Err(EmptyBatch) else
    if |updates| > MAX_SUBACCOUNTS then Err(MaxSubaccountsReached) else
    if !DistinctTargets(updates) then Err(DuplicateSubaccountInBatch) else
    var net :- NetDelta(b, updates);
    var moved :- ShiftDeployed(b, c, operator, net);
    var log := moved.log + UpdateEvents(b, updates) + [WalletDeployedBatchApplied(|updates|, net)];
    Ok(moved.(trackers := Overwrite(b.trackers, updates), log := log))
  }

  function DoSeedWalletNetDeployed(b: Book, c: Context, admin: Address, sub: Address, amount: int): Result<Book> {
    var _ :- RequireAdmin(b, c.auth, admin);
    if amount < 0 then Err(InvalidAmount) else
    var _ :- RequireWallet(b, sub);
    var prev := Tracker(b, sub);
    if amount < prev then Err(WalletSeedBelowTracker) else
    var written :- SetTracker(b, sub, amount);
    Ok(Emit(written, WalletNetDeployedSeeded(sub, prev, amount)))
  }

  // ---- handing the admin role over ----

  function DoProposeAdmin(b: Book, c: Context, admin: Address, newAdmin: Address, deadline: int): Result<Book> {
    var _ :- RequireAdmin(b, c.auth, admin);
    if newAdmin == admin then Err(InvalidAdminProposal) else
    if deadline <= c.now then Err(AdminProposalExpired) else
    Ok(b.(pendingAdmin := Some(newAdmin), proposalExpiry := Some(deadline)))
  }

  /** No caller argument: the address proposed last has to have signed. */
  function DoAcceptAdmin(b: Book, c: Context): Result<Book> {
    if b.pendingAdmin.None? then Err(NoPendingAdmin) else
    if b.pendingAdmin.value !in c.auth then Err(MissingAuth) else
    if b.proposalExpiry.None? || c.now > b.proposalExpiry.value then Err(AdminProposalExpired) else
    Ok(b.(admin := b.pendingAdmin.value, pendingAdmin := None, proposalExpiry := None))
  }

  function DoCancelAdminProposal(b: Book, c: Context, admin: Address): Result<Book> {
    var _ :- RequireAdmin(b, c.auth, admin);
    if b.pendingAdmin.None? then Err(NoPendingAdmin) else
    Ok(b.(pendingAdmin := None, proposalExpiry := None))
  }

  function ManageStep(b: Book, c: Context, call: Manage): Result<Book> {
    match call
    case SetOperator(admin, newOperator) =>
      var _ :- RequireAdmin(b, c.auth, admin);
      Ok(b.(operator := Some(newOperator)))
    case SetAumLimits(admin, inc, dec) => DoSetAumLimits(b, c, admin, inc, dec)
    case SetAumWindowLimits(admin, duration, inc, dec) => DoSetAumWindowLimits(b, c, admin, duration, inc, dec)
    case Pause(admin) =>
      var _ :- RequireAdmin(b, c.auth, admin);
      Ok(b.(paused := true))
    case Unpause(admin) =>
      var _ :- RequireAdmin(b, c.auth, admin);
      Ok(b.(paused := false))
    case AddSubaccount(admin, sub, kind) => DoAddSubaccount(b, c, admin, sub, kind)
    case RemoveSubaccount(admin, sub) => DoRemoveSubaccount(b, c, admin, sub)
    case RemoveWalletAndReconcile(admin, operator, sub, newTotal) =>
      DoRemoveWalletAndReconcile(b, c, admin, operator, sub, newTotal)
    case UpdateDeployedAssets(operator, amount) => DoUpdateDeployedAssets(b, c, operator, amount)
    case UpdateWalletDeployed(operator, sub, newTracked) => DoUpdateWalletDeployed(b, c, operator, sub, newTracked)
    case UpdateWalletDeployedBatch(operator, updates) => DoUpdateWalletDeployedBatch(b, c, operator, updates)
    case SeedWalletNetDeployed(admin, sub, amount) => DoSeedWalletNetDeployed(b, c, admin, sub, amount)
    case ProposeAdmin(admin, newAdmin, deadline) => DoProposeAdmin(b, c, admin, newAdmin, deadline)
    case AcceptAdmin => DoAcceptAdmin(b, c)
    case CancelAdminProposal(admin) => DoCancelAdminProposal(b, c, admin)
  }

  // ---- the bookkeeping half of a subaccount transfer ----

  function NoteDeposit(b: Book, sub: Address, requested: int, sent: int): Result<Book> {
    var event := DepositedToSubaccount(sub, requested, sent);
    if Kind(b, sub) == Strategy then Ok(Emit(b, event))
    else
      var total :- Checked(b.deployed + sent);
      var moved :- SetDeployed(b, total);
      var tracked :- Checked(Tracker(moved, sub) + sent);
      var written :- SetTracker(moved, sub, tracked);
      Ok(Emit(written, event))
  }

  function NoteWithdrawal(b: Book, sub: Address, requested: int, received: int): Result<Book> {
    var event := WithdrawnFromSubaccount(sub, requested, received);
    if Kind(b, sub) == Strategy then Ok(Emit(b, event))
    else
      if received > Tracker(b, sub) then Err(WalletOverWithdraw) else
      var written :- SetTracker(b, sub, Tracker(b, sub) - received);
      var total :- Checked(written.deployed - received);
      if total < 0 then Err(DeployedAssetsUnderflow) else
      var moved :- SetDeployed(written, total);
      Ok(Emit(moved, event))
  }
}
