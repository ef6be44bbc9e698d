/** Exactly when each management call is accepted and exactly what it leaves in the books, stated on the
    books themselves. */
module ManagementProofs {
  import opened Common
  import opened Token
  import opened Limiter
  import opened Accounting
  import opened AccountingProofs
  import opened System
  import opened Effects
  import opened NavAccounting
  import opened BatchProofs
  import opened WindowProofs
  import opened StrategyProofs
  import opened LimitProofs

  predicate AdminSigns(b: Book, auth: set<Address>, caller: Address) {
    caller == b.admin && caller in auth
  }

  predicate OperatorSigns(b: Book, auth: set<Address>, caller: Address) {
    b.operator == Some(caller) && caller in auth
  }

  predicate ListedWallet(b: Book, sub: Address) {
    sub in b.subs && Kind(b, sub) == Wallet
  }

  /** A strategy that answers: it exists, it is reachable, and its position fits. */
  predicate Answers(w: World, sub: Address) {
    && sub in w.strategies && w.strategies[sub].reachable
    && w.strategies[sub].local + w.strategies[sub].deployed <= I128_MAX
  }

  /** A batch entry: a listed wallet, a total that is no raise while paused, and a difference that fits. */
  predicate EntryPermitted(b: Book, u: (Address, int)) {
    && u.1 >= 0 && ListedWallet(b, u.0) && I128(u.1 - Tracker(b, u.0))
    && (b.paused ==> u.1 <= Tracker(b, u.0))
  }

  predicate BatchPermitted(b: Book, updates: seq<(Address, int)>) {
    && 0 < |updates| <= MAX_SUBACCOUNTS && DistinctTargets(updates)
    && EntriesPermitted(b, updates) && SumsFit(b, updates)
  }

  /** When a management call is accepted. */
  predicate Permits(w: World, auth: set<Address>, call: Manage) {
    var b := w.book;
    var c := Context(w.now, Local(w), auth, Ok(()));
    match call
    case SetOperator(admin, _) => AdminSigns(b, auth, admin)
    case SetAumLimits(admin, inc, dec) => AdminSigns(b, auth, admin) && 1 <= inc <= 10_000 && 1 <= dec <= 10_000
    case SetAumWindowLimits(admin, duration, inc, dec) =>
      AdminSigns(b, auth, admin) && 3_600 <= duration <= 604_800 && 1 <= inc <= 10_000 && 1 <= dec <= 10_000
    case Pause(admin) => AdminSigns(b, auth, admin)
    case Unpause(admin) => AdminSigns(b, auth, admin)
    case AddSubaccount(admin, sub, kind) =>
      && AdminSigns(b, auth, admin) && !b.paused && sub !in b.subs && |b.subs| < 10
      && (kind == Strategy ==> Answers(w, sub))
    case RemoveSubaccount(admin, sub) => AdminSigns(b, auth, admin) && sub in b.subs && Tracker(b, sub) == 0
    case RemoveWalletAndReconcile(admin, operator, sub, newTotal) =>
      && AdminSigns(b, auth, admin) && OperatorSigns(b, auth, operator)
      && ListedWallet(b, sub) && MayMove(b, c, newTotal)
    case UpdateDeployedAssets(operator, amount) => OperatorSigns(b, auth, operator) && MayMove(b, c, amount)
    case UpdateWalletDeployed(operator, sub, newTracked) =>
      && OperatorSigns(b, auth, operator) && ListedWallet(b, sub) && newTracked >= 0
      && I128(newTracked - Tracker(b, sub)) && MayMove(b, c, b.deployed + newTracked - Tracker(b, sub))
    case UpdateWalletDeployedBatch(operator, updates) =>
      && OperatorSigns(b, auth, operator) && BatchPermitted(b, updates)
      && MayMove(b, c, b.deployed + TargetSum(b, updates))
    case SeedWalletNetDeployed(admin, sub, amount) =>
      AdminSigns(b, auth, admin) && ListedWallet(b, sub) && amount >= Tracker(b, sub)
    case ProposeAdmin(admin, newAdmin, deadline) => AdminSigns(b, auth, admin) && newAdmin != admin && w.now < deadline
    case AcceptAdmin =>
      b.pendingAdmin.Some? && b.pendingAdmin.value in auth && b.proposalExpiry.Some? && w.now <= b.proposalExpiry.value
    case CancelAdminProposal(admin) => AdminSigns(b, auth, admin) && b.pendingAdmin.Some?
  }

  /** How the window answers a move of the aggregate. */
  predicate WindowMoved(b: Book, win': Window, now: int, next: int) {
    if b.deployed == 0 || next == b.deployed then win' == b.window else Records(b.window, win', now, b.deployed, next)
  }

  /** The whitelist without one address, the others in their order. */
  ghost predicate Delisted(subs: seq<Address>, subs': seq<Address>, sub: Address) {
    exists i :: 0 <= i < |subs| && subs[i] == sub && subs' == subs[..i] + subs[i + 1..]
  }

  /** What an accepted management call leaves in the books, the log aside. */
  ghost predicate Outcome(b: Book, b': Book, now: int, call: Manage) {
    match call
    case SetOperator(_, newOperator) => b' == b.(operator := Some(newOperator))
    case SetAumLimits(_, inc, dec) => b' == b.(limits := Limits(inc, dec))
    case SetAumWindowLimits(_, duration, inc, dec) =>
      b' == b.(window := Window(duration, inc, dec, now, 0, 0, b.deployed))
    case Pause(_) => b' == b.(paused := true)
    case Unpause(_) => b' == b.(paused := false)
    case AddSubaccount(_, sub, kind) =>
      b' == b.(subs := b.subs + [sub], kinds := b.kinds[sub := kind], log := b'.log)
    case RemoveSubaccount(_, sub) =>
      && Delisted(b.subs, b'.subs, sub)
      && b' == b.(subs := b'.subs, kinds := b.kinds - {sub}, trackers := b.trackers - {sub}, log := b'.log)
    case RemoveWalletAndReconcile(_, _, sub, newTotal) =>
      && Delisted(b.subs, b'.subs, sub) && WindowMoved(b, b'.window, now, newTotal)
      && b' == b.(subs := b'.subs, kinds := b.kinds - {sub}, trackers := b.trackers - {sub},
                  deployed := newTotal, window := b'.window, log := b'.log)
    case UpdateDeployedAssets(_, amount) =>
      WindowMoved(b, b'.window, now, amount) && b' == b.(deployed := amount, window := b'.window, log := b'.log)
    case UpdateWalletDeployed(_, sub, newTracked) =>
      var next := b.deployed + newTracked - Tracker(b, sub);
      && WindowMoved(b, b'.window, now, next)
      && b' == b.(deployed := next, trackers := b.trackers[sub := newTracked], window := b'.window, log := b'.log)
    case UpdateWalletDeployedBatch(_, updates) =>
      var next := b.deployed + TargetSum(b, updates);
      && WindowMoved(b, b'.window, now, next)
      && b' == b.(deployed := next, trackers := b'.trackers, window := b'.window, log := b'.log)
      && (forall i :: 0 <= i < |updates| ==> Tracker(b', updates[i].0) == updates[i].1)
      && (forall a :: (forall i :: 0 <= i < |updates| ==> updates[i].0 != a) ==> Tracker(b', a) == Tracker(b, a))
    case SeedWalletNetDeployed(_, sub, amount) => b' == b.(trackers := b.trackers[sub := amount], log := b'.log)
    case ProposeAdmin(_, newAdmin, deadline) =>
      b' == b.(pendingAdmin := Some(newAdmin), proposalExpiry := Some(deadline))
    case AcceptAdmin =>
      b.pendingAdmin.Some? && b' == b.(admin := b.pendingAdmin.value, pendingAdmin := None, proposalExpiry := None)
    case CancelAdminProposal(_) => b' == b.(pendingAdmin := None, proposalExpiry := None)
  }

  predicate SumsFit(b: Book, updates: seq<(Address, int)>) {
    forall n :: 0 <= n <= |updates| ==> I128(TargetSum(b, updates[..n]))
  }

  lemma SumsFitSplit(b: Book, updates: seq<(Address, int)>)
    requires updates != []
    ensures SumsFit(b, updates) <==> SumsFit(b, updates[..|updates| - 1]) && I128(TargetSum(b, updates))
  {
    hide TargetSum;
    var k := |updates| - 1;
    assert forall n :: 0 <= n <= k ==> updates[..k][..n] == updates[..n];
    assert updates[..k + 1] == updates;
    if SumsFit(b, updates[..k]) && I128(TargetSum(b, updates)) {
      forall n | 0 <= n <= |updates| ensures I128(TargetSum(b, updates[..n])) {
        if n <= k {
          assert I128(TargetSum(b, updates[..k][..n]));
        }
      }
    }
    if SumsFit(b, updates) {
      assert I128(TargetSum(b, updates[..k + 1]));
    }
  }

  predicate EntriesPermitted(b: Book, updates: seq<(Address, int)>) {
    forall i :: 0 <= i < |updates| ==> EntryPermitted(b, updates[i])
  }

  lemma EntriesSplit(b: Book, updates: seq<(Address, int)>)
    requires updates != []
    ensures EntriesPermitted(b, updates) <==>
              EntriesPermitted(b, updates[..|updates| - 1]) && EntryPermitted(b, updates[|updates| - 1])
  {
    hide EntryPermitted;
    var k := |updates| - 1;
    assert updates == updates[..k] + [updates[k]];
  }

  /** The first pass of a batch passes exactly when every entry does and every running sum fits. */
  lemma {:induction false} FirstPassExactly(b: Book, updates: seq<(Address, int)>)
    ensures NetDelta(b, updates).Ok? <==> EntriesPermitted(b, updates) && SumsFit(b, updates)
    ensures NetDelta(b, updates).Ok? ==> NetDelta(b, updates).value == TargetSum(b, updates)
  {
    hide EntriesPermitted, SumsFit;
    if updates == [] {
      EmptyBatchFits(b, updates);
    } else {
      FirstPassExactly(b, updates[..|updates| - 1]);
      EntriesSplit(b, updates);
      SumsFitSplit(b, updates);
    }
  }

  lemma EmptyBatchFits(b: Book, updates: seq<(Address, int)>)
    requires updates == []
    ensures EntriesPermitted(b, updates) && SumsFit(b, updates)
  {
    assert updates[..0] == [];
  }

  // ---- the calls one by one ----

  lemma DelistsFirst(subs: seq<Address>, sub: Address)
    requires sub in subs
    ensures Delisted(subs, Without(subs, sub), sub)
  {
  }

  lemma RegistrationExactly(w: World, s: Signers, call: Manage)
    requires Valid(w) && call.AddSubaccount?
    ensures var r := ManageStep(w.book, ContextOf(w, s, call), call);
            (r.Ok? <==> Permits(w, s.auth, call)) && (r.Ok? ==> Outcome(w.book, r.value, w.now, call))
  {
    if call.sub in w.strategies {
      ReportIgnoresDonations(w, call.sub);
    }
  }

  lemma AggregateExactly(w: World, s: Signers, call: Manage)
    requires Valid(w) && WindowValid(w.book.window) && call.UpdateDeployedAssets?
    ensures var r := ManageStep(w.book, ContextOf(w, s, call), call);
            (r.Ok? <==> Permits(w, s.auth, call)) && (r.Ok? ==> Outcome(w.book, r.value, w.now, call))
  {
    hide ApplyChange, Records, Admits, Kind;
    MovesExactly(w.book, ContextOf(w, s, call), call.operator, call.amount);
  }

  lemma SingleAccepted(w: World, c: Context, operator: Address, sub: Address, newTracked: int)
    requires Valid(w) && WindowValid(w.book.window) && c.local == Local(w)
    ensures DoUpdateWalletDeployed(w.book, c, operator, sub, newTracked).Ok? <==>
              && OperatorSigns(w.book, c.auth, operator) && ListedWallet(w.book, sub) && newTracked >= 0
              && I128(newTracked - Tracker(w.book, sub))
              && MayMove(w.book, c, w.book.deployed + newTracked - Tracker(w.book, sub))
  {
    hide ApplyChange, Admits, Valid, DoUpdateWalletDeployed;
    LocalNonNegative(w);
    MovesExactly(w.book, c, operator, w.book.deployed + newTracked - Tracker(w.book, sub));
    UpdateIsLimitedMove(w.book, c, operator, sub, newTracked);
  }

  lemma SingleOutcome(b: Book, c: Context, operator: Address, sub: Address, newTracked: int)
    requires BookValid(b) && WindowValid(b.window) && DoUpdateWalletDeployed(b, c, operator, sub, newTracked).Ok?
    ensures Outcome(b, DoUpdateWalletDeployed(b, c, operator, sub, newTracked).value, c.now,
                    UpdateWalletDeployed(operator, sub, newTracked))
  {
    hide ApplyChange, Records, Kind, BookValid;
    var next := b.deployed + newTracked - Tracker(b, sub);
    MovesExactly(b, c, operator, next);
  }

  lemma SingleExactly(w: World, s: Signers, call: Manage)
    requires Valid(w) && WindowValid(w.book.window) && call.UpdateWalletDeployed?
    ensures var r := ManageStep(w.book, ContextOf(w, s, call), call);
            (r.Ok? <==> Permits(w, s.auth, call)) && (r.Ok? ==> Outcome(w.book, r.value, w.now, call))
  {
    hide DoUpdateWalletDeployed, Outcome, Admits, MayMove, WindowValid;
    var c := ContextOf(w, s, call);
    SingleAccepted(w, c, call.operator, call.sub, call.newTracked);
    if DoUpdateWalletDeployed(w.book, c, call.operator, call.sub, call.newTracked).Ok? {
      SingleOutcome(w.book, c, call.operator, call.sub, call.newTracked);
    }
    SameMove(w.book, c, Context(w.now, Local(w), s.auth, Ok(())),
             w.book.deployed + call.newTracked - Tracker(w.book, call.sub));
  }

  lemma SameMove(b: Book, c: Context, c': Context, next: int)
    requires c.now == c'.now && c.local == c'.local
    ensures MayMove(b, c, next) <==> MayMove(b, c', next)
  {
  }

  lemma LocalNonNegative(w: World)
    requires Valid(w)
    ensures 0 <= Local(w) && BookValid(w.book)
  {
    BalanceWithinTotal(w.token, w.self);
  }

  lemma RemovalExactly(w: World, s: Signers, call: Manage)
    requires Valid(w) && WindowValid(w.book.window)
    requires call.RemoveSubaccount? || call.RemoveWalletAndReconcile?
    ensures var r := ManageStep(w.book, ContextOf(w, s, call), call);
            (r.Ok? <==> Permits(w, s.auth, call)) && (r.Ok? ==> Outcome(w.book, r.value, w.now, call))
  {
    hide ApplyChange, Records, Admits, Without;
    var b, c := w.book, ContextOf(w, s, call);
    if call.sub in b.subs {
      DelistsFirst(b.subs, call.sub);
    }
    if call.RemoveWalletAndReconcile? {
      MovesExactly(b, c, call.operator, call.newTotal);
    }
  }

  lemma BatchExactly(w: World, s: Signers, call: Manage)
    requires Valid(w) && WindowValid(w.book.window) && call.UpdateWalletDeployedBatch?
    ensures var r := ManageStep(w.book, ContextOf(w, s, call), call);
            (r.Ok? <==> Permits(w, s.auth, call)) && (r.Ok? ==> Outcome(w.book, r.value, w.now, call))
  {
    hide ApplyChange, Records, Admits, NetDelta, TargetSum, UpdateEvents, Overwrite, EntriesPermitted, SumsFit;
    var b, c := w.book, ContextOf(w, s, call);
    FirstPassExactly(b, call.updates);
    MovesExactly(b, c, call.operator, b.deployed + TargetSum(b, call.updates));
    if DistinctTargets(call.updates) {
      OverwriteLookup(b.trackers, call.updates);
    }
  }

  /** Every management call is accepted exactly when it is permitted, and leaves exactly its outcome in the
      books and nothing anywhere else. */
  lemma ManagementExactly(w: World, s: Signers, call: Manage)
    requires Valid(w) && WindowValid(w.book.window)
    ensures var r := Step(w, Tx(s, Management(call)));
            && (r.Ok? <==> WellSigned(w, s) && Permits(w, s.auth, call))
            && (r.Ok? ==> r.value == w.(book := r.value.book) && Outcome(w.book, r.value.book, w.now, call))
  {
    hide ManageStep, Permits, Outcome, Valid;
    match call
    case AddSubaccount(_, _, _) => RegistrationExactly(w, s, call);
    case RemoveSubaccount(_, _) => RemovalExactly(w, s, call);
    case RemoveWalletAndReconcile(_, _, _, _) => RemovalExactly(w, s, call);
    case UpdateDeployedAssets(_, _) => AggregateExactly(w, s, call);
    case UpdateWalletDeployed(_, _, _) => SingleExactly(w, s, call);
    case UpdateWalletDeployedBatch(_, _) => BatchExactly(w, s, call);
    case _ => ConfigurationExactly(w, s, call);
  }

  lemma ConfigurationExactly(w: World, s: Signers, call: Manage)
    requires Valid(w) && !MovesAggregate(call) && !ChangesWhitelist(call)
    ensures var r := ManageStep(w.book, ContextOf(w, s, call), call);
            (r.Ok? <==> Permits(w, s.auth, call)) && (r.Ok? ==> Outcome(w.book, r.value, w.now, call))
  {
  }
}
