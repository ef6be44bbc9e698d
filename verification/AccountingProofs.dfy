/** What every storage entry point keeps, and how each moves the gap between aggregate and trackers. */
module AccountingProofs {
  import opened Common
  import opened Sums
  import opened Limiter
  import opened Accounting

  ghost predicate BookValid(b: Book) {
    && (b.pendingAdmin.Some? <==> b.proposalExpiry.Some?)
    && 0 <= b.deployed
    && |b.subs| <= MAX_SUBACCOUNTS && Distinct(b.subs)
    && (forall a :: a in b.kinds <==> a in b.subs)
    && (forall a :: a in b.trackers ==> a in b.subs && Kind(b, a) == Wallet && b.trackers[a] >= 0)
    && ValidBps(b.limits.increaseBps) && ValidBps(b.limits.decreaseBps)
    && ValidWindowLimits(b.window.duration, b.window.increaseBps, b.window.decreaseBps)
  }

  /** Aggregate value not attributed to any whitelisted wallet. */
  function Gap(b: Book): int {
    b.deployed - TrackerSum(b)
  }

  /** What a call may add to the gap: only the three escape hatches contribute. */
  function Contribution(b: Book, call: Manage): int {
    match call
    case UpdateDeployedAssets(_, amount) => amount - b.deployed
    case SeedWalletNetDeployed(_, sub, amount) => Tracker(b, sub) - amount
    case RemoveWalletAndReconcile(_, _, sub, newTotal) => newTotal - b.deployed + Tracker(b, sub)
    case _ => 0
  }

  /** The result of a call, when it has one, is valid storage whose gap moved by the given amount. */
  ghost predicate Keeps(b: Book, r: Result<Book>, gapChange: int) {
    r.Ok? ==> BookValid(r.value) && Gap(r.value) == Gap(b) + gapChange
  }

  lemma SameAttribution(b: Book, b': Book)
    requires b'.subs == b.subs && b'.kinds == b.kinds && b'.trackers == b.trackers
    ensures TrackerSum(b') == TrackerSum(b)
  {
    SumAgree(b.subs, a => Attributed(b, a), a => Attributed(b', a));
  }

  lemma TrackerWrite(b: Book, b': Book, sub: Address, amount: int)
    requires BookValid(b) && sub in b.subs && Kind(b, sub) == Wallet && amount >= 0
    requires b'.subs == b.subs && b'.kinds == b.kinds && b'.trackers == b.trackers[sub := amount]
    ensures TrackerSum(b') == TrackerSum(b) + amount - Tracker(b, sub)
  {
    SumUpdate(b.subs, a => Attributed(b, a), a => Attributed(b', a), sub);
  }

  lemma WalletWriteKeeps(b: Book, b': Book, sub: Address, amount: int)
    requires BookValid(b) && sub in b.subs && Kind(b, sub) == Wallet && amount >= 0
    requires b' == b.(trackers := b.trackers[sub := amount], log := b'.log)
    ensures BookValid(b') && Gap(b') == Gap(b) - amount + Tracker(b, sub)
  {
    TrackerWrite(b, b', sub, amount);
  }

  lemma TrackersBelowSum(b: Book, sub: Address)
    requires BookValid(b) && sub in b.subs && Kind(b, sub) == Wallet
    ensures 0 <= Tracker(b, sub) <= TrackerSum(b)
  {
    SumNonNegative(b.subs, a => Attributed(b, a));
  }

  lemma WithoutProperties(subs: seq<Address>, sub: Address)
    requires sub in subs && Distinct(subs)
    ensures Distinct(Without(subs, sub)) && |Without(subs, sub)| == |subs| - 1
    ensures forall a :: a in Without(subs, sub) <==> a in subs && a != sub
  {
    var i := IndexOf(subs, sub);
    var rest := Without(subs, sub);
    forall a ensures a in rest <==> a in subs && a != sub {
      if a in subs && a != sub {
        var k :| 0 <= k < |subs| && subs[k] == a;
        assert rest[if k < i then k else k - 1] == a;
      }
    }
  }

  lemma WithoutSum(subs: seq<Address>, sub: Address, f: Address -> int)
    requires sub in subs && Distinct(subs)
    ensures SumBy(Without(subs, sub), f) == SumBy(subs, f) - f(sub)
    ensures forall a :: a in Without(subs, sub) ==> a in subs && a != sub
  {
    WithoutProperties(subs, sub);
    SumRemove(subs, IndexOf(subs, sub), f);
  }

  lemma RemovalTrackerSum(b: Book, b': Book, sub: Address)
    requires BookValid(b) && sub in b.subs && b'.subs == Without(b.subs, sub)
    requires b'.kinds == b.kinds - {sub} && b'.trackers == b.trackers - {sub}
    ensures TrackerSum(b') == TrackerSum(b) - Tracker(b, sub)
  {
    WithoutSum(b.subs, sub, a => Attributed(b, a));
    SumAgree(b'.subs, a => Attributed(b, a), a => Attributed(b', a));
  }

  lemma RemoveKeeps(b: Book, sub: Address)
    requires BookValid(b) && Remove(b, sub).Ok?
    ensures BookValid(Remove(b, sub).value)
    ensures Gap(Remove(b, sub).value) == Gap(b) + Tracker(b, sub)
  {
    var b' := Remove(b, sub).value;
    WithoutProperties(b.subs, sub);
    RemovalTrackerSum(b, b', sub);
  }

  lemma PlainRemovalKeeps(b: Book, c: Context, admin: Address, sub: Address)
    requires BookValid(b)
    ensures Keeps(b, DoRemoveSubaccount(b, c, admin, sub), 0)
  {
    if DoRemoveSubaccount(b, c, admin, sub).Ok? {
      RemoveKeeps(b, sub);
    }
  }

  lemma CheckChangeKeepsLimits(limits: Limits, win: Window, now: int, prev: int, next: int)
    requires CheckChange(limits, win, now, prev, next).Ok?
    ensures var win' := CheckChange(limits, win, now, prev, next).value;
            win'.duration == win.duration && win'.increaseBps == win.increaseBps && win'.decreaseBps == win.decreaseBps
  {
  }

  /** The aggregate move touches the aggregate, the window and the log, and nothing else. */
  lemma ApplyChangeKeeps(b: Book, c: Context, actor: Address, next: int)
    requires ApplyChange(b, c, actor, next).Ok?
    ensures var b' := ApplyChange(b, c, actor, next).value;
            && b' == b.(deployed := next, window := b'.window,
                        log := b.log + [DeployedAssetsChanged(actor, b.deployed, next)])
            && (BookValid(b) ==> BookValid(b'))
            && Gap(b') == Gap(b) + next - b.deployed
  {
    var b' := ApplyChange(b, c, actor, next).value;
    CheckChangeKeepsLimits(b.limits, b.window, c.now, b.deployed, next);
    SameAttribution(b, b');
  }

  lemma UpdateDeployedKeeps(b: Book, c: Context, operator: Address, amount: int)
    requires BookValid(b)
    ensures Keeps(b, DoUpdateDeployedAssets(b, c, operator, amount), amount - b.deployed)
  {
    if DoUpdateDeployedAssets(b, c, operator, amount).Ok? {
      ApplyChangeKeeps(b, c, operator, amount);
    }
  }

  /** Overwriting distinct wallets' trackers moves the tracker sum by the batch's net delta. */
  lemma {:induction false} BatchTrackerSum(b: Book, updates: seq<(Address, int)>)
    requires BookValid(b) && DistinctTargets(updates) && NetDelta(b, updates).Ok?
    ensures var b' := b.(trackers := Overwrite(b.trackers, updates));
            && BookValid(b') && TrackerSum(b') == TrackerSum(b) + NetDelta(b, updates).value
            && (forall a :: (forall i :: 0 <= i < |updates| ==> updates[i].0 != a) ==> Tracker(b', a) == Tracker(b, a))
  {
    if updates == [] {
      SameAttribution(b, b.(trackers := Overwrite(b.trackers, updates)));
    } else {
      var init := updates[..|updates| - 1];
      var (sub, amount) := updates[|updates| - 1];
      BatchTrackerSum(b, init);
      var mid := b.(trackers := Overwrite(b.trackers, init));
      var b' := b.(trackers := Overwrite(b.trackers, updates));
      TrackerWrite(mid, b', sub, amount);
      forall a | forall i :: 0 <= i < |updates| ==> updates[i].0 != a ensures Tracker(b', a) == Tracker(b, a) {
        assert updates[|updates| - 1].0 != a;
        forall i | 0 <= i < |init| ensures init[i].0 != a {
          assert updates[i].0 != a;
        }
      }
    }
  }

  /** A batch logs one event per entry, in order. */
  lemma EventsGrow(b: Book, updates: seq<(Address, int)>, i: nat)
    requires i < |updates|
    ensures var (sub, newTracked) := updates[i];
            var prev := Tracker(b, sub);
            UpdateEvents(b, updates[..i + 1])
            == UpdateEvents(b, updates[..i]) + [WalletDeployedUpdated(sub, prev, newTracked, newTracked - prev)]
  {
  }

  lemma BatchKeeps(b: Book, c: Context, operator: Address, updates: seq<(Address, int)>)
    requires BookValid(b)
    ensures Keeps(b, DoUpdateWalletDeployedBatch(b, c, operator, updates), 0)
  {
    var r := DoUpdateWalletDeployedBatch(b, c, operator, updates);
    if r.Err? {
      return;
    }
    hide NetDelta, ShiftDeployed, Overwrite, UpdateEvents;
    var net := NetDelta(b, updates).value;
    ShiftKeeps(b, c, operator, net);
    BatchTrackerSum(b, updates);
    SameAttribution(b.(trackers := Overwrite(b.trackers, updates)), r.value);
  }

  lemma ShiftKeeps(b: Book, c: Context, operator: Address, delta: int)
    requires BookValid(b) && ShiftDeployed(b, c, operator, delta).Ok?
    ensures var b' := ShiftDeployed(b, c, operator, delta).value;
            && b' == b.(deployed := b.deployed + delta, window := b'.window, log := b'.log)
            && BookValid(b') && Gap(b') == Gap(b) + delta
  {
    ApplyChangeKeeps(b, c, operator, b.deployed + delta);
  }

  lemma UpdateWalletShape(b: Book, c: Context, operator: Address, sub: Address, newTracked: int)
    requires DoUpdateWalletDeployed(b, c, operator, sub, newTracked).Ok?
    ensures sub in b.subs && Kind(b, sub) == Wallet && newTracked >= 0
    ensures ShiftDeployed(b, c, operator, newTracked - Tracker(b, sub)).Ok?
    ensures var moved := ShiftDeployed(b, c, operator, newTracked - Tracker(b, sub)).value;
            var b' := DoUpdateWalletDeployed(b, c, operator, sub, newTracked).value;
            b' == moved.(trackers := moved.trackers[sub := newTracked], log := b'.log)
  {
  }

  lemma UpdateWalletKeeps(b: Book, c: Context, operator: Address, sub: Address, newTracked: int)
    requires BookValid(b)
    ensures Keeps(b, DoUpdateWalletDeployed(b, c, operator, sub, newTracked), 0)
  {
    var r := DoUpdateWalletDeployed(b, c, operator, sub, newTracked);
    if r.Ok? {
      UpdateWalletShape(b, c, operator, sub, newTracked);
      ShiftKeeps(b, c, operator, newTracked - Tracker(b, sub));
      WalletWriteKeeps(ShiftDeployed(b, c, operator, newTracked - Tracker(b, sub)).value, r.value, sub, newTracked);
    }
  }

  lemma AppendDistinct(subs: seq<Address>, sub: Address)
    requires Distinct(subs) && sub !in subs
    ensures Distinct(subs + [sub])
    ensures forall a :: a in subs + [sub] <==> a in subs || a == sub
  {
  }

  lemma RegistrationKeeps(b: Book, b': Book, sub: Address, kind: SubaccountType)
    requires BookValid(b) && sub !in b.subs && |b.subs| < MAX_SUBACCOUNTS
    requires b' == b.(subs := b.subs + [sub], kinds := b.kinds[sub := kind], log := b'.log)
    ensures BookValid(b')
  {
    AppendDistinct(b.subs, sub);
  }

  lemma RegistrationGap(b: Book, b': Book, sub: Address, kind: SubaccountType)
    requires BookValid(b) && sub !in b.subs
    requires b' == b.(subs := b.subs + [sub], kinds := b.kinds[sub := kind], log := b'.log)
    ensures Gap(b') == Gap(b)
  {
    assert b'.subs[..|b'.subs| - 1] == b.subs;
    forall a | a in b.subs ensures Attributed(b, a) == Attributed(b', a) {
      assert a != sub;
    }
    SumAgree(b.subs, a => Attributed(b, a), a => Attributed(b', a));
    assert Attributed(b', sub) == 0;
  }

  lemma AddSubaccountKeeps(b: Book, c: Context, admin: Address, sub: Address, kind: SubaccountType)
    requires BookValid(b)
    ensures Keeps(b, DoAddSubaccount(b, c, admin, sub, kind), 0)
  {
    var r := DoAddSubaccount(b, c, admin, sub, kind);
    if r.Ok? {
      RegistrationKeeps(b, r.value, sub, kind);
      RegistrationGap(b, r.value, sub, kind);
    }
  }

  lemma ConfigurationKeeps(b: Book, c: Context, call: Manage)
    requires BookValid(b)
    requires || call.SetOperator? || call.SetAumLimits? || call.SetAumWindowLimits? || call.Pause? || call.Unpause?
             || call.ProposeAdmin? || call.AcceptAdmin? || call.CancelAdminProposal?
    ensures Keeps(b, ManageStep(b, c, call), 0)
  {
    var r := ManageStep(b, c, call);
    if r.Ok? {
      SameAttribution(b, r.value);
    }
  }

  lemma SeedKeeps(b: Book, c: Context, admin: Address, sub: Address, amount: int)
    requires BookValid(b)
    ensures Keeps(b, DoSeedWalletNetDeployed(b, c, admin, sub, amount), Tracker(b, sub) - amount)
  {
    var r := DoSeedWalletNetDeployed(b, c, admin, sub, amount);
    if r.Ok? {
      WalletWriteKeeps(b, r.value, sub, amount);
    }
  }

  lemma ReconcileRemovalKeeps(b: Book, c: Context, admin: Address, operator: Address, sub: Address, newTotal: int)
    requires BookValid(b)
    ensures Keeps(b, DoRemoveWalletAndReconcile(b, c, admin, operator, sub, newTotal),
                  newTotal - b.deployed + Tracker(b, sub))
  {
    if DoRemoveWalletAndReconcile(b, c, admin, operator, sub, newTotal).Ok? {
      ApplyChangeKeeps(b, c, operator, newTotal);
      RemoveKeeps(ApplyChange(b, c, operator, newTotal).value, sub);
    }
  }

  /** Every accepted management call keeps the storage valid and moves the gap by its contribution. */
  lemma ManageKeeps(b: Book, c: Context, call: Manage)
    requires BookValid(b)
    ensures Keeps(b, ManageStep(b, c, call), Contribution(b, call))
  {
    match call
    case AddSubaccount(admin, sub, kind) => AddSubaccountKeeps(b, c, admin, sub, kind);
    case RemoveSubaccount(admin, sub) => PlainRemovalKeeps(b, c, admin, sub);
    case RemoveWalletAndReconcile(admin, operator, sub, newTotal) =>
      ReconcileRemovalKeeps(b, c, admin, operator, sub, newTotal);
    case UpdateDeployedAssets(operator, amount) => UpdateDeployedKeeps(b, c, operator, amount);
    case UpdateWalletDeployed(operator, sub, newTracked) => UpdateWalletKeeps(b, c, operator, sub, newTracked);
    case UpdateWalletDeployedBatch(operator, updates) => BatchKeeps(b, c, operator, updates);
    case SeedWalletNetDeployed(admin, sub, amount) => SeedKeeps(b, c, admin, sub, amount);
    case _ => ConfigurationKeeps(b, c, call);
  }

  lemma NoteDepositKeeps(b: Book, sub: Address, requested: int, sent: int)
    requires BookValid(b) && sub in b.subs && sent > 0 && NoteDeposit(b, sub, requested, sent).Ok?
    ensures var b' := NoteDeposit(b, sub, requested, sent).value; BookValid(b') && Gap(b') == Gap(b)
  {
    var b' := NoteDeposit(b, sub, requested, sent).value;
    if Kind(b, sub) == Strategy {
      SameAttribution(b, b');
    } else {
      TrackerWrite(b, b', sub, Tracker(b, sub) + sent);
    }
  }

  lemma NoteWithdrawalKeeps(b: Book, sub: Address, requested: int, received: int)
    requires BookValid(b) && sub in b.subs && received > 0 && NoteWithdrawal(b, sub, requested, received).Ok?
    ensures var b' := NoteWithdrawal(b, sub, requested, received).value; BookValid(b') && Gap(b') == Gap(b)
  {
    var b' := NoteWithdrawal(b, sub, requested, received).value;
    if Kind(b, sub) == Strategy {
      SameAttribution(b, b');
    } else {
      TrackerWrite(b, b', sub, Tracker(b, sub) - received);
    }
  }

  // ---- when the aggregate covers the trackers, underflow cannot be the reason for a failure ----

  lemma WithdrawalNeverUnderflows(b: Book, sub: Address, requested: int, received: int)
    requires BookValid(b) && Gap(b) >= 0 && sub in b.subs && received > 0
    ensures NoteWithdrawal(b, sub, requested, received) != Err(DeployedAssetsUnderflow)
  {
    if Kind(b, sub) == Wallet {
      TrackersBelowSum(b, sub);
    }
  }

  lemma UpdateNeverUnderflows(b: Book, c: Context, operator: Address, sub: Address, newTracked: int)
    requires BookValid(b) && Gap(b) >= 0
    ensures DoUpdateWalletDeployed(b, c, operator, sub, newTracked) != Err(DeployedAssetsUnderflow)
  {
    if sub in b.subs && Kind(b, sub) == Wallet {
      TrackersBelowSum(b, sub);
    }
  }

  lemma {:induction false} NetDeltaNeverUnderflows(b: Book, updates: seq<(Address, int)>)
    ensures NetDelta(b, updates) != Err(DeployedAssetsUnderflow)
  {
    if updates != [] {
      NetDeltaNeverUnderflows(b, updates[..|updates| - 1]);
    }
  }

  /** Distinct targets matter: a repeated wallet could subtract its tracker twice. */
  lemma BatchNeverUnderflows(b: Book, c: Context, operator: Address, updates: seq<(Address, int)>)
    requires BookValid(b) && Gap(b) >= 0
    ensures DoUpdateWalletDeployedBatch(b, c, operator, updates) != Err(DeployedAssetsUnderflow)
  {
    NetDeltaNeverUnderflows(b, updates);
    if DistinctTargets(updates) && NetDelta(b, updates).Ok? {
      BatchTrackerSum(b, updates);
      var written := b.(trackers := Overwrite(b.trackers, updates));
      SumNonNegative(written.subs, a => Attributed(written, a));
    }
  }
}
