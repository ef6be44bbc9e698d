/** The vault contract: entry points that overwrite instance storage, share balances and the token,
    each proved to end exactly as its specification on values. A trap may leave writes behind; the
    host undoes them. */
module VaultContract {
  import opened Common
  import opened Arithmetic
  import opened Token
  import opened Limiter
  import opened Accounting
  import AccountingProofs
  import opened StrategyModel
  import opened Pricing
  import opened System
  import opened TokenContract
  import opened StorageContract
  import opened StrategyContract
  import opened VaultLemmas

  /** Ledger time as the host reports it. */
  class Clock {
    var now: int

    constructor (start: int)
      ensures now == start
    {
      now := start;
    }
  }

  class AugustVault {
    const self: Address
    const offset: nat
    const clock: Clock
    const token: TokenLedger
    const storage: Storage
    const strategies: map<Address, XlmStrategy>
    var shareBalances: Ledger
    var totalSupply: int

    constructor (self: Address, offset: nat, admin: Address, clock: Clock, token: TokenLedger,
                 strategies: map<Address, XlmStrategy>)
      requires forall a :: a in strategies ==> strategies[a].me == a && strategies[a].token == token
      ensures Valid() && fresh(storage)
      ensures this.token == token && this.clock == clock && this.strategies == strategies
      ensures World() == System.World(clock.now, self, offset, token.balances, Shares(map[], 0), InitialBook(admin),
                                      StrategyStates())
    {
      this.self, this.offset, this.clock, this.token, this.strategies := self, offset, clock, token, strategies;
      storage := new Storage(admin);
      shareBalances, totalSupply := map[], 0;
    }

    /** Every strategy object sits at its own address and uses this token. */
    ghost predicate Valid() {
      forall a :: a in strategies ==> strategies[a].me == a && strategies[a].token == token
    }

    function StrategyStates(): map<Address, StrategyState>
      reads strategies.Values
    {
      map a | a in strategies :: strategies[a].State()
    }

    function World(): World
      reads this, clock, token, storage, strategies.Values
    {
      System.World(clock.now, self, offset, token.balances, Shares(shareBalances, totalSupply), storage.Book(),
                   StrategyStates())
    }

    function LocalBalance(): int
      reads token
    {
      token.BalanceOf(self)
    }

    function Env(auth: set<Address>): Context
      reads clock, token
    {
      Context(clock.now, LocalBalance(), auth, Ok(()))
    }

    /** The storage after an entry point is what the specification says. */
    ghost predicate Rewrites(r: Result<()>, spec: Result<Book>)
      reads storage
    {
      Ends(r, spec) && (spec.Ok? ==> storage.Book() == spec.value)
    }

    // ---- guards ----

    method CheckAdmin(auth: set<Address>, caller: Address) returns (r: Result<()>)
      ensures r == RequireAdmin(storage.Book(), auth, caller)
    {
      if caller !in auth {
        return Err(MissingAuth);
      }
      return Need(caller == storage.admin, Unauthorized);
    }

    method CheckOperator(auth: set<Address>, caller: Address) returns (r: Result<()>)
      ensures r == RequireOperator(storage.Book(), auth, caller)
    {
      if caller !in auth {
        return Err(MissingAuth);
      }
      match storage.operator {
        case Some(op) =>
          if caller == op {
            return Ok(());
          }
        case None =>
      }
      return Err(Unauthorized);
    }

    method FindSubaccountIndex(subs: seq<Address>, sub: Address) returns (index: Option<nat>)
      ensures index == if sub in subs then Some(IndexOf(subs, sub)) else None
    {
      for i := 0 to |subs|
        invariant sub !in subs[..i]
      {
        if subs[i] == sub {
          FirstIsIndexOf(subs, sub, i);
          return Some(i);
        }
      }
      return None;
    }

    method CheckWhitelisted(sub: Address) returns (r: Result<()>)
      ensures r == RequireWhitelisted(storage.Book(), sub)
    {
      var index := FindSubaccountIndex(storage.subaccounts, sub);
      return Need(index.Some?, SubaccountNotWhitelisted);
    }

    method CheckWallet(sub: Address) returns (r: Result<()>)
      ensures r == RequireWallet(storage.Book(), sub)
    {
      var _ :- CheckWhitelisted(sub);
      return Need(storage.GetSubaccountType(sub) == Wallet, InvalidSubaccountType);
    }

    // ---- the rate limiter ----

    method CheckAumCumulativeLimit(delta: int, oldDeployed: int, isIncrease: bool) returns (r: Result<()>)
      modifies storage
      ensures var spec := CheckWindow(old(storage.window), clock.now, delta, oldDeployed, isIncrease);
              Ends(r, spec) && (spec.Ok? ==> storage.Book() == old(storage.Book()).(window := spec.value))
    {
      var now := clock.now;
      var start := storage.window.start;
      if start == 0 || SaturatingSub(now, start) >= storage.window.duration {
        storage.ResetAumWindow(now, oldDeployed);
      }
      var base := storage.window.base;
      if base == 0 {
        return Ok(());
      }
      var cumulative, limitBps;
      if isIncrease {
        cumulative, limitBps := storage.window.increase, storage.window.increaseBps;
      } else {
        cumulative, limitBps := storage.window.decrease, storage.window.decreaseBps;
      }
      var newCumulative :- Checked(cumulative + delta);
      var _ :- WithinBps(newCumulative, base, limitBps, AumCumulativeChangeExceedsLimit);
      if isIncrease {
        storage.SetAumCumulativeIncrease(newCumulative);
      } else {
        storage.SetAumCumulativeDecrease(newCumulative);
      }
      return Ok(());
    }

    method CheckAumLimits(oldDeployed: int, newDeployed: int) returns (r: Result<()>)
      modifies storage
      ensures var spec := CheckChange(old(storage.limits), old(storage.window), clock.now, oldDeployed, newDeployed);
              Ends(r, spec) && (spec.Ok? ==> storage.Book() == old(storage.Book()).(window := spec.value))
    {
      if oldDeployed > 0 && newDeployed != oldDeployed {
        if newDeployed > oldDeployed {
          var increase :- Checked(newDeployed - oldDeployed);
          var _ :- WithinBps(increase, oldDeployed, storage.limits.increaseBps, AumChangeExceedsLimit);
          r := CheckAumCumulativeLimit(increase, oldDeployed, true);
        } else {
          var decrease :- Checked(oldDeployed - newDeployed);
          var _ :- WithinBps(decrease, oldDeployed, storage.limits.decreaseBps, AumChangeExceedsLimit);
          r := CheckAumCumulativeLimit(decrease, oldDeployed, false);
        }
        return r;
      }
      return Ok(());
    }

    method ApplyDeployedAssetsChange(actor: Address, oldDeployed: int, newDeployed: int, ghost auth: set<Address>)
      returns (r: Result<()>)
      requires oldDeployed == storage.deployedAssets
      modifies storage
      ensures Rewrites(r, ApplyChange(old(storage.Book()), old(Env(auth)), actor, newDeployed))
    {
      var local := LocalBalance();
      var _ :- Checked(local + newDeployed);
      if storage.paused && newDeployed > oldDeployed {
        return Err(VaultPaused);
      }
      var _ :- CheckAumLimits(oldDeployed, newDeployed);
      var _ :- storage.SetDeployedAssets(newDeployed);
      storage.Publish(DeployedAssetsChanged(actor, oldDeployed, newDeployed));
      return Ok(());
    }

    // ---- administration ----

    method SetOperator(auth: set<Address>, admin: Address, newOperator: Address) returns (r: Result<()>)
      modifies storage
      ensures Rewrites(r, ManageStep(old(storage.Book()), old(Env(auth)), Accounting.SetOperator(admin, newOperator)))
    {
      var _ :- CheckAdmin(auth, admin);
      storage.SetOperator(newOperator);
      return Ok(());
    }

    method ProposeAdmin(auth: set<Address>, admin: Address, newAdmin: Address, deadline: int) returns (r: Result<()>)
      modifies storage
      ensures Rewrites(r, DoProposeAdmin(old(storage.Book()), old(Env(auth)), admin, newAdmin, deadline))
    {
      var _ :- CheckAdmin(auth, admin);
      if newAdmin == admin {
        return Err(InvalidAdminProposal);
      }
      if deadline <= clock.now {
        return Err(AdminProposalExpired);
      }
      storage.SetPendingAdmin(newAdmin);
      storage.SetAdminProposalExpiry(deadline);
      return Ok(());
    }

    method AcceptAdmin(auth: set<Address>) returns (r: Result<()>)
      modifies storage
      ensures Rewrites(r, DoAcceptAdmin(old(storage.Book()), old(Env(auth))))
    {
      if storage.pendingAdmin.None? {
        return Err(NoPendingAdmin);
      }
      var pending := storage.pendingAdmin.value;
      if pending !in auth {
        return Err(MissingAuth);
      }
      if storage.adminProposalExpiry.None? {
        return Err(AdminProposalExpired);
      }
      if clock.now > storage.adminProposalExpiry.value {
        return Err(AdminProposalExpired);
      }
      storage.SetAdmin(pending);
      storage.RemovePendingAdmin();
      return Ok(());
    }

    method CancelAdminProposal(auth: set<Address>, admin: Address) returns (r: Result<()>)
      modifies storage
      ensures Rewrites(r, DoCancelAdminProposal(old(storage.Book()), old(Env(auth)), admin))
    {
      var _ :- CheckAdmin(auth, admin);
      if storage.pendingAdmin.None? {
        return Err(NoPendingAdmin);
      }
      storage.RemovePendingAdmin();
      return Ok(());
    }

    method SetAumLimits(auth: set<Address>, admin: Address, increaseBps: int, decreaseBps: int)
      returns (r: Result<()>)
      modifies storage
      ensures Rewrites(r, DoSetAumLimits(old(storage.Book()), old(Env(auth)), admin, increaseBps, decreaseBps))
    {
      var _ :- CheckAdmin(auth, admin);
      r := storage.StoreAumLimits(increaseBps, decreaseBps);
    }

    method SetAumWindowLimits(auth: set<Address>, admin: Address, duration: int, increaseBps: int, decreaseBps: int)
      returns (r: Result<()>)
      modifies storage
      ensures Rewrites(r, DoSetAumWindowLimits(old(storage.Book()), old(Env(auth)), admin, duration,
                                               increaseBps, decreaseBps))
    {
      var _ :- CheckAdmin(auth, admin);
      var _ :- storage.StoreAumWindowLimits(duration, increaseBps, decreaseBps);
      storage.ResetAumWindow(clock.now, storage.deployedAssets);
      return Ok(());
    }

    method SetPaused(auth: set<Address>, admin: Address, value: bool) returns (r: Result<()>)
      modifies storage
      ensures Rewrites(r, ManageStep(old(storage.Book()), old(Env(auth)),
                                     if value then Pause(admin) else Unpause(admin)))
    {
      var _ :- CheckAdmin(auth, admin);
      storage.SetPaused(value);
      return Ok(());
    }

    // ---- wallet reconciliation ----

    method UpdateDeployedAssets(auth: set<Address>, operator: Address, amount: int) returns (r: Result<()>)
      modifies storage
      ensures Rewrites(r, DoUpdateDeployedAssets(old(storage.Book()), old(Env(auth)), operator, amount))
    {
      var _ :- CheckOperator(auth, operator);
      if amount < 0 {
        return Err(InvalidAmount);
      }
      r := ApplyDeployedAssetsChange(operator, storage.deployedAssets, amount, auth);
    }

    method ShiftDeployedAssets(operator: Address, delta: int, ghost auth: set<Address>) returns (r: Result<()>)
      modifies storage
      ensures Rewrites(r, ShiftDeployed(old(storage.Book()), old(Env(auth)), operator, delta))
    {
      var oldDeployed := storage.deployedAssets;
      var newDeployed :- Checked(oldDeployed + delta);
      if newDeployed < 0 {
        return Err(DeployedAssetsUnderflow);
      }
      r := ApplyDeployedAssetsChange(operator, oldDeployed, newDeployed, auth);
    }

    method UpdateWalletDeployed(auth: set<Address>, operator: Address, sub: Address, newTracked: int)
      returns (r: Result<()>)
      modifies storage
      ensures Rewrites(r, DoUpdateWalletDeployed(old(storage.Book()), old(Env(auth)), operator, sub, newTracked))
    {
      hide ApplyChange;
      var _ :- CheckOperator(auth, operator);
      if newTracked < 0 {
        return Err(InvalidAmount);
      }
      var _ :- CheckWallet(sub);
      var oldTracked := storage.GetWalletNetDeployed(sub);
      var delta :- Checked(newTracked - oldTracked);
      var _ :- ShiftDeployedAssets(operator, delta, auth);
      var written := storage.SetWalletNetDeployed(sub, newTracked);
      assert written.Ok?;
      storage.Publish(WalletDeployedUpdated(sub, oldTracked, newTracked, delta));
      return Ok(());
    }

    method CheckNoDuplicates(updates: seq<(Address, int)>) returns (r: Result<()>)
      ensures r == Need(DistinctTargets(updates), DuplicateSubaccountInBatch)
    {
      for i := 0 to |updates|
        invariant forall k, l :: 0 <= k < i && k < l < |updates| ==> updates[k].0 != updates[l].0
      {
        for j := i + 1 to |updates|
          invariant forall l :: i < l < j ==> updates[i].0 != updates[l].0
        {
          if updates[i].0 == updates[j].0 {
            return Err(DuplicateSubaccountInBatch);
          }
        }
      }
      return Ok(());
    }

    method AccumulateNetDelta(updates: seq<(Address, int)>) returns (r: Result<int>)
      ensures r == NetDelta(storage.Book(), updates)
    {
      var paused := storage.paused;
      var netDelta := 0;
      ghost var b := storage.Book();
      for i := 0 to |updates|
        invariant NetDelta(b, updates[..i]) == Ok(netDelta)
      {
        NetDeltaPrefix(b, updates, i);
        var (sub, newTracked) := updates[i];
        if newTracked < 0 {
          return Err(InvalidAmount);
        }
        var _ :- CheckWallet(sub);
        var delta :- Checked(newTracked - storage.GetWalletNetDeployed(sub));
        if paused && delta > 0 {
          return Err(VaultPaused);
        }
        netDelta :- Checked(netDelta + delta);
      }
      assert updates[..|updates|] == updates;
      return Ok(netDelta);
    }

    method CommitTracker(sub: Address, newTracked: int)
      requires newTracked >= 0 && I128(newTracked - storage.GetWalletNetDeployed(sub))
      modifies storage
      ensures var prev := old(storage.GetWalletNetDeployed(sub));
              storage.Book() == old(storage.Book()).(
                trackers := old(storage.walletNetDeployed)[sub := newTracked],
                log := old(storage.events) + [WalletDeployedUpdated(sub, prev, newTracked, newTracked - prev)])
    {
      var oldTracked := storage.GetWalletNetDeployed(sub);
      var delta := newTracked - oldTracked;
      var written := storage.SetWalletNetDeployed(sub, newTracked);
      assert written.Ok?;
      storage.Publish(WalletDeployedUpdated(sub, oldTracked, newTracked, delta));
    }

    method CommitTrackers(updates: seq<(Address, int)>, ghost stored: Book)
      requires stored.trackers == storage.walletNetDeployed
      requires DistinctTargets(updates) && NetDelta(stored, updates).Ok?
      modifies storage
      ensures storage.Book() == old(storage.Book()).(trackers := Overwrite(stored.trackers, updates),
                                                    log := old(storage.events) + UpdateEvents(stored, updates))
    {
      ghost var start := storage.Book();
      assert Overwrite(stored.trackers, updates[..0]) == stored.trackers && UpdateEvents(stored, updates[..0]) == [];
      hide Overwrite, UpdateEvents, NetDelta;
      for i := 0 to |updates|
        invariant storage.Book() == start.(trackers := Overwrite(stored.trackers, updates[..i]),
                                           log := start.log + UpdateEvents(stored, updates[..i]))
      {
        CommitStep(stored, updates, i);
        AccountingProofs.EventsGrow(stored, updates, i);
        CommitTracker(updates[i].0, updates[i].1);
      }
      assert updates[..|updates|] == updates;
    }

    method UpdateWalletDeployedBatch(auth: set<Address>, operator: Address, updates: seq<(Address, int)>)
      returns (r: Result<()>)
      modifies storage
      ensures Rewrites(r, DoUpdateWalletDeployedBatch(old(storage.Book()), old(Env(auth)), operator, updates))
    {
      ghost var stored := storage.Book();
      var _ :- CheckOperator(auth, operator);
      var count := |updates|;
      if count == 0 {
        return Err(EmptyBatch);
      }
      if count > MAX_SUBACCOUNTS {
        return Err(MaxSubaccountsReached);
      }
      var _ :- CheckNoDuplicates(updates);
      var netDelta :- AccumulateNetDelta(updates);
      var _ :- ShiftDeployedAssets(operator, netDelta, auth);
      CommitTrackers(updates, stored);
      storage.Publish(WalletDeployedBatchApplied(count, netDelta));
      return Ok(());
    }

    method SeedWalletNetDeployed(auth: set<Address>, admin: Address, sub: Address, amount: int) returns (r: Result<()>)
      modifies storage
      ensures Rewrites(r, DoSeedWalletNetDeployed(old(storage.Book()), old(Env(auth)), admin, sub, amount))
    {
      var _ :- CheckAdmin(auth, admin);
      if amount < 0 {
        return Err(InvalidAmount);
      }
      var _ :- CheckWallet(sub);
      var oldAmount := storage.GetWalletNetDeployed(sub);
      if amount < oldAmount {
        return Err(WalletSeedBelowTracker);
      }
      var written := storage.SetWalletNetDeployed(sub, amount);
      assert written.Ok?;
      storage.Publish(WalletNetDeployedSeeded(sub, oldAmount, amount));
      return Ok(());
    }

    method GetWalletDeployedAssets() returns (r: Result<int>)
      ensures r == TrackedTotal(storage.Book(), |storage.subaccounts|)
    {
      var subs := storage.subaccounts;
      var total := 0;
      ghost var b := storage.Book();
      for i := 0 to |subs|
        invariant TrackedTotal(b, i) == Ok(total)
      {
        if storage.GetSubaccountType(subs[i]) == Wallet {
          TrackedTotalFails(b, i + 1, |subs|);
          total :- Checked(total + storage.GetWalletNetDeployed(subs[i]));
        }
      }
      return Ok(total);
    }

    // ---- the whitelist ----

    method SubaccountsWithoutIndex(subs: seq<Address>, indexToRemove: nat) returns (kept: seq<Address>)
      requires indexToRemove < |subs|
      ensures kept == subs[..indexToRemove] + subs[indexToRemove + 1..]
    {
      kept := [];
      for i := 0 to |subs|
        invariant kept == if i <= indexToRemove then subs[..i] else subs[..indexToRemove] + subs[indexToRemove + 1..i]
      {
        if i != indexToRemove {
          kept := kept + [subs[i]];
        }
      }
    }

    method RemoveListed(sub: Address) returns (r: Result<()>)
      requires |storage.subaccounts| <= MAX_SUBACCOUNTS
      modifies storage
      ensures Rewrites(r, Remove(old(storage.Book()), sub))
    {
      var subs := storage.subaccounts;
      var index := FindSubaccountIndex(subs, sub);
      if index.None? {
        return Err(SubaccountNotWhitelisted);
      }
      var kept := SubaccountsWithoutIndex(subs, index.value);
      var kind := storage.GetSubaccountType(sub);
      var written := storage.SetSubaccounts(kept);
      assert written.Ok?;
      storage.RemoveSubaccountType(sub);
      storage.RemoveWalletNetDeployed(sub);
      storage.Publish(SubaccountRemoved(sub, storage.deployedAssets, kind));
      return Ok(());
    }

    method RemoveSubaccount(auth: set<Address>, admin: Address, sub: Address) returns (r: Result<()>)
      requires |storage.subaccounts| <= MAX_SUBACCOUNTS
      modifies storage
      ensures Rewrites(r, DoRemoveSubaccount(old(storage.Book()), old(Env(auth)), admin, sub))
    {
      var _ :- CheckAdmin(auth, admin);
      if storage.GetWalletNetDeployed(sub) != 0 {
        return Err(WalletTrackerNotZero);
      }
      r := RemoveListed(sub);
    }

    method RemoveWalletAndReconcile(auth: set<Address>, admin: Address, operator: Address, sub: Address, newTotal: int)
      returns (r: Result<()>)
      requires |storage.subaccounts| <= MAX_SUBACCOUNTS
      modifies storage
      ensures Rewrites(r, DoRemoveWalletAndReconcile(old(storage.Book()), old(Env(auth)), admin, operator,
                                                     sub, newTotal))
    {
      var _ :- CheckAdmin(auth, admin);
      if admin != operator {
        var _ :- CheckOperator(auth, operator);
      } else {
        if storage.operator != Some(operator) {
          return Err(Unauthorized);
        }
      }
      if newTotal < 0 {
        return Err(InvalidAmount);
      }
      var _ :- CheckWallet(sub);
      var _ :- ApplyDeployedAssetsChange(operator, storage.deployedAssets, newTotal, auth);
      r := RemoveListed(sub);
    }

    /** The interface smoke test: zero-amount calls, then both balances. */
    method ProbeStrategy(sub: Address) returns (r: Result<()>)
      requires Valid()
      modifies token, strategies.Values
      ensures Ends(r, Probe(old(World()), sub))
      ensures r.Ok? ==> World() == old(World())
    {
      if sub !in strategies || !strategies[sub].reachable {
        return Err(MissingContract);
      }
      var strategy := strategies[sub];
      ghost var before := World();
      var _ :- strategy.Deposit(self, 0);
      var returned := strategy.Withdraw(self, 0);
      assert returned.Ok?;
      assert World() == before by {
        forall a | a in strategies ensures strategies[a].State() == before.strategies[a] {
        }
      }
      var balance :- strategy.GetBalance();
      if balance < 0 {
        return Err(NegativeStrategyBalance);
      }
      return Need(strategy.local >= 0, NegativeStrategyBalance);
    }

    method AddSubaccount(auth: set<Address>, admin: Address, sub: Address, kind: SubaccountType)
      returns (r: Result<()>)
      requires Valid()
      modifies storage, token, strategies.Values
      ensures var c := old(Env(auth)).(probe := Probe(old(World()), sub));
              var spec := DoAddSubaccount(old(storage.Book()), c, admin, sub, kind);
              Ends(r, spec) && (spec.Ok? ==> World() == old(World()).(book := spec.value))
    {
      hide Probe, StrategyStates;
      var _ :- CheckAdmin(auth, admin);
      if storage.paused {
        return Err(VaultPaused);
      }
      var subs := storage.subaccounts;
      var index := FindSubaccountIndex(subs, sub);
      if index.Some? {
        return Err(SubaccountAlreadyRegistered);
      }
      if |subs| >= MAX_SUBACCOUNTS {
        return Err(MaxSubaccountsReached);
      }
      if kind == Strategy {
        var _ :- ProbeStrategy(sub);
      }
      Enlist(sub, kind);
      return Ok(());
    }

    method Enlist(sub: Address, kind: SubaccountType)
      requires |storage.subaccounts| < MAX_SUBACCOUNTS
      modifies storage
      ensures var b := old(storage.Book());
              storage.Book() == Emit(b.(subs := b.subs + [sub], kinds := b.kinds[sub := kind]),
                                     SubaccountAdded(sub, kind))
    {
      var subs := storage.subaccounts;
      subs := subs + [sub];
      var written := storage.SetSubaccounts(subs);
      assert written.Ok?;
      storage.SetSubaccountType(sub, kind);
      storage.Publish(SubaccountAdded(sub, kind));
    }

    method ManageStorage(auth: set<Address>, call: Manage) returns (r: Result<()>)
      requires !call.AddSubaccount? && |storage.subaccounts| <= MAX_SUBACCOUNTS
      modifies storage
      ensures Rewrites(r, ManageStep(old(storage.Book()), old(Env(auth)), call))
    {
      hide DoSetAumLimits, DoSetAumWindowLimits, DoRemoveSubaccount, DoRemoveWalletAndReconcile, DoUpdateDeployedAssets,
           DoUpdateWalletDeployed, DoUpdateWalletDeployedBatch, DoSeedWalletNetDeployed, DoProposeAdmin, DoAcceptAdmin,
           DoCancelAdminProposal;
      match call
      case SetOperator(admin, newOperator) => r := SetOperator(auth, admin, newOperator);
      case SetAumLimits(admin, inc, dec) => r := SetAumLimits(auth, admin, inc, dec);
      case SetAumWindowLimits(admin, duration, inc, dec) => r := SetAumWindowLimits(auth, admin, duration, inc, dec);
      case Pause(admin) => r := SetPaused(auth, admin, true);
      case Unpause(admin) => r := SetPaused(auth, admin, false);
      case RemoveSubaccount(admin, sub) => r := RemoveSubaccount(auth, admin, sub);
      case RemoveWalletAndReconcile(admin, operator, sub, newTotal) =>
        r := RemoveWalletAndReconcile(auth, admin, operator, sub, newTotal);
      case UpdateDeployedAssets(operator, amount) => r := UpdateDeployedAssets(auth, operator, amount);
      case UpdateWalletDeployed(operator, sub, newTracked) =>
        r := UpdateWalletDeployed(auth, operator, sub, newTracked);
      case UpdateWalletDeployedBatch(operator, updates) => r := UpdateWalletDeployedBatch(auth, operator, updates);
      case SeedWalletNetDeployed(admin, sub, amount) => r := SeedWalletNetDeployed(auth, admin, sub, amount);
      case ProposeAdmin(admin, newAdmin, deadline) => r := ProposeAdmin(auth, admin, newAdmin, deadline);
      case AcceptAdmin => r := AcceptAdmin(auth);
      case CancelAdminProposal(admin) => r := CancelAdminProposal(auth, admin);
    }

    method Manage(s: Signers, call: Manage) returns (r: Result<()>)
      requires Valid() && |storage.subaccounts| <= MAX_SUBACCOUNTS
      modifies storage, token, strategies.Values
      ensures var spec := ManageStep(old(storage.Book()), old(ContextOf(World(), s, call)), call);
              Ends(r, spec) && (spec.Ok? ==> World() == old(World()).(book := spec.value))
    {
      hide DoAddSubaccount;
      if call.AddSubaccount? {
        r := AddSubaccount(s.auth, call.admin, call.sub, call.kind);
      } else {
        hide ManageStep;
        r := ManageStorage(s.auth, call);
      }
    }

    // ---- total assets ----

    method TryGetBalance(sub: Address) returns (r: Result<int>)
      requires Valid()
      ensures r == StrategyBalance(World(), sub)
    {
      if sub !in strategies || !strategies[sub].reachable {
        return Err(StrategyUnreachable);
      }
      var reported := strategies[sub].GetBalance();
      if reported.Err? {
        return Err(StrategyUnreachable);
      }
      if reported.value < 0 {
        return Err(NegativeStrategyBalance);
      }
      return reported;
    }

    method QueryStrategyBalances() returns (r: Result<int>)
      requires Valid()
      ensures r == QueryStrategies(World(), |storage.subaccounts|)
    {
      hide StrategyStates, StrategyBalance;
      var subs := storage.subaccounts;
      var total := 0;
      ghost var w := World();
      for i := 0 to |subs|
        invariant QueryStrategies(w, i) == Ok(total)
      {
        QueryFails(w, i + 1, |subs|);
        if storage.GetSubaccountType(subs[i]) == Strategy {
          var balance :- TryGetBalance(subs[i]);
          total :- Checked(total + balance);
        }
      }
      return Ok(total);
    }

    method TotalAssetsFrom(local: int) returns (r: Result<int>)
      requires Valid() && local == LocalBalance()
      ensures r == TotalAssets(World())
    {
      var strategyBalances :- QueryStrategyBalances();
      var onChain :- Checked(local + strategyBalances);
      var total :- Checked(onChain + storage.deployedAssets);
      if total < 0 {
        return Err(MathOverflow);
      }
      return Ok(total);
    }

    // ---- shares ----

    function SharesFor(assets: int, total: int, rounding: Rounding): Result<int>
      reads this
    {
      ToShares(assets, total, totalSupply, Pow(10, offset), rounding)
    }

    function AssetsFor(shares: int, total: int, rounding: Rounding): Result<int>
      reads this
    {
      ToAssets(shares, total, totalSupply, Pow(10, offset), rounding)
    }

    method ConvertToShares(assets: int, rounding: Rounding) returns (r: Result<int>)
      requires Valid()
      ensures r == System.ConvertToShares(World(), assets, rounding)
    {
      var total :- TotalAssetsFrom(LocalBalance());
      return SharesFor(assets, total, rounding);
    }

    method ConvertToAssets(shares: int, rounding: Rounding) returns (r: Result<int>)
      requires Valid()
      ensures r == System.ConvertToAssets(World(), shares, rounding)
    {
      var total :- TotalAssetsFrom(LocalBalance());
      return AssetsFor(shares, total, rounding);
    }

    method MaxWithdraw(owner: Address) returns (r: Result<int>)
      requires Valid()
      ensures r == System.MaxWithdraw(World(), owner)
    {
      if storage.paused {
        return Ok(0);
      }
      var local := LocalBalance();
      var total :- TotalAssetsFrom(local);
      var entitled :- AssetsFor(Balance(shareBalances, owner), total, Floor);
      return Ok(Min(entitled, local));
    }

    method MaxRedeem(owner: Address) returns (r: Result<int>)
      requires Valid()
      ensures r == System.MaxRedeem(World(), owner)
    {
      if storage.paused {
        return Ok(0);
      }
      var local := LocalBalance();
      var total :- TotalAssetsFrom(local);
      var available :- SharesFor(local, total, Floor);
      return Ok(Min(Balance(shareBalances, owner), available));
    }

    method PayIn(s: Signers, receiver: Address, assets: int, shares: int, from: Address, operator: Address)
      returns (r: Result<()>)
      modifies this, token
      ensures var spec := DepositInternal(old(World()), s, receiver, assets, shares, from, operator);
              Ends(r, spec) && (spec.Ok? ==> World() == spec.value)
    {
      if operator != from && from !in s.approvals {
        return Err(InsufficientAllowance);
      }
      var _ :- token.Move(from, self, assets);
      var newSupply :- Checked(totalSupply + shares);
      totalSupply := newSupply;
      shareBalances := Credit(shareBalances, receiver, shares);
      return Ok(());
    }

    method PayOut(s: Signers, receiver: Address, owner: Address, assets: int, shares: int, operator: Address)
      returns (r: Result<()>)
      modifies this, token
      ensures var spec := WithdrawInternal(old(World()), s, receiver, owner, assets, shares, operator);
              Ends(r, spec) && (spec.Ok? ==> World() == spec.value)
    {
      if operator != owner && owner !in s.approvals {
        return Err(InsufficientAllowance);
      }
      if shares > Balance(shareBalances, owner) {
        return Err(TokenInsufficientBalance);
      }
      shareBalances := Credit(shareBalances, owner, -shares);
      totalSupply := totalSupply - shares;
      var _ :- token.Move(self, receiver, assets);
      return Ok(());
    }

    /** An entry point that prices shares ends as its specification: same amount, same world, or same trap. */
    ghost predicate Trades(r: Result<int>, spec: Result<(World, int)>)
      reads this, clock, token, storage, strategies.Values
    {
      Ends(r, spec) && (spec.Ok? ==> World() == spec.value.0 && r.value == spec.value.1)
    }

    method Deposit(s: Signers, assets: int, receiver: Address, from: Address, operator: Address)
      returns (r: Result<int>)
      requires Valid()
      modifies this, token
      ensures Trades(r, DepositAssets(old(World()), s, assets, receiver, from, operator))
    {
      if storage.paused {
        return Err(VaultPaused);
      }
      if operator !in s.auth {
        return Err(MissingAuth);
      }
      if assets > I128_MAX {
        return Err(VaultExceededMaxDeposit);
      }
      var shares :- ConvertToShares(assets, Floor);
      if assets > 0 && shares == 0 {
        return Err(VaultInvalidAssetsAmount);
      }
      var _ :- PayIn(s, receiver, assets, shares, from, operator);
      return Ok(shares);
    }

    method Mint(s: Signers, shares: int, receiver: Address, from: Address, operator: Address) returns (r: Result<int>)
      requires Valid()
      modifies this, token
      ensures Trades(r, MintShares(old(World()), s, shares, receiver, from, operator))
    {
      if storage.paused {
        return Err(VaultPaused);
      }
      if operator !in s.auth {
        return Err(MissingAuth);
      }
      if shares > I128_MAX {
        return Err(VaultExceededMaxMint);
      }
      var assets :- ConvertToAssets(shares, Ceil);
      if shares > 0 && assets == 0 {
        return Err(VaultInvalidSharesAmount);
      }
      var _ :- PayIn(s, receiver, assets, shares, from, operator);
      return Ok(assets);
    }

    method Withdraw(s: Signers, assets: int, receiver: Address, owner: Address, operator: Address)
      returns (r: Result<int>)
      requires Valid()
      modifies this, token
      ensures Trades(r, WithdrawAssets(old(World()), s, assets, receiver, owner, operator))
    {
      if storage.paused {
        return Err(VaultPaused);
      }
      if operator !in s.auth {
        return Err(MissingAuth);
      }
      var local := LocalBalance();
      var total :- TotalAssetsFrom(local);
      var entitled :- AssetsFor(Balance(shareBalances, owner), total, Floor);
      if assets > Min(entitled, local) {
        return Err(VaultExceededMaxWithdraw);
      }
      var shares :- SharesFor(assets, total, Ceil);
      if assets > 0 && shares == 0 {
        return Err(VaultInvalidAssetsAmount);
      }
      var _ :- PayOut(s, receiver, owner, assets, shares, operator);
      return Ok(shares);
    }

    method Redeem(s: Signers, shares: int, receiver: Address, owner: Address, operator: Address)
      returns (r: Result<int>)
      requires Valid()
      modifies this, token
      ensures Trades(r, RedeemShares(old(World()), s, shares, receiver, owner, operator))
    {
      if storage.paused {
        return Err(VaultPaused);
      }
      if operator !in s.auth {
        return Err(MissingAuth);
      }
      var local := LocalBalance();
      var total :- TotalAssetsFrom(local);
      var available :- SharesFor(local, total, Floor);
      if shares > Min(Balance(shareBalances, owner), available) {
        return Err(VaultExceededMaxRedeem);
      }
      var assets :- AssetsFor(shares, total, Floor);
      if shares > 0 && assets == 0 {
        return Err(VaultInvalidSharesAmount);
      }
      var _ :- PayOut(s, receiver, owner, assets, shares, operator);
      return Ok(assets);
    }

    method TransferShares(s: Signers, from: Address, to: Address, amount: int, spender: Address) returns (r: Result<()>)
      modifies this
      ensures var spec := System.TransferShares(old(World()), s, from, to, amount, spender);
              Ends(r, spec) && (spec.Ok? ==> World() == spec.value)
    {
      if spender !in s.auth {
        return Err(MissingAuth);
      }
      if spender != from && from !in s.approvals {
        return Err(InsufficientAllowance);
      }
      var moved :- Transfer(shareBalances, from, to, amount);
      shareBalances := moved;
      return Ok(());
    }

    /** The world after an entry point is what the specification says. */
    ghost predicate Reaches(r: Result<()>, spec: Result<World>)
      reads this, clock, token, storage, strategies.Values
    {
      Ends(r, spec) && (spec.Ok? ==> World() == spec.value)
    }

    method Serve(s: Signers, call: UserCall) returns (r: Result<()>)
      requires Valid()
      modifies this, token
      ensures Reaches(r, UserStep(old(World()), s, call))
    {
      match call
      case DepositCall(assets, receiver, from, operator) =>
        var _ :- Deposit(s, assets, receiver, from, operator);
        return Ok(());
      case MintCall(shares, receiver, from, operator) =>
        var _ :- Mint(s, shares, receiver, from, operator);
        return Ok(());
      case WithdrawCall(assets, receiver, owner, operator) =>
        var _ :- Withdraw(s, assets, receiver, owner, operator);
        return Ok(());
      case RedeemCall(shares, receiver, owner, operator) =>
        var _ :- Redeem(s, shares, receiver, owner, operator);
        return Ok(());
      case TransferCall(holder, to, amount, spender) =>
        r := TransferShares(s, holder, to, amount, spender);
    }

    // ---- capital to and from subaccounts ----

    method NotifyIfStrategy(sub: Address, sent: int) returns (r: Result<()>)
      requires Valid()
      modifies strategies.Values
      ensures var spec := NotifyStrategy(old(World()), sub, sent);
              Ends(r, spec) && (spec.Ok? ==> World() == old(World()).(strategies := spec.value))
    {
      if storage.GetSubaccountType(sub) == Wallet {
        return Ok(());
      }
      if sub !in strategies || !strategies[sub].reachable {
        return Err(MissingContract);
      }
      ghost var before := World();
      var _ :- strategies[sub].Deposit(self, sent);
      assert StrategyStates() == before.strategies[sub := strategies[sub].State()];
      return Ok(());
    }

    method NoteDepositTo(sub: Address, requested: int, sent: int) returns (r: Result<()>)
      modifies storage
      ensures Rewrites(r, NoteDeposit(old(storage.Book()), sub, requested, sent))
    {
      if storage.GetSubaccountType(sub) == Wallet {
        var newDeployed :- Checked(storage.deployedAssets + sent);
        var _ :- storage.SetDeployedAssets(newDeployed);
        var newTracked :- Checked(storage.GetWalletNetDeployed(sub) + sent);
        var _ :- storage.SetWalletNetDeployed(sub, newTracked);
      }
      storage.Publish(DepositedToSubaccount(sub, requested, sent));
      return Ok(());
    }

    method DepositToSubaccount(s: Signers, operator: Address, sub: Address, amount: int) returns (r: Result<()>)
      requires Valid()
      modifies token, storage, strategies.Values
      ensures Reaches(r, System.DepositToSubaccount(old(World()), s, operator, sub, amount))
    {
      hide NoteDeposit, NotifyStrategy, StrategyStates, Transfer;
      var _ :- CheckOperator(s.auth, operator);
      if storage.paused {
        return Err(VaultPaused);
      }
      if amount <= 0 {
        return Err(InvalidAmount);
      }
      var _ :- CheckWhitelisted(sub);
      var balanceBefore := LocalBalance();
      var _ :- token.Move(self, sub, amount);
      var balanceAfter := LocalBalance();
      var actualSent :- Checked(balanceBefore - balanceAfter);
      if actualSent <= 0 {
        return Err(InvalidAmount);
      }
      var _ :- NotifyIfStrategy(sub, actualSent);
      var _ :- NoteDepositTo(sub, amount, actualSent);
      return Ok(());
    }

    method PullFrom(s: Signers, sub: Address, amount: int) returns (r: Result<()>)
      requires Valid()
      modifies token, strategies.Values
      ensures var spec := Pull(old(World()), s, sub, amount);
              && Ends(r, spec)
              && (spec.Ok? ==> World() == old(World()).(token := spec.value.0, strategies := spec.value.1))
    {
      if storage.GetSubaccountType(sub) == Wallet {
        if sub != self && sub !in s.approvals {
          return Err(InsufficientAllowance);
        }
        r := token.Move(sub, self, amount);
        return r;
      }
      if sub !in strategies || !strategies[sub].reachable {
        return Err(MissingContract);
      }
      ghost var before := World();
      var _ :- strategies[sub].Withdraw(self, amount);
      assert StrategyStates() == before.strategies[sub := strategies[sub].State()];
      return Ok(());
    }

    method NoteWithdrawalFrom(sub: Address, requested: int, received: int) returns (r: Result<()>)
      modifies storage
      ensures Rewrites(r, NoteWithdrawal(old(storage.Book()), sub, requested, received))
    {
      if storage.GetSubaccountType(sub) == Wallet {
        var tracked := storage.GetWalletNetDeployed(sub);
        if received > tracked {
          return Err(WalletOverWithdraw);
        }
        var written := storage.SetWalletNetDeployed(sub, tracked - received);
        assert written.Ok?;
        var newDeployed :- Checked(storage.deployedAssets - received);
        if newDeployed < 0 {
          return Err(DeployedAssetsUnderflow);
        }
        var stored := storage.SetDeployedAssets(newDeployed);
        assert stored.Ok?;
      }
      storage.Publish(WithdrawnFromSubaccount(sub, requested, received));
      return Ok(());
    }

    method WithdrawFromSubaccount(s: Signers, operator: Address, sub: Address, amount: int) returns (r: Result<()>)
      requires Valid()
      modifies token, storage, strategies.Values
      ensures Reaches(r, System.WithdrawFromSubaccount(old(World()), s, operator, sub, amount))
    {
      hide NoteWithdrawal, Pull, StrategyStates;
      var _ :- CheckOperator(s.auth, operator);
      if storage.paused {
        return Err(VaultPaused);
      }
      if amount <= 0 {
        return Err(InvalidAmount);
      }
      var _ :- CheckWhitelisted(sub);
      var balanceBefore := LocalBalance();
      var _ :- PullFrom(s, sub, amount);
      var balanceAfter := LocalBalance();
      var actualReceived :- Checked(balanceAfter - balanceBefore);
      if actualReceived <= 0 {
        return Err(SubaccountReturnedNothing);
      }
      var _ :- NoteWithdrawalFrom(sub, amount, actualReceived);
      return Ok(());
    }
  }
}
