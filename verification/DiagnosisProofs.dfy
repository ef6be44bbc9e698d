/** Rejected calls name their fault: when everything else about a call is in order, the one thing that is
    not decides the code it traps with. */
module DiagnosisProofs {
  import opened Common
  import opened Arithmetic
  import opened Token
  import opened Limiter
  import opened Accounting
  import opened StrategyModel
  import opened System
  import opened Effects
  import opened ShareProofs
  import opened WindowProofs
  import opened TradeProofs
  import opened LimitProofs
  import opened ManagementProofs
  import opened CapitalProofs
  import opened ControllerProofs

  // ---- shares ----

  /** A paused vault takes no share operation, whoever signs it. */
  lemma PausedTrades(w: World, s: Signers, x: int, to: Address, holder: Address, operator: Address)
    requires w.book.paused
    ensures DepositAssets(w, s, x, to, holder, operator) == Err(VaultPaused)
    ensures MintShares(w, s, x, to, holder, operator) == Err(VaultPaused)
    ensures WithdrawAssets(w, s, x, to, holder, operator) == Err(VaultPaused)
    ensures RedeemShares(w, s, x, to, holder, operator) == Err(VaultPaused)
  {
  }

  /** A share operation that its operator did not sign asks for the signature first. */
  lemma UnsignedTrades(w: World, s: Signers, x: int, to: Address, holder: Address, operator: Address)
    requires !w.book.paused && operator !in s.auth
    ensures DepositAssets(w, s, x, to, holder, operator) == Err(MissingAuth)
    ensures MintShares(w, s, x, to, holder, operator) == Err(MissingAuth)
    ensures WithdrawAssets(w, s, x, to, holder, operator) == Err(MissingAuth)
    ensures RedeemShares(w, s, x, to, holder, operator) == Err(MissingAuth)
  {
  }

  /** What deposit says to an unpaused, signed call on a readable vault. */
  lemma DepositDiagnoses(w: World, s: Signers, assets: int, receiver: Address, from: Address, operator: Address)
    requires Valid(w) && !w.book.paused && operator in s.auth && Readable(w) && Convertible(w) && assets <= I128_MAX
    ensures N(w) > 0 && D(w) > 0
    ensures assets < 0 || (assets > 0 && assets * N(w) < D(w)) ==>
              DepositAssets(w, s, assets, receiver, from, operator) == Err(VaultInvalidAssetsAmount)
    ensures assets * N(w) >= D(w) && Divide(assets * N(w), D(w), Floor) <= I128_MAX ==>
              var r := DepositAssets(w, s, assets, receiver, from, operator);
              && (from != operator && from !in s.approvals ==> r == Err(InsufficientAllowance))
              && (Consents(s, from, operator) && assets > Balance(w.token, from) ==> r == Err(TokenInsufficientBalance))
  {
    hide Nav, N, D;
    PriceSidesPositive(w);
    TotalAssetsExact(w);
    BalanceWithinTotal(w.token, from);
    if assets > 0 {
      QuotientNonNegative(assets, N(w), D(w));
      FloorAtLeast(assets * N(w), D(w), 1);
      ToSharesExactly(w, assets, Floor);
      hide ConvertToShares;
    }
  }

  /** An amount beyond what the vault holds or the shares are worth exceeds the withdrawal cap. */
  lemma WithdrawDiagnoses(w: World, s: Signers, assets: int, receiver: Address, owner: Address, operator: Address)
    requires Valid(w) && !w.book.paused && operator in s.auth && Withdrawable(w, owner)
    ensures assets >= 0 && !CoversAssets(w, owner, assets) ==>
              WithdrawAssets(w, s, assets, receiver, owner, operator) == Err(VaultExceededMaxWithdraw)
    ensures CoversAssets(w, owner, assets) && !Consents(s, owner, operator) ==>
              WithdrawAssets(w, s, assets, receiver, owner, operator) == Err(InsufficientAllowance)
  {
    hide WithdrawCap, CoversAssets, Withdrawable;
    WithdrawCapLargest(w, owner);
    CoveredConverts(w, assets, owner);
  }

  lemma CoveredConverts(w: World, assets: int, owner: Address)
    requires Valid(w) && Withdrawable(w, owner)
    ensures CoversAssets(w, owner, assets) ==>
              PreviewWithdraw(w, assets).Ok? && (assets > 0 ==> PreviewWithdraw(w, assets).value > 0)
  {
    if CoversAssets(w, owner, assets) {
      WithdrawCapLargest(w, owner);
      if assets > 0 {
        WithdrawWithinCap(w, assets, owner);
      } else {
        ToSharesExactly(w, 0, Ceil);
      }
    }
  }

  /** Shares beyond the cap exceed it; shares within it that are worth less than a unit are refused. */
  lemma RedeemDiagnoses(w: World, s: Signers, shares: int, receiver: Address, owner: Address, operator: Address)
    requires Valid(w) && !w.book.paused && operator in s.auth && Redeemable(w)
    ensures shares >= 0 && !CoversShares(w, owner, shares) ==>
              RedeemShares(w, s, shares, receiver, owner, operator) == Err(VaultExceededMaxRedeem)
    ensures shares > 0 && CoversShares(w, owner, shares) && shares * D(w) < N(w) ==>
              RedeemShares(w, s, shares, receiver, owner, operator) == Err(VaultInvalidSharesAmount)
  {
    hide RedeemCap, CoversShares, Redeemable;
    RedeemCapLargest(w, owner);
    if shares > 0 && CoversShares(w, owner, shares) {
      RedeemWithinCap(w, shares, owner);
      AssetsPrice(w, shares, Floor);
      WorthOneUnit(PreviewRedeem(w, shares).value, shares * D(w), N(w));
    }
  }

  // ---- capital ----

  /** What deposit_to_subaccount says to the signed operator of an unpaused vault. */
  lemma FundingDiagnoses(w: World, s: Signers, operator: Address, sub: Address, amount: int)
    requires Valid(w) && operator in s.auth
    ensures var r := DepositToSubaccount(w, s, operator, sub, amount);
            && (w.book.operator != Some(operator) ==> r == Err(Unauthorized))
            && (w.book.operator == Some(operator) && w.book.paused ==> r == Err(VaultPaused))
            && (w.book.operator == Some(operator) && !w.book.paused ==>
                  && (amount <= 0 ==> r == Err(InvalidAmount))
                  && (amount > 0 && sub !in w.book.subs ==> r == Err(SubaccountNotWhitelisted))
                  && (amount > Local(w) && sub in w.book.subs ==> r == Err(TokenInsufficientBalance))
                  && (0 < amount <= Local(w) && sub in w.book.subs && sub == w.self ==> r == Err(InvalidAmount)))
  {
    hide NotifyStrategy, NoteDeposit;
    BalanceWithinTotal(w.token, w.self);
  }

  /** What withdraw_from_subaccount says to the signed operator of an unpaused vault about a listed subaccount. */
  lemma CollectionDiagnoses(w: World, s: Signers, operator: Address, sub: Address, amount: int)
    requires Valid(w) && WellSigned(w, s) && OperatorSigns(w.book, s.auth, operator)
    requires !w.book.paused && sub in w.book.subs && sub != w.self && amount > 0
    ensures var r := WithdrawFromSubaccount(w, s, operator, sub, amount);
            if Kind(w.book, sub) == Strategy then
              w.strategies[sub].reachable && w.strategies[sub].local == 0 ==> r == Err(SubaccountReturnedNothing)
            else
              && (sub !in s.approvals ==> r == Err(InsufficientAllowance))
              && (sub in s.approvals && amount <= Balance(w.token, sub) ==>
                    && (amount > Tracker(w.book, sub) ==> r == Err(WalletOverWithdraw))
                    && (w.book.deployed < amount <= Tracker(w.book, sub) ==> r == Err(DeployedAssetsUnderflow)))
  {
    hide Pull, NoteWithdrawal, Valid;
    FundingFacts(w, sub, amount);
    CollectionFacts(w, s, sub, amount);
    PullExactly(w, s, sub, amount);
    if Pull(w, s, sub, amount).Ok? {
      assert TokensMoved(w.token, Pull(w, s, sub, amount).value.0, sub, w.self, Returned(w, sub, amount), w.self);
    }
    UnbookingDiagnoses(w, s, sub, amount);
  }

  lemma UnbookingDiagnoses(w: World, s: Signers, sub: Address, amount: int)
    requires Valid(w) && amount > 0
    ensures Kind(w.book, sub) == Wallet && amount > Tracker(w.book, sub) ==>
              NoteWithdrawal(w.book, sub, amount, amount) == Err(WalletOverWithdraw)
    ensures Kind(w.book, sub) == Wallet && w.book.deployed < amount <= Tracker(w.book, sub) && amount <= I128_MAX ==>
              NoteWithdrawal(w.book, sub, amount, amount) == Err(DeployedAssetsUnderflow)
    ensures sub in w.book.subs && Kind(w.book, sub) == Strategy ==> sub in w.strategies
    ensures Kind(w.book, sub) == Wallet && sub !in s.approvals && sub != w.self ==>
              Pull(w, s, sub, amount) == Err(InsufficientAllowance)
  {
  }

  // ---- the limiter ----

  /** Which of the two limits a change exceeds. */
  lemma LimiterDiagnoses(limits: Limits, win: Window, now: int, prev: int, next: int)
    requires WindowValid(win) && win.duration > 0 && limits.increaseBps >= 0 && limits.decreaseBps >= 0
    requires prev > 0 && next != prev
    ensures var up := next > prev;
            var delta := if up then next - prev else prev - next;
            var perCall := if up then limits.increaseBps else limits.decreaseBps;
            var share := if up then win.increaseBps else win.decreaseBps;
            var recorded := if Over(win, now) then 0 else if up then win.increase else win.decrease;
            var base := if Over(win, now) then prev else win.base;
            var r := CheckChange(limits, win, now, prev, next);
            && (delta * BPS <= I128_MAX && perCall * prev <= I128_MAX && delta * BPS > perCall * prev ==>
                  r == Err(AumChangeExceedsLimit))
            && (WithinShare(delta, perCall, prev) && base != 0 && (recorded + delta) * BPS <= I128_MAX
                && share * base <= I128_MAX && (recorded + delta) * BPS > share * base ==>
                  r == Err(AumCumulativeChangeExceedsLimit))
  {
    var up := next > prev;
    MulMono(0, if up then limits.increaseBps else limits.decreaseBps, prev);
    MulMono(0, if up then win.increaseBps else win.decreaseBps, if Over(win, now) then prev else win.base);
  }

  /** A paused vault refuses every raise of the aggregate that would fit. */
  lemma PausedRaise(b: Book, c: Context, actor: Address, next: int)
    requires b.paused && next > b.deployed && I128(c.local + next)
    ensures ApplyChange(b, c, actor, next) == Err(VaultPaused)
  {
  }

  // ---- management ----

  /** What the signed admin is told. */
  lemma AdminDiagnoses(b: Book, c: Context, sub: Address, amount: int, kind: SubaccountType)
    requires b.admin in c.auth
    ensures sub in b.subs && !b.paused ==>
              ManageStep(b, c, AddSubaccount(b.admin, sub, kind)) == Err(SubaccountAlreadyRegistered)
    ensures sub !in b.subs && !b.paused && |b.subs| >= 10 ==>
              ManageStep(b, c, AddSubaccount(b.admin, sub, kind)) == Err(MaxSubaccountsReached)
    ensures b.paused ==> ManageStep(b, c, AddSubaccount(b.admin, sub, kind)) == Err(VaultPaused)
    ensures Tracker(b, sub) != 0 ==> ManageStep(b, c, RemoveSubaccount(b.admin, sub)) == Err(WalletTrackerNotZero)
    ensures Tracker(b, sub) == 0 && sub !in b.subs ==>
              ManageStep(b, c, RemoveSubaccount(b.admin, sub)) == Err(SubaccountNotWhitelisted)
    ensures ListedWallet(b, sub) && 0 <= amount < Tracker(b, sub) ==>
              ManageStep(b, c, SeedWalletNetDeployed(b.admin, sub, amount)) == Err(WalletSeedBelowTracker)
    ensures sub in b.subs && Kind(b, sub) == Strategy && amount >= 0 ==>
              ManageStep(b, c, SeedWalletNetDeployed(b.admin, sub, amount)) == Err(InvalidSubaccountType)
    ensures b.pendingAdmin.None? ==>
              && ManageStep(b, c, AcceptAdmin) == Err(NoPendingAdmin)
              && ManageStep(b, c, CancelAdminProposal(b.admin)) == Err(NoPendingAdmin)
  {
  }

  /** What the signed operator is told. */
  lemma OperatorDiagnoses(b: Book, c: Context, operator: Address, sub: Address, newTracked: int)
    requires OperatorSigns(b, c.auth, operator)
    ensures newTracked < 0 ==> ManageStep(b, c, UpdateDeployedAssets(operator, newTracked)) == Err(InvalidAmount)
    ensures newTracked >= 0 && sub !in b.subs ==>
              ManageStep(b, c, UpdateWalletDeployed(operator, sub, newTracked)) == Err(SubaccountNotWhitelisted)
    ensures newTracked >= 0 && sub in b.subs && Kind(b, sub) == Strategy ==>
              ManageStep(b, c, UpdateWalletDeployed(operator, sub, newTracked)) == Err(InvalidSubaccountType)
    ensures ManageStep(b, c, UpdateWalletDeployedBatch(operator, [])) == Err(EmptyBatch)
    ensures ManageStep(b, c, UpdateWalletDeployedBatch(operator, [(sub, newTracked), (sub, newTracked)]))
            == Err(DuplicateSubaccountInBatch)
  {
    hide ApplyChange, NetDelta, Overwrite, UpdateEvents;
    var twice := [(sub, newTracked), (sub, newTracked)];
    assert twice[0].0 == twice[1].0;
  }

  /** A signature without the role is unauthorised. */
  lemma StrangersDiagnosed(b: Book, c: Context, stranger: Address, sub: Address, amount: int)
    requires stranger in c.auth
    ensures stranger != b.admin ==>
              && ManageStep(b, c, Pause(stranger)) == Err(Unauthorized)
              && ManageStep(b, c, RemoveSubaccount(stranger, sub)) == Err(Unauthorized)
              && ManageStep(b, c, SeedWalletNetDeployed(stranger, sub, amount)) == Err(Unauthorized)
    ensures b.operator != Some(stranger) ==>
              && ManageStep(b, c, UpdateDeployedAssets(stranger, amount)) == Err(Unauthorized)
              && ManageStep(b, c, UpdateWalletDeployed(stranger, sub, amount)) == Err(Unauthorized)
  {
  }

  // ---- the strategy ----

  /** What a strategy says to its own signed controller. */
  lemma ControllerDiagnoses(
    st: StrategyState, me: Address, t: Ledger, auth: set<Address>, vault: Address, target: Address, amount: int)
    requires TokenValid(t) && StrategyValid(st, me, t, vault) && me != vault && st.controller in auth
    ensures var answer := (call: ControllerCall) => ControllerStep(st, me, t, auth, st.controller, call);
            && (target == me || target == vault ==>
                  && answer(DeployToProtocol(target, amount)) == Err(InvalidTarget)
                  && answer(RecallFromProtocol(target, amount)) == Err(InvalidTarget)
                  && answer(RecoverDonation(target, amount)) == Err(InvalidTarget))
            && (target != me && target != vault && amount > 0 ==>
                  && (amount > st.local ==>
                        answer(DeployToProtocol(target, amount)) == Err(StrategyInsufficientBalance))
                  && (target !in auth ==> answer(RecallFromProtocol(target, amount)) == Err(MissingAuth))
                  && (Balance(t, me) == st.local ==>
                        answer(RecoverDonation(target, amount)) == Err(NoDonationToRecover))
                  && (0 < Balance(t, me) - st.local < amount ==>
                        answer(RecoverDonation(target, amount)) == Err(StrategyInsufficientBalance)))
            && (st.local != 0 && amount >= 0 ==> answer(SeedLocalBalance(amount)) == Err(LocalBalanceAlreadySeeded))
            && (st.local == 0 && amount > Balance(t, me) ==>
                  answer(SeedLocalBalance(amount)) == Err(SeedExceedsActualBalance))
            && (st.latched && amount >= 0 ==> answer(SeedDeployedTotal(amount)) == Err(DeployedTotalAlreadyInitialized))
            && (st.latched && 0 <= amount <= I128_MAX && amount != st.deployed && st.deployed * 1_000 <= I128_MAX
                && !SettleWithin(st.deployed, amount) ==>
                  answer(SettleProtocolReturns(amount)) == Err(SettleRateLimitExceeded))
  {
    BalanceWithinTotal(t, me);
  }

  /** A stranger's signature does not control, and nobody but the vault funds or drains. */
  lemma StrangersKeptOut(
    st: StrategyState, me: Address, t: Ledger, auth: set<Address>, stranger: Address, call: ControllerCall, amount: int)
    ensures stranger in auth && stranger != st.controller ==>
              ControllerStep(st, me, t, auth, stranger, call) == Err(NotController)
    ensures stranger !in auth ==> ControllerStep(st, me, t, auth, stranger, call) == Err(MissingAuth)
    ensures stranger != st.vault ==> Deposit(st, me, t, stranger, amount) == Err(NotVault)
    ensures stranger != st.vault ==> Withdraw(st, me, t, stranger, amount) == Err(NotVault)
    ensures amount > 0 && I128(st.local + amount) && Balance(t, me) < st.local + amount ==>
              Deposit(st, me, t, st.vault, amount) == Err(DepositShortfall)
  {
  }
}
