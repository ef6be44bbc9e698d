/** The share price: what total assets reports, the preview laws, and exact withdrawal caps. */
module ShareProofs {
  import opened Common
  import opened Arithmetic
  import opened Sums
  import opened Token
  import opened Accounting
  import opened System
  import opened Effects

  // ---- what the reported total is ----

  ghost predicate AllReachable(w: World) {
    forall a :: a in w.book.subs && Kind(w.book, a) == Strategy ==> a in w.strategies && w.strategies[a].reachable
  }

  lemma StrategyBalanceExact(w: World, a: Address)
    requires Valid(w) && a in w.book.subs && Kind(w.book, a) == Strategy
    ensures StrategyBalance(w, a).Ok? <==> w.strategies[a].reachable && Position(w, a) <= I128_MAX
    ensures StrategyBalance(w, a).Ok? ==> StrategyBalance(w, a).value == Position(w, a)
    ensures StrategyBalance(w, a).Err? ==> StrategyBalance(w, a) == Err(StrategyUnreachable)
  {
    BalanceWithinTotal(w.token, a);
  }

  /** The loop's running total is the sum of the positions seen so far, and it traps at the first
      unreachable strategy or at the first sum that leaves the range. */
  lemma {:induction false} QueryExact(w: World, n: nat)
    requires Valid(w) && n <= |w.book.subs|
    ensures var f := a => Position(w, a);
            && 0 <= SumBy(w.book.subs[..n], f)
            && (QueryStrategies(w, n).Ok? ==> QueryStrategies(w, n).value == SumBy(w.book.subs[..n], f))
            && (QueryStrategies(w, n).Ok? <==>
                  SumBy(w.book.subs[..n], f) <= I128_MAX
                  && forall i :: 0 <= i < n && Kind(w.book, w.book.subs[i]) == Strategy ==>
                       w.strategies[w.book.subs[i]].reachable)
  {
    if n > 0 {
      QueryExact(w, n - 1);
      assert w.book.subs[..n][..n - 1] == w.book.subs[..n - 1];
      var sub := w.book.subs[n - 1];
      if Kind(w.book, sub) == Strategy {
        StrategyBalanceExact(w, sub);
      }
    }
  }

  /** total_assets reports net asset value exactly when every strategy answers and the sum is in range. */
  lemma TotalAssetsExact(w: World)
    requires Valid(w)
    ensures Nav(w) >= 0
    ensures TotalAssets(w).Ok? <==> AllReachable(w) && Nav(w) <= I128_MAX
    ensures TotalAssets(w).Ok? ==> TotalAssets(w).value == Nav(w)
  {
    QueryExact(w, |w.book.subs|);
    assert w.book.subs[..|w.book.subs|] == w.book.subs;
    BalanceWithinTotal(w.token, w.self);
    if TotalAssets(w).Ok? {
      forall a | a in w.book.subs && Kind(w.book, a) == Strategy ensures w.strategies[a].reachable {
        var i :| 0 <= i < |w.book.subs| && w.book.subs[i] == a;
      }
    }
  }

  // ---- the preview laws ----

  /** Virtual shares and virtual assets: the two sides of the price fraction. */
  function N(w: World): int {
    w.shares.supply + Unit(w)
  }

  function D(w: World): int {
    Nav(w) + 1
  }

  lemma PriceSidesPositive(w: World)
    requires Valid(w)
    ensures N(w) > 0 && D(w) > 0
  {
    UnitPositive(w);
    SupplyNonNegative(w);
    TotalAssetsExact(w);
  }

  lemma SharesPrice(w: World, assets: int, rounding: Rounding)
    requires Valid(w) && ConvertToShares(w, assets, rounding).Ok?
    ensures N(w) > 0 && D(w) > 0
    ensures var s := ConvertToShares(w, assets, rounding).value;
            match rounding
            case Floor => RoundsDown(s, assets * N(w), D(w))
            case Ceil => RoundsUp(s, assets * N(w), D(w))
  {
    PriceSidesPositive(w);
    TotalAssetsExact(w);
    QuotientRounds(assets * N(w), D(w));
  }

  lemma AssetsPrice(w: World, shares: int, rounding: Rounding)
    requires Valid(w) && ConvertToAssets(w, shares, rounding).Ok?
    ensures N(w) > 0 && D(w) > 0
    ensures var a := ConvertToAssets(w, shares, rounding).value;
            match rounding
            case Floor => RoundsDown(a, shares * D(w), N(w))
            case Ceil => RoundsUp(a, shares * D(w), N(w))
  {
    PriceSidesPositive(w);
    TotalAssetsExact(w);
    QuotientRounds(shares * D(w), N(w));
  }

  /** Depositing a buys at least s shares exactly when minting s costs at most a. */
  lemma DepositMintAdjunction(w: World, assets: int, shares: int)
    requires Valid(w) && PreviewDeposit(w, assets).Ok? && PreviewMint(w, shares).Ok?
    ensures PreviewDeposit(w, assets).value >= shares <==> assets >= PreviewMint(w, shares).value
  {
    SharesPrice(w, assets, Floor);
    AssetsPrice(w, shares, Ceil);
    RoundingAdjunction(assets, shares, PreviewDeposit(w, assets).value, PreviewMint(w, shares).value, N(w), D(w));
  }

  /** Redeeming s pays at least a exactly when withdrawing a burns at most s. */
  lemma RedeemWithdrawAdjunction(w: World, assets: int, shares: int)
    requires Valid(w) && PreviewRedeem(w, shares).Ok? && PreviewWithdraw(w, assets).Ok?
    ensures PreviewRedeem(w, shares).value >= assets <==> shares >= PreviewWithdraw(w, assets).value
  {
    AssetsPrice(w, shares, Floor);
    SharesPrice(w, assets, Ceil);
    RoundingAdjunction(shares, assets, PreviewRedeem(w, shares).value, PreviewWithdraw(w, assets).value, D(w), N(w));
  }

  /** Deposit then redeem, or redeem then deposit, never returns more than went in. */
  lemma ExitNeverGains(w: World, x: int)
    requires Valid(w)
    ensures PreviewDeposit(w, x).Ok? && PreviewRedeem(w, PreviewDeposit(w, x).value).Ok? ==>
              PreviewRedeem(w, PreviewDeposit(w, x).value).value <= x
    ensures PreviewRedeem(w, x).Ok? && PreviewDeposit(w, PreviewRedeem(w, x).value).Ok? ==>
              PreviewDeposit(w, PreviewRedeem(w, x).value).value <= x
  {
    if PreviewDeposit(w, x).Ok? && PreviewRedeem(w, PreviewDeposit(w, x).value).Ok? {
      var s := PreviewDeposit(w, x).value;
      SharesPrice(w, x, Floor);
      AssetsPrice(w, s, Floor);
      MulCancel(PreviewRedeem(w, s).value, x, N(w));
    }
    if PreviewRedeem(w, x).Ok? && PreviewDeposit(w, PreviewRedeem(w, x).value).Ok? {
      var a := PreviewRedeem(w, x).value;
      AssetsPrice(w, x, Floor);
      SharesPrice(w, a, Floor);
      MulCancel(PreviewDeposit(w, a).value, x, D(w));
    }
  }

  /** Mint then withdraw, or withdraw then mint, never costs less than it gives. */
  lemma EntryNeverUndercharges(w: World, x: int)
    requires Valid(w)
    ensures PreviewMint(w, x).Ok? && PreviewWithdraw(w, PreviewMint(w, x).value).Ok? ==>
              PreviewWithdraw(w, PreviewMint(w, x).value).value >= x
    ensures PreviewWithdraw(w, x).Ok? && PreviewMint(w, PreviewWithdraw(w, x).value).Ok? ==>
              PreviewMint(w, PreviewWithdraw(w, x).value).value >= x
  {
    if PreviewMint(w, x).Ok? && PreviewWithdraw(w, PreviewMint(w, x).value).Ok? {
      var a := PreviewMint(w, x).value;
      AssetsPrice(w, x, Ceil);
      SharesPrice(w, a, Ceil);
      MulCancel(x, PreviewWithdraw(w, a).value, D(w));
    }
    if PreviewWithdraw(w, x).Ok? && PreviewMint(w, PreviewWithdraw(w, x).value).Ok? {
      var s := PreviewWithdraw(w, x).value;
      SharesPrice(w, x, Ceil);
      AssetsPrice(w, s, Ceil);
      MulCancel(x, PreviewMint(w, s).value, N(w));
    }
  }

  // ---- caps ----

  /** The preconditions that have nothing to do with amounts. */
  predicate Authorised(w: World, s: Signers, owner: Address, operator: Address) {
    !w.book.paused && operator in s.auth && (owner == operator || owner in s.approvals)
  }

  /** An amount within the cap converts, burns no more than the owner holds, and burns something. */
  lemma WithdrawWithinCap(w: World, assets: int, owner: Address)
    requires Valid(w) && WithdrawCap(w, owner).Ok? && 0 < assets <= WithdrawCap(w, owner).value
    ensures PreviewWithdraw(w, assets).Ok? && 0 < PreviewWithdraw(w, assets).value <= SharesOf(w, owner)
  {
    var held := SharesOf(w, owner);
    PriceSidesPositive(w);
    TotalAssetsExact(w);
    AssetsPrice(w, held, Floor);
    QuotientRounds(assets * N(w), D(w));
    var burned := Divide(assets * N(w), D(w), Ceil);
    BurnWithinHeld(assets, ConvertToAssets(w, held, Floor).value, held, burned, N(w), D(w));
    BalanceWithinTotal(w.shares.balances, owner);
    UnitPositive(w);
  }

  /** withdraw accepts exactly the amounts from 0 to max_withdraw, and never overdraws owner or vault. */
  lemma WithdrawCapExact(w: World, s: Signers, assets: int, receiver: Address, owner: Address, operator: Address)
    requires Valid(w) && Authorised(w, s, owner, operator) && MaxWithdraw(w, owner).Ok?
    ensures WithdrawAssets(w, s, assets, receiver, owner, operator).Ok? <==> 0 <= assets <= MaxWithdraw(w, owner).value
    ensures WithdrawAssets(w, s, assets, receiver, owner, operator).Ok? ==>
              PreviewWithdraw(w, assets).value <= SharesOf(w, owner) && assets <= Local(w)
  {
    BalanceWithinTotal(w.shares.balances, owner);
    if 0 < assets <= MaxWithdraw(w, owner).value {
      WithdrawWithinCap(w, assets, owner);
    }
  }

  /** Shares within the cap are worth no more than the local balance. */
  lemma RedeemWithinCap(w: World, shares: int, owner: Address)
    requires Valid(w) && RedeemCap(w, owner).Ok? && 0 < shares <= RedeemCap(w, owner).value
    ensures PreviewRedeem(w, shares).Ok? && 0 <= PreviewRedeem(w, shares).value <= Local(w)
  {
    PriceSidesPositive(w);
    TotalAssetsExact(w);
    SharesPrice(w, Local(w), Floor);
    QuotientRounds(shares * D(w), N(w));
    var paid := Divide(shares * D(w), N(w), Floor);
    PaidWithinLocal(shares, ConvertToShares(w, Local(w), Floor).value, Local(w), paid, N(w), D(w));
    BalanceWithinTotal(w.token, w.self);
    assert I128(N(w)) && I128(D(w));
  }

  lemma PaidWithinLocal(shares: int, available: int, local: int, paid: int, n: int, d: int)
    requires n > 0 && d > 0 && 0 < shares <= available
    requires RoundsDown(available, local * n, d) && RoundsDown(paid, shares * d, n)
    ensures 0 <= paid <= local
  {
    MulMono(shares, available, d);
    MulCancel(paid, local, n);
    MulMono(1, shares, d);
    assert (paid + 1) * n == paid * n + n;
    MulLess(0, paid + 1, n);
  }

  /** redeem accepts exactly 0 and the shares up to max_redeem that are worth at least one asset unit. */
  lemma RedeemCapExact(w: World, s: Signers, shares: int, receiver: Address, owner: Address, operator: Address)
    requires Valid(w) && Authorised(w, s, owner, operator) && MaxRedeem(w, owner).Ok?
    ensures RedeemShares(w, s, shares, receiver, owner, operator).Ok? <==>
              0 <= shares <= MaxRedeem(w, owner).value && (shares == 0 || shares * D(w) >= N(w))
    ensures RedeemShares(w, s, shares, receiver, owner, operator).Ok? ==> PreviewRedeem(w, shares).value <= Local(w)
  {
    BalanceWithinTotal(w.shares.balances, owner);
    BalanceWithinTotal(w.token, w.self);
    if 0 < shares <= MaxRedeem(w, owner).value {
      RedeemWithinCap(w, shares, owner);
      AssetsPrice(w, shares, Floor);
      WorthOneUnit(PreviewRedeem(w, shares).value, shares * D(w), N(w));
    }
  }

  lemma WorthOneUnit(paid: int, value: int, n: int)
    requires n > 0 && RoundsDown(paid, value, n) && paid >= 0
    ensures paid > 0 <==> value >= n
  {
    if paid > 0 {
      MulMono(1, paid, n);
    }
  }
}
