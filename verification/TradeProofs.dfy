/** Exactly when each share operation is accepted, and exactly what it answers and moves: stated on
    balances, supply and net asset value, without the operations' own previews and caps. */
module TradeProofs {
  import opened Common
  import opened Arithmetic
  import opened Token
  import opened System
  import opened Effects
  import opened ShareProofs

  /** total_assets answers. */
  ghost predicate Readable(w: World) {
    AllReachable(w) && Nav(w) <= I128_MAX
  }

  /** Both sides of the price fit, so that positive amounts convert. */
  predicate Convertible(w: World) {
    N(w) <= I128_MAX && D(w) <= I128_MAX
  }

  /** Whoever spends an account's shares or tokens signed and is that account or approved by it. */
  predicate Consents(s: Signers, account: Address, operator: Address) {
    operator in s.auth && (account == operator || account in s.approvals)
  }

  lemma ToSharesExactly(w: World, x: int, rounding: Rounding)
    requires Valid(w)
    ensures D(w) > 0
    ensures ConvertToShares(w, x, rounding).Ok? <==>
              Readable(w) && x >= 0 && (x == 0 || (Convertible(w) && Divide(x * N(w), D(w), rounding) <= I128_MAX))
    ensures ConvertToShares(w, x, rounding).Ok? ==>
              ConvertToShares(w, x, rounding).value == Divide(x * N(w), D(w), rounding) >= 0
  {
    TotalAssetsExact(w);
    PriceSidesPositive(w);
    if x >= 0 {
      QuotientNonNegative(x, N(w), D(w));
    }
  }

  lemma ToAssetsExactly(w: World, x: int, rounding: Rounding)
    requires Valid(w)
    ensures N(w) > 0
    ensures ConvertToAssets(w, x, rounding).Ok? <==>
              Readable(w) && x >= 0 && (x == 0 || (Convertible(w) && Divide(x * D(w), N(w), rounding) <= I128_MAX))
    ensures ConvertToAssets(w, x, rounding).Ok? ==>
              ConvertToAssets(w, x, rounding).value == Divide(x * D(w), N(w), rounding) >= 0
  {
    TotalAssetsExact(w);
    PriceSidesPositive(w);
    if x >= 0 {
      QuotientNonNegative(x, D(w), N(w));
    }
  }

  lemma QuotientNonNegative(x: int, y: int, d: int)
    requires x >= 0 && y >= 0 && d > 0
    ensures Divide(x * y, d, Floor) >= 0 && Divide(x * y, d, Ceil) >= 0
    ensures x == 0 ==> Divide(x * y, d, Floor) == 0 && Divide(x * y, d, Ceil) == 0
  {
    MulMono(0, x, y);
    FloorAtLeast(x * y, d, 0);
    FloorAtLeast(x * y + d - 1, d, 0);
    DivBounds(d - 1, d);
  }

  // ---- what moves ----

  /** Tokens move from one account to another and nowhere else. */
  predicate TokensMoved(t: Ledger, t': Ledger, from: Address, to: Address, amount: int, a: Address) {
    Balance(t', a) == Balance(t, a) - (if a == from then amount else 0) + (if a == to then amount else 0)
  }

  /** Assets go from the payer to the vault, new shares to the receiver, and nothing else moves. */
  ghost predicate Entered(w: World, w': World, from: Address, receiver: Address, assets: int, shares: int) {
    && w' == w.(token := w'.token, shares := w'.shares)
    && w'.shares.supply == w.shares.supply + shares
    && (forall a :: TokensMoved(w.token, w'.token, from, w.self, assets, a))
    && (forall a :: SharesOf(w', a) == SharesOf(w, a) + (if a == receiver then shares else 0))
  }

  /** Shares leave the owner, assets go from the vault to the receiver, and nothing else moves. */
  ghost predicate Left(w: World, w': World, owner: Address, receiver: Address, assets: int, shares: int) {
    && w' == w.(token := w'.token, shares := w'.shares)
    && w'.shares.supply == w.shares.supply - shares
    && (forall a :: TokensMoved(w.token, w'.token, w.self, receiver, assets, a))
    && (forall a :: SharesOf(w', a) == SharesOf(w, a) - (if a == owner then shares else 0))
  }

  lemma PayInExactly(
    w: World, s: Signers, receiver: Address, assets: int, shares: int, from: Address, operator: Address)
    requires assets >= 0 && shares >= 0 && w.shares.supply >= 0
    ensures DepositInternal(w, s, receiver, assets, shares, from, operator).Ok? <==>
              && (from == operator || from in s.approvals)
              && assets <= Balance(w.token, from) && w.shares.supply + shares <= I128_MAX
    ensures var r := DepositInternal(w, s, receiver, assets, shares, from, operator);
            r.Ok? ==> Entered(w, r.value, from, receiver, assets, shares)
  {
  }

  lemma PayOutExactly(
    w: World, s: Signers, receiver: Address, owner: Address, assets: int, shares: int, operator: Address)
    requires assets >= 0 && shares >= 0
    ensures WithdrawInternal(w, s, receiver, owner, assets, shares, operator).Ok? <==>
              && (owner == operator || owner in s.approvals)
              && shares <= SharesOf(w, owner) && assets <= Local(w)
    ensures var r := WithdrawInternal(w, s, receiver, owner, assets, shares, operator);
            r.Ok? ==> Left(w, r.value, owner, receiver, assets, shares)
  {
  }

  // ---- deposit ----

  /** deposit is accepted exactly from a consenting payer who holds the assets, into a readable and unpaused
      vault, for nothing or for at least one share; the answer is the floor price and the shares received. */
  lemma DepositExactly(w: World, s: Signers, assets: int, receiver: Address, from: Address, operator: Address)
    requires Valid(w)
    ensures N(w) > 0 && D(w) > 0
    ensures var r := DepositAssets(w, s, assets, receiver, from, operator);
            r.Ok? <==>
              && !w.book.paused && Consents(s, from, operator) && Readable(w)
              && 0 <= assets <= Balance(w.token, from)
              && (assets == 0 || (Convertible(w) && assets * N(w) >= D(w)))
              && w.shares.supply + Divide(assets * N(w), D(w), Floor) <= I128_MAX
    ensures var r := DepositAssets(w, s, assets, receiver, from, operator);
            r.Ok? ==> Entered(w, r.value.0, from, receiver, assets, r.value.1)
                      && r.value.1 >= 0 && RoundsDown(r.value.1, assets * N(w), D(w))
  {
    hide ConvertToShares, DepositInternal, Entered, Nav, N, D;
    PriceSidesPositive(w);
    ToSharesExactly(w, assets, Floor);
    SupplyNonNegative(w);
    BalanceWithinTotal(w.token, from);
    if assets >= 0 {
      QuotientRounds(assets * N(w), D(w));
      FloorAtLeast(assets * N(w), D(w), 1);
      var shares := Divide(assets * N(w), D(w), Floor);
      if shares >= 0 {
        PayInExactly(w, s, receiver, assets, shares, from, operator);
      }
    }
  }

  /** mint is accepted exactly from a consenting payer whose assets cover the price of the shares; the
      answer is the ceiling price and the assets paid. */
  lemma MintExactly(w: World, s: Signers, shares: int, receiver: Address, from: Address, operator: Address)
    requires Valid(w)
    ensures N(w) > 0 && D(w) > 0
    ensures var r := MintShares(w, s, shares, receiver, from, operator);
            r.Ok? <==>
              && !w.book.paused && Consents(s, from, operator) && Readable(w)
              && 0 <= shares && shares * D(w) <= Balance(w.token, from) * N(w)
              && (shares == 0 || Convertible(w))
              && w.shares.supply + shares <= I128_MAX
    ensures var r := MintShares(w, s, shares, receiver, from, operator);
            r.Ok? ==> Entered(w, r.value.0, from, receiver, r.value.1, shares)
                      && r.value.1 >= 0 && RoundsUp(r.value.1, shares * D(w), N(w))
  {
    hide ConvertToAssets, DepositInternal, Entered, Nav, N, D;
    PriceSidesPositive(w);
    ToAssetsExactly(w, shares, Ceil);
    SupplyNonNegative(w);
    BalanceWithinTotal(w.token, from);
    if shares >= 0 {
      QuotientNonNegative(shares, D(w), N(w));
      QuotientRounds(shares * D(w), N(w));
      var assets := Divide(shares * D(w), N(w), Ceil);
      CeilingReaches(assets, Balance(w.token, from), shares * D(w), N(w));
      CeilingReaches(assets, 0, shares * D(w), N(w));
      if shares > 0 {
        MulMono(1, shares, D(w));
      }
      PayInExactly(w, s, receiver, assets, shares, from, operator);
    }
  }

  // ---- withdraw ----

  /** What an owner could withdraw: it is in the vault, and the owner's shares are worth it. */
  ghost predicate CoversAssets(w: World, owner: Address, assets: int) {
    0 <= assets <= Local(w) && assets * N(w) <= SharesOf(w, owner) * D(w)
  }

  /** A holder of nothing needs no conversion. */
  ghost predicate Withdrawable(w: World, owner: Address) {
    Readable(w) && (SharesOf(w, owner) == 0 || Convertible(w))
  }

  /** max_withdraw answers zero when paused, and otherwise the largest amount that the vault holds and the
      owner's shares are worth. */
  lemma MaxWithdrawLargest(w: World, owner: Address)
    requires Valid(w)
    ensures w.book.paused ==> MaxWithdraw(w, owner) == Ok(0)
    ensures !w.book.paused ==> (MaxWithdraw(w, owner).Ok? <==> Withdrawable(w, owner))
    ensures !w.book.paused && MaxWithdraw(w, owner).Ok? ==>
              && CoversAssets(w, owner, MaxWithdraw(w, owner).value)
              && (forall x :: CoversAssets(w, owner, x) ==> x <= MaxWithdraw(w, owner).value)
  {
    WithdrawCapLargest(w, owner);
  }

  lemma WithdrawCapLargest(w: World, owner: Address)
    requires Valid(w)
    ensures WithdrawCap(w, owner).Ok? <==> Withdrawable(w, owner)
    ensures WithdrawCap(w, owner).Ok? ==>
              forall x :: CoversAssets(w, owner, x) <==> 0 <= x <= WithdrawCap(w, owner).value
    ensures WithdrawCap(w, owner).Ok? ==> WithdrawCap(w, owner).value >= 0
  {
    hide ConvertToAssets, Nav, N, D;
    var held := SharesOf(w, owner);
    PriceSidesPositive(w);
    ToAssetsExactly(w, held, Floor);
    BalanceWithinTotal(w.shares.balances, owner);
    BalanceWithinTotal(w.token, w.self);
    QuotientNonNegative(held, D(w), N(w));
    QuotientRounds(held * D(w), N(w));
    var worth := Divide(held * D(w), N(w), Floor);
    HeldWorthFits(w, owner);
    forall x ensures x <= worth <==> x * N(w) <= held * D(w) {
      FloorReaches(worth, x, held * D(w), N(w));
    }
  }

  /** A holder's shares are worth less than everything there is, so their value fits when the price does. */
  lemma HeldWorthFits(w: World, owner: Address)
    requires Valid(w)
    ensures N(w) > 0 && Divide(SharesOf(w, owner) * D(w), N(w), Floor) <= D(w)
  {
    var held := SharesOf(w, owner);
    PriceSidesPositive(w);
    UnitPositive(w);
    BalanceWithinTotal(w.shares.balances, owner);
    QuotientRounds(held * D(w), N(w));
    MulMono(held, N(w), D(w));
    MulCancel(Divide(held * D(w), N(w), Floor), D(w), N(w));
  }

  /** withdraw is accepted exactly for a consenting owner of an unpaused vault and an amount the vault holds
      and the shares are worth; the answer is the ceiling price and the shares burned. */
  lemma WithdrawExactly(w: World, s: Signers, assets: int, receiver: Address, owner: Address, operator: Address)
    requires Valid(w)
    ensures N(w) > 0 && D(w) > 0
    ensures var r := WithdrawAssets(w, s, assets, receiver, owner, operator);
            r.Ok? <==>
              !w.book.paused && Consents(s, owner, operator) && Withdrawable(w, owner) && CoversAssets(w, owner, assets)
    ensures var r := WithdrawAssets(w, s, assets, receiver, owner, operator);
            r.Ok? ==> Left(w, r.value.0, owner, receiver, assets, r.value.1)
                      && r.value.1 >= 0 && RoundsUp(r.value.1, assets * N(w), D(w))
  {
    hide ConvertToShares, WithdrawCap, WithdrawInternal, Left, Nav, N, D;
    PriceSidesPositive(w);
    WithdrawCapLargest(w, owner);
    BalanceWithinTotal(w.shares.balances, owner);
    ToSharesExactly(w, assets, Ceil);
    if CoversAssets(w, owner, assets) {
      QuotientNonNegative(assets, N(w), D(w));
      QuotientRounds(assets * N(w), D(w));
      var shares := Divide(assets * N(w), D(w), Ceil);
      CeilingReaches(shares, SharesOf(w, owner), assets * N(w), D(w));
      CeilingReaches(shares, 0, assets * N(w), D(w));
      if assets > 0 {
        MulMono(1, assets, N(w));
      }
      HeldFits(w, owner);
      PayOutExactly(w, s, receiver, owner, assets, shares, operator);
    }
  }

  lemma HeldFits(w: World, owner: Address)
    requires Valid(w)
    ensures SharesOf(w, owner) <= N(w)
    ensures SharesOf(w, owner) == 0 ==> SharesOf(w, owner) * D(w) == 0
  {
    UnitPositive(w);
    BalanceWithinTotal(w.shares.balances, owner);
  }

  // ---- redeem ----

  /** What an owner could redeem: the owner holds it, and the local balance covers its worth. */
  ghost predicate CoversShares(w: World, owner: Address, shares: int) {
    0 <= shares <= SharesOf(w, owner) && shares * D(w) <= Local(w) * N(w)
  }

  /** An empty vault needs no conversion. */
  ghost predicate Redeemable(w: World) {
    Readable(w) && (Local(w) == 0 || Convertible(w))
  }

  lemma RedeemCapLargest(w: World, owner: Address)
    requires Valid(w)
    ensures RedeemCap(w, owner).Ok? <==> Redeemable(w)
    ensures RedeemCap(w, owner).Ok? ==>
              forall x :: CoversShares(w, owner, x) <==> 0 <= x <= RedeemCap(w, owner).value
    ensures RedeemCap(w, owner).Ok? ==> RedeemCap(w, owner).value >= 0
  {
    hide ConvertToShares, Nav, N, D;
    PriceSidesPositive(w);
    ToSharesExactly(w, Local(w), Floor);
    BalanceWithinTotal(w.shares.balances, owner);
    BalanceWithinTotal(w.token, w.self);
    QuotientNonNegative(Local(w), N(w), D(w));
    QuotientRounds(Local(w) * N(w), D(w));
    var worth := Divide(Local(w) * N(w), D(w), Floor);
    LocalWorthFits(w);
    forall x ensures x <= worth <==> x * D(w) <= Local(w) * N(w) {
      FloorReaches(worth, x, Local(w) * N(w), D(w));
    }
  }

  lemma LocalWorthFits(w: World)
    requires Valid(w)
    ensures D(w) > 0 && Divide(Local(w) * N(w), D(w), Floor) <= N(w)
  {
    PriceSidesPositive(w);
    LocalBelowNav(w);
    QuotientRounds(Local(w) * N(w), D(w));
    MulMono(Local(w), D(w), N(w));
    MulCancel(Divide(Local(w) * N(w), D(w), Floor), N(w), D(w));
  }

  lemma LocalBelowNav(w: World)
    requires Valid(w)
    ensures 0 <= Local(w) <= Nav(w)
  {
    BalanceWithinTotal(w.token, w.self);
    QueryExact(w, |w.book.subs|);
    assert w.book.subs[..|w.book.subs|] == w.book.subs;
  }

  /** max_redeem answers zero when paused, and otherwise the largest number of shares that the owner holds
      and the local balance is worth. */
  lemma MaxRedeemLargest(w: World, owner: Address)
    requires Valid(w)
    ensures w.book.paused ==> MaxRedeem(w, owner) == Ok(0)
    ensures !w.book.paused ==> (MaxRedeem(w, owner).Ok? <==> Redeemable(w))
    ensures !w.book.paused && MaxRedeem(w, owner).Ok? ==>
              && CoversShares(w, owner, MaxRedeem(w, owner).value)
              && (forall x :: CoversShares(w, owner, x) ==> x <= MaxRedeem(w, owner).value)
  {
    RedeemCapLargest(w, owner);
  }

  /** redeem is accepted exactly for a consenting owner of an unpaused vault and shares the owner holds, the
      local balance covers, and that are none or worth a unit; the answer is the floor price and what is paid. */
  lemma RedeemExactly(w: World, s: Signers, shares: int, receiver: Address, owner: Address, operator: Address)
    requires Valid(w)
    ensures N(w) > 0 && D(w) > 0
    ensures var r := RedeemShares(w, s, shares, receiver, owner, operator);
            r.Ok? <==>
              && !w.book.paused && Consents(s, owner, operator) && Redeemable(w)
              && CoversShares(w, owner, shares) && (shares == 0 || shares * D(w) >= N(w))
    ensures var r := RedeemShares(w, s, shares, receiver, owner, operator);
            r.Ok? ==> Left(w, r.value.0, owner, receiver, r.value.1, shares)
                      && r.value.1 >= 0 && RoundsDown(r.value.1, shares * D(w), N(w))
  {
    hide ConvertToAssets, RedeemCap, WithdrawInternal, Left, Nav, N, D;
    PriceSidesPositive(w);
    RedeemCapLargest(w, owner);
    BalanceWithinTotal(w.token, w.self);
    ToAssetsExactly(w, shares, Floor);
    if CoversShares(w, owner, shares) {
      QuotientNonNegative(shares, D(w), N(w));
      QuotientRounds(shares * D(w), N(w));
      var assets := Divide(shares * D(w), N(w), Floor);
      FloorReaches(assets, 1, shares * D(w), N(w));
      PaidFits(assets, Local(w), shares * D(w), N(w));
      if Local(w) == 0 && shares > 0 {
        MulMono(1, shares, D(w));
      }
      PayOutExactly(w, s, receiver, owner, assets, shares, operator);
    }
  }

  lemma PaidFits(q: int, local: int, n: int, d: int)
    requires d > 0 && RoundsDown(q, n, d) && n <= local * d
    ensures q <= local
  {
    MulCancel(q, local, d);
  }

  // ---- share transfers ----

  /** Shares move exactly on the holder's consent and out of the holder's balance. */
  lemma TransferExactly(w: World, s: Signers, holder: Address, to: Address, amount: int, spender: Address)
    ensures var r := TransferShares(w, s, holder, to, amount, spender);
            r.Ok? <==> Consents(s, holder, spender) && 0 <= amount <= SharesOf(w, holder)
    ensures var r := TransferShares(w, s, holder, to, amount, spender);
            r.Ok? ==>
              && r.value == w.(shares := w.shares.(balances := r.value.shares.balances))
              && forall a :: SharesOf(r.value, a)
                   == SharesOf(w, a) - (if a == holder then amount else 0) + (if a == to then amount else 0)
  {
  }
}
