/** What every transaction keeps, and exactly how it moves net asset value and share supply. */
module Effects {
  import opened Common
  import opened Arithmetic
  import opened Sums
  import opened Token
  import opened Accounting
  import opened AccountingProofs
  import opened StrategyModel
  import opened Pricing
  import opened System

  // ---- the system invariant ----

  ghost predicate LedgerValid(l: Ledger, total: int) {
    NonNegative(l) && Total(l) == total
  }

  ghost predicate TokenValid(t: Ledger) {
    NonNegative(t) && Total(t) <= I128_MAX
  }

  /** A strategy's tracked idle balance is covered by tokens; before the latch it has deployed nothing. */
  ghost predicate StrategyValid(st: StrategyState, me: Address, t: Ledger, vault: Address) {
    && st.vault == vault
    && 0 <= st.local <= Balance(t, me)
    && 0 <= st.deployed
    && (!st.latched ==> st.deployed == 0)
  }

  ghost predicate StrategiesValid(w: World) {
    && w.self !in w.strategies
    && (forall a :: a in w.strategies ==> StrategyValid(w.strategies[a], a, w.token, w.self))
    && (forall a :: a in w.book.subs && Kind(w.book, a) == Strategy ==> a in w.strategies)
  }

  ghost predicate Valid(w: World) {
    && w.now > 0 && 3 <= w.offset <= 10
    && TokenValid(w.token)
    && LedgerValid(w.shares.balances, w.shares.supply)
    && BookValid(w.book)
    && StrategiesValid(w)
  }

  /** No strategy lost tokens between two ledgers. */
  ghost predicate Covered(w: World, t: Ledger) {
    forall a :: a in w.strategies ==> Balance(w.token, a) <= Balance(t, a)
  }

  lemma GenesisValid(w: World)
    requires Genesis(w)
    ensures Valid(w) && Nav(w) >= 0 && Gap(w.book) == 0
  {
    forall a | a in w.strategies ensures StrategyValid(w.strategies[a], a, w.token, w.self) {
      BalanceWithinTotal(w.token, a);
    }
    BalanceWithinTotal(w.token, w.self);
  }

  // ---- users ----

  lemma DepositInternalEffect(w: World, s: Signers, receiver: Address, assets: int, shares: int,
                              from: Address, operator: Address)
    requires Valid(w) && WellSigned(w, s) && operator in s.auth && shares >= 0
    requires DepositInternal(w, s, receiver, assets, shares, from, operator).Ok?
    ensures var w' := DepositInternal(w, s, receiver, assets, shares, from, operator).value;
            && Valid(w') && w' == w.(token := w'.token, shares := w'.shares)
            && Local(w') == Local(w) + assets && Nav(w') == Nav(w) + assets
            && w'.shares == Shares(Credit(w.shares.balances, receiver, shares), w.shares.supply + shares)
  {
    var w' := DepositInternal(w, s, receiver, assets, shares, from, operator).value;
    assert External(w, from);
    TransferExact(w.token, from, w.self, assets);
    assert Covered(w, w'.token);
    CreditTotal(w.shares.balances, receiver, shares);
    SamePositions(w, w');
  }

  lemma WithdrawInternalEffect(w: World, s: Signers, receiver: Address, owner: Address, assets: int, shares: int,
                               operator: Address)
    requires Valid(w) && shares >= 0
    requires WithdrawInternal(w, s, receiver, owner, assets, shares, operator).Ok?
    ensures var w' := WithdrawInternal(w, s, receiver, owner, assets, shares, operator).value;
            && Valid(w') && w' == w.(token := w'.token, shares := w'.shares) && Covered(w, w'.token)
            && Local(w') == Local(w) - (if receiver == w.self then 0 else assets)
            && Nav(w') == Nav(w) - (if receiver == w.self then 0 else assets)
            && w'.shares == Shares(Credit(w.shares.balances, owner, -shares), w.shares.supply - shares)
  {
    var w' := WithdrawInternal(w, s, receiver, owner, assets, shares, operator).value;
    TransferExact(w.token, w.self, receiver, assets);
    assert Covered(w, w'.token);
    CreditTotal(w.shares.balances, owner, -shares);
    SamePositions(w, w');
  }

  lemma TransferSharesEffect(w: World, s: Signers, from: Address, to: Address, amount: int, spender: Address)
    requires Valid(w) && TransferShares(w, s, from, to, amount, spender).Ok?
    ensures var w' := TransferShares(w, s, from, to, amount, spender).value;
            && Valid(w') && Nav(w') == Nav(w) && w'.shares.supply == w.shares.supply
            && w' == w.(shares := w'.shares)
  {
    TransferExact(w.shares.balances, from, to, amount);
    SamePositions(w, TransferShares(w, s, from, to, amount, spender).value);
  }

  lemma SamePositions(w: World, w': World)
    requires w'.book.subs == w.book.subs && w'.book.kinds == w.book.kinds
    requires w'.strategies.Keys == w.strategies.Keys
    requires forall a :: a in w.strategies ==>
      w'.strategies[a].local + w'.strategies[a].deployed == w.strategies[a].local + w.strategies[a].deployed
    ensures Positions(w') == Positions(w)
  {
    SumAgree(w.book.subs, sub => Position(w, sub), sub => Position(w', sub));
  }

  /** One strategy's state changed: the sum of positions moves by its own change when it is registered. */
  lemma PositionChange(w: World, w': World, a: Address, st: StrategyState)
    requires BookValid(w.book) && w'.book.subs == w.book.subs && w'.book.kinds == w.book.kinds
    requires a in w.strategies && w'.strategies == w.strategies[a := st]
    ensures Positions(w') == Positions(w) + RegisteredChange(w, a, st)
  {
    if a in w.book.subs {
      SumUpdate(w.book.subs, sub => Position(w, sub), sub => Position(w', sub), a);
    } else {
      SumAgree(w.book.subs, sub => Position(w, sub), sub => Position(w', sub));
    }
  }

  function RegisteredChange(w: World, a: Address, st: StrategyState): int
    requires a in w.strategies
  {
    if a in w.book.subs && Kind(w.book, a) == Strategy
    then st.local + st.deployed - w.strategies[a].local - w.strategies[a].deployed else 0
  }

  // ---- previews never produce negative amounts ----

  lemma MulDivNonNegative(x: int, y: int, d: int, rounding: Rounding)
    requires x >= 0 && y >= 0 && MulDiv(x, y, d, rounding).Ok?
    ensures MulDiv(x, y, d, rounding).value >= 0
  {
    MulMono(0, x, y);
    FloorAtLeast(x * y, d, 0);
    FloorAtLeast(x * y + d - 1, d, 0);
  }

  lemma UnitPositive(w: World)
    ensures Unit(w) > 0
  {
    PowPositive(10, w.offset);
  }

  lemma SupplyNonNegative(w: World)
    requires Valid(w)
    ensures w.shares.supply >= 0
  {
    SumOverBounds(w.shares.balances.Keys, a => Balance(w.shares.balances, a));
  }

  lemma ConversionsNonNegative(w: World, x: int, rounding: Rounding)
    requires Valid(w)
    ensures ConvertToShares(w, x, rounding).Ok? ==> x >= 0 && ConvertToShares(w, x, rounding).value >= 0
    ensures ConvertToAssets(w, x, rounding).Ok? ==> x >= 0 && ConvertToAssets(w, x, rounding).value >= 0
  {
    UnitPositive(w);
    SupplyNonNegative(w);
    if ConvertToShares(w, x, rounding).Ok? && x > 0 {
      MulDivNonNegative(x, w.shares.supply + Unit(w), TotalAssets(w).value + 1, rounding);
    }
    if ConvertToAssets(w, x, rounding).Ok? && x > 0 {
      MulDivNonNegative(x, TotalAssets(w).value + 1, w.shares.supply + Unit(w), rounding);
    }
  }
}
