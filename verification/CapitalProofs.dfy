/** Exactly when capital moves between the vault, its subaccounts and the protocols, and exactly what
    moves: stated on balances, trackers and totals. */
module CapitalProofs {
  import opened Common
  import opened Token
  import opened Accounting
  import opened StrategyModel
  import opened System
  import opened Effects
  import opened TradeProofs
  import opened ManagementProofs

  /** Tokens move from one account to another and nowhere else. */
  ghost predicate OnlyMoved(t: Ledger, t': Ledger, from: Address, to: Address, amount: int) {
    forall a :: TokensMoved(t, t', from, to, amount, a)
  }

  lemma TransferMoves(t: Ledger, from: Address, to: Address, amount: int)
    ensures Transfer(t, from, to, amount).Ok? <==> 0 <= amount <= Balance(t, from)
    ensures Transfer(t, from, to, amount).Ok? ==> OnlyMoved(t, Transfer(t, from, to, amount).value, from, to, amount)
  {
  }

  // ---- to a subaccount ----

  /** The subaccount can take the amount: a strategy has to answer, a wallet's tracker and the aggregate
      have to fit. */
  predicate CanTake(w: World, sub: Address, amount: int) {
    if Kind(w.book, sub) == Strategy then sub in w.strategies && w.strategies[sub].reachable
    else w.book.deployed + amount <= I128_MAX && Tracker(w.book, sub) + amount <= I128_MAX
  }

  /** What a funding leaves: tokens moved, and the amount booked on the strategy or on the wallet. */
  ghost predicate Funded(w: World, w': World, sub: Address, amount: int) {
    && w' == w.(token := w'.token, strategies := w'.strategies, book := w'.book)
    && OnlyMoved(w.token, w'.token, w.self, sub, amount)
    && (if Kind(w.book, sub) == Strategy
        then && w'.book == w.book.(log := w'.book.log) && sub in w.strategies
             && w'.strategies == w.strategies[
                  sub := w.strategies[sub].(local := w.strategies[sub].local + amount)]
        else && w'.strategies == w.strategies
             && w'.book == w.book.(deployed := w.book.deployed + amount, log := w'.book.log,
                                   trackers := w.book.trackers[sub := Tracker(w.book, sub) + amount]))
    && w'.book.log == w.book.log + [DepositedToSubaccount(sub, amount, amount)]
  }

  /** A strategy accepts exactly what the vault announces and the tokens cover, down to the last one. */
  lemma StrategyTakesExactly(st: StrategyState, me: Address, t: Ledger, from: Address, amount: int)
    ensures Deposit(st, me, t, from, amount).Ok? <==>
              && from == st.vault
              && (amount == 0 || (amount > 0 && I128(st.local + amount) && st.local + amount <= Balance(t, me)))
    ensures Deposit(st, me, t, from, amount).Ok? ==>
              Deposit(st, me, t, from, amount).value == st.(local := st.local + amount)
  {
  }

  lemma NotifyExactly(w: World, w1: World, sub: Address, amount: int)
    requires Valid(w) && w1 == w.(token := w1.token) && TokenValid(w1.token) && amount > 0
    requires sub in w.strategies ==> w.strategies[sub].local + amount <= Balance(w1.token, sub)
    ensures NotifyStrategy(w1, sub, amount).Ok? <==>
              (Kind(w.book, sub) == Strategy ==> sub in w.strategies && w.strategies[sub].reachable)
    ensures NotifyStrategy(w1, sub, amount).Ok? ==>
              NotifyStrategy(w1, sub, amount).value ==
                if Kind(w.book, sub) == Strategy
                then w.strategies[sub := w.strategies[sub].(local := w.strategies[sub].local + amount)]
                else w.strategies
  {
    if sub in w.strategies {
      BalanceWithinTotal(w1.token, sub);
      StrategyTakesExactly(w.strategies[sub], sub, w1.token, w.self, amount);
    }
  }

  lemma BookingExactly(b: Book, sub: Address, amount: int)
    requires 0 <= b.deployed && 0 <= Tracker(b, sub) && amount > 0
    ensures NoteDeposit(b, sub, amount, amount).Ok? <==>
              Kind(b, sub) == Strategy || (b.deployed + amount <= I128_MAX && Tracker(b, sub) + amount <= I128_MAX)
    ensures NoteDeposit(b, sub, amount, amount).Ok? ==>
              NoteDeposit(b, sub, amount, amount).value ==
                var log := b.log + [DepositedToSubaccount(sub, amount, amount)];
                if Kind(b, sub) == Strategy then b.(log := log)
                else b.(deployed := b.deployed + amount, log := log,
                        trackers := b.trackers[sub := Tracker(b, sub) + amount])
  {
  }

  /** deposit_to_subaccount is accepted exactly when the operator signs, the vault is unpaused and holds the
      positive amount, and the listed subaccount can take it; and then exactly that is moved and booked. */
  lemma FundingExactly(w: World, s: Signers, operator: Address, sub: Address, amount: int)
    requires Valid(w)
    ensures DepositToSubaccount(w, s, operator, sub, amount).Ok? <==>
              && OperatorSigns(w.book, s.auth, operator) && !w.book.paused
              && sub in w.book.subs && sub != w.self && 0 < amount <= Local(w) && CanTake(w, sub, amount)
    ensures var r := DepositToSubaccount(w, s, operator, sub, amount);
            r.Ok? ==> Funded(w, r.value, sub, amount)
  {
    hide Transfer, NotifyStrategy, NoteDeposit, Tracker, OnlyMoved, TokensMoved, Valid;
    FundingFacts(w, sub, amount);
    TransferMoves(w.token, w.self, sub, amount);
    if sub != w.self && 0 < amount <= Local(w) {
      var w1 := w.(token := Transfer(w.token, w.self, sub, amount).value);
      NotifyExactly(w, w1, sub, amount);
      BookingExactly(w.book, sub, amount);
    }
  }

  lemma FundingFacts(w: World, sub: Address, amount: int)
    requires Valid(w)
    ensures 0 <= Local(w) <= I128_MAX && 0 <= Tracker(w.book, sub) && 0 <= w.book.deployed
    ensures var r := Transfer(w.token, w.self, sub, amount);
            r.Ok? ==>
              && TokenValid(r.value)
              && Balance(r.value, w.self) == Local(w) - (if sub == w.self then 0 else amount)
              && (sub in w.strategies ==> w.strategies[sub].local + amount <= Balance(r.value, sub))
  {
    BalanceWithinTotal(w.token, w.self);
    if Transfer(w.token, w.self, sub, amount).Ok? {
      TransferExact(w.token, w.self, sub, amount);
    }
  }

  // ---- from a subaccount ----

  /** The subaccount can give: a strategy has to answer and hold something, a wallet has to have approved
      and hold the amount, within its tracker and the aggregate. */
  predicate CanGive(w: World, s: Signers, sub: Address, amount: int) {
    if Kind(w.book, sub) == Strategy
    then sub in w.strategies && w.strategies[sub].reachable && w.strategies[sub].local > 0
    else && sub in s.approvals && amount <= Balance(w.token, sub)
         && amount <= Tracker(w.book, sub) && 0 <= w.book.deployed - amount <= I128_MAX
  }

  /** What comes back: all a wallet is asked for, and what a strategy tracks at most. */
  function Returned(w: World, sub: Address, amount: int): int {
    if Kind(w.book, sub) == Strategy && sub in w.strategies && w.strategies[sub].local < amount
    then w.strategies[sub].local else amount
  }

  ghost predicate Collected(w: World, w': World, sub: Address, amount: int) {
    var got := Returned(w, sub, amount);
    && w' == w.(token := w'.token, strategies := w'.strategies, book := w'.book)
    && OnlyMoved(w.token, w'.token, sub, w.self, got)
    && (if Kind(w.book, sub) == Strategy
        then && w'.book == w.book.(log := w'.book.log) && sub in w.strategies
             && w'.strategies == w.strategies[sub := w.strategies[sub].(local := w.strategies[sub].local - got)]
        else && w'.strategies == w.strategies
             && w'.book == w.book.(deployed := w.book.deployed - got, log := w'.book.log,
                                   trackers := w.book.trackers[sub := Tracker(w.book, sub) - got]))
    && w'.book.log == w.book.log + [WithdrawnFromSubaccount(sub, amount, got)]
  }

  /** A strategy pays its vault the lesser of the request and the tracker, whatever tokens it holds besides. */
  lemma StrategyGivesExactly(st: StrategyState, me: Address, t: Ledger, to: Address, amount: int)
    requires 0 <= st.local <= Balance(t, me) && Balance(t, me) <= I128_MAX
    ensures Withdraw(st, me, t, to, amount).Ok? <==> to == st.vault
    ensures Withdraw(st, me, t, to, amount).Ok? ==>
              var (st', t', paid) := Withdraw(st, me, t, to, amount).value;
              && paid == (if amount <= 0 then 0 else if amount < st.local then amount else st.local)
              && st' == st.(local := st.local - paid) && OnlyMoved(t, t', me, to, paid)
  {
  }

  lemma PullExactly(w: World, s: Signers, sub: Address, amount: int)
    requires Valid(w) && WellSigned(w, s) && amount > 0
    ensures Pull(w, s, sub, amount).Ok? <==>
              if Kind(w.book, sub) == Strategy then sub in w.strategies && w.strategies[sub].reachable
              else (sub == w.self || sub in s.approvals) && amount <= Balance(w.token, sub)
    ensures Pull(w, s, sub, amount).Ok? ==>
              var (t, strategies) := Pull(w, s, sub, amount).value;
              var got := Returned(w, sub, amount);
              && OnlyMoved(w.token, t, sub, w.self, got)
              && strategies ==
                   if Kind(w.book, sub) == Strategy
                   then w.strategies[sub := w.strategies[sub].(local := w.strategies[sub].local - got)]
                   else w.strategies
  {
    hide OnlyMoved, Transfer, Withdraw;
    TransferMoves(w.token, sub, w.self, amount);
    if sub in w.strategies {
      BalanceWithinTotal(w.token, sub);
      StrategyGivesExactly(w.strategies[sub], sub, w.token, w.self, amount);
    }
  }

  lemma UnbookingExactly(b: Book, sub: Address, requested: int, got: int)
    requires 0 <= b.deployed && 0 <= Tracker(b, sub) && got > 0
    ensures NoteWithdrawal(b, sub, requested, got).Ok? <==>
              Kind(b, sub) == Strategy || (got <= Tracker(b, sub) && got <= b.deployed <= I128_MAX + got)
    ensures NoteWithdrawal(b, sub, requested, got).Ok? ==>
              NoteWithdrawal(b, sub, requested, got).value ==
                var log := b.log + [WithdrawnFromSubaccount(sub, requested, got)];
                if Kind(b, sub) == Strategy then b.(log := log)
                else b.(deployed := b.deployed - got, log := log, trackers := b.trackers[sub := Tracker(b, sub) - got])
  {
  }

  /** withdraw_from_subaccount is accepted exactly when the operator signs, the vault is unpaused, the amount
      is positive and the listed subaccount can give; and then exactly what comes back is moved and booked. */
  lemma CollectionExactly(w: World, s: Signers, operator: Address, sub: Address, amount: int)
    requires Valid(w) && WellSigned(w, s)
    ensures WithdrawFromSubaccount(w, s, operator, sub, amount).Ok? <==>
              && OperatorSigns(w.book, s.auth, operator) && !w.book.paused
              && sub in w.book.subs && amount > 0 && CanGive(w, s, sub, amount)
    ensures var r := WithdrawFromSubaccount(w, s, operator, sub, amount);
            r.Ok? ==> Collected(w, r.value, sub, amount)
  {
    hide Pull, NoteWithdrawal, Tracker, Valid;
    FundingFacts(w, sub, amount);
    CollectionFacts(w, s, sub, amount);
    if amount > 0 {
      PullExactly(w, s, sub, amount);
      var got := Returned(w, sub, amount);
      if Pull(w, s, sub, amount).Ok? {
        assert TokensMoved(w.token, Pull(w, s, sub, amount).value.0, sub, w.self, got, w.self);
      }
      if got > 0 {
        UnbookingExactly(w.book, sub, amount, got);
      }
    }
  }

  lemma CollectionFacts(w: World, s: Signers, sub: Address, amount: int)
    requires Valid(w) && WellSigned(w, s)
    ensures w.self !in w.strategies && w.self !in s.approvals
    ensures sub in w.strategies ==> 0 <= w.strategies[sub].local <= Balance(w.token, sub)
    ensures Balance(w.token, sub) <= I128_MAX
  {
    BalanceWithinTotal(w.token, sub);
    assert w.self in s.auth + s.approvals ==> External(w, w.self);
  }
}
