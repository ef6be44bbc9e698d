/** How a transaction acts on each part of the system: the books, the clock, and each strategy. */
module Traces {
  import opened Common
  import opened Token
  import opened Accounting
  import opened StrategyModel
  import opened System
  import opened Effects
  import opened NavAccounting

  /** What the vault receives when it asks a subaccount for an amount. */
  function Received(w: World, sub: Address, amount: int): int {
    if Kind(w.book, sub) == Strategy && sub in w.strategies then Min(amount, w.strategies[sub].local) else amount
  }

  lemma DepositBook(w: World, s: Signers, operator: Address, sub: Address, amount: int)
    requires DepositToSubaccount(w, s, operator, sub, amount).Ok?
    ensures var w' := DepositToSubaccount(w, s, operator, sub, amount).value;
            && sub in w.book.subs && amount > 0 && !w.book.paused && w'.now == w.now
            && NoteDeposit(w.book, sub, amount, amount) == Ok(w'.book)
  {
    TransferExact(w.token, w.self, sub, amount);
  }

  lemma WithdrawalBook(w: World, s: Signers, operator: Address, sub: Address, amount: int)
    requires Valid(w) && WithdrawFromSubaccount(w, s, operator, sub, amount).Ok?
    ensures var w' := WithdrawFromSubaccount(w, s, operator, sub, amount).value;
            && sub in w.book.subs && amount > 0 && Received(w, sub, amount) > 0 && !w.book.paused && w'.now == w.now
            && NoteWithdrawal(w.book, sub, amount, Received(w, sub, amount)) == Ok(w'.book)
  {
    if Kind(w.book, sub) == Strategy {
      PushEffect(w.strategies[sub], sub, w.token, w.self, amount);
    } else {
      TransferExact(w.token, sub, w.self, amount);
    }
  }

  /** Only subaccount transfers and management calls touch the books; only the clock touches the time. */
  lemma StepBook(w: World, tx: Tx)
    requires Valid(w) && Step(w, tx).Ok?
    ensures var w' := Step(w, tx).value;
            && w.now <= w'.now && (!tx.call.Tick? ==> w'.now == w.now)
            && match tx.call
               case ToSubaccount(_, sub, amount) =>
                 && sub in w.book.subs && amount > 0 && !w.book.paused
                 && NoteDeposit(w.book, sub, amount, amount) == Ok(w'.book)
               case FromSubaccount(_, sub, amount) =>
                 && sub in w.book.subs && Received(w, sub, amount) > 0 && !w.book.paused
                 && NoteWithdrawal(w.book, sub, amount, Received(w, sub, amount)) == Ok(w'.book)
               case Management(manage) => ManageStep(w.book, ContextOf(w, tx.signers, manage), manage) == Ok(w'.book)
               case _ => w'.book == w.book
  {
    hide UserStep, DepositToSubaccount, WithdrawFromSubaccount, ManageStep, ControllerStep, NoteDeposit, NoteWithdrawal;
    match tx.call
    case User(user) => UserEffect(w, tx.signers, user);
    case ToSubaccount(operator, sub, amount) => DepositBook(w, tx.signers, operator, sub, amount);
    case FromSubaccount(operator, sub, amount) => WithdrawalBook(w, tx.signers, operator, sub, amount);
    case _ =>
  }
}
