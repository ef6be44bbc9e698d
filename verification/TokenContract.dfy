/** The token contract: a balance map that transfers overwrite. */
module TokenContract {
  import opened Common
  import opened Token

  /** An entry point ends as its specification does: same trap, or success on both sides. */
  predicate Ends<T, U>(r: Result<T>, spec: Result<U>) {
    match spec
    case Ok(_) => r.Ok?
    case Err(e) => r == Err(e)
  }

  class TokenLedger {
    var balances: Ledger

    constructor (issued: Ledger)
      ensures balances == issued
    {
      balances := issued;
    }

    function BalanceOf(a: Address): int
      reads this
    {
      Balance(balances, a)
    }

    method Move(from: Address, to: Address, amount: int) returns (r: Result<()>)
      modifies this
      ensures var spec := Transfer(old(balances), from, to, amount);
              Ends(r, spec) && (spec.Ok? ==> balances == spec.value)
    {
      if amount < 0 {
        return Err(TokenNegativeAmount);
      }
      var held := BalanceOf(from);
      if amount > held {
        return Err(TokenInsufficientBalance);
      }
      balances := balances[from := held - amount];
      balances := balances[to := BalanceOf(to) + amount];
      return Ok(());
    }
  }
}
