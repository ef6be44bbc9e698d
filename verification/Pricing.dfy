/** The share price: 10^offset virtual shares against one virtual asset. */
module Pricing {
  import opened Common
  import opened Arithmetic

  /** Exact product, directed rounding, and a trap when the quotient leaves the 128-bit range. */
  function MulDiv(x: int, y: int, d: int, rounding: Rounding): Result<int> {
    if d <= 0 then Err(MathOverflow) else Checked(Divide(x * y, d, rounding))
  }

  function ToShares(assets: int, total: int, supply: int, unit: int, rounding: Rounding): Result<int> {
    if assets < 0 then Err(VaultInvalidAssetsAmount) else
    if assets == 0 then Ok(0)
    else
      var y :- Checked(supply + unit);
      var d :- Checked(total + 1);
      MulDiv(assets, y, d, rounding)
  }

  function ToAssets(shares: int, total: int, supply: int, unit: int, rounding: Rounding): Result<int> {
    if shares < 0 then Err(VaultInvalidSharesAmount) else
    if shares == 0 then Ok(0)
    else
      var y :- Checked(total + 1);
      var d :- Checked(supply + unit);
      MulDiv(shares, y, d, rounding)
  }
}
