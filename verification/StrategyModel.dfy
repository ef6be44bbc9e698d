/** The XLM strategy contract as a value: tracked idle balance, deployed total, bootstrap latch. */
module StrategyModel {
  import opened Common
  import opened Token

  const SETTLE_INCREASE_BPS: int := 1_000
  const SETTLE_DECREASE_BPS: int := 500
  const BPS_DIVISOR: int := 10_000

  datatype StrategyState = StrategyState(
    vault: Address, controller: Address, local: int, deployed: int, latched: bool, reachable: bool)

  datatype ControllerCall =
    | DeployToProtocol(protocol: Address, amount: int)
    | RecallFromProtocol(protocol: Address, amount: int)
    | SettleProtocolReturns(newTotal: int)
    | SetController(newController: Address)
    | RecoverDonation(recipient: Address, amount: int)
    | SeedLocalBalance(amount: int)
    | SeedDeployedTotal(amount: int)

  function Exact(x: int): Result<int> {
    if I128(x) then Ok(x) else Err(StrategyMathOverflow)
  }

  function Construct(me: Address, vault: Address, controller: Address): Result<StrategyState> {
    if vault == controller || vault == me || controller == me then Err(InvalidController) else
    Ok(StrategyState(vault, controller, 0, 0, false, true))
  }

  // ---- the interface the vault calls; the calling contract is authenticated by the host ----

  function Deposit(s: StrategyState, me: Address, t: Ledger, from: Address, amount: int): Result<StrategyState> {
    if from != s.vault then Err(NotVault) else
    if amount == 0 then Ok(s)
    else
      if amount <= 0 then Err(StrategyInvalidAmount) else
      var local :- Exact(s.local + amount);
      if Balance(t, me) < local then Err(DepositShortfall) else
      Ok(s.(local := local))
  }

  function Withdraw(s: StrategyState, me: Address, t: Ledger, to: Address, amount: int)
    : Result<(StrategyState, Ledger, int)>
  {
    if to != s.vault then Err(NotVault) else
    if amount <= 0 then Ok((s, t, 0))
    else
      var actual := if amount < s.local then amount else s.local;
      if actual <= 0 then Ok((s, t, actual))
      else
        var moved :- Transfer(t, me, to, actual);
        var local :- Exact(s.local - actual);
        Ok((s.(local := local), moved, actual))
  }

  /** The reported balance: the tracker when the tokens cover it, what is really there otherwise. */
  function GetBalance(s: StrategyState, me: Address, t: Ledger): Result<int> {
    var actual := Balance(t, me);
    var _ :- Exact(if actual > s.local then actual - s.local else s.local - actual);
    Exact((if actual < s.local then actual else s.local) + s.deployed)
  }

  // ---- controller entry points ----

  function RequireController(s: StrategyState, auth: set<Address>, controller: Address): Result<()> {
    if controller !in auth then Err(MissingAuth) else Need(controller == s.controller, NotController)
  }

  function RequireTarget(s: StrategyState, me: Address, target: Address): Result<()> {
    Need(target != me && target != s.vault, InvalidTarget)
  }

  /** The per-call settle bound, with floor division as the contract computes it. */
  function CheckSettle(s: StrategyState, newTotal: int): Result<()> {
    if newTotal == s.deployed || (s.deployed <= 0 && !s.latched) then Ok(())
    else
      var delta := if newTotal > s.deployed then newTotal - s.deployed else s.deployed - newTotal;
      var bps := if newTotal > s.deployed then SETTLE_INCREASE_BPS else SETTLE_DECREASE_BPS;
      if !I128(delta) || !I128(s.deployed * bps) then Err(StrategyMathOverflow)
      else Need(delta <= s.deployed * bps / BPS_DIVISOR, SettleRateLimitExceeded)
  }

  function Deploy(s: StrategyState, me: Address, t: Ledger, protocol: Address, amount: int)
    : Result<(StrategyState, Ledger)>
  {
    var _ :- RequireTarget(s, me, protocol);
    if amount <= 0 then Err(StrategyInvalidAmount) else
    if s.local < amount then Err(StrategyInsufficientBalance) else
    var moved :- Transfer(t, me, protocol, amount);
    var local :- Exact(s.local - amount);
    var deployed :- Exact(s.deployed + amount);
    Ok((s.(local := local, deployed := deployed, latched := true), moved))
  }

  function Recall(s: StrategyState, me: Address, t: Ledger, auth: set<Address>, protocol: Address, amount: int)
    : Result<(StrategyState, Ledger)>
  {
    var _ :- RequireTarget(s, me, protocol);
    if amount <= 0 then Err(StrategyInvalidAmount) else
    if protocol !in auth then Err(MissingAuth) else
    var moved :- Transfer(t, protocol, me, amount);
    var received :- Exact(Balance(moved, me) - Balance(t, me));
    if received < 0 then Err(BalanceDecreasedOnTransfer) else
    if received == 0 then Err(StrategyInvalidAmount) else
    var local :- Exact(s.local + received);
    var deployed := if s.deployed < received then 0 else s.deployed - received;
    Ok((s.(local := local, deployed := deployed), moved))
  }

  function Settle(s: StrategyState, newTotal: int): Result<StrategyState> {
    if newTotal < 0 then Err(StrategyInvalidAmount) else
    var _ :- CheckSettle(s, newTotal);
    Ok(s.(deployed := newTotal, latched := s.latched || newTotal > 0))
  }

  function Recover(s: StrategyState, me: Address, t: Ledger, recipient: Address, amount: int): Result<Ledger> {
    var _ :- RequireTarget(s, me, recipient);
    if amount <= 0 then Err(StrategyInvalidAmount) else
    var excess :- Exact(Balance(t, me) - s.local);
    if excess <= 0 then Err(NoDonationToRecover) else
    if amount > excess then Err(StrategyInsufficientBalance) else
    var moved :- Transfer(t, me, recipient, amount);
    var expected :- Exact(Balance(t, me) - amount);
    if Balance(moved, me) != expected then Err(BalanceDecreasedOnTransfer) else
    Ok(moved)
  }

  function SeedLocal(s: StrategyState, me: Address, t: Ledger, amount: int): Result<StrategyState> {
    if amount < 0 then Err(StrategyInvalidAmount) else
    if s.local != 0 then Err(LocalBalanceAlreadySeeded) else
    if amount > Balance(t, me) then Err(SeedExceedsActualBalance) else
    Ok(s.(local := amount))
  }

  function SeedDeployed(s: StrategyState, amount: int): Result<StrategyState> {
    if amount < 0 then Err(StrategyInvalidAmount) else
    if s.latched then Err(DeployedTotalAlreadyInitialized) else
    Ok(s.(deployed := amount, latched := true))
  }

  function ControllerStep(
    s: StrategyState, me: Address, t: Ledger, auth: set<Address>, controller: Address, call: ControllerCall)
    : Result<(StrategyState, Ledger)>
  {
    var _ :- RequireController(s, auth, controller);
    match call
    case DeployToProtocol(protocol, amount) => Deploy(s, me, t, protocol, amount)
    case RecallFromProtocol(protocol, amount) => Recall(s, me, t, auth, protocol, amount)
    case SettleProtocolReturns(newTotal) =>
      var settled :- Settle(s, newTotal);
      Ok((settled, t))
    case SetController(newController) =>
      if newController == s.vault || newController == me then Err(InvalidController) else
      Ok((s.(controller := newController), t))
    case RecoverDonation(recipient, amount) =>
      var moved :- Recover(s, me, t, recipient, amount);
      Ok((s, moved))
    case SeedLocalBalance(amount) =>
      var seeded :- SeedLocal(s, me, t, amount);
      Ok((seeded, t))
    case SeedDeployedTotal(amount) =>
      var seeded :- SeedDeployed(s, amount);
      Ok((seeded, t))
  }
}
