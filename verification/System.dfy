/** The whole system: one token, one vault, any number of strategies, and every transaction on them. */
module System {
  import opened Common
  import opened Arithmetic
  import opened Sums
  import opened Token
  import opened Accounting
  import opened StrategyModel
  import opened Pricing

  datatype Shares = Shares(balances: Ledger, supply: int)

  datatype World = World(
    now: int, self: Address, offset: nat,
    token: Ledger, shares: Shares, book: Book, strategies: map<Address, StrategyState>)

  function Unit(w: World): int {
    Pow(10, w.offset)
  }

  function Local(w: World): int {
    Balance(w.token, w.self)
  }

  function SharesOf(w: World, owner: Address): int {
    Balance(w.shares.balances, owner)
  }

  // ---- total assets ----

  function StrategyBalance(w: World, sub: Address): Result<int> {
    if sub !in w.strategies || !w.strategies[sub].reachable then Err(StrategyUnreachable) else
    var reported := GetBalance(w.strategies[sub], sub, w.token);
    if reported.Err? then Err(StrategyUnreachable) else
    if reported.value < 0 then Err(NegativeStrategyBalance) else
    reported
  }

  /** What the first n whitelisted subaccounts report, added up in list order. */
  function QueryStrategies(w: World, n: nat): Result<int>
    requires n <= |w.book.subs|
  {
    if n == 0 then Ok(0)
    else
      var acc :- QueryStrategies(w, n - 1);
      var sub := w.book.subs[n - 1];
      if Kind(w.book, sub) == Wallet then Ok(acc)
      else
        var balance :- StrategyBalance(w, sub);
        Checked(acc + balance)
  }

  function TotalAssets(w: World): Result<int> {
    var strategies :- QueryStrategies(w, |w.book.subs|);
    var onChain :- Checked(Local(w) + strategies);
    var total :- Checked(onChain + w.book.deployed);
    if total < 0 then Err(MathOverflow) else
    Ok(total)
  }

  /** What a whitelisted address contributes to net asset value while its tracker is backed by tokens. */
  function Position(w: World, sub: Address): int {
    if Kind(w.book, sub) == Strategy && sub in w.strategies
    then w.strategies[sub].local + w.strategies[sub].deployed else 0
  }

  function Positions(w: World): int {
    SumBy(w.book.subs, sub => Position(w, sub))
  }

  /** Net asset value as an exact integer, defined even when a strategy cannot be reached. */
  function Nav(w: World): int {
    Local(w) + Positions(w) + w.book.deployed
  }

  // ---- previews ----

  function ConvertToShares(w: World, assets: int, rounding: Rounding): Result<int> {
    var total :- TotalAssets(w);
    ToShares(assets, total, w.shares.supply, Unit(w), rounding)
  }

  function ConvertToAssets(w: World, shares: int, rounding: Rounding): Result<int> {
    var total :- TotalAssets(w);
    ToAssets(shares, total, w.shares.supply, Unit(w), rounding)
  }

  function PreviewDeposit(w: World, assets: int): Result<int> {
    ConvertToShares(w, assets, Floor)
  }

  function PreviewMint(w: World, shares: int): Result<int> {
    ConvertToAssets(w, shares, Ceil)
  }

  function PreviewWithdraw(w: World, assets: int): Result<int> {
    ConvertToShares(w, assets, Ceil)
  }

  function PreviewRedeem(w: World, shares: int): Result<int> {
    ConvertToAssets(w, shares, Floor)
  }

  function Min(x: int, y: int): int {
    if x < y then x else y
  }

  function WithdrawCap(w: World, owner: Address): Result<int> {
    var entitled :- ConvertToAssets(w, SharesOf(w, owner), Floor);
    Ok(Min(entitled, Local(w)))
  }

  function RedeemCap(w: World, owner: Address): Result<int> {
    var available :- ConvertToShares(w, Local(w), Floor);
    Ok(Min(SharesOf(w, owner), available))
  }

  function MaxWithdraw(w: World, owner: Address): Result<int> {
    if w.book.paused then Ok(0) else WithdrawCap(w, owner)
  }

  function MaxRedeem(w: World, owner: Address): Result<int> {
    if w.book.paused then Ok(0) else RedeemCap(w, owner)
  }

  // ---- users ----

  /** Who signed, and who granted the spender an allowance that covers the call. */
  datatype Signers = Signers(auth: set<Address>, approvals: set<Address>)

  function RequireAuth(auth: set<Address>, a: Address): Result<()> {
    Need(a in auth, MissingAuth)
  }

  function RequireAllowance(s: Signers, owner: Address, spender: Address): Result<()> {
    Need(owner == spender || owner in s.approvals, InsufficientAllowance)
  }

  function DepositInternal(w: World, s: Signers, receiver: Address, assets: int, shares: int, from: Address,
    operator: Address)
    : Result<World>
  {
    var _ :- RequireAllowance(s, from, operator);
    var token :- Transfer(w.token, from, w.self, assets);
    var supply :- Checked(w.shares.supply + shares);
    Ok(w.(token := token, shares := Shares(Credit(w.shares.balances, receiver, shares), supply)))
  }

  function WithdrawInternal(w: World, s: Signers, receiver: Address, owner: Address, assets: int, shares: int,
    operator: Address)
    : Result<World>
  {
    var _ :- RequireAllowance(s, owner, operator);
    if shares > SharesOf(w, owner) then Err(TokenInsufficientBalance) else
    var token :- Transfer(w.token, w.self, receiver, assets);
    Ok(w.(token := token,
          shares := Shares(Credit(w.shares.balances, owner, -shares), w.shares.supply - shares)))
  }

  function DepositAssets(w: World, s: Signers, assets: int, receiver: Address, from: Address, operator: Address)
    : Result<(World, int)>
  {
    var _ :- RequireNotPaused(w.book);
    var _ :- RequireAuth(s.auth, operator);
    if assets > I128_MAX then Err(VaultExceededMaxDeposit) else
    var shares :- PreviewDeposit(w, assets);
    if assets > 0 && shares == 0 then Err(VaultInvalidAssetsAmount) else
    var after :- DepositInternal(w, s, receiver, assets, shares, from, operator);
    Ok((after, shares))
  }

  function MintShares(w: World, s: Signers, shares: int, receiver: Address, from: Address, operator: Address)
    : Result<(World, int)>
  {
    var _ :- RequireNotPaused(w.book);
    var _ :- RequireAuth(s.auth, operator);
    if shares > I128_MAX then Err(VaultExceededMaxMint) else
    var assets :- PreviewMint(w, shares);
    if shares > 0 && assets == 0 then Err(VaultInvalidSharesAmount) else
    var after :- DepositInternal(w, s, receiver, assets, shares, from, operator);
    Ok((after, assets))
  }

  function WithdrawAssets(w: World, s: Signers, assets: int, receiver: Address, owner: Address, operator: Address)
    : Result<(World, int)>
  {
    var _ :- RequireNotPaused(w.book);
    var _ :- RequireAuth(s.auth, operator);
    var cap :- WithdrawCap(w, owner);
    if assets > cap then Err(VaultExceededMaxWithdraw) else
    var shares :- PreviewWithdraw(w, assets);
    if assets > 0 && shares == 0 then Err(VaultInvalidAssetsAmount) else
    var after :- WithdrawInternal(w, s, receiver, owner, assets, shares, operator);
    Ok((after, shares))
  }

  function RedeemShares(w: World, s: Signers, shares: int, receiver: Address, owner: Address, operator: Address)
    : Result<(World, int)>
  {
    var _ :- RequireNotPaused(w.book);
    var _ :- RequireAuth(s.auth, operator);
    var cap :- RedeemCap(w, owner);
    if shares > cap then Err(VaultExceededMaxRedeem) else
    var assets :- PreviewRedeem(w, shares);
    if shares > 0 && assets == 0 then Err(VaultInvalidSharesAmount) else
    var after :- WithdrawInternal(w, s, receiver, owner, assets, shares, operator);
    Ok((after, assets))
  }

  function TransferShares(w: World, s: Signers, from: Address, to: Address, amount: int, spender: Address)
    : Result<World>
  {
    var _ :- RequireAuth(s.auth, spender);
    var _ :- RequireAllowance(s, from, spender);
    var balances :- Transfer(w.shares.balances, from, to, amount);
    Ok(w.(shares := w.shares.(balances := balances)))
  }

  datatype UserCall =
    | DepositCall(assets: int, receiver: Address, from: Address, operator: Address)
    | MintCall(shares: int, receiver: Address, from: Address, operator: Address)
    | WithdrawCall(assets: int, receiver: Address, owner: Address, operator: Address)
    | RedeemCall(shares: int, receiver: Address, owner: Address, operator: Address)
    | TransferCall(holder: Address, to: Address, amount: int, spender: Address)

  function UserStep(w: World, s: Signers, call: UserCall): Result<World> {
    match call
    case DepositCall(assets, receiver, from, operator) =>
      var r :- DepositAssets(w, s, assets, receiver, from, operator);
      Ok(r.0)
    case MintCall(shares, receiver, from, operator) =>
      var r :- MintShares(w, s, shares, receiver, from, operator);
      Ok(r.0)
    case WithdrawCall(assets, receiver, owner, operator) =>
      var r :- WithdrawAssets(w, s, assets, receiver, owner, operator);
      Ok(r.0)
    case RedeemCall(shares, receiver, owner, operator) =>
      var r :- RedeemShares(w, s, shares, receiver, owner, operator);
      Ok(r.0)
    case TransferCall(holder, to, amount, spender) => TransferShares(w, s, holder, to, amount, spender)
  }

  // ---- moving capital between the vault and its subaccounts ----

  function Reachable(w: World, sub: Address): Result<()> {
    Need(sub in w.strategies && w.strategies[sub].reachable, MissingContract)
  }

  function DepositToSubaccount(w: World, s: Signers, operator: Address, sub: Address, amount: int): Result<World> {
    var _ :- RequireOperator(w.book, s.auth, operator);
    var _ :- RequireNotPaused(w.book);
    if amount <= 0 then Err(InvalidAmount) else
    var _ :- RequireWhitelisted(w.book, sub);
    var token :- Transfer(w.token, w.self, sub, amount);
    var sent :- Checked(Local(w) - Balance(token, w.self));
    if sent <= 0 then Err(InvalidAmount) else
    var strategies :- NotifyStrategy(w.(token := token), sub, sent);
    var book :- NoteDeposit(w.book, sub, amount, sent);
    Ok(w.(token := token, strategies := strategies, book := book))
  }

  function NotifyStrategy(w: World, sub: Address, sent: int): Result<map<Address, StrategyState>> {
    if Kind(w.book, sub) == Wallet then Ok(w.strategies)
    else
      var _ :- Reachable(w, sub);
      var state :- Deposit(w.strategies[sub], sub, w.token, w.self, sent);
      Ok(w.strategies[sub := state])
  }

  /** The strategy pushes tokens back, or the vault pulls from a wallet that approved it. */
  function Pull(w: World, s: Signers, sub: Address, amount: int): Result<(Ledger, map<Address, StrategyState>)> {
    if Kind(w.book, sub) == Wallet then
      var _ :- RequireAllowance(s, sub, w.self);
      var token :- Transfer(w.token, sub, w.self, amount);
      Ok((token, w.strategies))
    else
      var _ :- Reachable(w, sub);
      var r :- Withdraw(w.strategies[sub], sub, w.token, w.self, amount);
      Ok((r.1, w.strategies[sub := r.0]))
  }

  function WithdrawFromSubaccount(w: World, s: Signers, operator: Address, sub: Address, amount: int): Result<World> {
    var _ :- RequireOperator(w.book, s.auth, operator);
    var _ :- RequireNotPaused(w.book);
    if amount <= 0 then Err(InvalidAmount) else
    var _ :- RequireWhitelisted(w.book, sub);
    var pulled :- Pull(w, s, sub, amount);
    var received :- Checked(Balance(pulled.0, w.self) - Local(w));
    if received <= 0 then Err(SubaccountReturnedNothing) else
    var book :- NoteWithdrawal(w.book, sub, amount, received);
    Ok(w.(token := pulled.0, strategies := pulled.1, book := book))
  }

  // ---- transactions ----

  datatype Call =
    | User(user: UserCall)
    | ToSubaccount(operator: Address, sub: Address, amount: int)
    | FromSubaccount(operator: Address, sub: Address, amount: int)
    | Management(manage: Manage)
    | Controller(strategy: Address, controller: Address, call: ControllerCall)
    | TokenTransfer(from: Address, to: Address, amount: int)
    | Tick(until: int)
    | SetReachable(strategy: Address, up: bool)

  datatype Tx = Tx(signers: Signers, call: Call)

  /** Registration probes a strategy with zero amounts and reads both its balances. */
  function Probe(w: World, sub: Address): Result<()> {
    if sub !in w.strategies || !w.strategies[sub].reachable then Err(MissingContract)
    else
      var st := w.strategies[sub];
      var reported := GetBalance(st, sub, w.token);
      if st.vault != w.self then Err(NotVault)
      else if reported.Err? then Err(reported.error)
      else if reported.value < 0 then Err(NegativeStrategyBalance)
      else Need(st.local >= 0, NegativeStrategyBalance)
  }

  function ProbeOf(w: World, call: Manage): Result<()> {
    if call.AddSubaccount? then Probe(w, call.sub) else Ok(())
  }

  function ContextOf(w: World, s: Signers, call: Manage): Context {
    Context(w.now, Local(w), s.auth, ProbeOf(w, call))
  }

  /** Contracts hold no keys: only outside accounts sign or grant allowances. */
  predicate External(w: World, a: Address) {
    a != w.self && a !in w.strategies
  }

  predicate WellSigned(w: World, s: Signers) {
    forall a :: a in s.auth + s.approvals ==> External(w, a)
  }

  function Step(w: World, tx: Tx): Result<World> {
    if !WellSigned(w, tx.signers) then Err(MissingAuth) else
    match tx.call
    case User(user) => UserStep(w, tx.signers, user)
    case ToSubaccount(operator, sub, amount) => DepositToSubaccount(w, tx.signers, operator, sub, amount)
    case FromSubaccount(operator, sub, amount) => WithdrawFromSubaccount(w, tx.signers, operator, sub, amount)
    case Management(manage) =>
      var book :- ManageStep(w.book, ContextOf(w, tx.signers, manage), manage);
      Ok(w.(book := book))
    case Controller(strategy, controller, call) =>
      var _ :- Reachable(w, strategy);
      var r :- ControllerStep(w.strategies[strategy], strategy, w.token, tx.signers.auth, controller, call);
      Ok(w.(token := r.1, strategies := w.strategies[strategy := r.0]))
    case TokenTransfer(from, to, amount) =>
      var _ :- RequireAuth(tx.signers.auth, from);
      var token :- Transfer(w.token, from, to, amount);
      Ok(w.(token := token))
    case Tick(until) =>
      if until < w.now then Err(ClockWentBack) else
      Ok(w.(now := until))
    case SetReachable(strategy, up) =>
      if strategy !in w.strategies then Err(MissingContract) else
      Ok(w.(strategies := w.strategies[strategy := w.strategies[strategy].(reachable := up)]))
  }

  /** A trapped transaction leaves no trace. */
  function Apply(w: World, tx: Tx): World {
    var r := Step(w, tx);
    if r.Ok? then r.value else w
  }

  function Run(w: World, txs: seq<Tx>): World
    decreases |txs|
  {
    if txs == [] then w else Run(Apply(w, txs[0]), txs[1..])
  }

  /** A freshly constructed vault, strategies just deployed for it, and an issued token. */
  ghost predicate Genesis(w: World) {
    && w.now > 0
    && 3 <= w.offset <= 10
    && w.self !in w.strategies
    && NonNegative(w.token) && Total(w.token) <= I128_MAX
    && w.shares == Shares(map[], 0)
    && w.book == InitialBook(w.book.admin)
    && forall a :: a in w.strategies ==> Construct(a, w.self, w.strategies[a].controller) == Ok(w.strategies[a])
  }
}
