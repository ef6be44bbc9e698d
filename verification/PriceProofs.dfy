/** The share price over whole runs: without recognised losses it never falls, and nobody extracts value. */
module PriceProofs {
  import opened Common
  import opened Arithmetic
  import opened Token
  import opened Accounting
  import opened StrategyModel
  import opened System
  import opened Effects
  import opened NavAccounting
  import opened ShareProofs

  /** The price of a share in w' is at least that in w. */
  ghost predicate PriceKept(w: World, w': World) {
    D(w) * N(w') <= D(w') * N(w)
  }

  lemma PriceKeptTransitive(a: World, b: World, c: World)
    requires Valid(a) && Valid(b) && Valid(c) && PriceKept(a, b) && PriceKept(b, c)
    ensures PriceKept(a, c)
  {
    PriceSidesPositive(a);
    PriceSidesPositive(b);
    PriceSidesPositive(c);
    RatioTransitive(D(a), N(a), D(b), N(b), D(c), N(c));
  }

  lemma FairExchangeKeepsPrice(n: int, d: int, assets: int, shares: int)
    requires shares * d <= assets * n
    ensures d * (n + shares) <= (d + assets) * n
  {
    assert d * (n + shares) == d * n + shares * d;
    assert (d + assets) * n == d * n + assets * n;
  }

  /** Deposits pay at least the price, withdrawals receive at most the price. */
  lemma UserTradesFairly(w: World, s: Signers, call: UserCall)
    requires Valid(w) && UserStep(w, s, call).Ok?
    ensures SupplyChange(w, call) * D(w) <= UserChange(w, call) * N(w)
  {
    hide ConvertToShares, ConvertToAssets, Transfer, Valid;
    PriceSidesPositive(w);
    match call
    case DepositCall(assets, _, _, _) => SharesPrice(w, assets, Floor);
    case MintCall(shares, _, _, _) => AssetsPrice(w, shares, Ceil);
    case WithdrawCall(assets, receiver, _, _) =>
      SharesPrice(w, assets, Ceil);
      ConversionsNonNegative(w, assets, Ceil);
      BurningIsFair(PreviewWithdraw(w, assets).value, assets, D(w), N(w));
    case RedeemCall(shares, receiver, _, _) =>
      AssetsPrice(w, shares, Floor);
      ConversionsNonNegative(w, shares, Floor);
      BurningIsFair(shares, PreviewRedeem(w, shares).value, D(w), N(w));
    case TransferCall(_, _, _, _) =>
  }

  lemma BurningIsFair(shares: int, assets: int, d: int, n: int)
    requires 0 <= shares && 0 < d && assets * n <= shares * d
    ensures (-shares) * d <= (-assets) * n && (-shares) * d <= 0 * n
  {
    MulMono(0, shares, d);
    assert (-shares) * d == -(shares * d);
    assert (-assets) * n == -(assets * n);
  }

  /** A recognised loss: a transaction other than a withdrawal that lowers net asset value. */
  predicate RecognisesLoss(w: World, tx: Tx) {
    !tx.call.User? && NavChange(w, tx.call) < 0
  }

  lemma StepKeepsPrice(w: World, tx: Tx)
    requires Valid(w) && Step(w, tx).Ok? && !RecognisesLoss(w, tx)
    ensures PriceKept(w, Step(w, tx).value)
  {
    hide UserStep, DepositToSubaccount, WithdrawFromSubaccount, ManageStep, ControllerStep, Transfer;
    var w' := Step(w, tx).value;
    StepEffect(w, tx);
    PriceSidesPositive(w);
    var assets, shares := NavChange(w, tx.call), SupplyMove(w, tx.call);
    if tx.call.User? {
      UserTradesFairly(w, tx.signers, tx.call.user);
    } else {
      MulMono(0, assets, N(w));
    }
    FairExchangeKeepsPrice(N(w), D(w), assets, shares);
  }

  ghost predicate LossFree(w: World, txs: seq<Tx>)
    decreases |txs|
  {
    txs != [] ==> (Step(w, txs[0]).Ok? ==> !RecognisesLoss(w, txs[0])) && LossFree(Apply(w, txs[0]), txs[1..])
  }

  /** Over any run without recognised losses the share price never falls. */
  lemma {:induction false} PriceNeverFalls(w: World, txs: seq<Tx>)
    requires Valid(w) && LossFree(w, txs)
    ensures Valid(Run(w, txs)) && PriceKept(w, Run(w, txs))
    decreases |txs|
  {
    if txs != [] {
      var next := Apply(w, txs[0]);
      if Step(w, txs[0]).Ok? {
        StepEffect(w, txs[0]);
        StepKeepsPrice(w, txs[0]);
      }
      PriceNeverFalls(next, txs[1..]);
      PriceKeptTransitive(w, next, Run(w, txs));
    }
  }

  // ---- no extraction ----

  /** Assets users and donors put in, and assets users took out, in one accepted transaction. */
  function PaidIn(w: World, call: Call): int {
    match call
    case User(user) => if user.DepositCall? || user.MintCall? then UserChange(w, user) else 0
    case TokenTransfer(_, _, _) => NavChange(w, call)
    case _ => 0
  }

  function TakenOut(w: World, call: Call): int {
    match call
    case User(user) => if user.WithdrawCall? || user.RedeemCall? then -UserChange(w, user) else 0
    case _ => 0
  }

  function TotalPaidIn(w: World, txs: seq<Tx>): int
    decreases |txs|
  {
    if txs == [] then 0
    else (if Step(w, txs[0]).Ok? then PaidIn(w, txs[0].call) else 0) + TotalPaidIn(Apply(w, txs[0]), txs[1..])
  }

  function TotalTakenOut(w: World, txs: seq<Tx>): int
    decreases |txs|
  {
    if txs == [] then 0
    else (if Step(w, txs[0]).Ok? then TakenOut(w, txs[0].call) else 0) + TotalTakenOut(Apply(w, txs[0]), txs[1..])
  }

  /** Whose shares a user call spends. */
  predicate SpendsOnlyFrom(group: set<Address>, call: UserCall) {
    match call
    case WithdrawCall(_, _, owner, _) => owner in group
    case RedeemCall(_, _, owner, _) => owner in group
    case TransferCall(holder, _, _, _) => holder in group
    case _ => true
  }

  /** Only the coalition's shares are spent, and nothing but users and donors moves net asset value. */
  predicate CoalitionStep(group: set<Address>, w: World, tx: Tx) {
    match tx.call
    case User(user) => SpendsOnlyFrom(group, user)
    case TokenTransfer(_, _, _) => true
    case _ => NavChange(w, tx.call) == 0
  }

  predicate CoalitionRun(group: set<Address>, w: World, txs: seq<Tx>)
    decreases |txs|
  {
    txs != [] ==>
      && (Step(w, txs[0]).Ok? ==> CoalitionStep(group, w, txs[0]))
      && CoalitionRun(group, Apply(w, txs[0]), txs[1..])
  }

  ghost function Held(w: World, group: set<Address>): int {
    HeldBy(w.shares.balances, group)
  }

  /** Shares outside the group, virtual shares included. */
  ghost function Others(w: World, group: set<Address>): int {
    N(w) - Held(w, group)
  }

  lemma EntryKeepsOthers(group: set<Address>, w: World, s: Signers, call: UserCall)
    requires Valid(w) && UserStep(w, s, call).Ok? && (call.DepositCall? || call.MintCall?)
    ensures Others(w, group) <= Others(UserStep(w, s, call).value, group)
  {
    var shares := SupplyChange(w, call);
    HeldByCredit(w.shares.balances, group, call.receiver, shares);
    if call.DepositCall? {
      ConversionsNonNegative(w, call.assets, Floor);
    } else {
      ConversionsNonNegative(w, call.shares, Ceil);
    }
  }

  lemma ExitKeepsOthers(group: set<Address>, w: World, s: Signers, call: UserCall)
    requires UserStep(w, s, call).Ok? && (call.WithdrawCall? || call.RedeemCall?) && call.owner in group
    ensures Others(w, group) == Others(UserStep(w, s, call).value, group)
  {
    HeldByCredit(w.shares.balances, group, call.owner, SupplyChange(w, call));
  }

  lemma TransferKeepsOthers(group: set<Address>, w: World, s: Signers, call: UserCall)
    requires UserStep(w, s, call).Ok? && call.TransferCall? && call.holder in group
    ensures Others(w, group) <= Others(UserStep(w, s, call).value, group)
  {
    HeldByCredit(w.shares.balances, group, call.holder, -call.amount);
    HeldByCredit(Credit(w.shares.balances, call.holder, -call.amount), group, call.to, call.amount);
  }

  /** A call that spends only the group's shares cannot shrink what the others hold. */
  lemma OthersNeverLose(group: set<Address>, w: World, s: Signers, call: UserCall)
    requires Valid(w) && UserStep(w, s, call).Ok? && SpendsOnlyFrom(group, call)
    ensures Others(w, group) <= Others(UserStep(w, s, call).value, group)
  {
    hide UserStep;
    match call
    case TransferCall(_, _, _, _) => TransferKeepsOthers(group, w, s, call);
    case WithdrawCall(_, _, _, _) => ExitKeepsOthers(group, w, s, call);
    case RedeemCall(_, _, _, _) => ExitKeepsOthers(group, w, s, call);
    case _ => EntryKeepsOthers(group, w, s, call);
  }

  lemma CoalitionStepEffect(group: set<Address>, w: World, tx: Tx)
    requires Valid(w) && Step(w, tx).Ok? && CoalitionStep(group, w, tx)
    ensures var w' := Step(w, tx).value;
            && Valid(w') && PriceKept(w, w') && Others(w, group) <= Others(w', group)
            && Nav(w') == Nav(w) + PaidIn(w, tx.call) - TakenOut(w, tx.call)
  {
    hide UserStep, DepositToSubaccount, WithdrawFromSubaccount, ManageStep, ControllerStep;
    StepEffect(w, tx);
    StepKeepsPrice(w, tx);
    if tx.call.User? {
      OthersNeverLose(group, w, tx.signers, tx.call.user);
    }
  }

  lemma {:induction false} CoalitionRunEffect(group: set<Address>, w: World, txs: seq<Tx>)
    requires Valid(w) && CoalitionRun(group, w, txs)
    ensures var w' := Run(w, txs);
            && Valid(w') && PriceKept(w, w') && Others(w, group) <= Others(w', group)
            && Nav(w') == Nav(w) + TotalPaidIn(w, txs) - TotalTakenOut(w, txs)
    decreases |txs|
  {
    hide Step;
    if txs != [] {
      var next := Apply(w, txs[0]);
      if Step(w, txs[0]).Ok? {
        CoalitionStepEffect(group, w, txs[0]);
      }
      CoalitionRunEffect(group, next, txs[1..]);
      PriceKeptTransitive(w, next, Run(w, txs));
    }
  }

  /** The exact worth of a number of shares at the current price. */
  function Worth(w: World, shares: int): real
    requires N(w) > 0
  {
    (shares * D(w)) as real / N(w) as real
  }

  lemma ExtractionBound(x: int, h: int, h': int, n: int, n': int, d: int, d': int)
    requires 0 < n && 0 < n' && 0 < d && 0 < d'
    requires 0 <= n - h <= n' - h' && d * n' <= d' * n && d' == d - x
    ensures x as real + (h' * d') as real / n' as real <= (h * d) as real / n as real
  {
    ExtractionProducts(x, n - h, n' - h', n, n', d, d');
    Divided(x, h' * d', n', h * d, n);
  }

  lemma ExtractionProducts(x: int, o: int, o': int, n: int, n': int, d: int, d': int)
    requires 0 < n && 0 < d' && 0 <= o <= o' && d * n' <= d' * n && d' == d - x
    ensures x * n * n' + ((n' - o') * d') * n <= ((n - o) * d) * n'
  {
    MulMono(d * n', d' * n, o);
    MulMono(0, d', n);
    MulMono(o, o', d' * n);
    assert ((n' - o') * d') * n == d' * n * n' - o' * (d' * n) by {
      Distribute(n', -o', d');
    }
    assert ((n - o) * d) * n' == d * n * n' - o * (d * n') by {
      Distribute(n, -o, d);
    }
    assert d' * n * n' == d * n * n' - x * n * n';
  }

  lemma Divided(x: int, p: int, q: int, r: int, t: int)
    requires q > 0 && t > 0 && x * t * q + p * t <= r * q
    ensures x as real + p as real / q as real <= r as real / t as real
  {
    var a, b := p as real / q as real, r as real / t as real;
    var qt := q as real * t as real;
    assert a * q as real == p as real && b * t as real == r as real;
    assert (x as real + a) * qt <= b * qt by {
      assert (x as real + a) * qt == (x * t * q + p * t) as real by {
        assert a * qt == p as real * t as real;
        assert (p * t) as real == p as real * t as real;
        assert (x * t * q) as real == x as real * qt;
      }
      assert b * qt == (r * q) as real by {
        assert b * qt == r as real * q as real;
      }
    }
  }

  /** Whatever a coalition does on its own, what it takes out plus the exact worth of what it still
      holds never exceeds what was paid in plus the worth of what it started with. */
  lemma NoExtraction(group: set<Address>, w: World, txs: seq<Tx>)
    requires Valid(w) && CoalitionRun(group, w, txs)
    ensures var w' := Run(w, txs);
            && N(w) > 0 && N(w') > 0
            && TotalTakenOut(w, txs) as real + Worth(w', Held(w', group))
                 <= TotalPaidIn(w, txs) as real + Worth(w, Held(w, group))
  {
    var w' := Run(w, txs);
    CoalitionRunEffect(group, w, txs);
    PriceSidesPositive(w);
    PriceSidesPositive(w');
    HeldByBounds(w.shares.balances, group);
    UnitPositive(w);
    ExtractionBound(Nav(w) - Nav(w'), Held(w, group), Held(w', group), N(w), N(w'), D(w), D(w'));
  }
}
