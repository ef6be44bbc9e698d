/** The share-inflation attack: donating to a vault whose only holder is the donor does not pay. */
module InflationProofs {
  import opened Common
  import opened Arithmetic
  import opened Accounting
  import opened StrategyModel
  import opened System
  import opened Effects
  import opened NavAccounting
  import opened ShareProofs
  import opened PriceProofs

  /** An accepted victim deposit buys shares; everything else in the run leaves price and supply alone. */
  predicate VictimStep(w: World, call: Call) {
    if call.User? && call.user.DepositCall? then call.user.assets > 0
    else NavChange(w, call) == 0 && SupplyMove(w, call) == 0
  }

  predicate VictimRun(w: World, txs: seq<Tx>)
    decreases |txs|
  {
    txs != [] ==>
      (Step(w, txs[0]).Ok? ==> VictimStep(w, txs[0].call)) && VictimRun(Apply(w, txs[0]), txs[1..])
  }

  predicate IsDeposit(w: World, tx: Tx) {
    Step(w, tx).Ok? && tx.call.User? && tx.call.user.DepositCall?
  }

  function VictimDeposits(w: World, txs: seq<Tx>): nat
    decreases |txs|
  {
    if txs == [] then 0
    else (if IsDeposit(w, txs[0]) then 1 else 0) + VictimDeposits(Apply(w, txs[0]), txs[1..])
  }

  /** How far k deposits, each of at least one share, can have raised a price that started at d0/n0. */
  ghost predicate Drift(n0: int, d0: int, k: int, n: int, d: int) {
    n >= n0 + k && d * (n0 * (n0 + 1)) <= (d0 * (n0 + k + 1)) * n
  }

  /** One deposit of v that buys s shares, s >= 1: rounding can lift the price by one share's worth. */
  lemma DepositDrift(n0: int, d0: int, k: int, n: int, d: int, v: int, s: int)
    requires n0 > 0 && d0 > 0 && k >= 0 && d > 0 && s >= 1
    requires Drift(n0, d0, k, n, d) && RoundsDown(s, v * n, d)
    ensures Drift(n0, d0, k + 1, n + s, d + v)
  {
    MulMono(0, n0, n0 + 1);
    PriceLift(n, d, v, s);
    Chained(n0 * (n0 + 1), d0 * (n0 + k + 1), n, d, n + s, d + v);
    NextStep(n0, d0, k, n + s);
  }

  lemma PriceLift(n: int, d: int, v: int, s: int)
    requires RoundsDown(s, v * n, d)
    ensures (d + v) * n <= d * (n + s + 1)
  {
    Distribute(d, v, n);
    assert d * (n + s + 1) == d * n + s * d + d;
  }

  lemma Chained(c: int, e: int, n: int, d: int, n': int, d': int)
    requires n > 0 && c >= 0 && n' >= 0 && d' * n <= d * (n' + 1) && d * c <= e * n
    ensures d' * c <= e * (n' + 1)
  {
    MulMono(d' * n, d * (n' + 1), c);
    MulMono(d * c, e * n, n' + 1);
    MulAssociates(d', n, c);
    MulAssociates(d, n' + 1, c);
    MulAssociates(e, n, n' + 1);
    MulCancel(d' * c, e * (n' + 1), n);
  }

  lemma DriftStart(n: int, d: int)
    ensures Drift(n, d, 0, n, d)
  {
    assert d * (n * (n + 1)) == (d * (n + 1)) * n;
  }

  lemma NextStep(n0: int, d0: int, k: int, n: int)
    requires d0 > 0 && n >= n0 + k + 1
    ensures (d0 * (n0 + k + 1)) * (n + 1) <= (d0 * (n0 + k + 2)) * n
  {
    var m := n0 + k + 1;
    assert m * (n + 1) <= (m + 1) * n by {
      assert m * (n + 1) == m * n + m;
      assert (m + 1) * n == m * n + n;
    }
    MulMono(m * (n + 1), (m + 1) * n, d0);
    assert (d0 * m) * (n + 1) == (m * (n + 1)) * d0;
    assert (d0 * (m + 1)) * n == ((m + 1) * n) * d0;
  }

  /** With at most as many deposits as virtual shares, all real shares are worth at most what there was. */
  lemma DriftBound(n0: int, d0: int, unit: int, k: int, n: int, d: int, paid: int)
    requires 0 < unit <= n0 && d0 > 0 && 0 <= k <= unit && n > 0 && paid >= 0
    requires Drift(n0, d0, k, n, d) && paid * n <= (n0 - unit) * d
    ensures paid <= d0 - 1
  {
    if paid >= d0 {
      MulMono(d0, paid, n);
      MulMono(0, n0, n0 + 1);
      Exceeds(n0 * (n0 + 1), n0 + k + 1, n0 - unit, d0, n, d);
      TooSmall(n0, unit, k);
    }
  }

  lemma Exceeds(c: int, m: int, p: int, d0: int, n: int, d: int)
    requires c >= 0 && p >= 0 && d0 > 0 && n > 0
    requires d * c <= (d0 * m) * n && d0 * n <= p * d
    ensures c <= m * p
  {
    MulMono(d0 * n, p * d, c);
    MulMono(d * c, (d0 * m) * n, p);
    MulAssociates(p, d, c);
    MulAssociates(d0, m, n);
    MulAssociates(d0 * n, m, p);
    MulMono(1, n, d0);
    MulCancel(c, m * p, d0 * n);
  }

  lemma TooSmall(n0: int, unit: int, k: int)
    requires 0 < unit <= n0 && 0 <= k <= unit
    ensures (n0 + k + 1) * (n0 - unit) < n0 * (n0 + 1)
  {
    assert (n0 + k + 1) * (n0 - unit) == n0 * (n0 + 1) + n0 * (k - unit) - unit * (k + 1);
    MulMono(k, unit, n0);
    assert n0 * (k - unit) == k * n0 - unit * n0;
    MulMono(1, k + 1, unit);
  }

  ghost predicate DriftedFrom(w0: World, k: int, w: World) {
    w.offset == w0.offset && Drift(N(w0), D(w0), k, N(w), D(w))
  }

  lemma VictimStepDrift(w0: World, k: nat, w: World, tx: Tx)
    requires Valid(w0) && Valid(w) && DriftedFrom(w0, k, w)
    requires Step(w, tx).Ok? && VictimStep(w, tx.call)
    ensures Valid(Step(w, tx).value)
    ensures DriftedFrom(w0, if IsDeposit(w, tx) then k + 1 else k, Step(w, tx).value)
  {
    hide Step, Valid, Drift, N, D, NavChange, SupplyMove;
    PriceSidesPositive(w0);
    PriceSidesPositive(w);
    PriceSides(w, tx);
    if IsDeposit(w, tx) {
      var shares := VictimBuys(w, tx);
      DepositDrift(N(w0), D(w0), k, N(w), D(w), tx.call.user.assets, shares);
    }
  }

  /** How an accepted transaction moves the two sides of the price. */
  lemma PriceSides(w: World, tx: Tx)
    requires Valid(w) && Step(w, tx).Ok?
    ensures var w' := Step(w, tx).value;
            && Valid(w') && w'.offset == w.offset
            && N(w') == N(w) + SupplyMove(w, tx.call) && D(w') == D(w) + NavChange(w, tx.call)
  {
    hide Step;
    StepEffect(w, tx);
  }

  lemma VictimBuys(w: World, tx: Tx) returns (shares: int)
    requires Valid(w) && IsDeposit(w, tx) && tx.call.user.assets > 0
    ensures shares >= 1 && RoundsDown(shares, tx.call.user.assets * N(w), D(w))
    ensures SupplyMove(w, tx.call) == shares && NavChange(w, tx.call) == tx.call.user.assets
  {
    hide UserStep;
    shares := AcceptedDepositBuys(w, tx.signers, tx.call.user);
  }

  /** The zero-share rejection: an accepted positive deposit buys at least one share. */
  lemma AcceptedDepositBuys(w: World, s: Signers, call: UserCall) returns (shares: int)
    requires Valid(w) && call.DepositCall? && call.assets > 0 && UserStep(w, s, call).Ok?
    ensures shares == SupplyChange(w, call) && shares >= 1 && RoundsDown(shares, call.assets * N(w), D(w))
    ensures N(w) > 0 && D(w) > 0
  {
    shares := PreviewDeposit(w, call.assets).value;
    ConversionsNonNegative(w, call.assets, Floor);
    SharesPrice(w, call.assets, Floor);
  }

  lemma {:induction false} VictimRunDrift(w0: World, k: nat, w: World, txs: seq<Tx>)
    requires Valid(w0) && Valid(w) && DriftedFrom(w0, k, w) && VictimRun(w, txs)
    ensures Valid(Run(w, txs)) && DriftedFrom(w0, k + VictimDeposits(w, txs), Run(w, txs))
    decreases |txs|
  {
    hide Step, Valid, Drift, VictimStep;
    if txs != [] {
      if Step(w, txs[0]).Ok? {
        VictimStepDrift(w0, k, w, txs[0]);
      }
      VictimRunDrift(w0, if IsDeposit(w, txs[0]) then k + 1 else k, Apply(w, txs[0]), txs[1..]);
    }
  }

  /** Somebody holds every share of w0. After at most 10^offset accepted victim deposits, redeeming all
      those shares pays at most the net asset value w0 had. */
  lemma InflationUnprofitable(w0: World, txs: seq<Tx>)
    requires Valid(w0) && VictimRun(w0, txs) && VictimDeposits(w0, txs) <= Unit(w0)
    requires PreviewRedeem(Run(w0, txs), w0.shares.supply).Ok?
    ensures PreviewRedeem(Run(w0, txs), w0.shares.supply).value <= Nav(w0)
  {
    hide Step;
    var w := Run(w0, txs);
    PriceSidesPositive(w0);
    UnitPositive(w0);
    SupplyNonNegative(w0);
    DriftStart(N(w0), D(w0));
    VictimRunDrift(w0, 0, w0, txs);
    AssetsPrice(w, w0.shares.supply, Floor);
    ConversionsNonNegative(w, w0.shares.supply, Floor);
    DriftBound(N(w0), D(w0), Unit(w0), VictimDeposits(w0, txs), N(w), D(w),
               PreviewRedeem(w, w0.shares.supply).value);
  }

  /** The attack end to end: from a fresh vault, one party prepares it alone, victims deposit, and the
      redemption of every share that party holds pays no more than it put in on balance. */
  lemma AttackNeverPays(genesis: World, attacker: Address, prepare: seq<Tx>, victims: seq<Tx>)
    requires Genesis(genesis) && Nav(genesis) == 0
    requires CoalitionRun({attacker}, genesis, prepare)
    requires var w0 := Run(genesis, prepare);
             && SharesOf(w0, attacker) == w0.shares.supply
             && VictimRun(w0, victims) && VictimDeposits(w0, victims) <= Unit(w0)
             && PreviewRedeem(Run(w0, victims), w0.shares.supply).Ok?
    ensures var w0 := Run(genesis, prepare);
            PreviewRedeem(Run(w0, victims), SharesOf(w0, attacker)).value
              <= TotalPaidIn(genesis, prepare) - TotalTakenOut(genesis, prepare)
  {
    hide Step;
    GenesisValid(genesis);
    CoalitionRunEffect({attacker}, genesis, prepare);
    InflationUnprofitable(Run(genesis, prepare), victims);
  }

  /** A positive deposit rounds to zero shares exactly when total assets reach v times all shares,
      virtual ones included. */
  lemma ZeroSharesExactly(w: World, v: int)
    requires Valid(w) && v > 0 && PreviewDeposit(w, v).Ok?
    ensures PreviewDeposit(w, v).value == 0 <==> Nav(w) >= v * (w.shares.supply + Unit(w))
  {
    SharesPrice(w, v, Floor);
    ConversionsNonNegative(w, v, Floor);
    var s := PreviewDeposit(w, v).value;
    if s > 0 {
      MulMono(1, s, D(w));
    }
  }
}
