/** Repeated rate-limited reconciliations compound geometrically, in the vault and in the strategy. */
module CompoundingProofs {
  import opened Common
  import opened Arithmetic
  import opened Limiter
  import opened Accounting
  import opened StrategyModel
  import opened System
  import opened Effects
  import opened NavAccounting
  import opened StrategyProofs
  import opened Traces

  /** After k moves of at most dec down and inc up, in basis points each, from d0 to d. */
  ghost predicate Compounded(d0: int, d: int, k: nat, dec: int, inc: int) {
    d0 * Pow(BPS - dec, k) <= d * Pow(BPS, k) <= d0 * Pow(BPS + inc, k)
  }

  /** One move within the limits, then k more. */
  lemma CompoundStep(d0: int, d1: int, d: int, k: nat, dec: int, inc: int)
    requires 0 <= dec <= BPS && 0 <= inc
    requires d0 * (BPS - dec) <= d1 * BPS <= d0 * (BPS + inc)
    requires Compounded(d1, d, k, dec, inc)
    ensures Compounded(d0, d, k + 1, dec, inc)
  {
    var lo, mid, hi := Pow(BPS - dec, k), Pow(BPS, k), Pow(BPS + inc, k);
    PowNonNegative(BPS - dec, k);
    PowNonNegative(BPS + inc, k);
    MulMono(d0 * (BPS - dec), d1 * BPS, lo);
    MulMono(d1 * BPS, d0 * (BPS + inc), hi);
    MulAssociates(d0, BPS - dec, lo);
    MulAssociates(d1, BPS, lo);
    MulAssociates(d, BPS, mid);
    MulAssociates(d1, BPS, hi);
    MulAssociates(d0, BPS + inc, hi);
  }

  lemma NoMove(d: int, dec: int, inc: int)
    ensures Compounded(d, d, 0, dec, inc)
  {
  }

  /** A move the per-call limit accepts, as a pair of products. */
  lemma CheckedMoveBounds(limits: Limits, win: Window, now: int, prev: int, next: int)
    requires prev > 0 && ValidBps(limits.increaseBps) && ValidBps(limits.decreaseBps)
    requires CheckChange(limits, win, now, prev, next).Ok?
    ensures prev * (BPS - limits.decreaseBps) <= next * BPS <= prev * (BPS + limits.increaseBps)
    ensures limits.decreaseBps < BPS ==> next > 0
  {
    hide CheckWindow;
    Distribute(BPS, -limits.decreaseBps, prev);
    Distribute(BPS, limits.increaseBps, prev);
    if limits.decreaseBps < BPS {
      MulMono(1, BPS - limits.decreaseBps, prev);
      assert prev * (BPS - limits.decreaseBps) == (BPS - limits.decreaseBps) * prev;
    }
  }

  // ---- the vault ----

  /** Writing a positive aggregate off to zero is accepted exactly when the per-call decrease limit is the
      full 10000 basis points and the window that is then current, reset first if expired, has a base of
      zero or room for the whole aggregate; products that overflow make it trap. */
  lemma WriteOffExactly(limits: Limits, win: Window, now: int, prev: int)
    requires prev > 0 && ValidBps(limits.decreaseBps)
    ensures var cur := if Expired(win, now) then Reset(win, now, prev) else win;
            CheckChange(limits, win, now, prev, 0).Ok? <==>
              && limits.decreaseBps == BPS && I128(prev * BPS)
              && (cur.base == 0 || (
                    && I128((cur.decrease + prev) * BPS) && I128(win.decreaseBps * cur.base)
                    && (cur.decrease + prev) * BPS <= win.decreaseBps * cur.base))
  {
    if I128(prev * BPS) {
      ShareInRange(limits.decreaseBps, prev);
    }
  }

  /** On an expired window that comes down to both decrease limits being the full 10000 basis points. */
  lemma WriteOffNeedsFullLimits(limits: Limits, win: Window, now: int, prev: int)
    requires prev > 0 && I128(prev * BPS) && Expired(win, now)
    requires ValidBps(limits.decreaseBps) && ValidBps(win.decreaseBps)
    ensures CheckChange(limits, win, now, prev, 0).Ok? <==> limits.decreaseBps == BPS && win.decreaseBps == BPS
  {
    WriteOffExactly(limits, win, now, prev);
    ShareInRange(win.decreaseBps, prev);
  }

  lemma ShareInRange(bps: int, prev: int)
    requires prev > 0 && I128(prev * BPS) && ValidBps(bps)
    ensures I128(bps * prev) && (prev * BPS <= bps * prev <==> bps == BPS)
  {
    MulMono(0, bps, prev);
    MulMono(bps, BPS, prev);
    if bps < BPS {
      MulMono(bps + 1, BPS, prev);
      Distribute(bps, 1, prev);
    }
  }

  predicate Reconciles(call: Call) {
    call.Management? && MovesAggregate(call.manage)
  }

  /** Neither moves capital to or from a wallet nor changes the per-call limits. */
  predicate KeepsRegime(w: World, call: Call) {
    match call
    case ToSubaccount(_, sub, _) => Kind(w.book, sub) == Strategy
    case FromSubaccount(_, sub, _) => Kind(w.book, sub) == Strategy
    case Management(manage) => !manage.SetAumLimits?
    case _ => true
  }

  predicate RegimeRun(w: World, txs: seq<Tx>)
    decreases |txs|
  {
    txs != [] ==> (Step(w, txs[0]).Ok? ==> KeepsRegime(w, txs[0].call)) && RegimeRun(Apply(w, txs[0]), txs[1..])
  }

  function Reconciliations(w: World, txs: seq<Tx>): nat
    decreases |txs|
  {
    if txs == [] then 0
    else (if Step(w, txs[0]).Ok? && Reconciles(txs[0].call) then 1 else 0) + Reconciliations(Apply(w, txs[0]), txs[1..])
  }

  lemma ManageLimits(b: Book, c: Context, call: Manage)
    requires ManageStep(b, c, call).Ok? && !call.SetAumLimits?
    ensures ManageStep(b, c, call).value.limits == b.limits
    ensures CheckChange(b.limits, b.window, c.now, b.deployed, b.deployed + DeployedChange(b, call)).Ok?
    ensures !Reconciles(Management(call)) ==> DeployedChange(b, call) == 0
  {
    hide CheckWindow, WithinBps;
    if MovesAggregate(call) {
      hide ManageStep;
      AggregateMoves(b, c, call);
    }
  }

  /** Every reconciliation of the run starts from a positive aggregate: at zero no limit applies. */
  predicate FromPositive(w: World, txs: seq<Tx>)
    decreases |txs|
  {
    txs != [] ==>
      && (Step(w, txs[0]).Ok? && Reconciles(txs[0].call) ==> w.book.deployed > 0)
      && FromPositive(Apply(w, txs[0]), txs[1..])
  }

  lemma RegimeStep(w: World, tx: Tx)
    requires Valid(w) && Step(w, tx).Ok? && KeepsRegime(w, tx.call)
    ensures var (b, b') := (w.book, Step(w, tx).value.book);
            && b'.limits == b.limits
            && (!Reconciles(tx.call) ==> b'.deployed == b.deployed)
            && (Reconciles(tx.call) && b.deployed > 0 ==>
                  b.deployed * (BPS - b.limits.decreaseBps) <= b'.deployed * BPS
                  <= b.deployed * (BPS + b.limits.increaseBps))
            && (b.limits.decreaseBps < BPS && b.deployed > 0 ==> b'.deployed > 0)
  {
    hide Step, ManageStep, CheckChange;
    StepBook(w, tx);
    if tx.call.Management? {
      var c, manage := ContextOf(w, tx.signers, tx.call.manage), tx.call.manage;
      ManageLimits(w.book, c, manage);
      ManageDeployed(w.book, c, manage);
      if w.book.deployed > 0 {
        CheckedMoveBounds(w.book.limits, w.book.window, w.now, w.book.deployed,
                          w.book.deployed + DeployedChange(w.book, manage));
      }
    }
  }

  /** k accepted reconciliations from positive aggregates keep it within the k-fold limits on both sides. */
  lemma {:induction false} ReconciliationsCompound(w: World, txs: seq<Tx>)
    requires Valid(w) && RegimeRun(w, txs) && FromPositive(w, txs)
    ensures Compounded(w.book.deployed, Run(w, txs).book.deployed, Reconciliations(w, txs),
                       w.book.limits.decreaseBps, w.book.limits.increaseBps)
    decreases |txs|
  {
    hide Step, Compounded;
    var dec, inc := w.book.limits.decreaseBps, w.book.limits.increaseBps;
    if txs == [] {
      NoMove(w.book.deployed, dec, inc);
    } else {
      var next := Apply(w, txs[0]);
      if Step(w, txs[0]).Ok? {
        RegimeStep(w, txs[0]);
        StepEffect(w, txs[0]);
      }
      ReconciliationsCompound(next, txs[1..]);
      if Step(w, txs[0]).Ok? && Reconciles(txs[0].call) {
        CompoundStep(w.book.deployed, next.book.deployed, Run(w, txs).book.deployed, 
                    Reconciliations(next, txs[1..]), dec, inc);
      }
    }
  }

  /** With a decrease limit below 100% a positive aggregate never reaches zero, however many calls try;
      so every reconciliation of such a run starts from a positive aggregate. */
  lemma {:induction false} NeverWrittenOff(w: World, txs: seq<Tx>)
    requires Valid(w) && w.book.deployed > 0 && w.book.limits.decreaseBps < BPS && RegimeRun(w, txs)
    ensures Run(w, txs).book.deployed > 0 && FromPositive(w, txs)
    decreases |txs|
  {
    hide Step;
    if txs != [] {
      if Step(w, txs[0]).Ok? {
        RegimeStep(w, txs[0]);
        StepEffect(w, txs[0]);
      }
      NeverWrittenOff(Apply(w, txs[0]), txs[1..]);
    }
  }

  // ---- the strategy ----

  /** Floor division accepts the same deltas as cross multiplication. */
  lemma FloorLimitIsProductLimit(delta: int, prev: int, bps: int)
    ensures delta <= prev * bps / BPS_DIVISOR <==> delta * BPS_DIVISOR <= bps * prev
  {
  }

  /** Once latched, and absent overflow, a settle is accepted exactly when the vault's per-call limiter
      at 1000 and 500 basis points would accept the same move. */
  lemma SettleLimiterMatchesVault(st: StrategyState, newTotal: int, e: Error)
    requires st.latched && 0 <= newTotal && 0 <= st.deployed
    requires I128(newTotal * BPS) && I128(st.deployed * BPS)
    ensures var delta := if newTotal > st.deployed then newTotal - st.deployed else st.deployed - newTotal;
            var bps := if newTotal > st.deployed then SETTLE_INCREASE_BPS else SETTLE_DECREASE_BPS;
            Settle(st, newTotal).Ok? <==> newTotal == st.deployed || WithinBps(delta, st.deployed, bps, e).Ok?
  {
    var delta := if newTotal > st.deployed then newTotal - st.deployed else st.deployed - newTotal;
    var bps := if newTotal > st.deployed then SETTLE_INCREASE_BPS else SETTLE_DECREASE_BPS;
    FloorLimitIsProductLimit(delta, st.deployed, bps);
  }

  /** A series of settles on one strategy. */
  function Settles(st: StrategyState, totals: seq<int>): StrategyState
    decreases |totals|
  {
    if totals == [] then st
    else Settles(if Settle(st, totals[0]).Ok? then Settle(st, totals[0]).value else st, totals[1..])
  }

  function AcceptedSettles(st: StrategyState, totals: seq<int>): nat
    decreases |totals|
  {
    if totals == [] then 0
    else if Settle(st, totals[0]).Ok? then 1 + AcceptedSettles(Settle(st, totals[0]).value, totals[1..])
    else AcceptedSettles(st, totals[1..])
  }

  /** k accepted settles of a positive total stay within 0.95^k and 1.1^k of it, and above zero. */
  lemma {:induction false} SettlesCompound(st: StrategyState, totals: seq<int>)
    requires st.deployed > 0
    ensures Settles(st, totals).deployed > 0
    ensures Compounded(st.deployed, Settles(st, totals).deployed, AcceptedSettles(st, totals),
                       SETTLE_DECREASE_BPS, SETTLE_INCREASE_BPS)
    decreases |totals|
  {
    hide Compounded;
    if totals == [] {
      NoMove(st.deployed, SETTLE_DECREASE_BPS, SETTLE_INCREASE_BPS);
    } else if Settle(st, totals[0]).Ok? {
      var next := Settle(st, totals[0]).value;
      SettleBounds(st, totals[0]);
      SettlesCompound(next, totals[1..]);
      CompoundStep(st.deployed, next.deployed, Settles(st, totals).deployed, AcceptedSettles(next, totals[1..]),
                   SETTLE_DECREASE_BPS, SETTLE_INCREASE_BPS);
    } else {
      SettlesCompound(st, totals[1..]);
    }
  }

  lemma SettleBounds(st: StrategyState, newTotal: int)
    requires st.deployed > 0 && Settle(st, newTotal).Ok?
    ensures st.deployed * (BPS - SETTLE_DECREASE_BPS) <= newTotal * BPS <= st.deployed * (BPS + SETTLE_INCREASE_BPS)
  {
  }

  // ---- settles in runs of the system ----

  predicate SettlesCall(call: Call, a: Address) {
    call.Controller? && call.strategy == a && call.call.SettleProtocolReturns?
  }

  predicate MovesDeployment(call: Call, a: Address) {
    call.Controller? && call.strategy == a && (call.call.DeployToProtocol? || call.call.RecallFromProtocol?)
  }

  predicate NoDeploymentMoves(txs: seq<Tx>, a: Address) {
    forall i :: 0 <= i < |txs| ==> !MovesDeployment(txs[i].call, a)
  }

  function SettlesIn(w: World, txs: seq<Tx>, a: Address): nat
    decreases |txs|
  {
    if txs == [] then 0
    else (if Step(w, txs[0]).Ok? && SettlesCall(txs[0].call, a)
      then 1 else 0) + SettlesIn(Apply(w, txs[0]), txs[1..], a)
  }

  lemma StepSettles(w: World, tx: Tx, a: Address)
    requires Valid(w) && a in w.strategies && w.strategies[a].deployed > 0
    requires Step(w, tx).Ok? && !MovesDeployment(tx.call, a)
    ensures var w' := Step(w, tx).value;
            && a in w'.strategies && w'.strategies[a].deployed > 0
            && (if SettlesCall(tx.call, a)
                then w.strategies[a].deployed * (BPS - SETTLE_DECREASE_BPS) <= w'.strategies[a].deployed * BPS
                     <= w.strategies[a].deployed * (BPS + SETTLE_INCREASE_BPS)
                else w'.strategies[a].deployed == w.strategies[a].deployed)
  {
    hide Step;
    StepStrategy(w, tx, a);
    if SettlesCall(tx.call, a) {
      SettleBounds(w.strategies[a], tx.call.call.newTotal);
    }
  }

  /** Over any run of the system in which its controller neither deploys nor recalls, k accepted settles of
      a positive total stay within 0.95^k and 1.1^k of it, and above zero. */
  lemma {:induction false} SettlesCompoundInRuns(w: World, txs: seq<Tx>, a: Address)
    requires Valid(w) && a in w.strategies && w.strategies[a].deployed > 0 && NoDeploymentMoves(txs, a)
    ensures a in Run(w, txs).strategies && Run(w, txs).strategies[a].deployed > 0
    ensures Compounded(w.strategies[a].deployed, Run(w, txs).strategies[a].deployed, SettlesIn(w, txs, a),
                       SETTLE_DECREASE_BPS, SETTLE_INCREASE_BPS)
    decreases |txs|
  {
    hide Step, Compounded;
    if txs == [] {
      NoMove(w.strategies[a].deployed, SETTLE_DECREASE_BPS, SETTLE_INCREASE_BPS);
    } else {
      var next := Apply(w, txs[0]);
      if Step(w, txs[0]).Ok? {
        StepSettles(w, txs[0], a);
      }
      ApplyValid(w, txs[0]);
      SettlesCompoundInRuns(next, txs[1..], a);
      if Step(w, txs[0]).Ok? && SettlesCall(txs[0].call, a) {
        CompoundStep(w.strategies[a].deployed, next.strategies[a].deployed, Run(w, txs).strategies[a].deployed,
                     SettlesIn(next, txs[1..], a), SETTLE_DECREASE_BPS, SETTLE_INCREASE_BPS);
      }
    }
  }
}
