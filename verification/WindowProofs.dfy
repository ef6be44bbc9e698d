/** The AUM window: what it has recorded always explains the aggregate, and bounds it over time. */
module WindowProofs {
  import opened Common
  import opened Arithmetic
  import opened Limiter
  import opened Accounting
  import opened AccountingProofs
  import opened System
  import opened Effects
  import opened NavAccounting
  import opened Traces

  /** Recorded changes are within the configured share of the base; a window that never started is empty. */
  ghost predicate WindowValid(win: Window) {
    && 0 <= win.start && 0 <= win.base && 0 <= win.increase && 0 <= win.decrease
    && 0 <= win.increaseBps && 0 <= win.decreaseBps
    && win.increase * BPS <= win.increaseBps * win.base
    && win.decrease * BPS <= win.decreaseBps * win.base
    && (win.start == 0 ==> win.base == 0)
  }

  /** Aggregate moves the window does not record, since it was last reset. */
  datatype Tally = Tally(transfers: int, unrecorded: int)

  ghost predicate Conserved(b: Book, t: Tally) {
    b.deployed == b.window.base + b.window.increase - b.window.decrease + t.transfers + t.unrecorded
  }

  /** A rate-checked move: it starts from a positive aggregate and changes it. */
  predicate Rated(b: Book, change: int) {
    b.deployed > 0 && change != 0
  }

  /** Moves from zero are not recorded; nor is anything while the frozen base is zero. */
  function AfterMove(b: Book, now: int, change: int, t: Tally): Tally {
    if Rated(b, change) && Expired(b.window, now) then Tally(0, 0)
    else if Rated(b, change) && b.window.base != 0 then t
    else t.(unrecorded := t.unrecorded + change)
  }

  function AfterCall(w: World, call: Call, t: Tally): Tally {
    match call
    case ToSubaccount(_, sub, amount) =>
      if Kind(w.book, sub) == Wallet then t.(transfers := t.transfers + amount) else t
    case FromSubaccount(_, sub, amount) =>
      if Kind(w.book, sub) == Wallet then t.(transfers := t.transfers - amount) else t
    case Management(manage) =>
      if manage.SetAumWindowLimits? then Tally(0, 0) else AfterMove(w.book, w.now, DeployedChange(w.book, manage), t)
    case _ => t
  }

  function AfterRun(w: World, txs: seq<Tx>, t: Tally): Tally
    decreases |txs|
  {
    if txs == [] then t
    else AfterRun(Apply(w, txs[0]), txs[1..], if Step(w, txs[0]).Ok? then AfterCall(w, txs[0].call, t) else t)
  }

  /** A rate-checked change on a valid window: reset first when expired, then recorded unless the base is zero. */
  lemma CheckWindowEffect(win: Window, now: int, delta: int, prev: int, isIncrease: bool)
    requires WindowValid(win) && now > 0 && delta > 0 && prev > 0
    requires CheckWindow(win, now, delta, prev, isIncrease).Ok?
    ensures var win' := CheckWindow(win, now, delta, prev, isIncrease).value;
            var cur := if Expired(win, now) then Reset(win, now, prev) else win;
            && WindowValid(win') && win' == cur.(increase := win'.increase, decrease := win'.decrease)
            && (cur.base != 0 ==>
                  win'.increase - win'.decrease == cur.increase - cur.decrease + (if isIncrease then delta else -delta))
            && (cur.base == 0 ==> win' == win)
            && win'.increase == cur.increase + (if isIncrease && cur.base != 0 then delta else 0)
            && win'.decrease == cur.decrease + (if !isIncrease && cur.base != 0 then delta else 0)
  {
    ResetValid(win, now, prev);
  }

  lemma ResetValid(win: Window, now: int, base: int)
    requires 0 <= win.increaseBps && 0 <= win.decreaseBps && now > 0 && base >= 0
    ensures WindowValid(Reset(win, now, base))
  {
    MulMono(0, win.increaseBps, base);
    MulMono(0, win.decreaseBps, base);
  }

  /** The window after a management call, in terms of how the call moves the aggregate. */
  function WindowAfter(b: Book, now: int, call: Manage): Result<Window> {
    if call.SetAumWindowLimits? then
      var configured :=
        b.window.(duration := call.duration, increaseBps := call.increaseBps, decreaseBps := call.decreaseBps);
      Ok(Reset(configured, now, b.deployed))
    else CheckChange(b.limits, b.window, now, b.deployed, b.deployed + DeployedChange(b, call))
  }

  lemma MoveWindow(b: Book, c: Context, call: Manage)
    requires MovesAggregate(call) && ManageStep(b, c, call).Ok?
    ensures WindowAfter(b, c.now, call) == Ok(ManageStep(b, c, call).value.window)
  {
    hide CheckChange, ManageStep;
    AggregateMoves(b, c, call);
  }

  lemma ManageWindow(b: Book, c: Context, call: Manage)
    requires ManageStep(b, c, call).Ok?
    ensures WindowAfter(b, c.now, call) == Ok(ManageStep(b, c, call).value.window)
  {
    hide ApplyChange;
    if MovesAggregate(call) {
      MoveWindow(b, c, call);
    } else {
      UnchangedWindow(b, c.now);
    }
  }

  lemma UnchangedWindow(b: Book, now: int)
    ensures CheckChange(b.limits, b.window, now, b.deployed, b.deployed) == Ok(b.window)
  {
  }

  lemma CheckChangeConserves(b: Book, now: int, change: int, win': Window, t: Tally)
    requires WindowValid(b.window) && now > 0 && Conserved(b, t)
    requires CheckChange(b.limits, b.window, now, b.deployed, b.deployed + change) == Ok(win')
    ensures WindowValid(win')
    ensures Conserved(b.(deployed := b.deployed + change, window := win'), AfterMove(b, now, change, t))
  {
    if Rated(b, change) {
      CheckWindowEffect(b.window, now, if change > 0 then change else -change, b.deployed, change > 0);
    }
  }

  lemma StepConserves(w: World, tx: Tx, t: Tally)
    requires Valid(w) && WindowValid(w.book.window) && Conserved(w.book, t) && Step(w, tx).Ok?
    ensures var w' := Step(w, tx).value; WindowValid(w'.book.window) && Conserved(w'.book, AfterCall(w, tx.call, t))
  {
    hide Step, ManageStep, CheckChange, CheckWindow;
    var w' := Step(w, tx).value;
    StepBook(w, tx);
    if tx.call.Management? {
      var c, manage := ContextOf(w, tx.signers, tx.call.manage), tx.call.manage;
      ManageWindow(w.book, c, manage);
      ManageDeployed(w.book, c, manage);
      if manage.SetAumWindowLimits? {
        ManageKeeps(w.book, c, manage);
        ResetValid(w'.book.window, w.now, w.book.deployed);
      } else {
        CheckChangeConserves(w.book, w.now, DeployedChange(w.book, manage), w'.book.window, t);
      }
    }
  }

  /** Window conservation: in every state of every run from construction, recorded increases and
      decreases are within the limits of the base, and base plus recorded increases minus recorded
      decreases plus wallet transfers plus unrecorded moves since the last reset is the aggregate. */
  lemma {:induction false} WindowConservation(w: World, txs: seq<Tx>, t: Tally)
    requires Valid(w) && WindowValid(w.book.window) && Conserved(w.book, t)
    ensures var w' := Run(w, txs); WindowValid(w'.book.window) && Conserved(w'.book, AfterRun(w, txs, t))
    decreases |txs|
  {
    hide Step;
    if txs != [] {
      if Step(w, txs[0]).Ok? {
        StepConserves(w, txs[0], t);
      }
      ApplyValid(w, txs[0]);
      WindowConservation(Apply(w, txs[0]), txs[1..], if Step(w, txs[0]).Ok? then AfterCall(w, txs[0].call, t) else t);
    }
  }

  lemma WindowConservationFromGenesis(start: World, txs: seq<Tx>)
    requires Genesis(start)
    ensures var w' := Run(start, txs);
            WindowValid(w'.book.window) && Conserved(w'.book, AfterRun(start, txs, Tally(0, 0)))
  {
    hide Step;
    GenesisValid(start);
    WindowConservation(start, txs, Tally(0, 0));
  }

  /** The window's configuration only changes together with a reset to the current aggregate. */
  lemma LimitsChangeOnlyWithReset(w: World, tx: Tx)
    requires Valid(w) && Step(w, tx).Ok?
    ensures var (win, win') := (w.book.window, Step(w, tx).value.book.window);
            || (win'.duration, win'.increaseBps, win'.decreaseBps) == (win.duration, win.increaseBps, win.decreaseBps)
            || (win'.start, win'.increase, win'.decrease, win'.base) == (w.now, 0, 0, w.book.deployed)
  {
    hide Step, ManageStep;
    StepBook(w, tx);
    if tx.call.Management? {
      ManageWindow(w.book, ContextOf(w, tx.signers, tx.call.manage), tx.call.manage);
    }
  }

  // ---- sliding intervals ----

  /** Increases that went through the rate limits, in one accepted transaction. */
  function RatedIncrease(w: World, call: Call): int {
    if call.Management? && w.book.deployed > 0 && DeployedChange(w.book, call.manage) > 0
    then DeployedChange(w.book, call.manage) else 0
  }

  /** Decreases that went through the rate limits, in one accepted transaction. */
  function RatedDecrease(w: World, call: Call): int {
    if call.Management? && w.book.deployed > 0 && DeployedChange(w.book, call.manage) < 0
    then -DeployedChange(w.book, call.manage) else 0
  }

  predicate Resets(w: World, call: Call) {
    call.Management? && Rated(w.book, DeployedChange(w.book, call.manage)) && Expired(w.book.window, w.now)
  }

  function TotalRatedIncrease(w: World, txs: seq<Tx>): int
    decreases |txs|
  {
    if txs == [] then 0
    else (if Step(w, txs[0]).Ok? then RatedIncrease(w, txs[0].call) else 0)
         + TotalRatedIncrease(Apply(w, txs[0]), txs[1..])
  }

  function TotalRatedDecrease(w: World, txs: seq<Tx>): int
    decreases |txs|
  {
    if txs == [] then 0
    else (if Step(w, txs[0]).Ok? then RatedDecrease(w, txs[0].call) else 0)
         + TotalRatedDecrease(Apply(w, txs[0]), txs[1..])
  }

  function TotalResets(w: World, txs: seq<Tx>): nat
    decreases |txs|
  {
    if txs == [] then 0
    else (if Step(w, txs[0]).Ok? && Resets(w, txs[0].call) then 1 else 0) + TotalResets(Apply(w, txs[0]), txs[1..])
  }

  predicate NoReconfiguration(txs: seq<Tx>) {
    forall i :: 0 <= i < |txs| ==> !(txs[i].call.Management? && txs[i].call.manage.SetAumWindowLimits?)
  }

  /** The window never started in the future. */
  ghost predicate WindowTimed(w: World) {
    Valid(w) && WindowValid(w.book.window) && w.book.window.start <= w.now
  }

  function Configuration(win: Window): (int, int, int) {
    (win.duration, win.increaseBps, win.decreaseBps)
  }

  /** What a rate-limited move does to the window: reset when expired, recorded unless the base is zero. */
  ghost predicate MovesWindow(b: Book, now: int, change: int, win': Window) {
    var win := b.window;
    && WindowValid(win') && Configuration(win') == Configuration(win)
    && (Rated(b, change) && Expired(win, now) ==>
          && win'.start == now && win'.base > 0
          && win'.increase == (if change > 0 then change else 0)
          && win'.decrease == (if change < 0 then -change else 0))
    && (!(Rated(b, change) && Expired(win, now)) ==>
          && win'.start == win.start && win'.base == win.base
          && (win.base > 0 ==>
                && win'.increase == win.increase + (if b.deployed > 0 && change > 0 then change else 0)
                && win'.decrease == win.decrease + (if b.deployed > 0 && change < 0 then -change else 0))
          && (win.start == 0 ==> !Rated(b, change) && win'.increase == win.increase && win'.decrease == win.decrease))
  }

  lemma MoveEffect(b: Book, now: int, change: int, win': Window)
    requires WindowValid(b.window) && now > 0
    requires CheckChange(b.limits, b.window, now, b.deployed, b.deployed + change) == Ok(win')
    ensures MovesWindow(b, now, change, win')
  {
    hide CheckWindow, WithinBps;
    if Rated(b, change) {
      CheckWindowEffect(b.window, now, if change > 0 then change else -change, b.deployed, change > 0);
    }
  }

  lemma ManageMovesWindow(b: Book, c: Context, call: Manage)
    requires WindowValid(b.window) && b.window.start <= c.now && c.now > 0
    requires ManageStep(b, c, call).Ok? && !call.SetAumWindowLimits?
    ensures var win' := ManageStep(b, c, call).value.window;
            MovesWindow(b, c.now, DeployedChange(b, call), win') && WindowValid(win') && win'.start <= c.now
  {
    hide ManageStep, CheckChange;
    ManageWindow(b, c, call);
    MoveEffect(b, c.now, DeployedChange(b, call), ManageStep(b, c, call).value.window);
  }

  /** One accepted transaction, without reconfiguration: a rate-checked change on an expired window
      resets it to the present and the old aggregate; otherwise start and base stay. */
  lemma StepWindow(w: World, tx: Tx)
    requires WindowTimed(w) && Step(w, tx).Ok? && NoReconfiguration([tx])
    ensures var w' := Step(w, tx).value;
            && WindowTimed(w') && w.now <= w'.now && (tx.call.Management? ==> w'.now == w.now)
            && (if tx.call.Management?
                then MovesWindow(w.book, w.now, DeployedChange(w.book, tx.call.manage), w'.book.window)
                else w'.book.window == w.book.window)
  {
    hide Step, ManageStep, NavChange, SupplyMove, MovesWindow, WindowValid;
    StepBook(w, tx);
    StepEffect(w, tx);
    if tx.call.Management? {
      var manage := [tx][0].call.manage;
      ManageMovesWindow(w.book, ContextOf(w, tx.signers, manage), manage);
    }
  }

  lemma {:induction false} ClockNeverGoesBack(w: World, txs: seq<Tx>)
    requires Valid(w)
    ensures w.now <= Run(w, txs).now
    decreases |txs|
  {
    hide Step;
    if txs != [] {
      if Step(w, txs[0]).Ok? {
        StepBook(w, txs[0]);
        StepEffect(w, txs[0]);
      }
      ClockNeverGoesBack(Apply(w, txs[0]), txs[1..]);
    }
  }

  /** While a started window lives the run has no reset, and unless the frozen base is zero every
      rate-checked change is recorded. */
  lemma {:induction false} LiveWindow(w: World, txs: seq<Tx>)
    requires WindowTimed(w) && NoReconfiguration(txs)
    requires var win := w.book.window; win.start > 0 && Run(w, txs).now < win.start + win.duration
    ensures var (win, win') := (w.book.window, Run(w, txs).book.window);
            && WindowValid(win') && Configuration(win') == Configuration(win)
            && win'.start == win.start && win'.base == win.base && TotalResets(w, txs) == 0
            && (win.base > 0 ==>
                  && win'.increase == win.increase + TotalRatedIncrease(w, txs)
                  && win'.decrease == win.decrease + TotalRatedDecrease(w, txs))
    decreases |txs|
  {
    hide Step;
    if txs != [] {
      ClockNeverGoesBack(w, txs);
      if Step(w, txs[0]).Ok? {
        assert NoReconfiguration([txs[0]]);
        StepWindow(w, txs[0]);
      }
      LiveWindow(Apply(w, txs[0]), txs[1..]);
    }
  }

  /** Increases that passed the rate limits from the first reset of the run on. */
  function IncreaseFromReset(w: World, txs: seq<Tx>): int
    decreases |txs|
  {
    if txs == [] then 0
    else if Step(w, txs[0]).Ok? && Resets(w, txs[0].call) then TotalRatedIncrease(w, txs)
    else IncreaseFromReset(Apply(w, txs[0]), txs[1..])
  }

  function DecreaseFromReset(w: World, txs: seq<Tx>): int
    decreases |txs|
  {
    if txs == [] then 0
    else if Step(w, txs[0]).Ok? && Resets(w, txs[0].call) then TotalRatedDecrease(w, txs)
    else DecreaseFromReset(Apply(w, txs[0]), txs[1..])
  }

  /** Over any half-open interval as long as the window, whatever window it starts in, there is at most
      one reset, and what passes the rate limits from there on is within the limits of the new base. */
  lemma {:induction false} AtMostOneReset(w: World, txs: seq<Tx>)
    requires WindowTimed(w) && NoReconfiguration(txs)
    requires Run(w, txs).now < w.now + w.book.window.duration
    ensures var (win, win') := (w.book.window, Run(w, txs).book.window);
            && TotalResets(w, txs) <= 1
            && WindowValid(win') && Configuration(win') == Configuration(win)
            && IncreaseFromReset(w, txs) * BPS <= win.increaseBps * win'.base
            && DecreaseFromReset(w, txs) * BPS <= win.decreaseBps * win'.base
    decreases |txs|
  {
    hide Step, Valid;
    if txs == [] {
      MulMono(0, w.book.window.increaseBps, w.book.window.base);
      MulMono(0, w.book.window.decreaseBps, w.book.window.base);
    } else {
      var next := Apply(w, txs[0]);
      ClockNeverGoesBack(w, txs);
      if Step(w, txs[0]).Ok? {
        assert NoReconfiguration([txs[0]]);
        StepWindow(w, txs[0]);
      }
      ClockNeverGoesBack(next, txs[1..]);
      if Step(w, txs[0]).Ok? && Resets(w, txs[0].call) {
        LiveWindow(next, txs[1..]);
      } else {
        AtMostOneReset(next, txs[1..]);
      }
    }
  }

  lemma ShareOfBoth(x: int, y: int, bps: int, b: int, b': int)
    requires 0 <= bps && 0 <= b'
    requires x * BPS <= bps * b && (y == 0 || y * BPS <= bps * b')
    ensures (x + y) * BPS <= bps * (b + b')
  {
    MulMono(0, bps, b');
    Distribute(b, b', bps);
    assert (b + b') * bps == bps * (b + b') && b * bps == bps * b && b' * bps == bps * b';
  }

  /** An interval as long as the window that starts before the first window or in one with a positive
      base: all increases and all decreases that passed the rate limits in it, together with those the
      first window had already recorded, are each within the limit of the two bases together. */
  lemma {:induction false} SlidingBound(w: World, txs: seq<Tx>)
    requires WindowTimed(w) && NoReconfiguration(txs)
    requires w.book.window.start == 0 || w.book.window.base > 0
    requires Run(w, txs).now < w.now + w.book.window.duration
    ensures var (win, win') := (w.book.window, Run(w, txs).book.window);
            && WindowValid(win') && Configuration(win') == Configuration(win)
            && (win.increase + TotalRatedIncrease(w, txs)) * BPS <= win.increaseBps * (win.base + win'.base)
            && (win.decrease + TotalRatedDecrease(w, txs)) * BPS <= win.decreaseBps * (win.base + win'.base)
    decreases |txs|
  {
    hide Step, Valid;
    var win, win' := w.book.window, Run(w, txs).book.window;
    if txs == [] {
      ShareOfBoth(win.increase, 0, win.increaseBps, win.base, win.base);
      ShareOfBoth(win.decrease, 0, win.decreaseBps, win.base, win.base);
    } else {
      var next := Apply(w, txs[0]);
      ClockNeverGoesBack(w, txs);
      if Step(w, txs[0]).Ok? {
        assert NoReconfiguration([txs[0]]);
        StepWindow(w, txs[0]);
      }
      ClockNeverGoesBack(next, txs[1..]);
      if Step(w, txs[0]).Ok? && Resets(w, txs[0].call) {
        LiveWindow(next, txs[1..]);
        ShareOfBoth(win.increase, win'.increase, win.increaseBps, win.base, win'.base);
        ShareOfBoth(win.decrease, win'.decrease, win.decreaseBps, win.base, win'.base);
      } else {
        SlidingBound(next, txs[1..]);
      }
    }
  }

  lemma StepTimed(w: World, tx: Tx)
    requires WindowTimed(w) && Step(w, tx).Ok?
    ensures WindowTimed(Step(w, tx).value)
  {
    hide Step, ManageStep;
    if tx.call.Management? && tx.call.manage.SetAumWindowLimits? {
      StepBook(w, tx);
      StepEffect(w, tx);
      ManageWindow(w.book, ContextOf(w, tx.signers, tx.call.manage), tx.call.manage);
      ResetValid(Step(w, tx).value.book.window, w.now, w.book.deployed);
    } else {
      StepWindow(w, tx);
    }
  }

  /** Every state reached from construction can start such an interval. */
  lemma {:induction false} RunTimed(w: World, txs: seq<Tx>)
    requires WindowTimed(w)
    ensures WindowTimed(Run(w, txs))
    decreases |txs|
  {
    hide Step;
    if txs != [] {
      if Step(w, txs[0]).Ok? {
        StepTimed(w, txs[0]);
      }
      RunTimed(Apply(w, txs[0]), txs[1..]);
    }
  }

  /** The sliding bounds for any interval of any run from construction: one reset at most and the bound
      from it on in every case, the two-base bound unless the interval starts at a base of zero. */
  lemma SlidingBoundFromGenesis(start: World, before: seq<Tx>, txs: seq<Tx>)
    requires Genesis(start) && NoReconfiguration(txs)
    requires var w := Run(start, before); Run(w, txs).now < w.now + w.book.window.duration
    ensures var w := Run(start, before);
            var (win, win') := (w.book.window, Run(w, txs).book.window);
            && TotalResets(w, txs) <= 1
            && IncreaseFromReset(w, txs) * BPS <= win.increaseBps * win'.base
            && DecreaseFromReset(w, txs) * BPS <= win.decreaseBps * win'.base
            && (win.start == 0 || win.base > 0 ==>
                  && TotalRatedIncrease(w, txs) * BPS <= win.increaseBps * (win.base + win'.base)
                  && TotalRatedDecrease(w, txs) * BPS <= win.decreaseBps * (win.base + win'.base))
  {
    hide Step, Apply, TotalResets, TotalRatedIncrease, TotalRatedDecrease, IncreaseFromReset, DecreaseFromReset;
    GenesisValid(start);
    RunTimed(start, before);
    var w := Run(start, before);
    AtMostOneReset(w, txs);
    if w.book.window.start == 0 || w.book.window.base > 0 {
      SlidingBound(w, txs);
      Distribute(w.book.window.increase, TotalRatedIncrease(w, txs), BPS);
      Distribute(w.book.window.decrease, TotalRatedDecrease(w, txs), BPS);
    }
  }

  // ---- write-offs ----

  /** A window with a positive base and a decrease limit below 100% leaves some of its base standing. */
  ghost predicate HoldsAggregateUp(b: Book, t: Tally) {
    && WindowValid(b.window) && Conserved(b, t)
    && b.window.base > 0 && b.window.decreaseBps < BPS
    && t.transfers >= 0 && t.unrecorded >= 0
  }

  lemma HeldUpIsPositive(b: Book, t: Tally)
    requires HoldsAggregateUp(b, t)
    ensures b.deployed > 0
  {
    MulMono(b.window.decreaseBps, BPS - 1, b.window.base);
    MulLess(b.window.decrease, b.window.base, BPS);
  }

  /** Takes nothing back from a wallet, and leaves the cumulative decrease limit below 100%. */
  predicate KeepsWindowRegime(w: World, call: Call) {
    match call
    case FromSubaccount(_, sub, _) => Kind(w.book, sub) == Strategy
    case Management(manage) => manage.SetAumWindowLimits? ==> manage.decreaseBps < BPS
    case _ => true
  }

  predicate WindowRegimeRun(w: World, txs: seq<Tx>)
    decreases |txs|
  {
    txs != [] ==>
      (Step(w, txs[0]).Ok? ==> KeepsWindowRegime(w, txs[0].call)) && WindowRegimeRun(Apply(w, txs[0]), txs[1..])
  }

  lemma StepHoldsUp(w: World, tx: Tx, t: Tally)
    requires Valid(w) && HoldsAggregateUp(w.book, t) && Step(w, tx).Ok? && KeepsWindowRegime(w, tx.call)
    ensures HoldsAggregateUp(Step(w, tx).value.book, AfterCall(w, tx.call, t))
  {
    hide Step, ManageStep, CheckChange, Conserved;
    HeldUpIsPositive(w.book, t);
    StepConserves(w, tx, t);
    StepBook(w, tx);
    if tx.call.Management? {
      var manage := tx.call.manage;
      ManageWindow(w.book, ContextOf(w, tx.signers, manage), manage);
      if !manage.SetAumWindowLimits? {
        MoveEffect(w.book, w.now, DeployedChange(w.book, manage), Step(w, tx).value.book.window);
      }
    }
  }

  /** The cumulative limit alone also forbids write-offs: while it is below 100% and no wallet pays back,
      no number of accepted calls takes an aggregate that the window explains down to zero. */
  lemma {:induction false} WindowNeverWrittenOff(w: World, txs: seq<Tx>, t: Tally)
    requires Valid(w) && HoldsAggregateUp(w.book, t) && WindowRegimeRun(w, txs)
    ensures Run(w, txs).book.deployed > 0 && HoldsAggregateUp(Run(w, txs).book, AfterRun(w, txs, t))
    decreases |txs|
  {
    hide Step, Valid, HoldsAggregateUp;
    if txs == [] {
      HeldUpIsPositive(w.book, t);
    } else {
      if Step(w, txs[0]).Ok? {
        StepHoldsUp(w, txs[0], t);
      }
      ApplyValid(w, txs[0]);
      WindowNeverWrittenOff(Apply(w, txs[0]), txs[1..],
                            if Step(w, txs[0]).Ok? then AfterCall(w, txs[0].call, t) else t);
    }
  }

  /** While the window waits for its next reset: a positive aggregate and a limit below 100%. */
  ghost predicate AwaitsReset(w: World) {
    WindowTimed(w) && w.book.deployed > 0 && w.book.window.decreaseBps < BPS && Expired(w.book.window, w.now)
  }

  /** A step either leaves the window waiting or resets it to the positive aggregate it found. */
  lemma StepAwaits(w: World, tx: Tx)
    requires AwaitsReset(w) && Step(w, tx).Ok? && KeepsWindowRegime(w, tx.call)
    ensures var w' := Step(w, tx).value; AwaitsReset(w') || HoldsAggregateUp(w'.book, Tally(0, 0))
  {
    hide Step, ManageStep, CheckChange, NoteDeposit, NoteWithdrawal;
    var win := w.book.window;
    var t := Tally(0, w.book.deployed - (win.base + win.increase - win.decrease));
    StepBook(w, tx);
    StepTimed(w, tx);
    StepConserves(w, tx, t);
    match tx.call
    case Management(manage) =>
      var c := ContextOf(w, tx.signers, manage);
      ManageWindow(w.book, c, manage);
      ManageDeployed(w.book, c, manage);
      if !manage.SetAumWindowLimits? {
        ManageMovesWindow(w.book, c, manage);
      }
    case ToSubaccount(_, sub, amount) => NoteDepositWindow(w.book, sub, amount, amount);
    case FromSubaccount(_, sub, amount) => NoteWithdrawalWindow(w.book, sub, amount, Received(w, sub, amount));
    case _ =>
  }

  lemma NoteDepositWindow(b: Book, sub: Address, requested: int, sent: int)
    requires sent > 0 && NoteDeposit(b, sub, requested, sent).Ok?
    ensures var b' := NoteDeposit(b, sub, requested, sent).value; b'.window == b.window && b'.deployed >= b.deployed
  {
  }

  lemma NoteWithdrawalWindow(b: Book, sub: Address, requested: int, received: int)
    requires NoteWithdrawal(b, sub, requested, received).Ok?
    ensures var b' := NoteWithdrawal(b, sub, requested, received).value;
            b'.window == b.window && (Kind(b, sub) == Strategy ==> b'.deployed == b.deployed)
  {
  }

  /** The same from a window that never started or has expired, which is how every vault begins. */
  lemma {:induction false} ExpiredWindowNeverWrittenOff(w: World, txs: seq<Tx>)
    requires AwaitsReset(w) && WindowRegimeRun(w, txs)
    ensures Run(w, txs).book.deployed > 0
    decreases |txs|
  {
    hide Step, HoldsAggregateUp;
    if txs != [] {
      var next := Apply(w, txs[0]);
      if Step(w, txs[0]).Ok? {
        StepAwaits(w, txs[0]);
      }
      ApplyValid(w, txs[0]);
      if AwaitsReset(next) {
        ExpiredWindowNeverWrittenOff(next, txs[1..]);
      } else {
        WindowNeverWrittenOff(next, txs[1..], Tally(0, 0));
      }
    }
  }
}
