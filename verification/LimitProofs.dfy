/** Exactly which changes of the aggregate the limiter admits, and exactly what its window records: stated
    on elapsed time and on products, without the limiter's own steps. */
module LimitProofs {
  import opened Common
  import opened Arithmetic
  import opened Limiter
  import opened Accounting
  import opened AccountingProofs
  import opened WindowProofs

  /** The window is over: it never started, or its duration has passed. */
  predicate Over(win: Window, now: int) {
    win.start == 0 || now >= win.start + win.duration
  }

  /** A change is within a share of a base, in basis points, and the products fit. */
  predicate WithinShare(change: int, bps: int, base: int) {
    change * BPS <= bps * base <= I128_MAX
  }

  /** The change from prev to next is within the per-call share of prev, and together with what the
      running window recorded in the same direction within the window's share of its base: a window
      that is over starts anew at prev, and a base of zero limits nothing. */
  predicate Admits(limits: Limits, win: Window, now: int, prev: int, next: int) {
    if next > prev then
      && WithinShare(next - prev, limits.increaseBps, prev)
      && (if Over(win, now) then WithinShare(next - prev, win.increaseBps, prev)
          else win.base == 0 || WithinShare(win.increase + next - prev, win.increaseBps, win.base))
    else
      && WithinShare(prev - next, limits.decreaseBps, prev)
      && (if Over(win, now) then WithinShare(prev - next, win.decreaseBps, prev)
          else win.base == 0 || WithinShare(win.decrease + prev - next, win.decreaseBps, win.base))
  }

  /** The window after an admitted change. */
  predicate Records(win: Window, win': Window, now: int, prev: int, next: int) {
    && win'.duration == win.duration && win'.increaseBps == win.increaseBps && win'.decreaseBps == win.decreaseBps
    && (Over(win, now) ==>
          && win'.start == now && win'.base == prev
          && win'.increase == (if next > prev then next - prev else 0)
          && win'.decrease == (if next < prev then prev - next else 0))
    && (!Over(win, now) ==>
          && win'.start == win.start && win'.base == win.base
          && win'.increase == win.increase + (if next > prev && win.base != 0 then next - prev else 0)
          && win'.decrease == win.decrease + (if next < prev && win.base != 0 then prev - next else 0))
  }

  lemma ShareFits(v: int, base: int, bps: int, error: Error)
    requires v >= 0 && base >= 0 && bps >= 0
    ensures WithinBps(v, base, bps, error).Ok? <==> WithinShare(v, bps, base)
    ensures WithinShare(v, bps, base) ==> I128(v)
  {
    MulMono(0, bps, base);
  }

  /** A change of a positive aggregate passes the limiter exactly when it is admitted, and the window then
      records exactly it; in particular a window that is over is reset, whatever it had recorded. */
  lemma CheckChangeExactly(limits: Limits, win: Window, now: int, prev: int, next: int)
    requires WindowValid(win) && win.duration > 0 && limits.increaseBps >= 0 && limits.decreaseBps >= 0
    requires prev > 0 && next != prev
    ensures CheckChange(limits, win, now, prev, next).Ok? <==> Admits(limits, win, now, prev, next)
    ensures CheckChange(limits, win, now, prev, next).Ok? ==>
              Records(win, CheckChange(limits, win, now, prev, next).value, now, prev, next)
  {
    hide WithinBps, WithinShare;
    var delta := if next > prev then next - prev else prev - next;
    ShareFits(delta, prev, if next > prev then limits.increaseBps else limits.decreaseBps, AumChangeExceedsLimit);
    var recorded := if next > prev then win.increase else win.decrease;
    var bps := if next > prev then win.increaseBps else win.decreaseBps;
    ShareFits(delta, prev, bps, AumCumulativeChangeExceedsLimit);
    ShareFits(recorded + delta, win.base, bps, AumCumulativeChangeExceedsLimit);
  }

  /** The aggregate may move to next: the sum with the local balance fits, a paused vault only lowers it,
      and from a positive aggregate the limiter admits the change. */
  predicate MayMove(b: Book, c: Context, next: int) {
    && 0 <= next && I128(c.local + next) && (b.paused ==> next <= b.deployed)
    && (b.deployed == 0 || next == b.deployed || Admits(b.limits, b.window, c.now, b.deployed, next))
  }

  /** The aggregate moves exactly when it may, to exactly the new total; the event names both totals, and
      nothing but the window moves with it. */
  lemma MovesExactly(b: Book, c: Context, actor: Address, next: int)
    requires BookValid(b) && WindowValid(b.window)
    ensures ApplyChange(b, c, actor, next).Ok? <==> MayMove(b, c, next)
    ensures var r := ApplyChange(b, c, actor, next);
            r.Ok? ==>
              && r.value == b.(deployed := next, window := r.value.window,
                               log := b.log + [DeployedAssetsChanged(actor, b.deployed, next)])
              && (if b.deployed == 0 || next == b.deployed then r.value.window == b.window
                  else Records(b.window, r.value.window, c.now, b.deployed, next))
  {
    hide Admits, Records;
    if b.deployed > 0 && next != b.deployed {
      CheckChangeExactly(b.limits, b.window, c.now, b.deployed, next);
      hide CheckChange;
    }
  }

  /** A fresh vault is unpaused, lists nothing, and until it is reconfigured a first change of a positive
      aggregate may raise it by a tenth and lower it by a twentieth, and no more, within a day. */
  lemma FreshLimitsExactly(admin: Address, now: int, prev: int, next: int)
    requires 0 < prev && 0 <= next && prev * 1_000 <= I128_MAX
    ensures var b := InitialBook(admin);
            && b.admin == admin && b.operator.None? && b.pendingAdmin.None? && !b.paused
            && b.subs == [] && b.deployed == 0 && b.log == []
            && b.window.duration == 24 * 60 * 60 && b.window.start == 0
            && (Admits(b.limits, b.window, now, prev, next) <==> 19 * prev <= 20 * next && 10 * next <= 11 * prev)
  {
  }
}
