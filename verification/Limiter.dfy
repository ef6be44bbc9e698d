/** The two-level AUM limiter: a per-call bound and a tumbling window with a frozen base. */
module Limiter {
  import opened Common

  const BPS: int := 10_000
  const MIN_LIMIT_BPS: int := 1
  const MAX_LIMIT_BPS: int := 10_000
  const DEFAULT_INCREASE_BPS: int := 1_000
  const DEFAULT_DECREASE_BPS: int := 500
  const DEFAULT_WINDOW_DURATION: int := 86_400
  const MIN_WINDOW_DURATION: int := 3_600
  const MAX_WINDOW_DURATION: int := 604_800

  datatype Limits = Limits(increaseBps: int, decreaseBps: int)

  datatype Window = Window(
    duration: int, increaseBps: int, decreaseBps: int,
    start: int, increase: int, decrease: int, base: int)

  const INITIAL_LIMITS := Limits(DEFAULT_INCREASE_BPS, DEFAULT_DECREASE_BPS)
  const INITIAL_WINDOW := Window(DEFAULT_WINDOW_DURATION, DEFAULT_INCREASE_BPS, DEFAULT_DECREASE_BPS, 0, 0, 0, 0)

  predicate ValidBps(bps: int) {
    MIN_LIMIT_BPS <= bps <= MAX_LIMIT_BPS
  }

  predicate ValidWindowLimits(duration: int, increaseBps: int, decreaseBps: int) {
    MIN_WINDOW_DURATION <= duration <= MAX_WINDOW_DURATION && ValidBps(increaseBps) && ValidBps(decreaseBps)
  }

  function SaturatingSub(x: int, y: int): int {
    if x < y then 0 else x - y
  }

  function WithinBps(value: int, base: int, bps: int, error: Error): Result<()> {
    if !I128(value * BPS) || !I128(bps * base) then Err(MathOverflow)
    else Need(value * BPS <= bps * base, error)
  }

  predicate Expired(win: Window, now: int) {
    win.start == 0 || SaturatingSub(now, win.start) >= win.duration
  }

  function Reset(win: Window, now: int, base: int): Window {
    win.(start := now, increase := 0, decrease := 0, base := base)
  }

  function CheckWindow(win: Window, now: int, delta: int, prev: int, isIncrease: bool): Result<Window> {
    var cur := if Expired(win, now) then Reset(win, now, prev) else win;
    if cur.base == 0 then Ok(cur)
    else
      var total :- Checked((if isIncrease then cur.increase else cur.decrease) + delta);
      var bps := if isIncrease then cur.increaseBps else cur.decreaseBps;
      var _ :- WithinBps(total, cur.base, bps, AumCumulativeChangeExceedsLimit);
      Ok(if isIncrease then cur.(increase := total) else cur.(decrease := total))
  }

  /** Both limits for moving the aggregate from prev to new; the result is the window afterwards. */
  function CheckChange(limits: Limits, win: Window, now: int, prev: int, next: int): Result<Window> {
    if prev <= 0 || next == prev then Ok(win)
    else
      var isIncrease := next > prev;
      var delta :- Checked(if isIncrease then next - prev else prev - next);
      var bps := if isIncrease then limits.increaseBps else limits.decreaseBps;
      var _ :- WithinBps(delta, prev, bps, AumChangeExceedsLimit);
      CheckWindow(win, now, delta, prev, isIncrease)
  }
}
