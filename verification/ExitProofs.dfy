/** Solvency, and the full exit: without recognised losses every holder can leave, in any order. */
module ExitProofs {
  import opened Common
  import opened Arithmetic
  import opened Sums
  import opened Token
  import opened Pricing
  import opened System
  import opened Effects
  import opened NavAccounting
  import opened ShareProofs
  import opened PriceProofs

  // ---- solvency ----

  /** Floors of proportional parts: scaled back up, they cannot exceed the whole. */
  lemma {:induction false} FloorsBelow(s: set<Address>, floors: Address -> int, parts: Address -> int, n: int, d: int)
    requires forall a :: a in s ==> floors(a) * n <= parts(a) * d
    ensures SumOver(s, floors) * n <= SumOver(s, parts) * d
  {
    if s != {} {
      var x :| x in s;
      FloorsBelow(s - {x}, floors, parts, n, d);
      SumOverPick(s, floors, x);
      SumOverPick(s, parts, x);
      Distribute(floors(x), SumOver(s - {x}, floors), n);
      Distribute(parts(x), SumOver(s - {x}, parts), d);
    }
  }

  /** What redeeming a holder's whole balance is quoted at. */
  function Quote(w: World, holder: Address): int {
    Amount(PreviewRedeem(w, SharesOf(w, holder)))
  }

  lemma QuoteBelowShare(w: World, holder: Address)
    requires Valid(w)
    ensures Quote(w, holder) * N(w) <= SharesOf(w, holder) * D(w)
  {
    PriceSidesPositive(w);
    BalanceWithinTotal(w.shares.balances, holder);
    if PreviewRedeem(w, SharesOf(w, holder)).Ok? {
      AssetsPrice(w, SharesOf(w, holder), Floor);
    } else {
      MulMono(0, SharesOf(w, holder), D(w));
    }
  }

  /** The quotes of all holders together never exceed net asset value. */
  lemma Solvency(w: World)
    requires Valid(w)
    ensures SumOver(w.shares.balances.Keys, a => Quote(w, a)) <= Nav(w)
  {
    var holders := w.shares.balances.Keys;
    var quotes, parts := a => Quote(w, a), a => Balance(w.shares.balances, a);
    forall a | a in holders ensures quotes(a) * N(w) <= parts(a) * D(w) {
      QuoteBelowShare(w, a);
    }
    FloorsBelow(holders, quotes, parts, N(w), D(w));
    PriceSidesPositive(w);
    UnitPositive(w);
    MulMono(w.shares.supply, N(w) - 1, D(w));
    assert (N(w) - 1) * D(w) == D(w) * N(w) - D(w);
    MulLess(SumOver(holders, quotes), D(w), N(w));
  }

  // ---- full exit ----

  /** Every share is backed: supply is at most net asset value times the virtual unit. */
  predicate Backed(w: World) {
    w.shares.supply <= Nav(w) * Unit(w)
  }

  lemma BackedAsRatio(w: World)
    ensures Backed(w) <==> N(w) <= D(w) * Unit(w)
  {
    assert D(w) * Unit(w) == Nav(w) * Unit(w) + Unit(w);
  }

  /** Without recognised losses the vault stays backed from construction on. */
  lemma BackedWithoutLosses(start: World, txs: seq<Tx>)
    requires Genesis(start) && LossFree(start, txs)
    ensures Valid(Run(start, txs)) && Backed(Run(start, txs))
  {
    hide Step;
    var w := Run(start, txs);
    GenesisValid(start);
    PriceNeverFalls(start, txs);
    SameOffset(start, txs);
    PriceSidesPositive(w);
    MulMono(1, D(start), N(w));
    BackedAsRatio(w);
  }

  lemma {:induction false} SameOffset(w: World, txs: seq<Tx>)
    requires Valid(w)
    ensures Run(w, txs).offset == w.offset && Run(w, txs).self == w.self
    decreases |txs|
  {
    hide Step;
    if txs != [] {
      if Step(w, txs[0]).Ok? {
        StepEffect(w, txs[0]);
      }
      SameOffset(Apply(w, txs[0]), txs[1..]);
    }
  }

  /** When all value is local, max_redeem covers a holder's balance exactly when the price of that
      balance, one virtual asset included, is within what all shares are worth. */
  lemma RedeemCapCoversExactly(w: World, holder: Address)
    requires Valid(w) && RedeemCap(w, holder).Ok? && Local(w) == Nav(w)
    ensures RedeemCap(w, holder).value == SharesOf(w, holder) <==> SharesOf(w, holder) * (Nav(w) + 1) <= Nav(w) * N(w)
  {
    SharesPrice(w, Local(w), Floor);
    FloorReaches(ConvertToShares(w, Local(w), Floor).value, SharesOf(w, holder), Nav(w) * N(w), D(w));
  }

  lemma BackedCovers(w: World, holder: Address)
    requires Valid(w) && Backed(w)
    ensures 0 <= SharesOf(w, holder) <= w.shares.supply
    ensures SharesOf(w, holder) * (Nav(w) + 1) <= Nav(w) * N(w)
  {
    BalanceWithinTotal(w.shares.balances, holder);
    TotalAssetsExact(w);
    BackedProducts(SharesOf(w, holder), w.shares.supply, Nav(w), Unit(w));
  }

  lemma BackedProducts(held: int, supply: int, nav: int, unit: int)
    requires 0 <= held <= supply <= nav * unit && nav >= 0
    ensures held * (nav + 1) <= nav * (supply + unit)
  {
    MulMono(held, supply, nav + 1);
    Distribute(nav, 1, supply);
    Distribute(supply, unit, nav);
  }

  /** A state from which exits can start: backed, everything local, and every view in range. */
  ghost predicate ReadyToExit(w: World) {
    && Valid(w) && Backed(w) && !w.book.paused
    && AllReachable(w) && Local(w) == Nav(w)
    && I128(N(w)) && I128(D(w))
  }

  predicate WorthAUnit(w: World, holder: Address) {
    SharesOf(w, holder) * D(w) >= N(w)
  }

  /** A holder redeems the whole balance to a receiver of choice. */
  function ExitTx(w: World, holder: Address, receiver: Address): Tx {
    Tx(Signers({holder}, {}), User(RedeemCall(SharesOf(w, holder), receiver, holder, holder)))
  }

  lemma ExitAccepted(w: World, holder: Address, receiver: Address)
    requires ReadyToExit(w) && WorthAUnit(w, holder)
    ensures RedeemShares(w, Signers({holder}, {}), SharesOf(w, holder), receiver, holder, holder).Ok?
  {
    TotalAssetsExact(w);
    BalanceWithinTotal(w.token, w.self);
    LocalConverts(w);
    BackedCovers(w, holder);
    RedeemCapCoversExactly(w, holder);
    RedeemCapExact(w, Signers({holder}, {}), SharesOf(w, holder), receiver, holder, holder);
  }

  lemma LocalConverts(w: World)
    requires ReadyToExit(w)
    ensures ConvertToShares(w, Local(w), Floor).Ok?
  {
    PriceSidesPositive(w);
    TotalAssetsExact(w);
    BalanceWithinTotal(w.token, w.self);
    if Local(w) > 0 {
      var q := Divide(Local(w) * N(w), D(w), Floor);
      QuotientRounds(Local(w) * N(w), D(w));
      MulMono(0, Local(w), N(w));
      WithinRange(q, Local(w), N(w), D(w));
      assert ToShares(Local(w), Nav(w), w.shares.supply, Unit(w), Floor) == Checked(q);
    }
  }

  lemma WithinRange(q: int, x: int, n: int, d: int)
    requires n > 0 && d > 0 && 0 <= x < d && RoundsDown(q, x * n, d)
    ensures 0 <= q <= n
  {
    MulMono(0, x, n);
    assert (q + 1) * d == q * d + d;
    MulLess(-1, q, d);
    MulMono(x, d, n);
    assert d * n == n * d;
    MulCancel(q, n, d);
  }

  lemma WorthKept(u: int, n: int, d: int, n': int, d': int)
    requires n > 0 && n' > 0 && u >= 0 && u * d >= n && d * n' <= d' * n
    ensures u * d' >= n'
  {
    MulMono(d * n', d' * n, u);
    MulMono(n, u * d, n');
    assert (d * n') * u == (u * d) * n';
    assert (d' * n) * u == (u * d') * n;
    MulCancel(n', u * d', n);
  }

  /** An exit pays its holder in full, leaves the other holders' shares and their worth, and the vault
      as ready for the next exit as it was. */
  lemma ExitKeepsReady(w: World, holder: Address, receiver: Address, other: Address)
    requires ReadyToExit(w) && External(w, holder) && WorthAUnit(w, holder)
    ensures Step(w, ExitTx(w, holder, receiver)).Ok?
    ensures var w' := Apply(w, ExitTx(w, holder, receiver));
            && ReadyToExit(w') && w'.self == w.self && w'.strategies == w.strategies
            && SharesOf(w', holder) == 0
            && (other != holder ==> SharesOf(w', other) == SharesOf(w, other))
            && (other != holder && WorthAUnit(w, other) ==> WorthAUnit(w', other))
  {
    var s, tx := Signers({holder}, {}), ExitTx(w, holder, receiver);
    var held := SharesOf(w, holder);
    ExitAccepted(w, holder, receiver);
    var w' := ExitResult(w, s, held, receiver, holder);
    StepKeepsPrice(w, tx);
    ExitShape(w, w', s, held, receiver, holder);
    PriceSidesPositive(w);
    PriceSidesPositive(w');
    if other != holder && WorthAUnit(w, other) {
      BalanceWithinTotal(w.shares.balances, other);
      WorthKept(SharesOf(w, other), N(w), D(w), N(w'), D(w'));
    }
    BackingKept(w, w');
  }

  lemma ExitResult(w: World, s: Signers, held: int, receiver: Address, holder: Address) returns (w': World)
    requires WellSigned(w, s) && RedeemShares(w, s, held, receiver, holder, holder).Ok?
    ensures Step(w, Tx(s, User(RedeemCall(held, receiver, holder, holder)))) == Ok(w')
    ensures RedeemShares(w, s, held, receiver, holder, holder).value.0 == w'
  {
    w' := RedeemShares(w, s, held, receiver, holder, holder).value.0;
  }

  lemma ExitShape(w: World, w': World, s: Signers, held: int, receiver: Address, holder: Address)
    requires Valid(w) && Local(w) == Nav(w) && held == SharesOf(w, holder)
    requires RedeemShares(w, s, held, receiver, holder, holder).Ok?
    requires RedeemShares(w, s, held, receiver, holder, holder).value.0 == w'
    ensures Valid(w') && w' == w.(token := w'.token, shares := w'.shares)
    ensures Local(w') == Nav(w') <= Nav(w) && 0 <= w'.shares.supply <= w.shares.supply
    ensures SharesOf(w', holder) == 0
    ensures forall a :: a != holder ==> SharesOf(w', a) == SharesOf(w, a)
  {
    ConversionsNonNegative(w, held, Floor);
    WithdrawInternalEffect(w, s, receiver, holder, PreviewRedeem(w, held).value, held, holder);
    SupplyNonNegative(w');
  }

  lemma BackingKept(w: World, w': World)
    requires Valid(w) && Valid(w') && Backed(w) && PriceKept(w, w') && w'.offset == w.offset
    ensures Backed(w')
  {
    UnitPositive(w);
    PriceSidesPositive(w);
    PriceSidesPositive(w');
    BackedAsRatio(w);
    BackedAsRatio(w');
    BackingRatio(D(w), N(w), D(w'), N(w'), Unit(w));
  }

  lemma BackingRatio(d: int, n: int, d': int, n': int, unit: int)
    requires d > 0 && n > 0 && unit > 0 && n <= d * unit && d * n' <= d' * n && d' > 0
    ensures n' <= d' * unit
  {
    MulMono(n, d * unit, d');
    assert d' * n == n * d';
    assert (d * unit) * d' == (d' * unit) * d;
    assert d * n' == n' * d;
    MulCancel(n', d' * unit, d);
  }

  // ---- any order ----

  datatype Exit = Exit(holder: Address, receiver: Address)

  /** Every exit in the list is accepted when they are made one after another. */
  predicate AllAccepted(w: World, exits: seq<Exit>)
    decreases |exits|
  {
    exits != [] ==>
      var tx := ExitTx(w, exits[0].holder, exits[0].receiver);
      Step(w, tx).Ok? && AllAccepted(Apply(w, tx), exits[1..])
  }

  function AfterExits(w: World, exits: seq<Exit>): World
    decreases |exits|
  {
    if exits == [] then w
    else AfterExits(Apply(w, ExitTx(w, exits[0].holder, exits[0].receiver)), exits[1..])
  }

  predicate DistinctHolders(exits: seq<Exit>) {
    forall i, j :: 0 <= i < j < |exits| ==> exits[i].holder != exits[j].holder
  }

  /** Any holders whose shares are worth at least one unit can all redeem their whole balances, in any
      order and to any receivers; nobody is left with a share and nobody else lost one. */
  lemma {:induction false} FullExit(w: World, exits: seq<Exit>)
    requires ReadyToExit(w) && DistinctHolders(exits)
    requires forall i :: 0 <= i < |exits| ==> External(w, exits[i].holder) && WorthAUnit(w, exits[i].holder)
    ensures AllAccepted(w, exits)
    ensures forall i :: 0 <= i < |exits| ==> SharesOf(AfterExits(w, exits), exits[i].holder) == 0
    ensures forall a :: (forall i :: 0 <= i < |exits| ==> exits[i].holder != a) ==>
              SharesOf(AfterExits(w, exits), a) == SharesOf(w, a)
    decreases |exits|
  {
    hide Step, RedeemShares;
    if exits != [] {
      var holder, receiver, rest := exits[0].holder, exits[0].receiver, exits[1..];
      var next := Apply(w, ExitTx(w, holder, receiver));
      forall a ensures && ReadyToExit(next) && Step(w, ExitTx(w, holder, receiver)).Ok?
                       && next.self == w.self && next.strategies == w.strategies && SharesOf(next, holder) == 0
                       && (a != holder ==> SharesOf(next, a) == SharesOf(w, a))
                       && (a != holder && WorthAUnit(w, a) ==> WorthAUnit(next, a))
      {
        ExitKeepsReady(w, holder, receiver, a);
      }
      FullExit(next, rest);
      assert forall i :: 0 <= i < |rest| ==> rest[i] == exits[i + 1];
      assert forall i :: 0 <= i < |rest| ==> rest[i].holder != holder;
    }
  }

  /** After any run from construction without recognised losses, once everything is local again, every
      list of distinct holders can leave in full. */
  lemma FullExitAfterLossFreeRun(start: World, txs: seq<Tx>, exits: seq<Exit>)
    requires Genesis(start) && LossFree(start, txs)
    requires var w := Run(start, txs);
             && !w.book.paused && AllReachable(w) && Local(w) == Nav(w) && I128(N(w)) && I128(D(w))
             && DistinctHolders(exits)
             && forall i :: 0 <= i < |exits| ==> External(w, exits[i].holder) && WorthAUnit(w, exits[i].holder)
    ensures AllAccepted(Run(start, txs), exits)
  {
    hide Step;
    BackedWithoutLosses(start, txs);
    FullExit(Run(start, txs), exits);
  }
}
