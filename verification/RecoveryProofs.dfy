/** Recovery from broken strategies: the admin removes them and total_assets answers again. */
module RecoveryProofs {
  import opened Common
  import opened Sums
  import opened Token
  import opened Accounting
  import opened AccountingProofs
  import opened System
  import opened Effects
  import opened NavAccounting
  import opened ShareProofs

  predicate Broken(w: World, a: Address) {
    Kind(w.book, a) == Strategy && a in w.strategies && !w.strategies[a].reachable
  }

  /** The broken strategies of a list, in its order. */
  function BrokenOf(w: World, subs: seq<Address>): seq<Address> {
    if subs == [] then []
    else
      var rest := BrokenOf(w, subs[..|subs| - 1]);
      if Broken(w, subs[|subs| - 1]) then rest + [subs[|subs| - 1]] else rest
  }

  lemma {:induction false} BrokenOfExactly(w: World, subs: seq<Address>)
    requires Distinct(subs)
    ensures Distinct(BrokenOf(w, subs))
    ensures forall a :: a in BrokenOf(w, subs) <==> a in subs && Broken(w, a)
  {
    if subs != [] {
      var init, last := subs[..|subs| - 1], subs[|subs| - 1];
      BrokenOfExactly(w, init);
      assert subs == init + [last];
      assert last !in init;
    }
  }

  function RemovalTx(admin: Address, sub: Address): Tx {
    Tx(Signers({admin}, {}), Management(RemoveSubaccount(admin, sub)))
  }

  function Removals(admin: Address, subs: seq<Address>): seq<Tx> {
    seq(|subs|, i requires 0 <= i < |subs| => RemovalTx(admin, subs[i]))
  }

  /** Every transaction of the list is accepted when they are made one after another. */
  predicate EachAccepted(w: World, txs: seq<Tx>)
    decreases |txs|
  {
    txs != [] ==> Step(w, txs[0]).Ok? && EachAccepted(Apply(w, txs[0]), txs[1..])
  }

  /** What a list of removals leaves: the whitelist without the list, everything else as it was. */
  ghost predicate Recovered(w: World, w': World, gone: seq<Address>) {
    && w' == w.(book := w'.book) && Valid(w')
    && (forall a :: a in w'.book.subs <==> a in w.book.subs && a !in gone)
    && (forall a :: a !in gone ==> Kind(w'.book, a) == Kind(w.book, a))
    && w'.book.admin == w.book.admin && w'.book.deployed == w.book.deployed
    && Nav(w') == Nav(w) - SumBy(gone, a => Position(w, a))
  }

  /** Removing a strategy needs nothing but the admin: no answer from the strategy, no pause state. */
  lemma RemovalAccepted(w: World, sub: Address)
    requires Valid(w) && External(w, w.book.admin) && sub in w.book.subs && Kind(w.book, sub) == Strategy
    ensures Step(w, RemovalTx(w.book.admin, sub)) == Ok(w.(book := Remove(w.book, sub).value))
  {
    assert Tracker(w.book, sub) == 0;
  }

  lemma RemovalRecovers(w: World, w': World, sub: Address)
    requires Valid(w) && Valid(w') && BookValid(w.book) && Distinct(w.book.subs)
    requires sub in w.book.subs && sub in w.strategies
    requires Kind(w.book, sub) == Strategy && w' == w.(book := Remove(w.book, sub).value)
    ensures Recovered(w, w', [sub])
  {
    hide Valid, Without, IndexOf, BookValid;
    WithoutProperties(w.book.subs, sub);
    RemovalPositions(w, w', sub);
    SumOne(sub, a => Position(w, a));
  }

  lemma SumOne(a: Address, f: Address -> int)
    ensures SumBy([a], f) == f(a)
  {
    assert [a][..0] == [];
    assert SumBy([a][..0], f) == 0;
  }

  lemma SumFirst(xs: seq<Address>, f: Address -> int)
    requires xs != []
    ensures SumBy(xs, f) == f(xs[0]) + SumBy(xs[1..], f)
  {
    SumRemove(xs, 0, f);
    assert xs[..0] + xs[1..] == xs[1..];
  }

  /** First one strategy, then the others. */
  lemma RecoveredThen(w: World, mid: World, w': World, gone: seq<Address>)
    requires gone != [] && Distinct(gone)
    requires Recovered(w, mid, [gone[0]]) && Recovered(mid, w', gone[1..])
    ensures Recovered(w, w', gone)
  {
    hide Valid, Nav;
    var f, g := a => Position(w, a), a => Position(mid, a);
    assert gone == [gone[0]] + gone[1..];
    assert gone[0] !in gone[1..];
    forall a | a in gone[1..] ensures f(a) == g(a) {
      assert a !in [gone[0]];
    }
    SumAgree(gone[1..], f, g);
    SumFirst(gone, f);
    SumOne(gone[0], f);
  }

  /** The list of removals is accepted whole and leaves exactly the rest. */
  lemma {:induction false} RemovalsRecover(w: World, gone: seq<Address>)
    requires Valid(w) && External(w, w.book.admin) && Distinct(gone)
    requires forall a :: a in gone ==> a in w.book.subs && Kind(w.book, a) == Strategy
    ensures EachAccepted(w, Removals(w.book.admin, gone))
    ensures Recovered(w, Run(w, Removals(w.book.admin, gone)), gone)
    decreases |gone|
  {
    hide Step, Valid, Position, Nav, Remove;
    if gone == [] {
      assert SumBy(gone, a => Position(w, a)) == 0;
    } else {
      var admin, sub, rest := w.book.admin, gone[0], gone[1..];
      var next := Apply(w, RemovalTx(admin, sub));
      assert gone == [sub] + rest;
      assert sub !in rest;
      RemovalAccepted(w, sub);
      ApplyValid(w, RemovalTx(admin, sub));
      ListedInSystem(w, sub);
      RemovalRecovers(w, next, sub);
      assert forall a :: a in rest ==> a !in [sub];
      RemovalsRecover(next, rest);
      assert Removals(admin, gone)[1..] == Removals(admin, rest);
      RecoveredThen(w, next, Run(w, Removals(admin, gone)), gone);
    }
  }

  lemma ListedInSystem(w: World, sub: Address)
    requires Valid(w) && sub in w.book.subs && Kind(w.book, sub) == Strategy
    ensures sub in w.strategies && BookValid(w.book) && Distinct(w.book.subs)
  {
  }

  /** From every valid state whose admin can sign, removing the unreachable strategies is accepted whole;
      then every listed strategy answers, and total_assets reports the old value less what the removed
      ones held, exactly when that is in range. */
  lemma AdminRestoresTotalAssets(w: World)
    requires Valid(w) && External(w, w.book.admin)
    ensures var gone := BrokenOf(w, w.book.subs);
            var w' := Run(w, Removals(w.book.admin, gone));
            var left := Nav(w) - SumBy(gone, a => Position(w, a));
            && EachAccepted(w, Removals(w.book.admin, gone))
            && (forall a :: a in w'.book.subs <==> a in w.book.subs && !Broken(w, a))
            && AllReachable(w') && 0 <= left <= Nav(w)
            && (TotalAssets(w').Ok? <==> left <= I128_MAX)
            && (TotalAssets(w').Ok? ==> TotalAssets(w').value == left)
  {
    hide Step, TotalAssets, Nav, Run;
    var gone := BrokenOf(w, w.book.subs);
    BrokenOfExactly(w, w.book.subs);
    RemovalsRecover(w, gone);
    PositionsNonNegative(w, gone);
    var w' := Run(w, Removals(w.book.admin, gone));
    assert forall a :: a in w'.book.subs && Kind(w'.book, a) == Strategy ==> a !in gone && !Broken(w, a);
    TotalAssetsExact(w');
  }

  lemma PositionsNonNegative(w: World, subs: seq<Address>)
    requires Valid(w)
    ensures 0 <= SumBy(subs, a => Position(w, a))
  {
    SumNonNegative(subs, a => Position(w, a));
  }

  // ---- the diagnosis ----

  lemma {:induction false} QueryDiagnoses(w: World, n: nat)
    requires Valid(w) && n <= |w.book.subs| && Positions(w) <= I128_MAX
    ensures QueryStrategies(w, n).Err? ==> QueryStrategies(w, n) == Err(StrategyUnreachable)
  {
    if n > 0 {
      QueryDiagnoses(w, n - 1);
      QueryExact(w, n - 1);
      QueryExact(w, n);
      PrefixBelow(w, n);
      var sub := w.book.subs[n - 1];
      if Kind(w.book, sub) == Strategy {
        StrategyBalanceExact(w, sub);
      }
    }
  }

  lemma PrefixBelow(w: World, n: nat)
    requires Valid(w) && n <= |w.book.subs|
    ensures SumBy(w.book.subs[..n], a => Position(w, a)) <= Positions(w)
    decreases |w.book.subs| - n
  {
    if n == |w.book.subs| {
      assert w.book.subs[..n] == w.book.subs;
    } else {
      PrefixBelow(w, n + 1);
      assert w.book.subs[..n + 1][..n] == w.book.subs[..n];
    }
  }

  /** While a listed strategy cannot be reached and nothing overflows, total_assets traps, and always with
      the one code that says so. */
  lemma UnreachableIsDiagnosed(w: World)
    requires Valid(w) && !AllReachable(w) && Nav(w) <= I128_MAX
    ensures TotalAssets(w) == Err(StrategyUnreachable)
  {
    TotalAssetsExact(w);
    QueryExact(w, |w.book.subs|);
    assert w.book.subs[..|w.book.subs|] == w.book.subs;
    LocalNonNegative(w);
    QueryDiagnoses(w, |w.book.subs|);
  }

  lemma LocalNonNegative(w: World)
    requires Valid(w)
    ensures 0 <= Local(w) && 0 <= w.book.deployed
  {
    BalanceWithinTotal(w.token, w.self);
  }
}
