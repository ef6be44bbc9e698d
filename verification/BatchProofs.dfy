/** A batch of wallet updates against its one-by-one meaning, and its independence of order. */
module BatchProofs {
  import opened Common
  import opened Sums
  import opened Accounting
  import opened AccountingProofs
  import opened NavAccounting

  // ---- one by one ----

  /** A single-wallet move's effect: tracker to the target, aggregate by the same difference. */
  function SingleMove(b: Book, sub: Address, newTracked: int): Book {
    b.(deployed := b.deployed + newTracked - Tracker(b, sub), trackers := b.trackers[sub := newTracked])
  }

  function SingleMoves(b: Book, updates: seq<(Address, int)>): Book {
    if updates == [] then b
    else
      var (sub, newTracked) := updates[|updates| - 1];
      SingleMove(SingleMoves(b, updates[..|updates| - 1]), sub, newTracked)
  }

  /** update_wallet_deployed with pause and limits off: its guards and overflow checks, then the move. */
  function UnlimitedUpdate(b: Book, sub: Address, newTracked: int): Result<Book> {
    if newTracked < 0 then Err(InvalidAmount) else
    var _ :- RequireWallet(b, sub);
    var delta :- Checked(newTracked - Tracker(b, sub));
    var total :- Checked(b.deployed + delta);
    if total < 0 then Err(DeployedAssetsUnderflow) else
    Ok(SingleMove(b, sub, newTracked))
  }

  /** update_wallet_deployed is accepted exactly when the operator signed, the unlimited update is, and
      the aggregate may move that far; and it then ends in the single move, window and log aside. */
  lemma UpdateIsLimitedMove(b: Book, c: Context, operator: Address, sub: Address, newTracked: int)
    ensures DoUpdateWalletDeployed(b, c, operator, sub, newTracked).Ok? <==>
              && RequireOperator(b, c.auth, operator).Ok?
              && UnlimitedUpdate(b, sub, newTracked).Ok?
              && ApplyChange(b, c, operator, UnlimitedUpdate(b, sub, newTracked).value.deployed).Ok?
    ensures DoUpdateWalletDeployed(b, c, operator, sub, newTracked).Ok? ==>
              DoUpdateWalletDeployed(b, c, operator, sub, newTracked).value.(window := b.window, log := b.log)
              == SingleMove(b, sub, newTracked)
  {
    hide ApplyChange;
    var next := b.deployed + newTracked - Tracker(b, sub);
    if ApplyChange(b, c, operator, next).Ok? {
      ApplyChangeKeeps(b, c, operator, next);
    }
  }

  /** Unlimited updates one after another; the first trap ends the series. */
  function OneByOne(b: Book, updates: seq<(Address, int)>): Result<Book> {
    if updates == [] then Ok(b)
    else
      var (sub, newTracked) := updates[|updates| - 1];
      var moved :- OneByOne(b, updates[..|updates| - 1]);
      UnlimitedUpdate(moved, sub, newTracked)
  }

  /** The aggregate stays in range after every move. */
  predicate InRange(b: Book, updates: seq<(Address, int)>) {
    updates != [] ==>
      InRange(b, updates[..|updates| - 1]) && SingleMoves(b, updates).deployed <= I128_MAX
  }

  /** No single move of an accepted first pass takes an aggregate that covers the trackers below zero. */
  lemma SinglesNeverUnderflow(b: Book, updates: seq<(Address, int)>)
    requires BookValid(b) && Gap(b) >= 0 && DistinctTargets(updates) && NetDelta(b, updates).Ok?
    ensures SingleMoves(b, updates).deployed >= 0
  {
    SinglesAgree(b, updates);
    NetDeltaIsTargetSum(b, updates);
    BatchTrackerSum(b, updates);
    var written := b.(trackers := Overwrite(b.trackers, updates));
    SumNonNegative(written.subs, a => Attributed(written, a));
  }

  /** With an aggregate that covers the trackers, the entries of an accepted first pass are accepted one by
      one with the limits off exactly as long as the aggregate fits, and no underflow can come between. */
  lemma {:induction false} OneByOneAccepted(b: Book, updates: seq<(Address, int)>)
    requires BookValid(b) && Gap(b) >= 0 && DistinctTargets(updates) && NetDelta(b, updates).Ok?
    ensures OneByOne(b, updates) == if InRange(b, updates) then Ok(SingleMoves(b, updates)) else Err(MathOverflow)
  {
    if updates != [] {
      var init := updates[..|updates| - 1];
      assert forall i :: 0 <= i < |init| ==> init[i] == updates[i];
      OneByOneAccepted(b, init);
      SinglesAgree(b, init);
      SinglesNeverUnderflow(b, updates);
      NetDeltaEntries(b, updates);
      assert EntryValid(b, updates[|updates| - 1]);
    }
  }

  /** Later moves read live trackers, the batch reads stored ones: with distinct targets they agree. */
  lemma {:induction false} SinglesAgree(b: Book, updates: seq<(Address, int)>)
    requires DistinctTargets(updates)
    ensures var m := SingleMoves(b, updates);
            && m == b.(deployed := b.deployed + TargetSum(b, updates), trackers := Overwrite(b.trackers, updates))
            && (forall a :: (forall i :: 0 <= i < |updates| ==> updates[i].0 != a) ==> Tracker(m, a) == Tracker(b, a))
  {
    if updates != [] {
      var init := updates[..|updates| - 1];
      var (sub, newTracked) := updates[|updates| - 1];
      SinglesAgree(b, init);
      assert forall i :: 0 <= i < |init| ==> init[i] == updates[i];
      var m := SingleMoves(b, updates);
      forall a | forall i :: 0 <= i < |updates| ==> updates[i].0 != a ensures Tracker(m, a) == Tracker(b, a) {
        assert updates[|updates| - 1].0 != a;
      }
    }
  }

  /** The accepted batch ends in the trackers and the aggregate of the single moves, whatever the limits;
      and when the aggregate covers the trackers and fits throughout, so does the series of single updates. */
  lemma BatchRefinesSingles(b: Book, c: Context, operator: Address, updates: seq<(Address, int)>)
    requires DoUpdateWalletDeployedBatch(b, c, operator, updates).Ok?
    ensures var b' := DoUpdateWalletDeployedBatch(b, c, operator, updates).value;
            && b'.(window := b.window, log := b.log) == SingleMoves(b, updates)
            && (BookValid(b) && Gap(b) >= 0 && InRange(b, updates) ==>
                  OneByOne(b, updates) == Ok(b'.(window := b.window, log := b.log)))
  {
    hide ApplyChange, InRange, OneByOne;
    SinglesAgree(b, updates);
    NetDeltaIsTargetSum(b, updates);
    ApplyChangeKeeps(b, c, operator, b.deployed + NetDelta(b, updates).value);
    if BookValid(b) && Gap(b) >= 0 {
      OneByOneAccepted(b, updates);
    }
  }

  // ---- order does not matter ----

  ghost predicate Permutation(u: seq<(Address, int)>, v: seq<(Address, int)>) {
    multiset(u) == multiset(v)
  }

  function Except<T>(xs: seq<T>, i: nat): seq<T>
    requires i < |xs|
  {
    xs[..i] + xs[i + 1..]
  }

  /** Removing equal elements from permuted sequences leaves permuted sequences. */
  lemma RemovedAgree<T>(xs: seq<T>, i: nat, ys: seq<T>, j: nat)
    requires i < |xs| && j < |ys| && xs[i] == ys[j] && multiset(xs) == multiset(ys)
    ensures multiset(Except(xs, i)) == multiset(Except(ys, j))
  {
    assert xs == xs[..i] + [xs[i]] + xs[i + 1..];
    assert ys == ys[..j] + [ys[j]] + ys[j + 1..];
    assert multiset(Except(xs, i)) == multiset(xs) - multiset{xs[i]};
    assert multiset(Except(ys, j)) == multiset(ys) - multiset{ys[j]};
  }

  /** Sums over permuted sequences agree. */
  lemma {:induction false} SumPermuted<A>(xs: seq<A>, ys: seq<A>, f: A -> int)
    requires multiset(xs) == multiset(ys)
    ensures SumBy(xs, f) == SumBy(ys, f)
  {
    if xs == [] {
      assert |ys| == |multiset(ys)| == |multiset(xs)| == 0;
    } else {
      var last := xs[|xs| - 1];
      assert last in multiset(ys);
      var i :| 0 <= i < |ys| && ys[i] == last;
      RemovedAgree(xs, |xs| - 1, ys, i);
      assert Except(xs, |xs| - 1) == xs[..|xs| - 1];
      SumPermuted(xs[..|xs| - 1], Except(ys, i), f);
      SumRemove(ys, i, f);
    }
  }

  /** With distinct targets the overwritten map is determined by the set of entries. */
  lemma {:induction false} OverwriteLookup(trackers: map<Address, int>, u: seq<(Address, int)>)
    requires DistinctTargets(u)
    ensures forall i :: 0 <= i < |u| ==> u[i].0 in Overwrite(trackers, u) && Overwrite(trackers, u)[u[i].0] == u[i].1
    ensures forall a :: (forall i :: 0 <= i < |u| ==> u[i].0 != a) ==>
              && (a in Overwrite(trackers, u) <==> a in trackers)
              && (a in trackers ==> Overwrite(trackers, u)[a] == trackers[a])
  {
    if u != [] {
      var init := u[..|u| - 1];
      OverwriteLookup(trackers, init);
      assert forall i :: 0 <= i < |init| ==> init[i] == u[i];
      forall a | forall i :: 0 <= i < |u| ==> u[i].0 != a
        ensures && (a in Overwrite(trackers, u) <==> a in trackers)
                && (a in trackers ==> Overwrite(trackers, u)[a] == trackers[a])
      {
        assert u[|u| - 1].0 != a;
      }
    }
  }

  lemma EntryMoves(u: seq<(Address, int)>, v: seq<(Address, int)>, i: nat) returns (j: nat)
    requires Permutation(u, v) && i < |u|
    ensures j < |v| && v[j] == u[i]
  {
    assert u[i] in multiset(v);
    j :| 0 <= j < |v| && v[j] == u[i];
  }

  lemma OverwritePermuted(trackers: map<Address, int>, u: seq<(Address, int)>, v: seq<(Address, int)>)
    requires Permutation(u, v) && DistinctTargets(u) && DistinctTargets(v)
    ensures Overwrite(trackers, u) == Overwrite(trackers, v)
  {
    OverwriteLookup(trackers, u);
    OverwriteLookup(trackers, v);
    var m, n := Overwrite(trackers, u), Overwrite(trackers, v);
    forall a ensures (a in m <==> a in n) && (a in m ==> m[a] == n[a]) {
      if i :| 0 <= i < |u| && u[i].0 == a {
        var j := EntryMoves(u, v, i);
      } else {
        forall j | 0 <= j < |v| ensures v[j].0 != a {
          var i := EntryMoves(v, u, j);
        }
      }
    }
  }

  /** Two places of a sequence have two different counterparts in a permutation of it. */
  lemma TwoPlaces(v: seq<(Address, int)>, u: seq<(Address, int)>, i: nat, j: nat) returns (k: nat, l: nat)
    requires Permutation(v, u) && i < j < |v|
    ensures k < |u| && l < |u| && k != l && u[k] == v[i] && u[l] == v[j]
  {
    k := EntryMoves(v, u, i);
    RemovedAgree(v, i, u, k);
    assert Except(v, i)[j - 1] == v[j];
    var m := EntryMoves(Except(v, i), Except(u, k), j - 1);
    l := if m < k then m else m + 1;
  }

  /** Distinctness of targets survives permutation. */
  lemma DistinctPermuted(u: seq<(Address, int)>, v: seq<(Address, int)>)
    requires Permutation(u, v) && DistinctTargets(u)
    ensures DistinctTargets(v)
  {
    forall i, j | 0 <= i < j < |v| ensures v[i].0 != v[j].0 {
      var k, l := TwoPlaces(v, u, i, j);
    }
  }

  /** What the first pass checks of one entry on its own. */
  predicate EntryValid(b: Book, u: (Address, int)) {
    && u.1 >= 0 && RequireWallet(b, u.0).Ok? && I128(u.1 - Tracker(b, u.0))
    && !(b.paused && u.1 > Tracker(b, u.0))
  }

  lemma {:induction false} NetDeltaEntries(b: Book, u: seq<(Address, int)>)
    ensures NetDelta(b, u).Ok? ==> forall i :: 0 <= i < |u| ==> EntryValid(b, u[i])
    ensures (forall i :: 0 <= i < |u| ==> EntryValid(b, u[i])) ==>
            NetDelta(b, u).Ok? || NetDelta(b, u) == Err(MathOverflow)
  {
    if u != [] {
      var init := u[..|u| - 1];
      NetDeltaEntries(b, init);
      assert forall i :: 0 <= i < |init| ==> init[i] == u[i];
      if NetDelta(b, u).Ok? {
        assert EntryValid(b, u[|u| - 1]);
      }
    }
  }

  /** If a batch is accepted, so is every permutation of it whose running sum does not overflow, and it
      ends in the same trackers, aggregate and window. */
  lemma BatchOrderIrrelevant(b: Book, c: Context, operator: Address, u: seq<(Address, int)>, v: seq<(Address, int)>)
    requires Permutation(u, v) && DoUpdateWalletDeployedBatch(b, c, operator, u).Ok?
    requires NetDelta(b, v) != Err(MathOverflow)
    ensures DoUpdateWalletDeployedBatch(b, c, operator, v).Ok?
    ensures var bu := DoUpdateWalletDeployedBatch(b, c, operator, u).value;
            var bv := DoUpdateWalletDeployedBatch(b, c, operator, v).value;
            bv == bu.(log := bv.log)
  {
    DistinctPermuted(u, v);
    NetDeltaEntries(b, u);
    forall j | 0 <= j < |v| ensures EntryValid(b, v[j]) {
      var i := EntryMoves(v, u, j);
    }
    NetDeltaEntries(b, v);
    NetDeltaIsTargetSum(b, u);
    NetDeltaIsTargetSum(b, v);
    SumPermuted(u, v, (x: (Address, int)) => x.1 - Tracker(b, x.0));
    OverwritePermuted(b.trackers, u, v);
    assert |u| == |multiset(u)| == |multiset(v)| == |v|;
  }

  /** A batch accepted while paused raises no tracker, even where its net delta is zero. */
  lemma PausedBatchRaisesNothing(b: Book, c: Context, operator: Address, u: seq<(Address, int)>, a: Address)
    requires b.paused && DoUpdateWalletDeployedBatch(b, c, operator, u).Ok?
    ensures var b' := DoUpdateWalletDeployedBatch(b, c, operator, u).value;
            b'.paused && b'.deployed <= b.deployed && b'.subs == b.subs && Tracker(b', a) <= Tracker(b, a)
  {
    NetDeltaEntries(b, u);
    OverwriteLookup(b.trackers, u);
    if i :| 0 <= i < |u| && u[i].0 == a {
      assert EntryValid(b, u[i]);
    }
  }
}
