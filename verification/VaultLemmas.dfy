/** Facts the vault's loops need: what a prefix of the list has established so far. */
module VaultLemmas {
  import opened Common
  import opened Sums
  import opened Accounting
  import opened AccountingProofs
  import opened System
  import BatchProofs

  lemma {:induction false} FirstIsIndexOf(subs: seq<Address>, sub: Address, i: nat)
    requires i < |subs| && subs[i] == sub && sub !in subs[..i]
    ensures IndexOf(subs, sub) == i
  {
    if i > 0 {
      assert subs[..i][0] == subs[0];
      assert subs[1..][..i - 1] == subs[..i][1..];
      FirstIsIndexOf(subs[1..], sub, i - 1);
    }
  }

  /** A prefix that fails fixes how the whole batch fails; one that passes exposes its next entry. */
  lemma {:induction false} NetDeltaPrefix(b: Book, updates: seq<(Address, int)>, i: nat)
    requires i < |updates|
    ensures updates[..i + 1][..i] == updates[..i]
    ensures NetDelta(b, updates[..i + 1]).Err? ==> NetDelta(b, updates) == NetDelta(b, updates[..i + 1])
    decreases |updates| - i
  {
    if i + 1 == |updates| {
      assert updates[..i + 1] == updates;
    } else {
      NetDeltaPrefix(b, updates, i + 1);
      assert updates[..i + 2][..i + 1] == updates[..i + 1];
    }
  }

  /** In the second pass the live tracker of a distinct target is still the stored one. */
  lemma CommitStep(stored: Book, updates: seq<(Address, int)>, i: nat)
    requires i < |updates| && DistinctTargets(updates) && NetDelta(stored, updates).Ok?
    ensures var (sub, newTracked) := updates[i];
            var live := Overwrite(stored.trackers, updates[..i]);
            && Overwrite(stored.trackers, updates[..i + 1]) == live[sub := newTracked]
            && Tracker(stored.(trackers := live), sub) == Tracker(stored, sub)
            && newTracked >= 0 && I128(newTracked - Tracker(stored, sub))
  {
    assert updates[..i + 1][..i] == updates[..i];
    BatchProofs.OverwriteLookup(stored.trackers, updates[..i]);
    BatchProofs.NetDeltaEntries(stored, updates);
    hide NetDelta;
    assert BatchProofs.EntryValid(stored, updates[i]);
  }

  /** The off-chain monitoring view: trackers of the first n whitelisted wallets, added with overflow checks. */
  function TrackedTotal(b: Book, n: nat): Result<int>
    requires n <= |b.subs|
  {
    if n == 0 then Ok(0)
    else
      var acc :- TrackedTotal(b, n - 1);
      if Kind(b, b.subs[n - 1]) == Wallet then Checked(acc + Tracker(b, b.subs[n - 1])) else Ok(acc)
  }

  lemma {:induction false} TrackedTotalFails(b: Book, n: nat, m: nat)
    requires n <= m <= |b.subs|
    ensures TrackedTotal(b, n).Err? ==> TrackedTotal(b, m) == TrackedTotal(b, n)
    decreases m - n
  {
    if n < m {
      TrackedTotalFails(b, n, m - 1);
    }
  }

  /** The view is the tracker sum whenever it answers. */
  lemma {:induction false} TrackedTotalIsSum(b: Book, n: nat)
    requires n <= |b.subs| && TrackedTotal(b, n).Ok?
    ensures TrackedTotal(b, n).value == SumBy(b.subs[..n], a => Attributed(b, a))
  {
    if n > 0 {
      TrackedTotalIsSum(b, n - 1);
      assert b.subs[..n][..n - 1] == b.subs[..n - 1];
    }
  }

  /** A strategy that fails early decides how the whole query fails. */
  lemma {:induction false} QueryFails(w: World, n: nat, m: nat)
    requires n <= m <= |w.book.subs|
    ensures QueryStrategies(w, n).Err? ==> QueryStrategies(w, m) == QueryStrategies(w, n)
    decreases m - n
  {
    if n < m {
      QueryFails(w, n, m - 1);
    }
  }

  /** On valid books it answers exactly when the sum fits. */
  lemma {:induction false} TrackedTotalExactly(b: Book, n: nat)
    requires BookValid(b) && n <= |b.subs|
    ensures 0 <= SumBy(b.subs[..n], a => Attributed(b, a))
    ensures TrackedTotal(b, n).Ok? <==> SumBy(b.subs[..n], a => Attributed(b, a)) <= I128_MAX
  {
    if n > 0 {
      TrackedTotalExactly(b, n - 1);
      if TrackedTotal(b, n - 1).Ok? {
        TrackedTotalIsSum(b, n - 1);
      }
      assert b.subs[..n][..n - 1] == b.subs[..n - 1];
    }
  }
}
