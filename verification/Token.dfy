/** The SEP-41 asset as a balance map with exact transfers; the share ledger has the same shape. */
module Token {
  import opened Common
  import opened Sums

  type Ledger = map<Address, int>

  function Balance(l: Ledger, a: Address): int {
    if a in l then l[a] else 0
  }

  function Credit(l: Ledger, a: Address, amount: int): Ledger {
    l[a := Balance(l, a) + amount]
  }

  function Transfer(l: Ledger, from: Address, to: Address, amount: int): Result<Ledger> {
    var _ :- Need(amount >= 0, TokenNegativeAmount);
    var _ :- Need(amount <= Balance(l, from), TokenInsufficientBalance);
    Ok(Credit(Credit(l, from, -amount), to, amount))
  }

  ghost predicate NonNegative(l: Ledger) {
    forall a :: a in l ==> l[a] >= 0
  }

  ghost function Total(l: Ledger): int {
    SumOver(l.Keys, a => Balance(l, a))
  }

  lemma CreditTotal(l: Ledger, a: Address, amount: int)
    ensures Total(Credit(l, a, amount)) == Total(l) + amount
  {
    var f := x => Balance(l, x);
    var m := Credit(l, a, amount);
    var g := x => Balance(m, x);
    var others := l.Keys - {a};
    SumOverAgree(others, f, g);
    assert m.Keys - {a} == others;
    SumOverPick(m.Keys, g, a);
    if a in l {
      SumOverPick(l.Keys, f, a);
    } else {
      assert others == l.Keys;
    }
  }

  /** Exact transfers: what leaves one balance reaches the other, nothing else moves, none is created. */
  lemma TransferExact(l: Ledger, from: Address, to: Address, amount: int)
    requires Transfer(l, from, to, amount).Ok?
    ensures var m := Transfer(l, from, to, amount).value;
            && Total(m) == Total(l)
            && (NonNegative(l) ==> NonNegative(m))
            && (forall a :: a != from && a != to ==> Balance(m, a) == Balance(l, a))
            && (from != to ==> Balance(m, from) == Balance(l, from) - amount)
            && (from != to ==> Balance(m, to) == Balance(l, to) + amount)
            && (from == to ==> Balance(m, from) == Balance(l, from))
  {
    CreditTotal(l, from, -amount);
    CreditTotal(Credit(l, from, -amount), to, amount);
  }

  lemma BalanceWithinTotal(l: Ledger, a: Address)
    requires NonNegative(l)
    ensures 0 <= Balance(l, a) <= Total(l)
  {
    SumOverBounds(l.Keys, x => Balance(l, x));
  }

  /** What a group of addresses holds together. */
  ghost function HeldBy(l: Ledger, group: set<Address>): int {
    SumOver(group, a => Balance(l, a))
  }

  lemma HeldByCredit(l: Ledger, group: set<Address>, a: Address, amount: int)
    ensures HeldBy(Credit(l, a, amount), group) == HeldBy(l, group) + (if a in group then amount else 0)
  {
    var f := x => Balance(l, x);
    var g := x => Balance(Credit(l, a, amount), x);
    if a in group {
      SumOverPick(group, f, a);
      SumOverPick(group, g, a);
      SumOverAgree(group - {a}, f, g);
    } else {
      SumOverAgree(group, f, g);
    }
  }

  lemma HeldByBounds(l: Ledger, group: set<Address>)
    requires NonNegative(l)
    ensures 0 <= HeldBy(l, group) <= Total(l)
  {
    var f := x => Balance(l, x);
    SumOverBounds(group, f);
    SumOverSubset(group, group + l.Keys, f);
    SumOverSupport(l.Keys, group + l.Keys, f);
  }
}
