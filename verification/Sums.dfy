/** Finite sums over sequences and sets, with the one-point updates the ledgers need. */
module Sums {
  import opened Common

  function SumBy<A>(xs: seq<A>, f: A -> int): int {
    if xs == [] then 0 else SumBy(xs[..|xs| - 1], f) + f(xs[|xs| - 1])
  }

  lemma {:induction false} SumAgree<A>(xs: seq<A>, f: A -> int, g: A -> int)
    requires forall x :: x in xs ==> f(x) == g(x)
    ensures SumBy(xs, f) == SumBy(xs, g)
  {
    if xs != [] {
      SumAgree(xs[..|xs| - 1], f, g);
    }
  }

  /** Two weights that differ only at x change the sum over distinct elements by that difference. */
  lemma {:induction false} SumUpdate<A>(xs: seq<A>, f: A -> int, g: A -> int, x: A)
    requires Distinct(xs) && x in xs
    requires forall y :: y in xs && y != x ==> f(y) == g(y)
    ensures SumBy(xs, g) == SumBy(xs, f) + g(x) - f(x)
  {
    var init := xs[..|xs| - 1];
    if xs[|xs| - 1] == x {
      SumAgree(init, f, g);
    } else {
      SumUpdate(init, f, g, x);
    }
  }

  lemma {:induction false} SumRemove<A>(xs: seq<A>, i: nat, f: A -> int)
    requires i < |xs|
    ensures SumBy(xs[..i] + xs[i + 1..], f) == SumBy(xs, f) - f(xs[i])
  {
    var last := |xs| - 1;
    var rest := xs[..i] + xs[i + 1..];
    if i == last {
      assert rest == xs[..last];
    } else {
      SumRemove(xs[..last], i, f);
      assert rest[..|rest| - 1] == xs[..last][..i] + xs[..last][i + 1..];
      assert rest[|rest| - 1] == xs[last];
    }
  }

  lemma {:induction false} SumNonNegative<A>(xs: seq<A>, f: A -> int)
    requires forall x :: x in xs ==> 0 <= f(x)
    ensures 0 <= SumBy(xs, f)
    ensures forall x :: x in xs ==> f(x) <= SumBy(xs, f)
  {
    if xs != [] {
      SumNonNegative(xs[..|xs| - 1], f);
      assert xs == xs[..|xs| - 1] + [xs[|xs| - 1]];
    }
  }

  ghost function SumOver(s: set<Address>, f: Address -> int): int {
    if s == {} then 0 else var x :| x in s; f(x) + SumOver(s - {x}, f)
  }

  /** The sum does not depend on which element is taken out first. */
  lemma {:induction false} SumOverPick(s: set<Address>, f: Address -> int, y: Address)
    requires y in s
    ensures SumOver(s, f) == f(y) + SumOver(s - {y}, f)
  {
    var x :| x in s && SumOver(s, f) == f(x) + SumOver(s - {x}, f);
    if x != y {
      SumOverPick(s - {x}, f, y);
      SumOverPick(s - {y}, f, x);
      assert s - {x} - {y} == s - {y} - {x};
    }
  }

  lemma {:induction false} SumOverAgree(s: set<Address>, f: Address -> int, g: Address -> int)
    requires forall x :: x in s ==> f(x) == g(x)
    ensures SumOver(s, f) == SumOver(s, g)
  {
    if s != {} {
      var x :| x in s;
      SumOverAgree(s - {x}, f, g);
      SumOverPick(s, f, x);
      SumOverPick(s, g, x);
    }
  }

  lemma {:induction false} SumOverBounds(s: set<Address>, f: Address -> int)
    requires forall x :: x in s ==> 0 <= f(x)
    ensures 0 <= SumOver(s, f)
    ensures forall x :: x in s ==> f(x) <= SumOver(s, f)
  {
    forall x | x in s ensures 0 <= f(x) <= SumOver(s, f) {
      SumOverBounds(s - {x}, f);
      SumOverPick(s, f, x);
    }
  }

  lemma {:induction false} SumOverSubset(small: set<Address>, big: set<Address>, f: Address -> int)
    requires small <= big && forall x :: x in big ==> 0 <= f(x)
    ensures SumOver(small, f) <= SumOver(big, f)
  {
    if small == {} {
      SumOverBounds(big, f);
    } else {
      var x :| x in small;
      SumOverSubset(small - {x}, big - {x}, f);
      SumOverPick(small, f, x);
      SumOverPick(big, f, x);
    }
  }

  /** Terms that vanish outside a set do not contribute. */
  lemma {:induction false} SumOverSupport(small: set<Address>, big: set<Address>, f: Address -> int)
    requires small <= big && forall x :: x in big - small ==> f(x) == 0
    ensures SumOver(small, f) == SumOver(big, f)
  {
    if small != big {
      var x :| x in big && x !in small;
      SumOverSupport(small, big - {x}, f);
      SumOverPick(big, f, x);
    }
  }
}
