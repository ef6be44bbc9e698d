/** Cross-contract neutrality: moving capital between vault, strategies and protocols is not profit or loss. */
module NeutralityProofs {
  import opened Common
  import opened Accounting
  import opened StrategyModel
  import opened System
  import opened Effects
  import opened NavAccounting
  import opened ShareProofs
  import opened Traces
  import opened StrategyProofs

  /** Capital moves: to and from a subaccount of either kind, and from a strategy to a protocol. */
  predicate MovesCapital(call: Call) {
    || call.ToSubaccount?
    || call.FromSubaccount?
    || (call.Controller? && (call.call.DeployToProtocol? || call.call.RecoverDonation?))
  }

  lemma CapitalMoveKeepsWhitelist(w: World, tx: Tx)
    requires Valid(w) && Step(w, tx).Ok? && MovesCapital(tx.call)
    ensures var w' := Step(w, tx).value; w'.book.subs == w.book.subs && w'.book.kinds == w.book.kinds
  {
    hide Step, NoteDeposit, NoteWithdrawal;
    StepBook(w, tx);
    match tx.call
    case ToSubaccount(_, sub, amount) => NoteDepositShape(w.book, sub, amount, amount);
    case FromSubaccount(_, sub, amount) => NoteWithdrawalShape(w.book, sub, amount, Received(w, sub, amount));
    case _ =>
  }

  lemma CapitalMoveKeepsReach(w: World, tx: Tx)
    requires Valid(w) && Step(w, tx).Ok? && MovesCapital(tx.call)
    ensures AllReachable(Step(w, tx).value) <==> AllReachable(w)
  {
    hide Step;
    CapitalMoveKeepsWhitelist(w, tx);
    forall a | a in w.book.subs && Kind(w.book, a) == Strategy
      ensures a in Step(w, tx).value.strategies
      ensures Step(w, tx).value.strategies[a].reachable == w.strategies[a].reachable
    {
      StepStrategy(w, tx, a);
    }
  }

  /** total_assets reports the same before and after every accepted capital move. */
  lemma CapitalMovesNeutral(w: World, tx: Tx)
    requires Valid(w) && Step(w, tx).Ok? && MovesCapital(tx.call) && TotalAssets(w).Ok?
    ensures TotalAssets(Step(w, tx).value) == TotalAssets(w)
  {
    hide Step, TotalAssets;
    StepEffect(w, tx);
    CapitalMoveKeepsReach(w, tx);
    TotalAssetsExact(w);
    TotalAssetsExact(Step(w, tx).value);
  }

  function RecallTx(s: Signers, a: Address, controller: Address, protocol: Address, amount: int): Tx {
    Tx(s, Call.Controller(a, controller, RecallFromProtocol(protocol, amount)))
  }

  /** What a recall returned beyond the tracked deployment. */
  function Yield(w: World, a: Address, amount: int): int
    requires a in w.strategies
  {
    if amount > w.strategies[a].deployed then amount - w.strategies[a].deployed else 0
  }

  lemma RecallKeepsReach(w: World, s: Signers, a: Address, controller: Address, protocol: Address, amount: int)
    requires Valid(w) && Step(w, RecallTx(s, a, controller, protocol, amount)).Ok?
    ensures AllReachable(Step(w, RecallTx(s, a, controller, protocol, amount)).value) <==> AllReachable(w)
  {
    hide Step;
    var tx := RecallTx(s, a, controller, protocol, amount);
    StepBook(w, tx);
    forall b | b in w.book.subs && Kind(w.book, b) == Strategy
      ensures b in Step(w, tx).value.strategies
      ensures Step(w, tx).value.strategies[b].reachable == w.strategies[b].reachable
    {
      StepStrategy(w, tx, b);
    }
  }

  /** A recall raises total_assets by exactly what it returned beyond the tracked deployment, and the total
      stays readable as long as it stays in range. */
  lemma RecallRecognisesYield(w: World, s: Signers, a: Address, controller: Address, protocol: Address, amount: int)
    requires Valid(w) && a in w.book.subs && Kind(w.book, a) == Strategy
    requires Step(w, RecallTx(s, a, controller, protocol, amount)).Ok?
    ensures var w' := Step(w, RecallTx(s, a, controller, protocol, amount)).value;
            && a in w.strategies && Nav(w') == Nav(w) + Yield(w, a, amount)
            && (TotalAssets(w).Ok? ==>
                  && (TotalAssets(w').Ok? <==> TotalAssets(w).value + Yield(w, a, amount) <= I128_MAX)
                  && (TotalAssets(w').Ok? ==> TotalAssets(w').value == TotalAssets(w).value + Yield(w, a, amount)))
  {
    hide TotalAssets;
    var tx := RecallTx(s, a, controller, protocol, amount);
    StepEffect(w, tx);
    RecallKeepsReach(w, s, a, controller, protocol, amount);
    TotalAssetsExact(w);
    TotalAssetsExact(Step(w, tx).value);
  }
}
