/** The XLM strategy contract: every entry point overwrites instance storage around token transfers.
    A trap may leave writes behind; the host undoes them. */
module StrategyContract {
  import opened Common
  import opened Token
  import opened TokenContract
  import opened StrategyModel

  class XlmStrategy {
    const me: Address
    const vault: Address
    const token: TokenLedger
    var controller: Address
    var local: int
    var deployed: int
    var latched: bool
    var reachable: bool

    constructor (me: Address, vault: Address, controller: Address, token: TokenLedger)
      requires Construct(me, vault, controller).Ok?
      ensures this.me == me && this.token == token
      ensures State() == Construct(me, vault, controller).value
    {
      this.me, this.vault, this.token, this.controller := me, vault, token, controller;
      local, deployed, latched, reachable := 0, 0, false, true;
    }

    function State(): StrategyState
      reads this
    {
      StrategyState(vault, controller, local, deployed, latched, reachable)
    }

    method RestoreFrom(s: StrategyState)
      requires s.vault == vault
      modifies this
      ensures State() == s
    {
      controller, local, deployed, latched, reachable := s.controller, s.local, s.deployed, s.latched, s.reachable;
    }

    function Specified(auth: set<Address>, caller: Address, call: ControllerCall): Result<(StrategyState, Ledger)>
      reads this, token
    {
      ControllerStep(State(), me, token.balances, auth, caller, call)
    }

    /** The instance storage and the token after an entry point are what the specification says. */
    ghost predicate Follows(r: Result<()>, spec: Result<(StrategyState, Ledger)>)
      reads this, token
    {
      Ends(r, spec) && (spec.Ok? ==> State() == spec.value.0 && token.balances == spec.value.1)
    }

    // ---- vault only ----

    method Deposit(from: Address, amount: int) returns (r: Result<()>)
      modifies this
      ensures var spec := StrategyModel.Deposit(old(State()), me, token.balances, from, amount);
              Ends(r, spec) && (spec.Ok? ==> State() == spec.value)
    {
      if from != vault {
        return Err(NotVault);
      }
      if amount == 0 {
        return Ok(());
      }
      if amount < 0 {
        return Err(StrategyInvalidAmount);
      }
      var newLocal :- Exact(local + amount);
      local := newLocal;
      if token.BalanceOf(me) < newLocal {
        return Err(DepositShortfall);
      }
      return Ok(());
    }

    method Withdraw(to: Address, amount: int) returns (r: Result<int>)
      modifies this, token
      ensures var spec := StrategyModel.Withdraw(old(State()), me, old(token.balances), to, amount);
              && Ends(r, spec)
              && (spec.Ok? ==> State() == spec.value.0 && token.balances == spec.value.1 && r.value == spec.value.2)
    {
      if to != vault {
        return Err(NotVault);
      }
      if amount <= 0 {
        return Ok(0);
      }
      var tracked := local;
      var actual := if amount < tracked then amount else tracked;
      if actual > 0 {
        var _ :- token.Move(me, to, actual);
        var newLocal :- Exact(tracked - actual);
        local := newLocal;
      }
      return Ok(actual);
    }

    // ---- controller only ----

    method DeployToProtocol(auth: set<Address>, caller: Address, protocol: Address, amount: int) returns (r: Result<()>)
      modifies this, token
      ensures Follows(r, old(Specified(auth, caller, ControllerCall.DeployToProtocol(protocol, amount))))
    {
      var _ :- RequireController(State(), auth, caller);
      var _ :- RequireTarget(State(), me, protocol);
      if amount <= 0 {
        return Err(StrategyInvalidAmount);
      }
      var tracked := local;
      if tracked < amount {
        return Err(StrategyInsufficientBalance);
      }
      var _ :- token.Move(me, protocol, amount);
      var newLocal :- Exact(tracked - amount);
      local := newLocal;
      var newDeployed :- Exact(deployed + amount);
      deployed := newDeployed;
      if !latched {
        latched := true;
      }
      return Ok(());
    }

    method RecallFromProtocol(auth: set<Address>, caller: Address, protocol: Address, amount: int)
      returns (r: Result<()>)
      modifies this, token
      ensures Follows(r, old(Specified(auth, caller, ControllerCall.RecallFromProtocol(protocol, amount))))
    {
      var _ :- RequireController(State(), auth, caller);
      var _ :- RequireTarget(State(), me, protocol);
      if amount <= 0 {
        return Err(StrategyInvalidAmount);
      }
      if protocol !in auth {
        return Err(MissingAuth);
      }
      var before := token.BalanceOf(me);
      var _ :- token.Move(protocol, me, amount);
      var received :- Exact(token.BalanceOf(me) - before);
      if received < 0 {
        return Err(BalanceDecreasedOnTransfer);
      }
      if received == 0 {
        return Err(StrategyInvalidAmount);
      }
      deployed := if deployed < received then 0 else deployed - received;
      var newLocal :- Exact(local + received);
      local := newLocal;
      return Ok(());
    }

    method CheckSettleRateLimit(newTotal: int) returns (r: Result<()>)
      ensures r == CheckSettle(State(), newTotal)
    {
      var previous := deployed;
      if newTotal == previous {
        return Ok(());
      }
      if previous <= 0 && !latched {
        return Ok(());
      }
      var delta, limitBps;
      if newTotal > previous {
        delta, limitBps := newTotal - previous, SETTLE_INCREASE_BPS;
      } else {
        delta, limitBps := previous - newTotal, SETTLE_DECREASE_BPS;
      }
      var _ :- Exact(delta);
      var scaled :- Exact(previous * limitBps);
      if delta > scaled / BPS_DIVISOR {
        return Err(SettleRateLimitExceeded);
      }
      return Ok(());
    }

    method SettleProtocolReturns(auth: set<Address>, caller: Address, newTotal: int) returns (r: Result<()>)
      modifies this
      ensures Follows(r, old(Specified(auth, caller, ControllerCall.SettleProtocolReturns(newTotal))))
    {
      var _ :- RequireController(State(), auth, caller);
      if newTotal < 0 {
        return Err(StrategyInvalidAmount);
      }
      var _ :- CheckSettleRateLimit(newTotal);
      deployed := newTotal;
      if newTotal > 0 && !latched {
        latched := true;
      }
      return Ok(());
    }

    method SetController(auth: set<Address>, caller: Address, newController: Address) returns (r: Result<()>)
      modifies this
      ensures Follows(r, old(Specified(auth, caller, ControllerCall.SetController(newController))))
    {
      var _ :- RequireController(State(), auth, caller);
      if newController == vault || newController == me {
        return Err(InvalidController);
      }
      controller := newController;
      return Ok(());
    }

    method RecoverDonation(auth: set<Address>, caller: Address, recipient: Address, amount: int) returns (r: Result<()>)
      modifies token
      ensures Follows(r, old(Specified(auth, caller, ControllerCall.RecoverDonation(recipient, amount))))
    {
      var _ :- RequireController(State(), auth, caller);
      var _ :- RequireTarget(State(), me, recipient);
      if amount <= 0 {
        return Err(StrategyInvalidAmount);
      }
      var actualIdle := token.BalanceOf(me);
      var excess :- Exact(actualIdle - local);
      if excess <= 0 {
        return Err(NoDonationToRecover);
      }
      if amount > excess {
        return Err(StrategyInsufficientBalance);
      }
      var _ :- token.Move(me, recipient, amount);
      var expected :- Exact(actualIdle - amount);
      if token.BalanceOf(me) != expected {
        return Err(BalanceDecreasedOnTransfer);
      }
      return Ok(());
    }

    method SeedLocalBalance(auth: set<Address>, caller: Address, amount: int) returns (r: Result<()>)
      modifies this
      ensures Follows(r, old(Specified(auth, caller, ControllerCall.SeedLocalBalance(amount))))
    {
      var _ :- RequireController(State(), auth, caller);
      if amount < 0 {
        return Err(StrategyInvalidAmount);
      }
      if local != 0 {
        return Err(LocalBalanceAlreadySeeded);
      }
      if amount > token.BalanceOf(me) {
        return Err(SeedExceedsActualBalance);
      }
      local := amount;
      return Ok(());
    }

    method SeedDeployedTotal(auth: set<Address>, caller: Address, amount: int) returns (r: Result<()>)
      modifies this
      ensures Follows(r, old(Specified(auth, caller, ControllerCall.SeedDeployedTotal(amount))))
    {
      var _ :- RequireController(State(), auth, caller);
      if amount < 0 {
        return Err(StrategyInvalidAmount);
      }
      if latched {
        return Err(DeployedTotalAlreadyInitialized);
      }
      deployed := amount;
      latched := true;
      return Ok(());
    }

    method Invoke(auth: set<Address>, caller: Address, call: ControllerCall) returns (r: Result<()>)
      modifies this, token
      ensures Follows(r, old(Specified(auth, caller, call)))
    {
      match call
      case DeployToProtocol(protocol, amount) => r := DeployToProtocol(auth, caller, protocol, amount);
      case RecallFromProtocol(protocol, amount) => r := RecallFromProtocol(auth, caller, protocol, amount);
      case SettleProtocolReturns(newTotal) => r := SettleProtocolReturns(auth, caller, newTotal);
      case SetController(newController) => r := SetController(auth, caller, newController);
      case RecoverDonation(recipient, amount) => r := RecoverDonation(auth, caller, recipient, amount);
      case SeedLocalBalance(amount) => r := SeedLocalBalance(auth, caller, amount);
      case SeedDeployedTotal(amount) => r := SeedDeployedTotal(auth, caller, amount);
    }

    // ---- views ----

    method GetBalance() returns (r: Result<int>)
      ensures r == StrategyModel.GetBalance(State(), me, token.balances)
    {
      var actualIdle := token.BalanceOf(me);
      var tracked := local;
      var idle;
      if actualIdle > tracked {
        var _ :- Exact(actualIdle - tracked);
        idle := tracked;
      } else if actualIdle < tracked {
        var _ :- Exact(tracked - actualIdle);
        idle := actualIdle;
      } else {
        idle := tracked;
      }
      return Exact(idle + deployed);
    }
  }
}
