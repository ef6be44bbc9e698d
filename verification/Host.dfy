/** The host: one transaction at a time on the contract objects, every trap rolled back. Whatever is
    proved about runs of the specification therefore holds of the contract objects. */
module Host {
  import opened Common
  import opened Token
  import opened Accounting
  import opened StrategyModel
  import opened System
  import opened TokenContract
  import opened StrategyContract
  import opened VaultContract
  import Effects
  import NavAccounting

  /** Strategies just deployed for a vault, one at each address. */
  method DeployStrategies(vault: Address, token: TokenLedger, controllers: map<Address, Address>)
    returns (strategies: map<Address, XlmStrategy>)
    requires forall a :: a in controllers ==> Construct(a, vault, controllers[a]).Ok?
    ensures strategies.Keys == controllers.Keys
    ensures forall a :: a in strategies ==>
              && strategies[a].me == a && strategies[a].token == token
              && strategies[a].State() == Construct(a, vault, controllers[a]).value
  {
    strategies := map[];
    var pending := controllers.Keys;
    while pending != {}
      invariant pending <= controllers.Keys && strategies.Keys == controllers.Keys - pending
      invariant forall a :: a in strategies ==>
                  && strategies[a].me == a && strategies[a].token == token
                  && strategies[a].State() == Construct(a, vault, controllers[a]).value
    {
      var a :| a in pending;
      var strategy := new XlmStrategy(a, vault, controllers[a], token);
      strategies := strategies[a := strategy];
      pending := pending - {a};
    }
  }

  /** Construction of the whole system reaches a state from which every run theorem starts. */
  method Launch(start: int, self: Address, offset: nat, admin: Address, issued: Token.Ledger,
    controllers: map<Address, Address>)
    returns (net: Network)
    requires start > 0 && 3 <= offset <= 10 && NonNegative(issued) && Total(issued) <= I128_MAX
    requires self !in controllers && forall a :: a in controllers ==> Construct(a, self, controllers[a]).Ok?
    ensures net.Valid() && Genesis(net.vault.World())
  {
    var clock := new Clock(start);
    var token := new TokenLedger(issued);
    var strategies := DeployStrategies(self, token, controllers);
    var vault := new AugustVault(self, offset, admin, clock, token, strategies);
    Effects.GenesisValid(vault.World());
    net := new Network(vault);
  }

  class Network {
    const vault: AugustVault

    constructor (vault: AugustVault)
      ensures this.vault == vault
    {
      this.vault := vault;
    }

    ghost predicate Valid()
      reads vault, vault.clock, vault.token, vault.storage, vault.strategies.Values
    {
      vault.Valid() && Effects.Valid(vault.World())
    }

    method CallStrategy(s: Signers, strategy: Address, controller: Address, call: ControllerCall)
      returns (r: Result<()>)
      requires vault.Valid() && WellSigned(vault.World(), s)
      modifies vault.token, vault.strategies.Values
      ensures vault.Reaches(r, Step(old(vault.World()), Tx(s, Controller(strategy, controller, call))))
    {
      hide ControllerStep;
      if strategy !in vault.strategies || !vault.strategies[strategy].reachable {
        return Err(MissingContract);
      }
      ghost var before := vault.World();
      var _ :- vault.strategies[strategy].Invoke(s.auth, controller, call);
      assert vault.StrategyStates() == before.strategies[strategy := vault.strategies[strategy].State()];
      return Ok(());
    }

    method Toggle(s: Signers, strategy: Address, up: bool) returns (r: Result<()>)
      requires vault.Valid() && WellSigned(vault.World(), s)
      modifies vault.strategies.Values
      ensures vault.Reaches(r, Step(old(vault.World()), Tx(s, SetReachable(strategy, up))))
    {
      if strategy !in vault.strategies {
        return Err(MissingContract);
      }
      ghost var before := vault.World();
      vault.strategies[strategy].reachable := up;
      assert vault.StrategyStates() == before.strategies[strategy := vault.strategies[strategy].State()];
      return Ok(());
    }

    method TransferTokens(s: Signers, from: Address, to: Address, amount: int) returns (r: Result<()>)
      requires WellSigned(vault.World(), s)
      modifies vault.token
      ensures vault.Reaches(r, Step(old(vault.World()), Tx(s, TokenTransfer(from, to, amount))))
    {
      hide Transfer;
      if from !in s.auth {
        return Err(MissingAuth);
      }
      r := vault.token.Move(from, to, amount);
    }

    method Advance(s: Signers, until: int) returns (r: Result<()>)
      requires WellSigned(vault.World(), s)
      modifies vault.clock
      ensures vault.Reaches(r, Step(old(vault.World()), Tx(s, Tick(until))))
    {
      if until < vault.clock.now {
        return Err(ClockWentBack);
      }
      vault.clock.now := until;
      return Ok(());
    }

    method Execute(tx: Tx) returns (r: Result<()>)
      requires Valid()
      modifies vault, vault.clock, vault.token, vault.storage, vault.strategies.Values
      ensures vault.Reaches(r, Step(old(vault.World()), tx))
    {
      assert |vault.storage.subaccounts| <= MAX_SUBACCOUNTS;
      hide UserStep, DepositToSubaccount, WithdrawFromSubaccount, ManageStep, ControllerStep, Transfer, Effects.Valid;
      var s := tx.signers;
      if !WellSigned(vault.World(), s) {
        return Err(MissingAuth);
      }
      match tx.call
      case User(user) => r := vault.Serve(s, user);
      case ToSubaccount(operator, sub, amount) => r := vault.DepositToSubaccount(s, operator, sub, amount);
      case FromSubaccount(operator, sub, amount) => r := vault.WithdrawFromSubaccount(s, operator, sub, amount);
      case Management(call) => r := vault.Manage(s, call);
      case Controller(strategy, controller, call) => r := CallStrategy(s, strategy, controller, call);
      case TokenTransfer(from, to, amount) => r := TransferTokens(s, from, to, amount);
      case Tick(until) => r := Advance(s, until);
      case SetReachable(strategy, up) => r := Toggle(s, strategy, up);
    }

    /** Undoes every write a trapped transaction left behind. */
    method Rollback(w: World)
      requires vault.Valid()
      requires w.self == vault.self && w.offset == vault.offset && w.strategies.Keys == vault.strategies.Keys
      requires forall a :: a in w.strategies ==> w.strategies[a].vault == vault.strategies[a].vault
      modifies vault, vault.clock, vault.token, vault.storage, vault.strategies.Values
      ensures vault.World() == w
    {
      vault.clock.now := w.now;
      vault.token.balances := w.token;
      vault.shareBalances, vault.totalSupply := w.shares.balances, w.shares.supply;
      vault.storage.RestoreFrom(w.book);
      RollbackStrategies(w.strategies);
    }

    method RollbackStrategies(states: map<Address, StrategyState>)
      requires vault.Valid()
      requires states.Keys == vault.strategies.Keys
      requires forall a :: a in states ==> states[a].vault == vault.strategies[a].vault
      modifies vault.strategies.Values
      ensures vault.StrategyStates() == states
    {
      var pending := states.Keys;
      while pending != {}
        invariant pending <= states.Keys
        invariant forall a :: a in states && a !in pending ==> vault.strategies[a].State() == states[a]
      {
        var a :| a in pending;
        vault.strategies[a].RestoreFrom(states[a]);
        pending := pending - {a};
      }
    }

    /** A transaction either takes full effect or none. */
    method Transact(tx: Tx) returns (r: Result<()>)
      requires Valid()
      modifies vault, vault.clock, vault.token, vault.storage, vault.strategies.Values
      ensures vault.World() == Apply(old(vault.World()), tx)
      ensures Ends(r, Step(old(vault.World()), tx))
      ensures Valid()
    {
      hide Step, Effects.Valid;
      var before := vault.World();
      NavAccounting.ApplyValid(before, tx);
      r := Execute(tx);
      if r.Err? {
        Rollback(before);
      }
    }

    method TransactAll(txs: seq<Tx>)
      requires Valid()
      modifies vault, vault.clock, vault.token, vault.storage, vault.strategies.Values
      ensures vault.World() == Run(old(vault.World()), txs)
      ensures Valid()
    {
      hide Apply, Effects.Valid;
      for i := 0 to |txs|
        invariant Valid()
        invariant Run(vault.World(), txs[i..]) == Run(old(vault.World()), txs)
      {
        var _ := Transact(txs[i]);
      }
    }
  }
}
