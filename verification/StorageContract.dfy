/** The vault's instance storage: setters overwrite its keys behind range guards. The keys of one limiter
    level are grouped in a record. */
module StorageContract {
  import opened Common
  import opened Limiter
  import opened Accounting

  class Storage {
    var admin: Address
    var operator: Option<Address>
    var pendingAdmin: Option<Address>
    var adminProposalExpiry: Option<int>
    var deployedAssets: int
    var subaccounts: seq<Address>
    var subaccountTypes: map<Address, SubaccountType>
    var walletNetDeployed: map<Address, int>
    var paused: bool
    var limits: Limits
    var window: Window
    var events: seq<Event>

    constructor (admin: Address)
      ensures Book() == InitialBook(admin)
    {
      this.admin, operator, pendingAdmin, adminProposalExpiry := admin, None, None, None;
      deployedAssets, subaccounts, subaccountTypes, walletNetDeployed := 0, [], map[], map[];
      paused, limits, window := false, INITIAL_LIMITS, INITIAL_WINDOW;
      events := [];
    }

    function Book(): Book
      reads this
    {
      Accounting.Book(admin, operator, deployedAssets, subaccounts, subaccountTypes, walletNetDeployed,
                      paused, limits, window, events,
                      pendingAdmin, adminProposalExpiry)
    }

    function GetSubaccountType(a: Address): SubaccountType
      reads this
    {
      if a in subaccountTypes then subaccountTypes[a] else Strategy
    }

    function GetWalletNetDeployed(a: Address): int
      reads this
    {
      if a in walletNetDeployed then walletNetDeployed[a] else 0
    }

    method RestoreFrom(b: Book)
      modifies this
      ensures Book() == b
    {
      admin, operator, paused, limits, window := b.admin, b.operator, b.paused, b.limits, b.window;
      deployedAssets, subaccounts, subaccountTypes := b.deployed, b.subs, b.kinds;
      walletNetDeployed, events := b.trackers, b.log;
      pendingAdmin, adminProposalExpiry := b.pendingAdmin, b.proposalExpiry;
    }

    // ---- setters ----

    method SetAdmin(newAdmin: Address)
      modifies this
      ensures Book() == old(Book()).(admin := newAdmin)
    {
      admin := newAdmin;
    }

    method SetPendingAdmin(pending: Address)
      modifies this
      ensures Book() == old(Book()).(pendingAdmin := Some(pending))
    {
      pendingAdmin := Some(pending);
    }

    method SetAdminProposalExpiry(expiry: int)
      modifies this
      ensures Book() == old(Book()).(proposalExpiry := Some(expiry))
    {
      adminProposalExpiry := Some(expiry);
    }

    method RemovePendingAdmin()
      modifies this
      ensures Book() == old(Book()).(pendingAdmin := None, proposalExpiry := None)
    {
      pendingAdmin := None;
      adminProposalExpiry := None;
    }

    method SetOperator(newOperator: Address)
      modifies this
      ensures Book() == old(Book()).(operator := Some(newOperator))
    {
      operator := Some(newOperator);
    }

    method SetPaused(value: bool)
      modifies this
      ensures Book() == old(Book()).(paused := value)
    {
      paused := value;
    }

    method SetDeployedAssets(amount: int) returns (r: Result<()>)
      modifies this
      ensures r == Need(amount >= 0, InvalidAmount)
      ensures Book() == if r.Ok? then old(Book()).(deployed := amount) else old(Book())
    {
      if amount < 0 {
        return Err(InvalidAmount);
      }
      deployedAssets := amount;
      return Ok(());
    }

    method SetSubaccounts(subs: seq<Address>) returns (r: Result<()>)
      modifies this
      ensures r == Need(|subs| <= MAX_SUBACCOUNTS, MaxSubaccountsReached)
      ensures Book() == if r.Ok? then old(Book()).(subs := subs) else old(Book())
    {
      if |subs| > MAX_SUBACCOUNTS {
        return Err(MaxSubaccountsReached);
      }
      subaccounts := subs;
      return Ok(());
    }

    method SetSubaccountType(sub: Address, kind: SubaccountType)
      modifies this
      ensures Book() == old(Book()).(kinds := old(subaccountTypes)[sub := kind])
    {
      var types := subaccountTypes;
      types := types[sub := kind];
      subaccountTypes := types;
    }

    method RemoveSubaccountType(sub: Address)
      modifies this
      ensures Book() == old(Book()).(kinds := old(subaccountTypes) - {sub})
    {
      var types := subaccountTypes;
      types := types - {sub};
      subaccountTypes := types;
    }

    method SetWalletNetDeployed(sub: Address, amount: int) returns (r: Result<()>)
      modifies this
      ensures r == Need(amount >= 0, InvalidAmount)
      ensures Book() == if r.Ok? then old(Book()).(trackers := old(walletNetDeployed)[sub := amount]) else old(Book())
    {
      if amount < 0 {
        return Err(InvalidAmount);
      }
      var m := walletNetDeployed;
      m := m[sub := amount];
      walletNetDeployed := m;
      return Ok(());
    }

    method RemoveWalletNetDeployed(sub: Address)
      modifies this
      ensures Book() == old(Book()).(trackers := old(walletNetDeployed) - {sub})
    {
      var m := walletNetDeployed;
      m := m - {sub};
      walletNetDeployed := m;
    }

    method StoreAumLimits(increaseBps: int, decreaseBps: int) returns (r: Result<()>)
      modifies this
      ensures r == Need(ValidBps(increaseBps) && ValidBps(decreaseBps), InvalidAumLimits)
      ensures Book() == if r.Ok? then old(Book()).(limits := Limits(increaseBps, decreaseBps)) else old(Book())
    {
      if !ValidBps(increaseBps) || !ValidBps(decreaseBps) {
        return Err(InvalidAumLimits);
      }
      limits := Limits(increaseBps, decreaseBps);
      return Ok(());
    }

    method StoreAumWindowLimits(duration: int, increaseBps: int, decreaseBps: int) returns (r: Result<()>)
      modifies this
      ensures r == Need(ValidWindowLimits(duration, increaseBps, decreaseBps), InvalidAumLimits)
      ensures r.Ok? ==> Book() == old(Book()).(window :=
                old(window).(duration := duration, increaseBps := increaseBps, decreaseBps := decreaseBps))
      ensures r.Err? ==> Book() == old(Book())
    {
      if !ValidWindowLimits(duration, increaseBps, decreaseBps) {
        return Err(InvalidAumLimits);
      }
      window := window.(duration := duration, increaseBps := increaseBps, decreaseBps := decreaseBps);
      return Ok(());
    }

    method ResetAumWindow(timestamp: int, baseDeployed: int)
      modifies this
      ensures Book() == old(Book()).(window := Reset(old(window), timestamp, baseDeployed))
    {
      window := window.(start := timestamp, increase := 0, decrease := 0, base := baseDeployed);
    }

    method SetAumCumulativeIncrease(amount: int)
      modifies this
      ensures Book() == old(Book()).(window := old(window).(increase := amount))
    {
      window := window.(increase := amount);
    }

    method SetAumCumulativeDecrease(amount: int)
      modifies this
      ensures Book() == old(Book()).(window := old(window).(decrease := amount))
    {
      window := window.(decrease := amount);
    }

    method Publish(e: Event)
      modifies this
      ensures Book() == Emit(old(Book()), e)
    {
      events := events + [e];
    }
  }
}
