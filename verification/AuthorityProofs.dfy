/** Who can touch the books, and how the admin role is handed over, over whole runs. */
module AuthorityProofs {
  import opened Common
  import opened Accounting
  import opened AccountingProofs
  import opened System
  import opened Effects
  import opened NavAccounting
  import opened Traces

  /** The pending admin signed before the proposal ran out. */
  predicate HeirSigned(b: Book, now: int, auth: set<Address>) {
    b.pendingAdmin.Some? && b.proposalExpiry.Some? && b.pendingAdmin.value in auth && now <= b.proposalExpiry.value
  }

  /** One of the roles the books record signed: admin, operator, or the pending admin in time. */
  predicate RoleSigned(b: Book, now: int, auth: set<Address>) {
    b.admin in auth || (b.operator.Some? && b.operator.value in auth) || HeirSigned(b, now, auth)
  }

  /** What only the admin may move. */
  predicate SameGovernance(b: Book, b': Book) {
    && b'.operator == b.operator && b'.limits == b.limits && b'.paused == b.paused && b'.subs == b.subs
    && (b'.window.duration, b'.window.increaseBps, b'.window.decreaseBps)
       == (b.window.duration, b.window.increaseBps, b.window.decreaseBps)
  }

  lemma ReconciliationNeedsOperator(b: Book, c: Context, call: Manage)
    requires MovesAggregate(call) && ManageStep(b, c, call).Ok?
    ensures b.operator == Some(call.operator)
    ensures if call.RemoveWalletAndReconcile? then b.admin in c.auth else call.operator in c.auth
    ensures var b' := ManageStep(b, c, call).value;
            && b'.admin == b.admin && b'.pendingAdmin == b.pendingAdmin && b'.proposalExpiry == b.proposalExpiry
            && (!call.RemoveWalletAndReconcile? ==> SameGovernance(b, b'))
  {
    hide ApplyChange, NetDelta, Overwrite, UpdateEvents, DistinctTargets;
    var next := b.deployed + DeployedChange(b, call);
    if call.UpdateWalletDeployedBatch? {
      NetDeltaIsTargetSum(b, call.updates);
    }
    ApplyChangeKeeps(b, c, call.operator, next);
    ApplyChangeKeepsLimits(b, c, call.operator, next);
  }

  lemma ApplyChangeKeepsLimits(b: Book, c: Context, actor: Address, next: int)
    requires ApplyChange(b, c, actor, next).Ok?
    ensures SameGovernance(b, ApplyChange(b, c, actor, next).value)
  {
    CheckChangeKeepsLimits(b.limits, b.window, c.now, b.deployed, next);
  }

  /** An accepted management call was signed by a role. Without the admin's signature governance stays; the
      admin is replaced only by acceptance, and a proposal comes only from the admin. */
  lemma ManagementNeedsRole(b: Book, c: Context, call: Manage)
    requires ManageStep(b, c, call).Ok?
    ensures RoleSigned(b, c.now, c.auth)
    ensures var b' := ManageStep(b, c, call).value;
            && (b.admin !in c.auth ==> SameGovernance(b, b'))
            && (if call.AcceptAdmin?
                then HeirSigned(b, c.now, c.auth) && Some(b'.admin) == b.pendingAdmin && b'.pendingAdmin == None
                else b'.admin == b.admin)
            && (b'.pendingAdmin != b.pendingAdmin && b'.pendingAdmin.Some? ==>
                  && call.ProposeAdmin? && b.admin in c.auth && b'.pendingAdmin == Some(call.newAdmin)
                  && b'.proposalExpiry == Some(call.deadline) && c.now < call.deadline)
            && (!call.ProposeAdmin? && !call.AcceptAdmin? && !call.CancelAdminProposal? ==>
                  b'.pendingAdmin == b.pendingAdmin && b'.proposalExpiry == b.proposalExpiry)
  {
    if MovesAggregate(call) {
      hide ManageStep;
      ReconciliationNeedsOperator(b, c, call);
    }
  }

  lemma PushNeedsOperator(w: World, s: Signers, operator: Address, sub: Address, amount: int)
    requires DepositToSubaccount(w, s, operator, sub, amount).Ok?
    ensures w.book.operator == Some(operator) && operator in s.auth
  {
  }

  lemma PullNeedsOperator(w: World, s: Signers, operator: Address, sub: Address, amount: int)
    requires WithdrawFromSubaccount(w, s, operator, sub, amount).Ok?
    ensures w.book.operator == Some(operator) && operator in s.auth
  {
  }

  lemma StepNeedsRole(w: World, tx: Tx)
    requires Valid(w) && Step(w, tx).Ok? && Step(w, tx).value.book != w.book
    ensures RoleSigned(w.book, w.now, tx.signers.auth)
  {
    hide UserStep, DepositToSubaccount, WithdrawFromSubaccount, ManageStep, NoteDeposit, NoteWithdrawal;
    StepBook(w, tx);
    match tx.call
    case Management(manage) => ManagementNeedsRole(w.book, ContextOf(w, tx.signers, manage), manage);
    case ToSubaccount(operator, sub, amount) => PushNeedsOperator(w, tx.signers, operator, sub, amount);
    case FromSubaccount(operator, sub, amount) => PullNeedsOperator(w, tx.signers, operator, sub, amount);
    case _ =>
  }

  predicate NoRoleSigns(w: World, txs: seq<Tx>)
    decreases |txs|
  {
    txs != [] ==> !RoleSigned(w.book, w.now, txs[0].signers.auth) && NoRoleSigns(Apply(w, txs[0]), txs[1..])
  }

  /** In a run that neither the admin, nor the operator, nor a pending admin in time signs, the books stay
      exactly as they are, whatever users, donors, strategies and their controllers do. */
  lemma {:induction false} BooksNeedARole(w: World, txs: seq<Tx>)
    requires Valid(w) && NoRoleSigns(w, txs)
    ensures Run(w, txs).book == w.book
    decreases |txs|
  {
    hide Step;
    if txs != [] {
      if Step(w, txs[0]).Ok? && Step(w, txs[0]).value.book != w.book {
        StepNeedsRole(w, txs[0]);
      }
      ApplyValid(w, txs[0]);
      BooksNeedARole(Apply(w, txs[0]), txs[1..]);
    }
  }

  // ---- succession ----

  /** Addresses an admin of the time signed a proposal for, in accepted transactions of the run. */
  function Proposed(w: World, txs: seq<Tx>): set<Address>
    decreases |txs|
  {
    if txs == [] then {}
    else (if Step(w, txs[0]).Ok? && txs[0].call.Management? && txs[0].call.manage.ProposeAdmin?
             && w.book.admin in txs[0].signers.auth then {txs[0].call.manage.newAdmin} else {})
         + Proposed(Apply(w, txs[0]), txs[1..])
  }

  /** Addresses that, as pending admin and in time, signed an accepted acceptance of the run. */
  function Accepted(w: World, txs: seq<Tx>): set<Address>
    decreases |txs|
  {
    if txs == [] then {}
    else (if Step(w, txs[0]).Ok? && txs[0].call.Management? && txs[0].call.manage.AcceptAdmin?
             && HeirSigned(w.book, w.now, txs[0].signers.auth) then {w.book.pendingAdmin.value} else {})
         + Accepted(Apply(w, txs[0]), txs[1..])
  }

  function Pending(b: Book): set<Address> {
    if b.pendingAdmin.Some? then {b.pendingAdmin.value} else {}
  }

  /** Subaccount transfers leave the roles alone. */
  lemma TransfersKeepRoles(b: Book, sub: Address, requested: int, moved: int)
    ensures NoteDeposit(b, sub, requested, moved).Ok? ==>
              var b' := NoteDeposit(b, sub, requested, moved).value;
              && b'.admin == b.admin && b'.pendingAdmin == b.pendingAdmin && b'.proposalExpiry == b.proposalExpiry
    ensures NoteWithdrawal(b, sub, requested, moved).Ok? ==>
              var b' := NoteWithdrawal(b, sub, requested, moved).value;
              && b'.admin == b.admin && b'.pendingAdmin == b.pendingAdmin && b'.proposalExpiry == b.proposalExpiry
  {
  }

  predicate Handover(call: Call) {
    call.Management? && (call.manage.ProposeAdmin? || call.manage.AcceptAdmin? || call.manage.CancelAdminProposal?)
  }

  lemma StepSuccession(w: World, tx: Tx)
    requires Valid(w) && Step(w, tx).Ok?
    ensures var (b, b') := (w.book, Step(w, tx).value.book);
            && (b'.admin != b.admin ==> b'.admin in Pending(b) && b'.admin in Accepted(w, [tx]))
            && Pending(b') <= Pending(b) + Proposed(w, [tx])
            && (!Handover(tx.call) ==>
                  b'.admin == b.admin && b'.pendingAdmin == b.pendingAdmin && b'.proposalExpiry == b.proposalExpiry)
  {
    hide Step, ManageStep, NoteDeposit, NoteWithdrawal;
    StepBook(w, tx);
    match tx.call
    case Management(manage) => ManagementNeedsRole(w.book, ContextOf(w, tx.signers, manage), manage);
    case ToSubaccount(_, sub, amount) => TransfersKeepRoles(w.book, sub, amount, amount);
    case FromSubaccount(_, sub, amount) => TransfersKeepRoles(w.book, sub, amount, Received(w, sub, amount));
    case _ =>
  }

  /** Whoever ends a run as admin either began it as admin, or was proposed by an admin of the time (or was
      pending at the start) and signed the acceptance in time. */
  lemma {:induction false} AdminsAreProposedAndAccept(w: World, txs: seq<Tx>)
    requires Valid(w)
    ensures var b' := Run(w, txs).book;
            && (b'.admin == w.book.admin ||
                (b'.admin in Pending(w.book) + Proposed(w, txs) && b'.admin in Accepted(w, txs)))
            && Pending(b') <= Pending(w.book) + Proposed(w, txs)
    decreases |txs|
  {
    hide Step;
    if txs != [] {
      if Step(w, txs[0]).Ok? {
        StepSuccession(w, txs[0]);
      }
      ApplyValid(w, txs[0]);
      OneStepSets(w, txs);
      AdminsAreProposedAndAccept(Apply(w, txs[0]), txs[1..]);
    }
  }

  lemma OneStepSets(w: World, txs: seq<Tx>)
    requires txs != []
    ensures Proposed(w, txs) == Proposed(w, [txs[0]]) + Proposed(Apply(w, txs[0]), txs[1..])
    ensures Accepted(w, txs) == Accepted(w, [txs[0]]) + Accepted(Apply(w, txs[0]), txs[1..])
  {
    hide Step, Apply;
    assert [txs[0]][1..] == [];
  }

  predicate NoHandover(txs: seq<Tx>) {
    forall i :: 0 <= i < |txs| ==> !Handover(txs[i].call)
  }

  lemma {:induction false} ProposalStands(w: World, txs: seq<Tx>)
    requires Valid(w) && NoHandover(txs)
    ensures var b' := Run(w, txs).book;
            && b'.admin == w.book.admin
            && b'.pendingAdmin == w.book.pendingAdmin && b'.proposalExpiry == w.book.proposalExpiry
    decreases |txs|
  {
    hide Step;
    if txs != [] {
      if Step(w, txs[0]).Ok? {
        StepSuccession(w, txs[0]);
      }
      ApplyValid(w, txs[0]);
      ProposalStands(Apply(w, txs[0]), txs[1..]);
    }
  }

  /** An accepted proposal, then any run without another handover call: the proposed address can take over
      exactly as long as the clock has not passed the deadline, and then it is the admin. */
  lemma HeirAcceptsExactly(w: World, s: Signers, admin: Address, heir: Address, deadline: int, txs: seq<Tx>,
    heirs: Signers)
    requires Valid(w) && NoHandover(txs)
    requires Step(w, Tx(s, Management(ProposeAdmin(admin, heir, deadline)))).Ok?
    ensures var w' := Run(Apply(w, Tx(s, Management(ProposeAdmin(admin, heir, deadline)))), txs);
            var r := Step(w', Tx(heirs, Management(AcceptAdmin)));
            && (r.Ok? <==> WellSigned(w', heirs) && heir in heirs.auth && w'.now <= deadline)
            && (r.Ok? ==> r.value.book.admin == heir)
  {
    var tx := Tx(s, Management(ProposeAdmin(admin, heir, deadline)));
    ApplyValid(w, tx);
    ProposalStands(Apply(w, tx), txs);
  }
}
