/** Whose approvals a transfer has behind it. */
module PayoutApprovals {
  import opened Common
  import opened Payouts
  import opened PayoutProofs
  import opened PayoutTransfers

  predicate IsAdminOf(t: Tables, actor: nat, p: nat) {
    && actor < |t.users| && p < |t.payouts|
    && t.users[actor].role.Admin? && t.users[actor].company == Some(t.payouts[p].company)
  }

  predicate IsOwnerOf(t: Tables, actor: nat, p: nat) {
    && actor < |t.users| && p < |t.payouts|
    && t.users[actor].role.CompanyOwner? && t.users[actor].company == Some(t.payouts[p].company)
  }

  /**
   An admin's approval is open to exactly the admins of the payout's company, while it waits for one.  Once
   written no admin can approve again, exactly the owners of the company can go on, and nothing else has moved.
   */
  lemma AdminApprovalPassesOn(t: Tables, p: nat, actor: nat)
    requires ValidAllocations(t)
    ensures CheckAdminApproval(t, p, actor).None? <==>
              IsAdminOf(t, actor, p) && t.payouts[p].status.PendingAdminApproval?
    ensures CheckAdminApproval(t, p, actor).None? ==>
              var r := WriteCall(t, AdminApproving(p, actor), 0);
              && r == t.(payouts := t.payouts[p := r.payouts[p]])
              && r.payouts[p] == t.payouts[p].(status := PendingCompanyApproval)
              && forall other: nat :: CheckAdminApproval(r, p, other).Some?
                                      && (CheckCompanyApproval(r, p, other).None? <==> IsOwnerOf(t, other, p))
  {
    if CheckAdminApproval(t, p, actor).None? {
      var r := WriteCall(t, AdminApproving(p, actor), 0);
      forall other: nat
        ensures CheckAdminApproval(r, p, other).Some?
        ensures CheckCompanyApproval(r, p, other).None? <==> IsOwnerOf(t, other, p)
      {
      }
    }
  }

  /**
   An owner's approval is open to exactly the owners of the payout's company, while it waits for one.  Once
   written it cannot be given again, exactly the owners can initiate the transfer, and nothing else has moved.
   */
  lemma CompanyApprovalOpensTransfer(t: Tables, p: nat, actor: nat)
    requires ValidAllocations(t)
    ensures CheckCompanyApproval(t, p, actor).None? <==>
              IsOwnerOf(t, actor, p) && t.payouts[p].status.PendingCompanyApproval?
    ensures CheckCompanyApproval(t, p, actor).None? ==>
              var r := WriteCall(t, CompanyApproving(p, actor), 0);
              && r == t.(payouts := t.payouts[p := r.payouts[p]])
              && r.payouts[p] == t.payouts[p].(status := Approved)
              && forall other: nat :: CheckCompanyApproval(r, p, other).Some?
                                      && (CheckInitiation(r, p, other, true).None? <==> IsOwnerOf(t, other, p))
  {
    if CheckCompanyApproval(t, p, actor).None? {
      var r := WriteCall(t, CompanyApproving(p, actor), 0);
      forall other: nat
        ensures CheckCompanyApproval(r, p, other).Some?
        ensures CheckInitiation(r, p, other, true).None? <==> IsOwnerOf(t, other, p)
      {
      }
    }
  }

  // ---- Every step of a payout ----

  /** The write of a call in flight about this payout. */
  predicate IsWriteAbout(t: Tables, event: Event, p: nat) {
    event.Written? && event.call < |t.calls| && IsAboutRow(t.calls[event.call]) && t.calls[event.call].payout == p
  }

  /**
   Only a call in flight about a payout, or its job being given up, changes its row, and then as that call
   says; requester, company and amount stay for ever.
   */
  lemma WorkflowStep(t: Tables, event: Event, p: nat)
    requires Structured(t) && p < |t.payouts|
    ensures var before := t.payouts[p];
            var r := Step(t, event);
            && p < |r.payouts|
            && r.payouts[p].user == before.user && r.payouts[p].company == before.company
            && r.payouts[p].amount == before.amount
            && r.payouts[p] == if event == GivenUp(p) then before.(status := TransferFailed)
                               else if IsWriteAbout(t, event, p)
                               then RowAfter(before, t.calls[event.call], event.code) else before
  {
    if event.Written? && event.call < |t.calls| {
      AdvancedKeepsStructured(t, event.call);
      WriteRows(Advanced(t, event.call), t.calls[event.call], event.code);
    }
  }

  /** An owner of the company has asked for the transfer of a payout in this status. */
  predicate ChecksInitiation(t: Tables, event: Event, p: nat, status: PayoutStatus) {
    && event.InitiationChecked? && event.payout == p && event.hasBank
    && IsOwnerOf(t, event.actor, p) && t.payouts[p].status == status
  }

  /** What a call has found out by the time it is in flight. */
  predicate BegunRightly(t: Tables, event: Event, call: Call) {
    match call
    case Requesting(user, amount) => event == RequestChecked(user, amount) && CheckRequest(t, user, amount).None?
    case AdminApproving(p, actor) =>
      event == AdminApprovalChecked(p, actor) && IsAdminOf(t, actor, p) && t.payouts[p].status.PendingAdminApproval?
    case CompanyApproving(p, actor) =>
      event == CompanyApprovalChecked(p, actor) && IsOwnerOf(t, actor, p) && t.payouts[p].status.PendingCompanyApproval?
    case Starting(p) => ChecksInitiation(t, event, p, Approved)
    case Preparing(p, status) =>
      ChecksInitiation(t, event, p, status) && (status.TransferFailed? || status.TransferReversed?)
    case Attempting(p, initiation) =>
      event == AttemptChecked(p) && p < |t.payouts| && Attemptable(t.payouts[p])
      && initiation == t.payouts[p].initiations
    case Handling(p, notice, loaded) =>
      event == NoticeLoaded(p, notice) && p < |t.payouts| && t.payouts[p].status != NoticeStatus(notice)
      && loaded == Now(t)
    case Finished => false
  }

  /** A call begins only with its own check passed: by the right user, on the right status, of what is there. */
  lemma CallsBeginRightly(t: Tables, event: Event)
    requires Structured(t)
    ensures var calls := Step(t, event).calls;
            && |t.calls| <= |calls| <= |t.calls| + 1
            && (|calls| > |t.calls| ==> BegunRightly(t, event, calls[|t.calls|]))
  {
    if event.Written? && event.call < |t.calls| {
      AdvancedKeepsStructured(t, event.call);
      WriteKeepsRows(Advanced(t, event.call), t.calls[event.call], event.code);
    }
  }

  // ---- Over whole runs ----

  /** Those who are no admins, and were not created by the company's owner, need an admin's approval first. */
  predicate NeedsAdmin(user: User) {
    user.creatorRole != Some(CompanyOwner) && !user.role.Admin?
  }

  /** The payout an event approves: an approval that passed its checks. */
  function ApprovedByAdmin(t: Tables, event: Event): set<nat> {
    if event.AdminApprovalChecked? && CheckAdminApproval(t, event.payout, event.actor).None? then {event.payout} else {}
  }

  function ApprovedByOwner(t: Tables, event: Event): set<nat> {
    if event.CompanyApprovalChecked? && CheckCompanyApproval(t, event.payout, event.actor).None?
    then {event.payout} else {}
  }

  /** The payouts an admin of their company has approved in the course of a run. */
  function AdminApproved(users: seq<User>, events: seq<Event>): set<nat> {
    if events == [] then {}
    else
      var n := |events| - 1;
      AdminApproved(users, events[..n]) + ApprovedByAdmin(Run(Start(users), events[..n]), events[n])
  }

  function OwnerApproved(users: seq<User>, events: seq<Event>): set<nat> {
    if events == [] then {}
    else
      var n := |events| - 1;
      OwnerApproved(users, events[..n]) + ApprovedByOwner(Run(Start(users), events[..n]), events[n])
  }

  predicate AdminDone(users: seq<User>, admins: set<nat>, p: nat, row: Payout) {
    row.user < |users| && (NeedsAdmin(users[row.user]) ==> p in admins)
  }

  predicate BothDone(users: seq<User>, admins: set<nat>, owners: set<nat>, p: nat, row: Payout) {
    AdminDone(users, admins, p, row) && p in owners
  }

  /** What has been approved by the time a payout has this status. */
  predicate RowVouched(users: seq<User>, admins: set<nat>, owners: set<nat>, p: nat, row: Payout) {
    && row.user < |users|
    && (!row.status.PendingAdminApproval? ==> AdminDone(users, admins, p, row))
    && (!row.status.PendingAdminApproval? && !row.status.PendingCompanyApproval? ==> p in owners)
    && (row.initiations > 0 ==> BothDone(users, admins, owners, p, row))
  }

  /** What has been approved by the time a call is past its checks. */
  predicate CallVouched(t: Tables, admins: set<nat>, owners: set<nat>, call: Call) {
    IsAboutRow(call) ==>
      && call.payout < |t.payouts|
      && (if call.AdminApproving? then call.payout in admins
          else BothDone(t.users, admins, owners, call.payout, t.payouts[call.payout]))
  }

  predicate Vouched(t: Tables, admins: set<nat>, owners: set<nat>) {
    && (forall p :: 0 <= p < |t.payouts| ==> RowVouched(t.users, admins, owners, p, t.payouts[p]))
    && (forall k :: 0 <= k < |t.calls| ==> CallVouched(t, admins, owners, t.calls[k]))
  }

  /** The provider and the job queue know only of payouts that were initiated. */
  predicate AboutInitiated(t: Tables, event: Event) {
    match event
    case NoticeLoaded(p, _) => p < |t.payouts| ==> t.payouts[p].initiations > 0
    case GivenUp(p) => p < |t.payouts| ==> t.payouts[p].initiations > 0
    case _ => true
  }

  lemma MoreApprovals(t: Tables, admins: set<nat>, owners: set<nat>, moreAdmins: set<nat>, moreOwners: set<nat>)
    requires Vouched(t, admins, owners) && admins <= moreAdmins && owners <= moreOwners
    ensures Vouched(t, moreAdmins, moreOwners)
  {
    forall k | 0 <= k < |t.calls| ensures CallVouched(t, moreAdmins, moreOwners, t.calls[k]) {
      assert CallVouched(t, admins, owners, t.calls[k]);
    }
  }

  lemma PayoutsKeepCalls(t: Tables, r: Tables, admins: set<nat>, owners: set<nat>)
    requires Vouched(t, admins, owners) && r.calls == t.calls && r.users == t.users && |t.payouts| <= |r.payouts|
    requires forall p :: 0 <= p < |t.payouts| ==> r.payouts[p].user == t.payouts[p].user
    ensures forall k :: 0 <= k < |r.calls| ==> CallVouched(r, admins, owners, r.calls[k])
  {
    forall k | 0 <= k < |r.calls| ensures CallVouched(r, admins, owners, r.calls[k]) {
      assert CallVouched(t, admins, owners, t.calls[k]);
    }
  }

  lemma WriteKeepsVouched(t: Tables, admins: set<nat>, owners: set<nat>, call: Call, code: nat)
    requires ValidAllocations(t) && CallFits(t, call)
    requires Vouched(t, admins, owners) && CallVouched(t, admins, owners, call)
    ensures Vouched(WriteCall(t, call, code), admins, owners)
  {
    var r := WriteCall(t, call, code);
    WriteRows(t, call, code);
    PayoutsKeepCalls(t, r, admins, owners);
    forall p | 0 <= p < |r.payouts| ensures RowVouched(r.users, admins, owners, p, r.payouts[p]) {
      assert p < |t.payouts| ==> RowVouched(t.users, admins, owners, p, t.payouts[p]);
    }
  }

  lemma AdvancedKeepsVouched(t: Tables, admins: set<nat>, owners: set<nat>, k: nat)
    requires Vouched(t, admins, owners) && k < |t.calls|
    ensures Vouched(Advanced(t, k), admins, owners) && CallVouched(Advanced(t, k), admins, owners, t.calls[k])
  {
    var r := Advanced(t, k);
    assert CallVouched(t, admins, owners, t.calls[k]);
    forall j | 0 <= j < |r.calls| ensures CallVouched(r, admins, owners, r.calls[j]) {
      assert CallVouched(t, admins, owners, t.calls[j]);
    }
  }

  /** A check that passes remembers a call that is vouched for, by the new approval if it is one. */
  lemma CheckKeepsVouched(t: Tables, admins: set<nat>, owners: set<nat>, event: Event)
    requires Structured(t) && InitiationsKnown(t) && IsCheck(event)
    requires Vouched(t, admins, owners) && AboutInitiated(t, event)
    ensures Vouched(Step(t, event), admins + ApprovedByAdmin(t, event), owners + ApprovedByOwner(t, event))
  {
    var more, moreOwners := admins + ApprovedByAdmin(t, event), owners + ApprovedByOwner(t, event);
    var r := Step(t, event);
    MoreApprovals(t, admins, owners, more, moreOwners);
    if r != t {
      forall k | 0 <= k < |r.calls| ensures CallVouched(r, more, moreOwners, r.calls[k]) {
        if k < |t.calls| {
          assert CallVouched(t, more, moreOwners, t.calls[k]);
        } else {
          assert !event.RequestChecked? ==> RowVouched(t.users, admins, owners, event.payout, t.payouts[event.payout]);
        }
      }
    }
  }

  lemma StepKeepsVouched(t: Tables, admins: set<nat>, owners: set<nat>, event: Event)
    requires Structured(t) && InitiationsKnown(t) && Vouched(t, admins, owners) && AboutInitiated(t, event)
    ensures Vouched(Step(t, event), admins + ApprovedByAdmin(t, event), owners + ApprovedByOwner(t, event))
  {
    if IsCheck(event) {
      CheckKeepsVouched(t, admins, owners, event);
    } else {
      assert admins + ApprovedByAdmin(t, event) == admins && owners + ApprovedByOwner(t, event) == owners;
      if event.Written? && event.call < |t.calls| {
        AdvancedKeepsStructured(t, event.call);
        AdvancedKeepsVouched(t, admins, owners, event.call);
        WriteKeepsVouched(Advanced(t, event.call), admins, owners, t.calls[event.call], event.code);
      } else {
        PayoutsKeepCalls(t, Step(t, event), admins, owners);
      }
    }
  }

  predicate AllAboutInitiated(users: seq<User>, events: seq<Event>) {
    events == [] ||
    (AllAboutInitiated(users, events[..|events| - 1])
     && AboutInitiated(Run(Start(users), events[..|events| - 1]), events[|events| - 1]))
  }

  lemma {:induction false} RunsAreVouched(users: seq<User>, events: seq<Event>)
    requires AllAboutInitiated(users, events)
    ensures Vouched(Run(Start(users), events), AdminApproved(users, events), OwnerApproved(users, events))
  {
    if events != [] {
      var n := |events| - 1;
      RunsAreVouched(users, events[..n]);
      KnownInEveryRun(users, events[..n]);
      StepKeepsVouched(Run(Start(users), events[..n]),
                       AdminApproved(users, events[..n]), OwnerApproved(users, events[..n]), events[n]);
    }
  }

  /**
   In every run, however late writes are: no payout is ever initiated, let alone posted, before an owner of its
   company has approved it, and an admin of its company too if the requester needs one.
   */
  lemma NoTransferWithoutApprovals(users: seq<User>, events: seq<Event>, p: nat)
    requires AllAboutInitiated(users, events)
    requires p < |Run(Start(users), events).payouts| && Run(Start(users), events).payouts[p].initiations > 0
    ensures var row := Run(Start(users), events).payouts[p];
            && p in OwnerApproved(users, events)
            && row.user < |users|
            && (NeedsAdmin(users[row.user]) ==> p in AdminApproved(users, events))
  {
    RunsAreVouched(users, events);
    RunGrows(Start(users), events);
    var t := Run(Start(users), events);
    assert RowVouched(t.users, AdminApproved(users, events), OwnerApproved(users, events), p, t.payouts[p]);
  }
}
