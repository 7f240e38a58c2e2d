/** When writes are timely: the money behind each payout, and what the ledger is due for it. */
module PayoutBacking {
  import opened Common
  import opened Ledger
  import opened LedgerProofs
  import opened Payouts
  import opened PayoutPlans
  import opened PayoutLoops
  import opened PayoutProofs
  import opened PayoutTransfers

  predicate InTransit(row: Payout) {
    row.status.TransferInitiated? && row.transferCode.Some?
  }

  /** The payout's allocations, and the amounts of their commissions, are as they were loaded. */
  predicate Fresh(t: Tables, p: nat, loaded: Loaded)
    requires ValidAllocations(t) && LoadedFits(t, loaded)
  {
    forall k :: 0 <= k < |t.allocations| && t.allocations[k].payout == p ==>
      var c := t.allocations[k].commission;
      && k < |loaded.allocations| && loaded.allocations[k] == t.allocations[k]
      && loaded.commissions[c].reserved == t.commissions[c].reserved
  }

  /**
   The check behind a write still holds when it is made; webhooks report success and failure of a
   transfer under way and the reversal of one that succeeded, on rows that are as they were loaded.
   */
  predicate CallTimely(t: Tables, call: Call)
    requires ValidAllocations(t) && CallFits(t, call)
  {
    match call
    case AdminApproving(p, _) => t.payouts[p].status.PendingAdminApproval?
    case CompanyApproving(p, _) => t.payouts[p].status.PendingCompanyApproval?
    case Preparing(p, status) => t.payouts[p].status == status
    case Starting(p) => t.payouts[p].status.Approved?
    case Attempting(p, initiation) => Attemptable(t.payouts[p]) && initiation == t.payouts[p].initiations
    case Handling(p, notice, loaded) =>
      && (if notice.Reversed? then t.payouts[p].status.PaidOut? else InTransit(t.payouts[p]))
      && Fresh(t, p, loaded)
    case _ => true
  }

  predicate Timely(t: Tables, event: Event)
    requires Ready(t)
  {
    match event
    case GivenUp(p) => p < |t.payouts| ==> Attemptable(t.payouts[p])
    case Written(k, _) => k < |t.calls| ==> CallTimely(t, t.calls[k])
    case _ => true
  }

  predicate AllTimely(t: Tables, events: seq<Event>)
    requires Structured(t)
  {
    events == [] ||
    (AllTimely(t, events[..|events| - 1]) && Timely(Run(t, events[..|events| - 1]), events[|events| - 1]))
  }

  lemma TimelyMore(t: Tables, events: seq<Event>, event: Event)
    requires Structured(t) && AllTimely(t, events) && Timely(Run(t, events), event)
    ensures AllTimely(t, events + [event])
  {
    assert (events + [event])[..|events|] == events;
  }

  lemma TimelyLess(t: Tables, events: seq<Event>)
    requires Structured(t) && AllTimely(t, events) && events != []
    ensures AllTimely(t, events[..|events| - 1]) && Timely(Run(t, events[..|events| - 1]), events[|events| - 1])
  {
  }

  lemma AdvancedKeepsTimely(t: Tables, k: nat)
    requires Structured(t) && k < |t.calls|
    ensures Structured(Advanced(t, k)) && CallFits(Advanced(t, k), t.calls[k])
    ensures CallTimely(t, t.calls[k]) ==> CallTimely(Advanced(t, k), t.calls[k])
  {
    AdvancedKeepsStructured(t, k);
  }

  // ---- A fresh load is as good as reading again ----

  lemma {:induction false} FreshFirst(t: Tables, p: nat, loaded: Loaded, move: Move, n: nat)
    requires ValidAllocations(t) && LoadedFits(t, loaded) && Fresh(t, p, loaded) && n <= |loaded.allocations|
    ensures MoveFirst(t, loaded, p, move, n) == MoveFirst(t, Now(t), p, move, n)
  {
    if n > 0 {
      FreshFirst(t, p, loaded, move, n - 1);
      assert Selected(loaded.allocations[n - 1], p, move) <==> Selected(t.allocations[n - 1], p, move);
    }
  }

  lemma {:induction false} NothingBeyond(t: Tables, p: nat, move: Move, from: nat, n: nat)
    requires ValidAllocations(t) && from <= n <= |t.allocations|
    requires forall k :: from <= k < n ==> t.allocations[k].payout != p
    ensures MoveFirst(t, Now(t), p, move, n) == MoveFirst(t, Now(t), p, move, from)
  {
    if from < n {
      NothingBeyond(t, p, move, from, n - 1);
    }
  }

  lemma FreshIsNow(t: Tables, p: nat, loaded: Loaded, move: Move)
    requires ValidAllocations(t) && LoadedFits(t, loaded) && Fresh(t, p, loaded)
    ensures MoveAll(t, loaded, p, move) == MoveAll(t, Now(t), p, move)
  {
    FreshFirst(t, p, loaded, move, |loaded.allocations|);
    NothingBeyond(t, p, move, |loaded.allocations|, |t.allocations|);
  }

  /** A fresh load is current. */
  lemma FreshIsCurrent(t: Tables, p: nat, loaded: Loaded, move: Move)
    requires ValidAllocations(t) && LoadedFits(t, loaded) && Fresh(t, p, loaded)
    ensures Current(t, loaded, p, move)
  {
    forall k | 0 <= k < |loaded.allocations| && Selected(loaded.allocations[k], p, move)
      ensures CurrentAt(t, loaded, k)
    {
      assert t.allocations[k].payout == p;
    }
  }

  lemma TimelyIsCurrent(t: Tables, event: Event)
    requires Structured(t) && Timely(t, event)
    ensures WritesCurrent(t, event) && CommitBelongs(t, event)
  {
    if event.Written? && event.call < |t.calls| && t.calls[event.call].Handling? {
      var call := t.calls[event.call];
      FreshIsCurrent(t, call.payout, call.loaded, NoticeMove(call.notice));
    }
  }

  /**
   Timely runs are among those that keep reservations in agreement, and their attempts do not overlap: reserved
   amounts are the sum of reservations, and initiations are posted in order, each at most once.
   */
  lemma {:induction false} TimelyRunsAgree(users: seq<User>, events: seq<Event>)
    requires AllTimely(Start(users), events)
    ensures AllCurrent(Start(users), events) && Consistent(Run(Start(users), events))
    ensures AttemptsApart(Start(users), events) && TransfersAgree(Run(Start(users), events))
    ensures AgreesThroughout(Start(users), events)
  {
    if events != [] {
      var n := |events| - 1;
      var before := Run(Start(users), events[..n]);
      TimelyRunsAgree(users, events[..n]);
      TimelyIsCurrent(before, events[n]);
      KnownInEveryRun(users, events[..n]);
      StepAgreesExactlyWhenItBelongs(before, events[n]);
    }
    CurrentRunsAreConsistent(users, events);
    TransfersPostAtMostOnce(users, events);
  }

  // ---- Allocations share the status that goes with their payout's ----

  predicate AllIn(allocations: seq<Allocation>, p: nat, status: AllocationStatus) {
    forall k :: 0 <= k < |allocations| && allocations[k].payout == p ==> allocations[k].status == status
  }

  predicate Uniform(t: Tables, p: nat)
    requires p < |t.payouts|
  {
    match t.payouts[p].status
    case PaidOut => AllIn(t.allocations, p, Paid)
    case TransferFailed => AllIn(t.allocations, p, Released) || AllIn(t.allocations, p, Reserved)
    case _ => AllIn(t.allocations, p, Reserved)
  }

  predicate AllUniform(t: Tables) {
    forall p :: 0 <= p < |t.payouts| ==> Uniform(t, p)
  }

  lemma MoveStatuses(t: Tables, p: nat, move: Move, q: nat, status: AllocationStatus)
    requires ValidAllocations(t) && AllIn(t.allocations, q, status)
    ensures AllIn(MoveAll(t, Now(t), p, move).allocations, q,
                  if q == p && status == move.From() then move.To() else status)
  {
    MovedAllocations(t, Now(t), p, move, |t.allocations|);
  }

  lemma MoveKeepsOthersUniform(t: Tables, p: nat, move: Move, q: nat)
    requires ValidAllocations(t) && q < |t.payouts| && q != p && Uniform(t, q)
    ensures Uniform(MoveAll(t, Now(t), p, move), q)
  {
    if AllIn(t.allocations, q, Reserved) {
      MoveStatuses(t, p, move, q, Reserved);
    }
    if AllIn(t.allocations, q, Paid) {
      MoveStatuses(t, p, move, q, Paid);
    }
    if AllIn(t.allocations, q, Released) {
      MoveStatuses(t, p, move, q, Released);
    }
  }

  /** A payout's allocations are moved and its status set to the one that goes with them. */
  lemma MovedUniform(t: Tables, p: nat, move: Move, r: Tables, from: AllocationStatus)
    requires ValidAllocations(t) && AllUniform(t) && p < |t.payouts| && AllIn(t.allocations, p, from)
    requires r.allocations == MoveAll(t, Now(t), p, move).allocations && |r.payouts| == |t.payouts|
    requires forall q :: 0 <= q < |t.payouts| && q != p ==> r.payouts[q] == t.payouts[q]
    requires var moved := if from == move.From() then move.To() else from;
             match r.payouts[p].status
             case PaidOut => moved == Paid
             case TransferFailed => moved == Released || moved == Reserved
             case _ => moved == Reserved
    ensures AllUniform(r)
  {
    MoveStatuses(t, p, move, p, from);
    forall q | 0 <= q < |r.payouts| ensures Uniform(r, q) {
      assert Uniform(t, q);
      if q != p {
        MoveKeepsOthersUniform(t, p, move, q);
        assert Uniform(MoveAll(t, Now(t), p, move), q);
      }
    }
  }

  /** Allocations stay, and a payout whose status changes is not a paid or released one. */
  lemma ColumnsKeepUniform(t: Tables, r: Tables)
    requires AllUniform(t) && r.allocations == t.allocations && |r.payouts| == |t.payouts|
    requires forall q :: 0 <= q < |t.payouts| ==>
               || r.payouts[q].status == t.payouts[q].status
               || (!t.payouts[q].status.PaidOut? && !t.payouts[q].status.TransferFailed?
                   && !r.payouts[q].status.PaidOut?)
    ensures AllUniform(r)
  {
    forall q | 0 <= q < |r.payouts| ensures Uniform(r, q) {
      assert Uniform(t, q);
    }
  }

  lemma RequestKeepsUniform(t: Tables, user: nat, amount: Money)
    requires ValidAllocations(t) && AllUniform(t) && MayRequest(t, user, amount)
    ensures AllUniform(Request(t, user, amount))
  {
    RequestFrame(t, user, amount);
    var r := Request(t, user, amount);
    forall q | 0 <= q < |r.payouts| ensures Uniform(r, q) {
      if q < |t.payouts| {
        assert Uniform(t, q);
        assert forall status :: AllIn(t.allocations, q, status) ==> AllIn(r.allocations, q, status);
      } else {
        assert AllIn(r.allocations, q, Reserved);
      }
    }
  }

  lemma PrepareKeepsUniform(t: Tables, p: nat, status: PayoutStatus)
    requires ValidAllocations(t) && AllUniform(t) && p < |t.payouts| && t.payouts[p].status == status
    requires status.TransferFailed? || status.TransferReversed?
    ensures AllUniform(Prepare(t, p, status))
  {
    assert Uniform(t, p);
    if status.TransferReversed? {
      ColumnsKeepUniform(t, Prepare(t, p, status));
    } else if AllIn(t.allocations, p, Released) {
      MovedUniform(t, p, ReReserve, Prepare(t, p, status), Released);
    } else {
      MovedUniform(t, p, ReReserve, Prepare(t, p, status), Reserved);
    }
  }

  lemma NoticeKeepsUniform(t: Tables, p: nat, notice: Notice, loaded: Loaded)
    requires ValidAllocations(t) && AllUniform(t) && CallFits(t, Handling(p, notice, loaded))
    requires CallTimely(t, Handling(p, notice, loaded))
    ensures AllUniform(WriteNotice(t, p, notice, loaded))
  {
    assert Uniform(t, p);
    FreshIsNow(t, p, loaded, NoticeMove(notice));
    MovedUniform(t, p, NoticeMove(notice), WriteNotice(t, p, notice, loaded),
                 if notice.Reversed? then Paid else Reserved);
  }

  lemma WriteKeepsUniform(t: Tables, call: Call, code: nat)
    requires ValidAllocations(t) && AllUniform(t) && CallFits(t, call) && CallTimely(t, call)
    ensures AllUniform(WriteCall(t, call, code))
  {
    if call.Requesting? {
      if MayRequest(t, call.user, call.amount) {
        RequestKeepsUniform(t, call.user, call.amount);
      }
    } else if call.Preparing? {
      PrepareKeepsUniform(t, call.payout, call.status);
    } else if call.Handling? {
      NoticeKeepsUniform(t, call.payout, call.notice, call.loaded);
    } else {
      ColumnsKeepUniform(t, WriteCall(t, call, code));
    }
  }

  lemma StepKeepsUniform(t: Tables, event: Event)
    requires Structured(t) && AllUniform(t) && Timely(t, event)
    ensures AllUniform(Step(t, event))
  {
    if event.Written? && event.call < |t.calls| {
      AdvancedKeepsTimely(t, event.call);
      ColumnsKeepUniform(t, Advanced(t, event.call));
      WriteKeepsUniform(Advanced(t, event.call), t.calls[event.call], event.code);
    } else {
      ColumnsKeepUniform(t, Step(t, event));
    }
  }

  lemma {:induction false} TimelyRunsAreUniform(users: seq<User>, events: seq<Event>)
    requires AllTimely(Start(users), events)
    ensures AllUniform(Run(Start(users), events))
  {
    if events != [] {
      TimelyRunsAreUniform(users, events[..|events| - 1]);
      StepKeepsUniform(Run(Start(users), events[..|events| - 1]), events[|events| - 1]);
    }
  }

  // ---- Money behind a payout ----

  lemma {:induction false} BackingOfUniform(
      allocations: seq<Allocation>, p: nat, held: AllocationStatus, status: AllocationStatus)
    requires AllIn(allocations, p, held)
    ensures Backing(allocations, p, status) == if status == held then Allocated(allocations, p) else 0.0
  {
    if allocations != [] {
      BackingOfUniform(allocations[..|allocations| - 1], p, held, status);
    }
  }

  /**
   In every run whose writes are timely a payout is backed in full: what is in transit is reserved to the
   last cent, and what was paid out was taken from commissions, neither more nor less.
   */
  lemma PayoutsAreBacked(users: seq<User>, events: seq<Event>, p: nat)
    requires AllTimely(Start(users), events)
    requires p < |Run(Start(users), events).payouts|
    ensures var t := Run(Start(users), events);
            && Backing(t.allocations, p, Paid) == (if t.payouts[p].status.PaidOut? then t.payouts[p].amount else 0.0)
            && (t.payouts[p].status.TransferInitiated? ==> Backing(t.allocations, p, Reserved) == t.payouts[p].amount)
  {
    TimelyRunsAreUniform(users, events);
    UniformIsBacked(Run(Start(users), events), p);
  }

  lemma UniformIsBacked(t: Tables, p: nat)
    requires RowsSound(t) && p < |t.payouts| && Uniform(t, p)
    ensures Backing(t.allocations, p, Paid) == if t.payouts[p].status.PaidOut? then t.payouts[p].amount else 0.0
    ensures t.payouts[p].status.TransferInitiated? ==> Backing(t.allocations, p, Reserved) == t.payouts[p].amount
  {
    if AllIn(t.allocations, p, Reserved) {
      BackingOfUniform(t.allocations, p, Reserved, Paid);
      BackingOfUniform(t.allocations, p, Reserved, Reserved);
    }
    if AllIn(t.allocations, p, Paid) {
      BackingOfUniform(t.allocations, p, Paid, Paid);
    }
    if AllIn(t.allocations, p, Released) {
      BackingOfUniform(t.allocations, p, Released, Paid);
    }
  }

  // ---- What the ledger is due ----

  /** What a payout should have moved on an account by now, as a net debit. */
  function Due(row: Payout, account: string): Money {
    if account == COMMISSION_PAYABLE then (if InTransit(row) || row.status.PaidOut? then row.amount else 0.0)
    else if account == PAYOUTS_IN_TRANSIT then (if InTransit(row) then -row.amount else 0.0)
    else if account == BANK_SETTLED then (if row.status.PaidOut? then -row.amount else 0.0)
    else 0.0
  }

  function DueColumn(payouts: seq<Payout>, account: string, tenant: Tenant): (column: seq<Money>)
    ensures |column| == |payouts|
  {
    seq(|payouts|, p requires 0 <= p < |payouts| =>
      if TenantOf(Some(payouts[p].company)) == tenant then Due(payouts[p], account) else 0.0)
  }

  function TotalDue(payouts: seq<Payout>, account: string, tenant: Tenant): Money {
    Sum(DueColumn(payouts, account, tenant))
  }

  lemma ChangedRow(payouts: seq<Payout>, p: nat, row: Payout, account: string, tenant: Tenant)
    requires p < |payouts| && row.company == payouts[p].company
    ensures TotalDue(payouts[p := row], account, tenant)
         == TotalDue(payouts, account, tenant)
            + (if TenantOf(Some(row.company)) == tenant then Due(row, account) - Due(payouts[p], account) else 0.0)
  {
    var column := DueColumn(payouts, account, tenant);
    var part := if TenantOf(Some(row.company)) == tenant then Due(row, account) else 0.0;
    assert DueColumn(payouts[p := row], account, tenant) == column[p := part];
    SumUpdate(column, p, part);
  }

  lemma AddedRow(payouts: seq<Payout>, row: Payout, account: string, tenant: Tenant)
    requires !InTransit(row) && !row.status.PaidOut?
    ensures TotalDue(payouts + [row], account, tenant) == TotalDue(payouts, account, tenant)
  {
    var column := DueColumn(payouts, account, tenant);
    assert DueColumn(payouts + [row], account, tenant) == column + [0.0];
    SumAppend(column, 0.0);
  }

  predicate IsTransferAccount(account: string) {
    account == COMMISSION_PAYABLE || account == PAYOUTS_IN_TRANSIT || account == BANK_SETTLED
  }

  function NetIfAny(posting: Option<Posting>, account: string): Money {
    if posting.Some? then NamedNet(posting.value.entries, account) else 0.0
  }

  /** The posting of a timely write is balanced, on the payout's company, and just what the row's change is due. */
  lemma PostingIsDue(t: Tables, call: Call, code: nat, account: string)
    requires ValidAllocations(t) && CallFits(t, call) && CallTimely(t, call) && IsAboutRow(call)
    requires IsTransferAccount(account)
    ensures var row := t.payouts[call.payout];
            var posting := PostingOfCall(t, call);
            && NetIfAny(posting, account) == Due(RowAfter(row, call, code), account) - Due(row, account)
            && (posting.Some? ==> Balanced(posting.value.entries) && posting.value.companyId == Some(row.company))
  {
    var posting := PostingOfCall(t, call);
    if posting.Some? {
      PairNet(posting.value.entries[0], posting.value.entries[1], account);
      assert posting.value.entries == [posting.value.entries[0], posting.value.entries[1]];
    }
  }

  /** What a notice posts on an account is what its change of the row is due there. */
  predicate NoticeIsDue(row: Payout, notice: Notice, p: nat, account: string) {
    NamedNet(NoticePosting(notice, p, row).entries, account)
    == Due(row.(status := NoticeStatus(notice)), account) - Due(row, account)
  }

  lemma NoticeMoves(row: Payout, notice: Notice, p: nat, account: string)
    ensures NamedNet(NoticePosting(notice, p, row).entries, account)
         == match notice
            case Succeeded => PairPart(PAYOUTS_IN_TRANSIT, BANK_SETTLED, row.amount, account)
            case Failed => PairPart(PAYOUTS_IN_TRANSIT, COMMISSION_PAYABLE, row.amount, account)
            case Reversed => PairPart(BANK_SETTLED, COMMISSION_PAYABLE, row.amount, account)
  {
    var entries := NoticePosting(notice, p, row).entries;
    PairBalances(entries, entries[0].accountName, entries[1].accountName, row.amount, account);
  }

  /**
   A notice posts what is due if and only if it is written in time: of success or failure while the transfer is
   under way, of a reversal while the payout is paid.  A second delivery never is.
   */
  lemma NoticeIsDueExactlyInTime(row: Payout, notice: Notice, p: nat)
    requires row.amount != 0.0
    ensures && NoticeIsDue(row, notice, p, COMMISSION_PAYABLE)
            && NoticeIsDue(row, notice, p, PAYOUTS_IN_TRANSIT)
            && NoticeIsDue(row, notice, p, BANK_SETTLED)
       <==> if notice.Reversed? then row.status.PaidOut? else InTransit(row)
  {
    NoticeMoves(row, notice, p, COMMISSION_PAYABLE);
    NoticeMoves(row, notice, p, PAYOUTS_IN_TRANSIT);
    NoticeMoves(row, notice, p, BANK_SETTLED);
  }

  /** The ledger moves on an account by what the payout table is due there, whatever else is in the ledger. */
  ghost predicate FollowsOn(t: Tables, r: Tables, account: string, tenant: Tenant) {
    Position(r.books, account, tenant) - Position(t.books, account, tenant)
    == TotalDue(r.payouts, account, tenant) - TotalDue(t.payouts, account, tenant)
  }

  lemma WriteFollows(t: Tables, call: Call, code: nat, account: string, tenant: Tenant)
    requires ValidAllocations(t) && CallFits(t, call) && CallTimely(t, call) && IsTransferAccount(account)
    ensures FollowsOn(t, WriteCall(t, call, code), account, tenant)
  {
    WriteRows(t, call, code);
    WritePosts(t, call, code);
    if IsAboutRow(call) {
      var row := t.payouts[call.payout];
      ChangedRow(t.payouts, call.payout, RowAfter(row, call, code), account, tenant);
      PostingIsDue(t, call, code, account);
      var posting := PostingOfCall(t, call);
      if posting.Some? {
        PostPosition(t.books, posting.value, account, tenant);
      }
    } else if call.Requesting? && MayRequest(t, call.user, call.amount) {
      var payouts := WithPayout(t, call.user, call.amount).payouts;
      AddedRow(t.payouts, payouts[|t.payouts|], account, tenant);
    }
  }

  lemma GivenUpFollows(t: Tables, p: nat, account: string, tenant: Tenant)
    requires Ready(t) && Timely(t, GivenUp(p)) && IsTransferAccount(account)
    ensures FollowsOn(t, Step(t, GivenUp(p)), account, tenant)
  {
    if p < |t.payouts| {
      ChangedRow(t.payouts, p, t.payouts[p].(status := TransferFailed), account, tenant);
    }
  }

  /** Every timely step moves COMMISSION_PAYABLE, PAYOUTS_IN_TRANSIT and BANK_SETTLED as the payouts are due. */
  lemma StepFollows(t: Tables, event: Event, account: string, tenant: Tenant)
    requires Structured(t) && Timely(t, event) && IsTransferAccount(account)
    ensures FollowsOn(t, Step(t, event), account, tenant)
  {
    if event.GivenUp? {
      GivenUpFollows(t, event.payout, account, tenant);
    } else if event.Written? && event.call < |t.calls| {
      AdvancedKeepsTimely(t, event.call);
      WriteFollows(Advanced(t, event.call), t.calls[event.call], event.code, account, tenant);
    } else {
      StepPosts(t, event);
      assert Step(t, event).payouts == t.payouts;
    }
  }

  // ---- Failure undone ----

  /** Releasing a payout's reservations and taking them again puts every row back as it was. */
  lemma ReleaseThenReReserve(t: Tables, p: nat)
    requires Consistent(t) && AllIn(t.allocations, p, Reserved)
    ensures var released := MoveAll(t, Now(t), p, Release);
            && ValidAllocations(released)
            && AllIn(released.allocations, p, Released)
            && var restored := MoveAll(released, Now(released), p, ReReserve);
               && restored.allocations == t.allocations
               && forall c :: 0 <= c < |t.commissions| ==>
                    restored.commissions[c].reserved == t.commissions[c].reserved
  {
    var released := MoveAll(t, Now(t), p, Release);
    var restored := MoveAll(released, Now(released), p, ReReserve);
    MoveKeepsRows(t, Now(t), p, Release);
    MoveNowAgrees(t, p, Release);
    MoveNowAgrees(released, p, ReReserve);
    MovedAllocations(t, Now(t), p, Release, |t.allocations|);
    MovedAllocations(released, Now(released), p, ReReserve, |t.allocations|);
    forall k | 0 <= k < |t.allocations| ensures restored.allocations[k] == t.allocations[k] {
      assert t.allocations[k].payout == p ==> t.allocations[k].status == Reserved;
    }
    assert restored.allocations == t.allocations;
  }
}
