/**
 What every run of payout requests, transfers and webhooks keeps, and which late writes of the
 webhooks break the agreement of reserved amounts with reservations.
 */
module PayoutProofs {
  import opened Common
  import opened Ledger
  import opened Payouts
  import opened PayoutPlans
  import opened PayoutLoops

  /** What no order of events can break: foreign keys, keys, and payouts that are the sum of their allocations. */
  predicate RowsSound(t: Tables) {
    && ValidAllocations(t)
    && PositiveAllocations(t.allocations)
    && OneAllocationPerPair(t.allocations)
    && forall p :: 0 <= p < |t.payouts| ==> Allocated(t.allocations, p) == t.payouts[p].amount
  }

  predicate Structured(t: Tables) {
    RowsSound(t) && Ready(t)
  }

  predicate Consistent(t: Tables) {
    Structured(t) && ReservationsAgree(t)
  }

  /** No commissions and no payouts yet. */
  function Start(users: seq<User>): (t: Tables)
    ensures Consistent(t)
  {
    Tables(users, [], [], [], [], EMPTY_BOOKS, [])
  }

  // ---- Rows only get added ----

  predicate Grows(t: Tables, r: Tables) {
    && r.users == t.users
    && |t.payouts| <= |r.payouts|
    && LoadedFits(r, Now(t))
  }

  lemma CallStillFits(t: Tables, r: Tables, call: Call)
    requires CallFits(t, call) && Grows(t, r)
    ensures CallFits(r, call)
  {
    if call.Handling? {
      var loaded := call.loaded;
      forall k | 0 <= k < |loaded.allocations|
        ensures loaded.allocations[k] == r.allocations[k].(status := loaded.allocations[k].status)
      {
        assert Now(t).allocations[k] == r.allocations[k].(status := t.allocations[k].status);
      }
      forall c | 0 <= c < |loaded.commissions|
        ensures loaded.commissions[c].owner == r.commissions[c].owner
        ensures loaded.commissions[c].amount == r.commissions[c].amount
      {
        assert Now(t).commissions[c].owner == r.commissions[c].owner;
      }
    }
  }

  lemma GrowingKeepsReady(t: Tables, r: Tables)
    requires Ready(t) && Grows(t, r) && r.calls == t.calls && ValidAllocations(r)
    ensures Ready(r)
  {
    forall k | 0 <= k < |r.calls| ensures CallFits(r, r.calls[k]) {
      CallStillFits(t, r, t.calls[k]);
    }
  }

  lemma RequestKeepsAllocations(t: Tables, user: nat, amount: Money)
    requires RowsSound(t) && MayRequest(t, user, amount)
    ensures var r := Request(t, user, amount);
            ValidAllocations(r) && PositiveAllocations(r.allocations) && OneAllocationPerPair(r.allocations)
  {
    var plan := Plan(t.commissions, EligibleIds(t.commissions, user), amount);
    FifoFits(t, user, amount);
    RequestKeepsKeys(t, |t.payouts|, plan);
    ReserveSharesFrame(WithPayout(t, user, amount), |t.payouts|, plan);
  }

  lemma RequestGrows(t: Tables, user: nat, amount: Money)
    requires RowsSound(t) && MayRequest(t, user, amount)
    ensures Grows(t, Request(t, user, amount))
    ensures Request(t, user, amount).payouts == WithPayout(t, user, amount).payouts
  {
    ReserveSharesFrame(WithPayout(t, user, amount), |t.payouts|,
                       Plan(t.commissions, EligibleIds(t.commissions, user), amount));
  }

  lemma RequestKeepsRows(t: Tables, user: nat, amount: Money)
    requires RowsSound(t) && MayRequest(t, user, amount)
    ensures RowsSound(Request(t, user, amount)) && Grows(t, Request(t, user, amount))
  {
    var r := Request(t, user, amount);
    RequestKeepsAllocations(t, user, amount);
    RequestGrows(t, user, amount);
    forall p | 0 <= p < |r.payouts| ensures Allocated(r.allocations, p) == r.payouts[p].amount {
      RequestKeepsAllocated(t, user, amount, p);
    }
  }

  lemma MoveKeepsRows(t: Tables, loaded: Loaded, payout: nat, move: Move)
    requires RowsSound(t) && LoadedFits(t, loaded)
    ensures RowsSound(MoveAll(t, loaded, payout, move)) && Grows(t, MoveAll(t, loaded, payout, move))
  {
    var r := MoveAll(t, loaded, payout, move);
    forall c | 0 <= c < |t.commissions|
      ensures r.commissions[c].owner == t.commissions[c].owner && r.commissions[c].amount == t.commissions[c].amount
    {
      MovedCommission(t, loaded, payout, move, |loaded.allocations|, c);
    }
    forall k | 0 <= k < |t.allocations|
      ensures r.allocations[k] == t.allocations[k].(status := r.allocations[k].status)
    {
    }
    forall p | 0 <= p < |r.payouts| ensures Allocated(r.allocations, p) == r.payouts[p].amount {
      AllocatedSame(t.allocations, r.allocations, p);
    }
  }

  /** Payout columns other than the amount have no part in the structure. */
  lemma ColumnsKeepRows(t: Tables, r: Tables)
    requires RowsSound(t) && r.users == t.users && r.commissions == t.commissions && r.allocations == t.allocations
    requires |r.payouts| == |t.payouts|
    requires forall p :: 0 <= p < |t.payouts| ==> r.payouts[p].amount == t.payouts[p].amount
    ensures RowsSound(r) && Grows(t, r)
  {
  }

  lemma GrowsTwice(a: Tables, b: Tables, c: Tables)
    requires Grows(a, b) && Grows(b, c)
    ensures Grows(a, c)
  {
    forall k | 0 <= k < |a.allocations|
      ensures a.allocations[k] == c.allocations[k].(status := a.allocations[k].status)
    {
      assert Now(a).allocations[k] == b.allocations[k].(status := a.allocations[k].status);
      assert Now(b).allocations[k] == c.allocations[k].(status := b.allocations[k].status);
    }
    forall i | 0 <= i < |a.commissions|
      ensures a.commissions[i].owner == c.commissions[i].owner && a.commissions[i].amount == c.commissions[i].amount
    {
      assert Now(a).commissions[i].owner == b.commissions[i].owner;
      assert Now(b).commissions[i].owner == c.commissions[i].owner;
    }
  }

  lemma PrepareKeepsRows(t: Tables, p: nat, status: PayoutStatus)
    requires RowsSound(t) && p < |t.payouts|
    ensures RowsSound(Prepare(t, p, status)) && Grows(t, Prepare(t, p, status))
  {
    var moved := if status.TransferFailed? then MoveAll(t, Now(t), p, ReReserve) else t;
    MoveKeepsRows(t, Now(t), p, ReReserve);
    ColumnsKeepRows(moved, Prepare(t, p, status));
    GrowsTwice(t, moved, Prepare(t, p, status));
  }

  lemma WriteNoticeKeepsRows(t: Tables, p: nat, notice: Notice, loaded: Loaded)
    requires RowsSound(t) && p < |t.payouts| && LoadedFits(t, loaded)
    ensures RowsSound(WriteNotice(t, p, notice, loaded)) && Grows(t, WriteNotice(t, p, notice, loaded))
  {
    var moved := MoveAll(t, loaded, p, NoticeMove(notice));
    MoveKeepsRows(t, loaded, p, NoticeMove(notice));
    ColumnsKeepRows(moved, WriteNotice(t, p, notice, loaded));
    GrowsTwice(t, moved, WriteNotice(t, p, notice, loaded));
  }

  lemma WriteKeepsRows(t: Tables, call: Call, code: nat)
    requires RowsSound(t) && CallFits(t, call)
    ensures var r := WriteCall(t, call, code);
            RowsSound(r) && Grows(t, r) && r.calls == t.calls
  {
    match call
    case Requesting(user, amount) =>
      if MayRequest(t, user, amount) {
        RequestKeepsRows(t, user, amount);
        RequestCalls(t, user, amount);
      }
    case Preparing(p, status) => PrepareKeepsRows(t, p, status);
    case Handling(p, notice, loaded) => WriteNoticeKeepsRows(t, p, notice, loaded);
    case _ => ColumnsKeepRows(t, WriteCall(t, call, code));
  }

  lemma RequestCalls(t: Tables, user: nat, amount: Money)
    requires MayRequest(t, user, amount)
    ensures Request(t, user, amount).calls == t.calls
  {
    ReserveSharesFrame(WithPayout(t, user, amount), |t.payouts|,
                       Plan(t.commissions, EligibleIds(t.commissions, user), amount));
  }

  lemma AdvancedKeepsStructured(t: Tables, k: nat)
    requires Structured(t) && k < |t.calls|
    ensures Structured(Advanced(t, k)) && CallFits(Advanced(t, k), t.calls[k])
  {
    var r := Advanced(t, k);
    ColumnsKeepRows(t, r);
    forall j | 0 <= j < |r.calls| ensures CallFits(r, r.calls[j]) {
      CallStillFits(t, r, t.calls[j]);
    }
    CallStillFits(t, r, t.calls[k]);
  }

  lemma WrittenKeepsStructured(t: Tables, k: nat, code: nat)
    requires Structured(t)
    ensures Structured(Step(t, Written(k, code)))
  {
    if k < |t.calls| {
      var before := Advanced(t, k);
      AdvancedKeepsStructured(t, k);
      WriteKeepsRows(before, t.calls[k], code);
      GrowingKeepsReady(before, WriteCall(before, t.calls[k], code));
    }
  }

  lemma RememberKeepsStructured(t: Tables, call: Call)
    requires Structured(t) && CallFits(t, call)
    ensures Structured(Remember(t, call))
  {
    var r := Remember(t, call);
    ColumnsKeepRows(t, r);
    forall k | 0 <= k < |r.calls| ensures CallFits(r, r.calls[k]) {
      CallStillFits(t, r, r.calls[k]);
    }
  }

  lemma AccruedKeepsStructured(t: Tables, owner: nat, accrued: Money)
    requires Structured(t)
    ensures Structured(Step(t, Accrued(owner, accrued)))
  {
    GrowingKeepsReady(t, Step(t, Accrued(owner, accrued)));
  }

  lemma StepKeepsStructured(t: Tables, event: Event)
    requires Structured(t)
    ensures Structured(Step(t, event))
  {
    if event.Written? {
      WrittenKeepsStructured(t, event.call, event.code);
    } else if event.Accrued? {
      AccruedKeepsStructured(t, event.owner, event.accrued);
    } else if event.GivenUp? {
      var r := Step(t, event);
      ColumnsKeepRows(t, r);
      GrowingKeepsReady(t, r);
    } else {
      CheckKeepsStructured(t, event);
    }
  }

  /** A check leaves the tables alone and may remember a call. */
  predicate IsCheck(event: Event) {
    !event.Written? && !event.Accrued? && !event.GivenUp?
  }

  lemma CheckRemembers(t: Tables, event: Event) returns (call: Call)
    requires Ready(t) && IsCheck(event)
    ensures CallFits(t, call)
    ensures Step(t, event) == t || Step(t, event) == Remember(t, call)
  {
    match event
    case RequestChecked(user, amount) => call := Requesting(user, amount);
    case AdminApprovalChecked(p, actor) =>
      call := if CheckAdminApproval(t, p, actor).None? then AdminApproving(p, actor) else Finished;
    case CompanyApprovalChecked(p, actor) =>
      call := if CheckCompanyApproval(t, p, actor).None? then CompanyApproving(p, actor) else Finished;
    case InitiationChecked(p, actor, hasBank) =>
      call := if CheckInitiation(t, p, actor, hasBank).None?
              then FirstInitiationCall(p, t.payouts[p].status) else Finished;
    case AttemptChecked(p) =>
      call := if p < |t.payouts| then Attempting(p, t.payouts[p].initiations) else Finished;
    case NoticeLoaded(p, notice) => call := if p < |t.payouts| then Handling(p, notice, Now(t)) else Finished;
  }

  lemma CheckKeepsStructured(t: Tables, event: Event)
    requires Structured(t) && IsCheck(event)
    ensures Structured(Step(t, event))
  {
    var call := CheckRemembers(t, event);
    RememberKeepsStructured(t, call);
  }

  /** Every run, in whatever order calls read and write, keeps the structure of the tables. */
  function Run(t: Tables, events: seq<Event>): (r: Tables)
    requires Structured(t)
    ensures Structured(r)
  {
    if events == [] then t
    else
      StepKeepsStructured(Run(t, events[..|events| - 1]), events[|events| - 1]);
      Step(Run(t, events[..|events| - 1]), events[|events| - 1])
  }

  lemma CheckGrows(t: Tables, event: Event)
    requires Structured(t) && IsCheck(event)
    ensures Grows(t, Step(t, event))
  {
    var call := CheckRemembers(t, event);
    ColumnsKeepRows(t, Step(t, event));
  }

  lemma StepGrows(t: Tables, event: Event)
    requires Structured(t)
    ensures Grows(t, Step(t, event))
  {
    if event.Written? && event.call < |t.calls| {
      AdvancedKeepsStructured(t, event.call);
      WriteKeepsRows(Advanced(t, event.call), t.calls[event.call], event.code);
    } else if IsCheck(event) {
      CheckGrows(t, event);
    }
  }

  lemma {:induction false} RunGrows(t: Tables, events: seq<Event>)
    requires Structured(t)
    ensures Grows(t, Run(t, events))
  {
    if events != [] {
      var n := |events| - 1;
      RunGrows(t, events[..n]);
      StepGrows(Run(t, events[..n]), events[n]);
      GrowsTwice(t, Run(t, events[..n]), Run(t, events));
    }
  }

  lemma RunMore(t: Tables, events: seq<Event>, event: Event)
    requires Structured(t)
    ensures Run(t, events + [event]) == Step(Run(t, events), event)
  {
    assert (events + [event])[..|events|] == events;
  }

  // ---- Reserved amounts ----

  /** A write of a webhook handler finds the commissions it writes as far as they matter to it as it loaded them. */
  predicate WritesCurrent(t: Tables, event: Event)
    requires Ready(t)
  {
    event.Written? && event.call < |t.calls| && t.calls[event.call].Handling? ==>
      var call := t.calls[event.call];
      Current(t, call.loaded, call.payout, NoticeMove(call.notice))
  }

  lemma SameColumnsAgree(t: Tables, r: Tables)
    requires r.commissions == t.commissions && r.allocations == t.allocations
    ensures ReservationsAgree(r) <==> ReservationsAgree(t)
  {
    assert forall c :: 0 <= c < |t.commissions| ==> (StatusAgrees(t, c) <==> StatusAgrees(r, c));
  }

  lemma SameColumnsCurrent(t: Tables, r: Tables, loaded: Loaded, payout: nat, move: Move)
    requires r.commissions == t.commissions && r.allocations == t.allocations && LoadedFits(t, loaded)
    ensures LoadedFits(r, loaded)
    ensures Current(r, loaded, payout, move) <==> Current(t, loaded, payout, move)
  {
    assert forall k :: 0 <= k < |loaded.allocations| ==> (CurrentAt(r, loaded, k) <==> CurrentAt(t, loaded, k));
  }

  lemma NoticeAgreesExactlyWhenCurrent(t: Tables, k: nat, code: nat)
    requires Structured(t) && ReservationsAgree(t)
    requires k < |t.calls| && t.calls[k].Handling?
    ensures ReservationsAgree(Step(t, Written(k, code))) <==> WritesCurrent(t, Written(k, code))
  {
    var call := t.calls[k];
    var before := Advanced(t, k);
    AdvancedKeepsStructured(t, k);
    SameColumnsAgree(t, before);
    SameColumnsCurrent(t, before, call.loaded, call.payout, NoticeMove(call.notice));
    MoveAgreesExactlyWhenCurrent(before, call.loaded, call.payout, NoticeMove(call.notice));
    SameColumnsAgree(MoveAll(before, call.loaded, call.payout, NoticeMove(call.notice)), Step(t, Written(k, code)));
  }

  lemma PrepareAgrees(t: Tables, p: nat, status: PayoutStatus)
    requires RowsSound(t) && ReservationsAgree(t) && p < |t.payouts|
    ensures ReservationsAgree(Prepare(t, p, status))
  {
    MoveNowAgrees(t, p, ReReserve);
    SameColumnsAgree(if status.TransferFailed? then MoveAll(t, Now(t), p, ReReserve) else t, Prepare(t, p, status));
  }

  lemma OtherWriteAgrees(t: Tables, call: Call, code: nat)
    requires RowsSound(t) && ReservationsAgree(t) && CallFits(t, call) && !call.Handling?
    ensures ReservationsAgree(WriteCall(t, call, code))
  {
    if call.Requesting? {
      if MayRequest(t, call.user, call.amount) {
        RequestKeepsReservations(t, call.user, call.amount);
      }
    } else if call.Preparing? {
      PrepareAgrees(t, call.payout, call.status);
    } else {
      SameColumnsAgree(t, WriteCall(t, call, code));
    }
  }

  lemma AccruedAgrees(t: Tables, owner: nat, accrued: Money)
    requires RowsSound(t) && Ready(t) && ReservationsAgree(t)
    ensures ReservationsAgree(Step(t, Accrued(owner, accrued)))
  {
    var r := Step(t, Accrued(owner, accrued));
    forall c | 0 <= c < |r.commissions|
      ensures r.commissions[c].reserved == Held(r.allocations, c, Reserved) && StatusAgrees(r, c)
    {
      if c < |t.commissions| {
        assert StatusAgrees(t, c);
      } else {
        HeldOfNone(t.allocations, c, Reserved);
      }
    }
  }

  /**
   Of all events only a webhook's write can part reserved amounts from reservations, and it does so
   exactly when what it loaded is no longer current.
   */
  lemma StepKeepsConsistentExactlyWhenCurrent(t: Tables, event: Event)
    requires Consistent(t)
    ensures Consistent(Step(t, event)) <==> WritesCurrent(t, event)
  {
    StepKeepsStructured(t, event);
    if event.Accrued? {
      AccruedAgrees(t, event.owner, event.accrued);
    } else if !event.Written? {
      SameColumnsAgree(t, Step(t, event));
    } else if event.call < |t.calls| {
      if t.calls[event.call].Handling? {
        NoticeAgreesExactlyWhenCurrent(t, event.call, event.code);
      } else {
        AdvancedKeepsStructured(t, event.call);
        SameColumnsAgree(t, Advanced(t, event.call));
        OtherWriteAgrees(Advanced(t, event.call), t.calls[event.call], event.code);
      }
    }
  }

  predicate AllCurrent(t: Tables, events: seq<Event>)
    requires Structured(t)
  {
    events == [] ||
    (AllCurrent(t, events[..|events| - 1]) && WritesCurrent(Run(t, events[..|events| - 1]), events[|events| - 1]))
  }

  /**
   Every run whose webhooks write on current commissions: what a commission has reserved is the sum of its
   RESERVED allocations; its status is derived from its amounts; and a payout's allocations come to its amount.
   */
  lemma {:induction false} CurrentRunsAreConsistent(users: seq<User>, events: seq<Event>)
    requires AllCurrent(Start(users), events)
    ensures Consistent(Run(Start(users), events))
  {
    if events != [] {
      CurrentRunsAreConsistent(users, events[..|events| - 1]);
      StepKeepsConsistentExactlyWhenCurrent(Run(Start(users), events[..|events| - 1]), events[|events| - 1]);
    }
  }

  lemma ReservedNotNegative(t: Tables, c: nat)
    requires Consistent(t) && c < |t.commissions|
    ensures t.commissions[c].reserved >= 0.0
    ensures Held(t.allocations, c, Paid) == 0.0 && t.commissions[c].amount > 0.0 ==>
              t.commissions[c].status == ReservationStatus(t.commissions[c].reserved, t.commissions[c].amount)
  {
    HeldNotNegative(t.allocations, c, Reserved);
    assert StatusAgrees(t, c);
  }
}
