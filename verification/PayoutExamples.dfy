/** Runs from empty tables in which a promise one might expect of payouts is not kept. */
module PayoutExamples {
  import opened Common
  import opened Ledger
  import opened LedgerProofs
  import opened Payouts
  import opened PayoutPlans
  import opened PayoutLoops
  import opened PayoutProofs
  import opened PayoutTransfers

  const USERS := [User(Marketer, Some("acme"), Some(CompanyOwner)), User(CompanyOwner, Some("acme"), None)]

  /** The tables as they are after these events. */
  ghost predicate Reached(events: seq<Event>, t: Tables) {
    t == Run(Start(USERS), events)
  }

  // ---- Operations, each a check and the write that follows it ----

  lemma Begun() returns (events: seq<Event>, t: Tables)
    ensures Reached(events, t)
    ensures t == Start(USERS).(commissions := [Commission(0, 100.0, 0.0, Active)])
  {
    events, t := Then([], Start(USERS), Accrued(0, 100.0));
  }

  lemma Then(done: seq<Event>, t: Tables, event: Event) returns (events: seq<Event>, r: Tables)
    requires Reached(done, t)
    ensures events == done + [event] && Reached(events, r) && Structured(t) && r == Step(t, event)
  {
    events := done + [event];
    RunMore(Start(USERS), done, event);
    r := Step(t, event);
  }

  lemma RememberedAdvances(t: Tables, call: Call)
    ensures var checked := Remember(t, call);
            && |t.calls| < |checked.calls| && checked.calls[|t.calls|] == call
            && Advanced(checked, |t.calls|) == t.(calls := t.calls + [NextCall(call)])
  {
  }

  /** A check that passes, and at once the write it allows. */
  lemma Operation(done: seq<Event>, t: Tables, check: Event, call: Call, code: nat)
      returns (events: seq<Event>, r: Tables)
    requires Reached(done, t) && Structured(t) && Step(t, check) == Remember(t, call)
    ensures Reached(events, r) && CallFits(t, call)
    ensures var before := t.(calls := t.calls + [NextCall(call)]);
            && CallFits(before, call) && ValidAllocations(before)
            && r == WriteCall(before, call, code)
  {
    var checked;
    events, checked := Then(done, t, check);
    RememberedAdvances(t, call);
    AdvancedKeepsStructured(checked, |t.calls|);
    events, r := Then(events, checked, Written(|t.calls|, code));
  }

  lemma Approves(done: seq<Event>, t: Tables, p: nat) returns (events: seq<Event>, r: Tables)
    requires Reached(done, t) && t.users == USERS && p < |t.payouts|
    requires t.payouts[p].company == "acme" && t.payouts[p].status.PendingCompanyApproval?
    ensures Reached(events, r)
    ensures r == t.(payouts := t.payouts[p := t.payouts[p].(status := Approved)], calls := t.calls + [Finished])
  {
    events, r := Operation(done, t, CompanyApprovalChecked(p, 1), CompanyApproving(p, 1), 0);
  }

  lemma InitiationPasses(t: Tables, p: nat)
    requires Ready(t) && t.users == USERS && p < |t.payouts|
    requires t.payouts[p].company == "acme" && Initiatable(t.payouts[p].status)
    ensures Step(t, InitiationChecked(p, 1, true)) == Remember(t, FirstInitiationCall(p, t.payouts[p].status))
  {
    assert CheckInitiation(t, p, 1, true).None?;
  }

  function Initiated(row: Payout): Payout {
    row.(status := TransferInitiated, transferCode := None, initiations := row.initiations + 1)
  }

  lemma Initiates(done: seq<Event>, t: Tables, p: nat) returns (events: seq<Event>, r: Tables)
    requires Reached(done, t) && t.users == USERS && p < |t.payouts|
    requires t.payouts[p].company == "acme" && t.payouts[p].status.Approved?
    ensures Reached(events, r)
    ensures r == t.(payouts := t.payouts[p := Initiated(t.payouts[p])], calls := t.calls + [Finished])
  {
    InitiationPasses(t, p);
    events, r := Operation(done, t, InitiationChecked(p, 1, true), Starting(p), 0);
  }

  lemma Sends(done: seq<Event>, t: Tables, p: nat, code: nat) returns (events: seq<Event>, r: Tables)
    requires Reached(done, t) && p < |t.payouts| && Attemptable(t.payouts[p])
    ensures Reached(events, r)
    ensures r == t.(payouts := t.payouts[p := t.payouts[p].(transferCode := Some(code))],
                    posted := t.posted + [PostedTransfer(p, t.payouts[p].initiations, code)],
                    books := Post(t.books, InitiationPosting(p, t.payouts[p])),
                    calls := t.calls + [Finished])
  {
    events, r := Operation(done, t, AttemptChecked(p), Attempting(p, t.payouts[p].initiations), code);
  }

  // ---- Requests on one commission ----

  lemma OneCommission(row: Commission, user: nat, amount: Money)
    requires Eligible(row, user) && 0.0 < amount <= Available(row)
    ensures EligibleIds([row], user) == [0]
    ensures TotalAvailable([row], [0]) == Available(row)
    ensures Plan([row], [0], amount) == [Share(0, amount)]
  {
    var rows, ids: seq<nat> := [row], [0];
    assert rows[..0] == [] && ids[..0] == [] && ids[1..] == [];
    assert EligibleIds(rows[..0], user) == [];
    assert TotalAvailable(rows, ids[..0]) == 0.0;
    assert Plan(rows, ids[1..], 0.0) == [];
  }

  function Asked(t: Tables, amount: Money): Tables
    requires |t.commissions| == 1
  {
    var row := t.commissions[0];
    var reserved := row.reserved + amount;
    t.(payouts := t.payouts + [Payout(0, "acme", amount, PendingCompanyApproval, None, 0)],
       allocations := t.allocations + [Allocation(|t.payouts|, 0, amount, Reserved)],
       commissions := [row.(reserved := reserved, status := ReservationStatus(reserved, row.amount))])
  }

  lemma Granted(t: Tables, amount: Money)
    requires t.users == USERS && |t.commissions| == 1 && Eligible(t.commissions[0], 0)
    requires 0.0 < amount <= Available(t.commissions[0])
    ensures MayRequest(t, 0, amount) && Request(t, 0, amount) == Asked(t, amount)
  {
    OneCommission(t.commissions[0], 0, amount);
    assert t.commissions == [t.commissions[0]];
    var extended := WithPayout(t, 0, amount);
    var plan := [Share(0, amount)];
    assert plan[..0] == [];
    assert ReserveShares(extended, t.commissions, |t.payouts|, plan)
        == ReserveShare(extended, t.commissions, |t.payouts|, Share(0, amount));
  }

  lemma Requests(done: seq<Event>, t: Tables, amount: Money) returns (events: seq<Event>, r: Tables)
    requires Reached(done, t) && t.users == USERS && |t.commissions| == 1 && Eligible(t.commissions[0], 0)
    requires 0.0 < amount <= Available(t.commissions[0]) && !HasPayoutInProgress(t, 0)
    ensures Reached(events, r)
    ensures r == Asked(t.(calls := t.calls + [Finished]), amount)
  {
    events, r := Operation(done, t, RequestChecked(0, amount), Requesting(0, amount), 0);
    Granted(t.(calls := t.calls + [Finished]), amount);
  }

  // ---- Notices ----

  /** Exactly this allocation is the payout's. */
  predicate OnlyAllocation(allocations: seq<Allocation>, p: nat, k: nat) {
    && k < |allocations|
    && forall j :: 0 <= j < |allocations| ==> (allocations[j].payout == p <==> j == k)
  }

  /** The notice moves that one allocation, and writes the loaded amount less its share. */
  lemma NoticeOnOne(t: Tables, p: nat, notice: Notice, loaded: Loaded, k: nat)
    requires RowsSound(t) && CallFits(t, Handling(p, notice, loaded)) && !notice.Reversed?
    requires |t.commissions| == 1 && OnlyAllocation(loaded.allocations, p, k) && loaded.allocations[k].status.Reserved?
    ensures var r := WriteNotice(t, p, notice, loaded);
            && |r.commissions| == 1 && r.commissions[0].amount == t.commissions[0].amount
            && r.commissions[0].owner == t.commissions[0].owner
            && r.commissions[0].reserved == loaded.commissions[0].reserved - loaded.allocations[k].amount
            && r.allocations == t.allocations[k := t.allocations[k].(status := NoticeMove(notice).To())]
            && r.payouts == t.payouts[p := t.payouts[p].(status := NoticeStatus(notice))]
            && (StatusAgrees(t, 0) ==> StatusAgrees(r, 0))
            && r.posted == t.posted && r.calls == t.calls && r.users == t.users
            && r.books == Post(t.books, NoticePosting(notice, p, t.payouts[p]))
  {
    var move := NoticeMove(notice);
    var n := |loaded.allocations|;
    MovedAllocations(t, loaded, p, move, n);
    MovedCommission(t, loaded, p, move, n, 0);
    MoveFirstWrites(t, loaded, p, move, n, k);
    if StatusAgrees(t, 0) {
      MoveFirstStatus(t, loaded, p, move, n, 0);
    }
    forall j | 0 <= j < n ensures Selected(loaded.allocations[j], p, move) <==> j == k {
    }
    assert MoveAll(t, loaded, p, move).allocations
        == t.allocations[k := t.allocations[k].(status := move.To())];
  }

  /** A notice that is handled without interruption. */
  lemma Hears(done: seq<Event>, t: Tables, p: nat, notice: Notice, k: nat) returns (events: seq<Event>, r: Tables)
    requires Reached(done, t) && Structured(t) && p < |t.payouts| && !notice.Reversed?
    requires t.payouts[p].status != NoticeStatus(notice)
    requires |t.commissions| == 1 && OnlyAllocation(t.allocations, p, k) && t.allocations[k].status.Reserved?
    ensures Reached(events, r) && Structured(r)
    ensures |r.commissions| == 1 && r.commissions[0].amount == t.commissions[0].amount
    ensures r.commissions[0].owner == t.commissions[0].owner
    ensures r.commissions[0].reserved == t.commissions[0].reserved - t.allocations[k].amount
    ensures r.allocations == t.allocations[k := t.allocations[k].(status := NoticeMove(notice).To())]
    ensures r.payouts == t.payouts[p := t.payouts[p].(status := NoticeStatus(notice))]
    ensures r.posted == t.posted && r.users == t.users && r.calls == t.calls + [Finished]
    ensures StatusAgrees(t, 0) ==> StatusAgrees(r, 0)
  {
    var call := Handling(p, notice, Now(t));
    events, r := Operation(done, t, NoticeLoaded(p, notice), call, 0);
    var before := t.(calls := t.calls + [Finished]);
    ColumnsKeepRows(t, before);
    NoticeOnOne(before, p, notice, Now(t), k);
  }

  // ---- A payout on its way ----

  function SentRow(amount: Money): Payout {
    Payout(0, "acme", amount, TransferInitiated, Some(7), 1)
  }

  /** A payout of `amount` out of 100 is requested, approved, initiated and sent. */
  lemma OneSent(amount: Money) returns (events: seq<Event>, t: Tables)
    requires 0.0 < amount <= 100.0
    ensures Reached(events, t) && Structured(t) && t.users == USERS
    ensures t.commissions == [Commission(0, 100.0, amount, ReservationStatus(amount, 100.0))]
    ensures t.allocations == [Allocation(0, 0, amount, Reserved)] && t.payouts == [SentRow(amount)]
    ensures t.posted == [PostedTransfer(0, 1, 7)]
  {
    events, t := Begun();
    events, t := Requests(events, t, amount);
    events, t := Approves(events, t, 0);
    events, t := Initiates(events, t, 0);
    events, t := Sends(events, t, 0, 7);
  }

  /** A payout that was sent fails; its reservation is released. */
  lemma OneFailed(amount: Money) returns (events: seq<Event>, t: Tables)
    requires 0.0 < amount <= 100.0
    ensures Reached(events, t) && Structured(t) && t.users == USERS
    ensures |t.commissions| == 1 && t.commissions[0].amount == 100.0 && t.commissions[0].reserved == 0.0
    ensures t.commissions[0].owner == 0
    ensures t.allocations == [Allocation(0, 0, amount, Released)]
    ensures t.payouts == [SentRow(amount).(status := TransferFailed)] && t.posted == [PostedTransfer(0, 1, 7)]
    ensures Eligible(t.commissions[0], 0)
  {
    events, t := OneSent(amount);
    events, t := Hears(events, t, 0, Failed, 0);
    HeldOfOne(t.allocations[0], Paid);
    assert t.allocations == [t.allocations[0]];
  }

  lemma HeldOfOne(allocation: Allocation, status: AllocationStatus)
    ensures Held([allocation], 0, status) == HeldPart(allocation, 0, status)
  {
    assert [allocation][..0] == [];
  }

  lemma HeldOfTwo(first: Allocation, second: Allocation, status: AllocationStatus)
    ensures Held([first, second], 0, status) == HeldPart(first, 0, status) + HeldPart(second, 0, status)
  {
    HeldOfOne(first, status);
    HeldAppend([first], second, 0, status);
    assert [first, second] == [first] + [second];
  }

  // ---- The same money twice ----

  /** After 40 of a commission of 100 have been paid out, a request for all 100 of it is granted. */
  lemma SameMoneyPromisedTwice() returns (events: seq<Event>, t: Tables)
    ensures Reached(events, t) && |t.commissions| == 1 && t.commissions[0].amount == 100.0
    ensures Held(t.allocations, 0, Reserved) == 100.0 && Held(t.allocations, 0, Paid) == 40.0
  {
    events, t := OneSent(40.0);
    events, t := Hears(events, t, 0, Succeeded, 0);
    assert t.allocations == [Allocation(0, 0, 40.0, Paid)];
    HeldOfOne(t.allocations[0], Paid);
    assert StatusAgrees(t, 0);
    events, t := Requests(events, t, 100.0);
    assert t.allocations == [Allocation(0, 0, 40.0, Paid), Allocation(1, 0, 100.0, Reserved)];
    HeldOfTwo(t.allocations[0], t.allocations[1], Reserved);
    HeldOfTwo(t.allocations[0], t.allocations[1], Paid);
  }

  // ---- A retry that reserves too much ----

  /** The retry of a failed payout brings its one allocation back, whatever is free. */
  lemma PrepareOnOne(t: Tables, p: nat, k: nat)
    requires RowsSound(t) && p < |t.payouts| && |t.commissions| == 1
    requires OnlyAllocation(t.allocations, p, k) && t.allocations[k].status.Released?
    ensures var r := Prepare(t, p, TransferFailed);
            && |r.commissions| == 1 && r.commissions[0].amount == t.commissions[0].amount
            && r.commissions[0].reserved == t.commissions[0].reserved + t.allocations[k].amount
            && r.allocations == t.allocations[k := t.allocations[k].(status := Reserved)]
            && r.payouts == t.payouts[p := t.payouts[p].(status := Approved)]
            && r.posted == t.posted && r.calls == t.calls && r.users == t.users
  {
    var n := |t.allocations|;
    MovedAllocations(t, Now(t), p, ReReserve, n);
    MovedCommission(t, Now(t), p, ReReserve, n, 0);
    MoveFirstWrites(t, Now(t), p, ReReserve, n, k);
    forall j | 0 <= j < n ensures Selected(t.allocations[j], p, ReReserve) <==> j == k {
    }
    assert MoveAll(t, Now(t), p, ReReserve).allocations == t.allocations[k := t.allocations[k].(status := Reserved)];
  }

  /**
   A payout of 60 fails, the money is requested again while it is free, and then the first payout is
   retried: 120 are reserved on a commission of 100.
   */
  lemma RetryExceedsCommission() returns (events: seq<Event>, t: Tables)
    ensures Reached(events, t) && |t.commissions| == 1
    ensures t.commissions[0].amount == 100.0 && t.commissions[0].reserved == 120.0
  {
    events, t := OneFailed(60.0);
    events, t := Requests(events, t, 60.0);
    var start, before := t, t.(calls := t.calls + [Starting(0)]);
    assert t.allocations == [Allocation(0, 0, 60.0, Released), Allocation(1, 0, 60.0, Reserved)];
    InitiationPasses(start, 0);
    ColumnsKeepRows(start, before);
    PrepareOnOne(before, 0, 0);
    events, t := Operation(events, t, InitiationChecked(0, 1, true), Preparing(0, TransferFailed), 0);
  }

  // ---- Two webhooks that overlap ----

  lemma BothChecked() returns (events: seq<Event>, t: Tables)
    ensures Reached(events, t)
    ensures t == Start(USERS).(commissions := [Commission(0, 100.0, 0.0, Active)],
                               calls := [Requesting(0, 40.0), Requesting(0, 60.0)])
  {
    events, t := Begun();
    events, t := Then(events, t, RequestChecked(0, 40.0));
    events, t := Then(events, t, RequestChecked(0, 60.0));
  }

  lemma Grants(done: seq<Event>, t: Tables, k: nat) returns (events: seq<Event>, r: Tables)
    requires Reached(done, t) && t.users == USERS && k < |t.calls| && t.calls[k].Requesting? && t.calls[k].user == 0
    requires |t.commissions| == 1 && Eligible(t.commissions[0], 0)
    requires 0.0 < t.calls[k].amount <= Available(t.commissions[0])
    ensures Reached(events, r) && r == Asked(Advanced(t, k), t.calls[k].amount)
  {
    Granted(Advanced(t, k), t.calls[k].amount);
    events, r := Then(done, t, Written(k, 0));
  }

  /** Both requests pass the check for a payout in progress before either is written. */
  lemma TwoRequested() returns (events: seq<Event>, t: Tables)
    ensures Reached(events, t) && t.users == USERS && |t.commissions| == 1
    ensures t.commissions[0].amount == 100.0 && t.commissions[0].reserved == 100.0
    ensures t.allocations == [Allocation(0, 0, 40.0, Reserved), Allocation(1, 0, 60.0, Reserved)]
    ensures t.payouts == [Payout(0, "acme", 40.0, PendingCompanyApproval, None, 0),
                          Payout(0, "acme", 60.0, PendingCompanyApproval, None, 0)]
  {
    events, t := BothChecked();
    events, t := Grants(events, t, 0);
    events, t := Grants(events, t, 1);
  }

  lemma Delivers(done: seq<Event>, t: Tables, p: nat) returns (events: seq<Event>, r: Tables)
    requires Reached(done, t) && t.users == USERS && p < |t.payouts|
    requires t.payouts[p] == Payout(0, "acme", t.payouts[p].amount, PendingCompanyApproval, None, 0)
    ensures Reached(events, r) && r.users == USERS
    ensures r.commissions == t.commissions && r.allocations == t.allocations
    ensures r.payouts == t.payouts[p := SentRow(t.payouts[p].amount)]
  {
    events, r := Approves(done, t, p);
    events, r := Initiates(events, r, p);
    events, r := Sends(events, r, p, 7);
  }

  lemma BothSent() returns (events: seq<Event>, t: Tables)
    ensures Reached(events, t) && t.users == USERS && |t.commissions| == 1
    ensures t.commissions[0].amount == 100.0 && t.commissions[0].reserved == 100.0
    ensures t.allocations == [Allocation(0, 0, 40.0, Reserved), Allocation(1, 0, 60.0, Reserved)]
    ensures t.payouts == [SentRow(40.0), SentRow(60.0)]
  {
    events, t := TwoRequested();
    events, t := Delivers(events, t, 0);
    events, t := Delivers(events, t, 1);
  }

  /** A handler that is past its load writes. */
  lemma LateNotice(done: seq<Event>, t: Tables, c: nat, k: nat) returns (events: seq<Event>, r: Tables)
    requires Reached(done, t) && c < |t.calls| && t.calls[c].Handling? && t.calls[c].notice.Failed?
    requires Structured(t) && |t.commissions| == 1
    requires OnlyAllocation(t.calls[c].loaded.allocations, t.calls[c].payout, k)
    requires t.calls[c].loaded.allocations[k].status.Reserved?
    ensures Reached(events, r) && Structured(r) && |r.commissions| == 1
    ensures r.commissions[0].reserved
         == t.calls[c].loaded.commissions[0].reserved - t.calls[c].loaded.allocations[k].amount
    ensures r.allocations == t.allocations[k := t.allocations[k].(status := Released)]
    ensures r.calls == t.calls[c := Finished]
  {
    var call := t.calls[c];
    AdvancedKeepsStructured(t, c);
    NoticeOnOne(Advanced(t, c), call.payout, call.notice, call.loaded, k);
    events, r := Then(done, t, Written(c, 0));
  }

  lemma BothLoaded() returns (events: seq<Event>, t: Tables, c: nat)
    ensures Reached(events, t) && |t.commissions| == 1 && c + 1 < |t.calls|
    ensures t.commissions[0].amount == 100.0 && t.commissions[0].reserved == 100.0
    ensures t.allocations == [Allocation(0, 0, 40.0, Reserved), Allocation(1, 0, 60.0, Reserved)]
    ensures t.calls[c] == Handling(0, Failed, Now(t)) && t.calls[c + 1] == Handling(1, Failed, Now(t))
  {
    events, t := BothSent();
    c := |t.calls|;
    events, t := Then(events, t, NoticeLoaded(0, Failed));
    events, t := Then(events, t, NoticeLoaded(1, Failed));
  }

  /** Nothing is reserved, and 40 are said to be. */
  lemma LostUpdate(t: Tables)
    requires |t.commissions| == 1 && t.commissions[0].reserved == 40.0
    requires t.allocations == [Allocation(0, 0, 40.0, Released), Allocation(1, 0, 60.0, Released)]
    ensures !ReservationsAgree(t)
  {
    HeldOfTwo(t.allocations[0], t.allocations[1], Reserved);
    assert t.allocations == [t.allocations[0], t.allocations[1]];
  }

  /**
   Two transfer.failed notices for payouts on one commission load it while 100 are reserved.  Each writes
   what it loaded less its own share: 40 stay reserved although nothing is.
   */
  lemma OverlappingNoticesLoseAnUpdate() returns (events: seq<Event>, t: Tables)
    ensures Reached(events, t) && |t.commissions| == 1 && t.commissions[0].reserved == 40.0
    ensures t.allocations == [Allocation(0, 0, 40.0, Released), Allocation(1, 0, 60.0, Released)]
    ensures !ReservationsAgree(t)
  {
    var c;
    events, t, c := BothLoaded();
    events, t := LateNotice(events, t, c, 0);
    events, t := LateNotice(events, t, c + 1, 1);
    LostUpdate(t);
  }

  /**
   Two deliveries of one transfer.success both see the payout unpaid.  Both post: twice the amount leaves
   the bank account for one payout.
   */
  lemma OverlappingDeliveriesPostTwice() returns (before: Tables, events: seq<Event>, t: Tables)
    ensures Reached(events, t) && |t.payouts| == 1 && t.payouts[0].status.PaidOut? && t.payouts[0].amount == 40.0
    ensures |before.payouts| == 1 && before.payouts[0] == SentRow(40.0)
    ensures Position(t.books, BANK_SETTLED, Some("acme")) == Position(before.books, BANK_SETTLED, Some("acme")) - 80.0
  {
    events, before := OneSent(40.0);
    events, t := Then(events, before, NoticeLoaded(0, Succeeded));
    var first := |t.calls| - 1;
    events, t := Then(events, t, NoticeLoaded(0, Succeeded));
    var call := Handling(0, Succeeded, Now(before));
    assert t.calls[first] == call && t.calls[first + 1] == call;
    events, t := SecondDelivery(events, t, first);
    events, t := SecondDelivery(events, t, first + 1);
  }

  /** What a delivery of success does to the one payout of 40, whether it is the first or not. */
  lemma DeliversForty(t: Tables, c: nat)
    requires Structured(t) && c < |t.calls| && t.calls[c].Handling? && t.calls[c].notice.Succeeded?
    requires t.calls[c].payout == 0 && |t.payouts| == 1 && |t.commissions| == 1
    requires t.payouts[0].company == "acme" && t.payouts[0].amount == 40.0
    requires OnlyAllocation(t.calls[c].loaded.allocations, 0, 0) && t.calls[c].loaded.allocations[0].status.Reserved?
    ensures var r := Step(t, Written(c, 0));
            && r.calls == t.calls[c := Finished]
            && |r.commissions| == 1 && r.payouts == [t.payouts[0].(status := PaidOut)]
            && r.books == Post(t.books, NoticePosting(Succeeded, 0, t.payouts[0]))
  {
    AdvancedKeepsStructured(t, c);
    NoticeOnOne(Advanced(t, c), 0, Succeeded, t.calls[c].loaded, 0);
  }

  lemma SecondDelivery(done: seq<Event>, t: Tables, c: nat) returns (events: seq<Event>, r: Tables)
    requires Reached(done, t) && c < |t.calls| && t.calls[c].Handling? && t.calls[c].notice.Succeeded?
    requires t.calls[c].payout == 0 && |t.payouts| == 1 && |t.commissions| == 1
    requires t.payouts[0].company == "acme" && t.payouts[0].amount == 40.0
    requires OnlyAllocation(t.calls[c].loaded.allocations, 0, 0) && t.calls[c].loaded.allocations[0].status.Reserved?
    ensures Reached(events, r) && r.calls == t.calls[c := Finished]
    ensures |r.commissions| == 1 && r.payouts == [t.payouts[0].(status := PaidOut)]
    ensures Position(r.books, BANK_SETTLED, Some("acme")) == Position(t.books, BANK_SETTLED, Some("acme")) - 40.0
  {
    events, r := Then(done, t, Written(c, 0));
    DeliversForty(t, c);
    FortyLeave(t.books, t.payouts[0]);
  }

  lemma FortyLeave(books: Books, row: Payout)
    requires row.company == "acme" && row.amount == 40.0
    ensures Position(Post(books, NoticePosting(Succeeded, 0, row)), BANK_SETTLED, Some("acme"))
         == Position(books, BANK_SETTLED, Some("acme")) - 40.0
  {
    var posting := NoticePosting(Succeeded, 0, row);
    PairBalances(posting.entries, PAYOUTS_IN_TRANSIT, BANK_SETTLED, 40.0, BANK_SETTLED);
    PostPosition(books, posting, BANK_SETTLED, Some("acme"));
  }

  // ---- An attempt that commits too late ----

  lemma OneInitiated(amount: Money) returns (events: seq<Event>, t: Tables)
    requires 0.0 < amount <= 100.0
    ensures Reached(events, t) && Structured(t) && t.users == USERS && |t.commissions| == 1 && t.posted == []
    ensures t.allocations == [Allocation(0, 0, amount, Reserved)]
    ensures t.payouts == [Payout(0, "acme", amount, TransferInitiated, None, 1)]
  {
    events, t := Begun();
    events, t := Requests(events, t, amount);
    events, t := Approves(events, t, 0);
    events, t := Initiates(events, t, 0);
  }

  predicate OneRow(payouts: seq<Payout>, row: Payout) {
    |payouts| == 1 && payouts[0] == row
  }

  /** A failed payout is prepared and initiated again. */
  lemma Retries(done: seq<Event>, t: Tables) returns (events: seq<Event>, r: Tables)
    requires Reached(done, t) && t.users == USERS && |t.commissions| == 1 && |t.payouts| == 1
    requires t.payouts[0].company == "acme" && t.payouts[0].status.TransferFailed?
    requires OnlyAllocation(t.allocations, 0, 0) && t.allocations[0].status.Released?
    ensures Reached(events, r) && OneRow(r.payouts, Initiated(t.payouts[0])) && r.posted == t.posted
    ensures r.calls == t.calls + [Finished]
  {
    LastFinished(t.calls);
    var more, prepared := Prepares(done, t);
    events, r := Starts(more, prepared, |t.calls|);
  }

  lemma LastFinished(calls: seq<Call>)
    ensures (calls + [Starting(0)])[|calls| := Finished] == calls + [Finished]
    ensures (calls + [Starting(0)])[|calls|] == Starting(0)
  {
  }

  lemma Prepares(done: seq<Event>, t: Tables) returns (events: seq<Event>, r: Tables)
    requires Reached(done, t) && t.users == USERS && |t.commissions| == 1 && |t.payouts| == 1
    requires t.payouts[0].company == "acme" && t.payouts[0].status.TransferFailed?
    requires OnlyAllocation(t.allocations, 0, 0) && t.allocations[0].status.Released?
    ensures Reached(events, r) && OneRow(r.payouts, t.payouts[0].(status := Approved)) && r.posted == t.posted
    ensures r.calls == t.calls + [Starting(0)]
  {
    InitiationPasses(t, 0);
    var before := t.(calls := t.calls + [Starting(0)]);
    ColumnsKeepRows(t, before);
    PrepareOnOne(before, 0, 0);
    events, r := Operation(done, t, InitiationChecked(0, 1, true), Preparing(0, TransferFailed), 0);
  }

  lemma Starts(done: seq<Event>, t: Tables, k: nat) returns (events: seq<Event>, r: Tables)
    requires Reached(done, t) && k < |t.calls| && t.calls[k] == Starting(0) && |t.payouts| == 1
    ensures Reached(events, r) && OneRow(r.payouts, Initiated(t.payouts[0])) && r.posted == t.posted
    ensures r.calls == t.calls[k := Finished]
  {
    var before := Advanced(t, k);
    assert StartTransfer(before, 0).payouts == [Initiated(t.payouts[0])];
    events, r := Then(done, t, Written(k, 0));
    assert r == WriteCall(before, Starting(0), 0);
  }

  lemma CommitsLate(done: seq<Event>, t: Tables, k: nat) returns (events: seq<Event>, r: Tables)
    requires Reached(done, t) && k < |t.calls| && t.calls[k] == Attempting(0, 1)
    requires |t.payouts| == 1 && t.payouts[0].initiations == 2 && t.posted == []
    ensures Reached(events, r) && r.posted == [PostedTransfer(0, 1, 7)]
    ensures r.payouts == [t.payouts[0].(transferCode := Some(7))]
  {
    events, r := Then(done, t, Written(k, 7));
  }

  lemma CodeOfAnother(t: Tables)
    requires |t.payouts| == 1 && t.payouts[0].initiations == 2 && t.payouts[0].transferCode == Some(7)
    requires t.posted == [PostedTransfer(0, 1, 7)]
    ensures !TransfersAgree(t)
  {
    assert [] + [PostedTransfer(0, 1, 7)] == t.posted;
    CodeOfAppend([], PostedTransfer(0, 1, 7), 0, 2);
    assert !RowCodeAgrees(t, 0);
  }

  /** The transfer is under way at the provider when its failure is reported and the payout initiated again. */
  lemma InitiatedAgain() returns (events: seq<Event>, t: Tables, k: nat)
    ensures Reached(events, t) && k < |t.calls| && t.calls[k] == Attempting(0, 1)
    ensures |t.payouts| == 1 && t.payouts[0].initiations == 2 && t.posted == []
  {
    events, t := OneInitiated(40.0);
    k := |t.calls|;
    events, t := Then(events, t, AttemptChecked(0));
    assert t.calls[k] == Attempting(0, 1);
    events, t := Hears(events, t, 0, Failed, 0);
    events, t := Retries(events, t);
  }

  /**
   The provider accepts a transfer, reports its failure, and the payout is initiated again before the worker
   commits: the code of the first initiation ends up on the second, for which nothing was posted.
   */
  lemma LateCommitMarksTheWrongInitiation() returns (events: seq<Event>, t: Tables)
    ensures Reached(events, t) && |t.payouts| == 1
    ensures t.payouts[0].initiations == 2 && t.payouts[0].transferCode == Some(7)
    ensures t.posted == [PostedTransfer(0, 1, 7)] && !TransfersAgree(t)
  {
    var k;
    events, t, k := InitiatedAgain();
    events, t := CommitsLate(events, t, k);
    CodeOfAnother(t);
  }
}
