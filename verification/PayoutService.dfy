/** Commission, allocation and payout rows as CommissionService, the transfer worker and the webhooks update them. */
module PayoutService {
  import opened Common
  import opened Ledger
  import opened LedgerService
  import opened Payouts
  import opened PayoutPlans
  import opened PayoutProofs
  import opened PayoutBulk

  lemma NoticeFits(t: Tables, p: nat, notice: Notice, others: seq<Event>)
    requires Structured(t) && p < |t.payouts|
    ensures CallFits(Run(t, others), Handling(p, notice, Now(t)))
  {
    RunGrows(t, others);
    CallStillFits(t, Run(t, others), Handling(p, notice, Now(t)));
  }

  class PayoutStore {
    const users: seq<User>
    const ledger: LedgerStore
    var commissions: seq<Commission>
    var allocations: seq<Allocation>
    var payouts: seq<Payout>
    /** The calls that others have in flight. */
    var calls: seq<Call>
    /** The initiations whose pair is in the ledger, in posting order. */
    ghost var posted: seq<PostedTransfer>

    constructor (users: seq<User>)
      ensures State() == Start(users)
      ensures fresh(ledger)
    {
      this.users := users;
      ledger := new LedgerStore();
      commissions, allocations, payouts, calls, posted := [], [], [], [], [];
    }

    ghost function State(): Tables
      reads this, ledger
    {
      Tables(users, commissions, allocations, payouts, posted, ledger.State(), calls)
    }

    method FindInProgress(user: nat) returns (found: bool)
      ensures found == HasPayoutInProgress(State(), user)
    {
      for p := 0 to |payouts|
        invariant forall q :: 0 <= q < p ==> !(payouts[q].user == user && InProgress(payouts[q].status))
      {
        if payouts[p].user == user && InProgress(payouts[p].status) {
          return true;
        }
      }
      return false;
    }

    /** The balance reduce. */
    method SumAvailable(ids: seq<nat>) returns (available: Money)
      requires ValidIds(commissions, ids)
      ensures available == TotalAvailable(commissions, ids)
    {
      available := 0.0;
      for k := 0 to |ids|
        invariant available == TotalAvailable(commissions, ids[..k])
      {
        assert ids[..k + 1][..k] == ids[..k];
        available := available + Available(commissions[ids[k]]);
      }
      assert ids[..|ids|] == ids;
    }

    /** The greedy loop, over the locked rows. */
    method PlanAllocation(ids: seq<nat>, requested: Money) returns (plan: seq<Share>)
      requires ValidIds(commissions, ids)
      ensures plan == Plan(commissions, ids, requested)
    {
      plan := [];
      var remaining := requested;
      for k := 0 to |ids|
        invariant plan + Plan(commissions, ids[k..], remaining) == Plan(commissions, ids, requested)
      {
        if remaining <= 0.0 {
          break;
        }
        PlanNext(commissions, ids, k, remaining);
        var free := Available(commissions[ids[k]]);
        if free > 0.0 {
          var toAllocate := Min(remaining, free);
          OneMoreShare(plan, Share(ids[k], toAllocate), Plan(commissions, ids[k + 1..], remaining - toAllocate));
          plan := plan + [Share(ids[k], toAllocate)];
          remaining := remaining - toAllocate;
        }
      }
    }

    method WriteReservations(payout: nat, plan: seq<Share>)
      requires forall k :: 0 <= k < |plan| ==> plan[k].commission < |commissions|
      modifies this`commissions, this`allocations
      ensures State() == ReserveShares(old(State()), old(commissions), payout, plan)
    {
      var loaded := commissions;
      ghost var before := State();
      for k := 0 to |plan|
        invariant State() == ReserveShares(before, loaded, payout, plan[..k])
      {
        assert plan[..k + 1][..k] == plan[..k];
        var c := plan[k].commission;
        allocations := allocations + [Allocation(payout, c, plan[k].amount, Reserved)];
        var reserved := loaded[c].reserved + plan[k].amount;
        commissions := commissions[c := commissions[c].(
          reserved := reserved, status := ReservationStatus(reserved, loaded[c].amount))];
      }
      assert plan[..|plan|] == plan;
    }

    /** The rows without what the specification adds, for checks. */
    function Rows(): Tables
      reads this
    {
      Tables(users, commissions, allocations, payouts, [], EMPTY_BOOKS, calls)
    }

    // ---- Writes ----

    /** The transaction of requestPayout, on the locked rows. */
    method WriteRequest(user: nat, amount: Money) returns (payout: Option<nat>)
      requires user < |users| && users[user].company.Some? && users[user].creatorRole.Some? && amount > 0.0
      modifies this
      ensures payout.Some? <==> MayRequest(old(State()), user, amount)
      ensures payout.Some? ==> payout.value == |old(payouts)|
      ensures State() == if payout.Some? then Request(old(State()), user, amount) else old(State())
    {
      var ids := EligibleIds(commissions, user);
      var available := SumAvailable(ids);
      if available < amount {
        return None;
      }
      var plan := PlanAllocation(ids, amount);
      var id := |payouts|;
      payouts := payouts + [Payout(user, users[user].company.value, amount, FirstStatus(users[user]), None, 0)];
      WriteReservations(id, plan);
      payout := Some(id);
    }

    /** The loop over a payout's allocations that the webhooks and the retry run, each in its own way. */
    method MoveAllocations(payout: nat, move: Move, loaded: Loaded)
      requires LoadedFits(State(), loaded)
      modifies this`commissions, this`allocations
      ensures State() == MoveAll(old(State()), loaded, payout, move)
    {
      ghost var before := State();
      for k := 0 to |loaded.allocations|
        invariant State() == MoveFirst(before, loaded, payout, move, k)
      {
        var allocation := loaded.allocations[k];
        if allocation.payout == payout && allocation.status == move.From() {
          var c := allocation.commission;
          allocations := allocations[k := allocations[k].(status := move.To())];
          var reserved := loaded.commissions[c].reserved + move.Change(allocation.amount);
          var status;
          if move.Settle? {
            status := PostPaymentStatus(loaded.commissions[c].amount, reserved, Held(allocations, c, Paid));
          } else {
            status := ReservationStatus(reserved, loaded.commissions[c].amount);
          }
          commissions := commissions[c := commissions[c].(reserved := reserved, status := status)];
        }
      }
    }

    method WriteStatus(payout: nat, status: PayoutStatus)
      requires payout < |payouts|
      modifies this`payouts
      ensures State() == SetStatus(old(State()), payout, status)
    {
      payouts := payouts[payout := payouts[payout].(status := status)];
    }

    /** The transaction before a retry, or the update before the repetition of a reversed transfer. */
    method WritePreparation(payout: nat, status: PayoutStatus)
      requires payout < |payouts| && ValidAllocations(State())
      modifies this`commissions, this`allocations, this`payouts
      ensures State() == Prepare(old(State()), payout, status)
    {
      if status.TransferFailed? {
        MoveAllocations(payout, ReReserve, Loaded(commissions, allocations));
      }
      WriteStatus(payout, Approved);
    }

    /** The last update of initiateTransfer. */
    method WriteStart(payout: nat)
      requires payout < |payouts|
      modifies this`payouts
      ensures State() == StartTransfer(old(State()), payout)
    {
      var row := payouts[payout];
      payouts := payouts[payout := row.(
        status := TransferInitiated, transferCode := None, initiations := row.initiations + 1)];
    }

    /** The transaction of an attempt that has reached the provider. */
    method WriteAttempt(payout: nat, initiation: nat, code: nat)
      requires payout < |payouts|
      modifies this`payouts, this`posted, ledger
      ensures State() == CommitAttempt(old(State()), payout, initiation, code)
    {
      var row := payouts[payout];
      payouts := payouts[payout := row.(transferCode := Some(code))];
      posted := posted + [PostedTransfer(payout, initiation, code)];
      var _ := ledger.RecordTransaction(InitiationPosting(payout, row));
    }

    /** The transaction of a webhook handler. */
    method WriteNoticeRows(payout: nat, notice: Notice, loaded: Loaded)
      requires payout < |payouts| && LoadedFits(State(), loaded)
      modifies this`commissions, this`allocations, this`payouts, ledger
      ensures State() == WriteNotice(old(State()), payout, notice, loaded)
    {
      var row := payouts[payout];
      MoveAllocations(payout, NoticeMove(notice), loaded);
      WriteStatus(payout, NoticeStatus(notice));
      var _ := ledger.RecordTransaction(NoticePosting(notice, payout, row));
    }

    // ---- Other processes ----

    method PerformCall(call: Call, code: nat)
      requires ValidAllocations(State()) && CallFits(State(), call)
      modifies this, ledger
      ensures State() == WriteCall(old(State()), call, code)
    {
      match call
      case Requesting(user, amount) =>
        if user < |users| && users[user].company.Some? && users[user].creatorRole.Some? && amount > 0.0 {
          var _ := WriteRequest(user, amount);
        }
      case AdminApproving(p, _) => WriteStatus(p, PendingCompanyApproval);
      case CompanyApproving(p, _) => WriteStatus(p, Approved);
      case Preparing(p, status) => WritePreparation(p, status);
      case Starting(p) => WriteStart(p);
      case Attempting(p, initiation) => WriteAttempt(p, initiation, code);
      case Handling(p, notice, loaded) => WriteNoticeRows(p, notice, loaded);
      case Finished =>
    }

    method PerformWrite(k: nat, code: nat)
      requires Structured(State())
      modifies this, ledger
      ensures State() == Step(old(State()), Written(k, code))
    {
      if k < |calls| {
        AdvancedKeepsStructured(State(), k);
        var call := calls[k];
        calls := calls[k := NextCall(call)];
        PerformCall(call, code);
      }
    }

    /** The call that is in flight after another process's check; FINISHED when it did not pass. */
    method CheckFor(event: Event) returns (call: Call)
      requires Structured(State()) && IsCheck(event)
      ensures Step(State(), event) == if call.Finished? then State() else Remember(State(), call)
    {
      match event
      case RequestChecked(user, amount) =>
        call := if CheckRequest(Rows(), user, amount).None? then Requesting(user, amount) else Finished;
      case AdminApprovalChecked(p, actor) =>
        call := if CheckAdminApproval(Rows(), p, actor).None? then AdminApproving(p, actor) else Finished;
      case CompanyApprovalChecked(p, actor) =>
        call := if CheckCompanyApproval(Rows(), p, actor).None? then CompanyApproving(p, actor) else Finished;
      case InitiationChecked(p, actor, hasBank) =>
        call := if CheckInitiation(Rows(), p, actor, hasBank).None?
                then FirstInitiationCall(p, payouts[p].status) else Finished;
      case AttemptChecked(p) =>
        call := if p < |payouts| && Attemptable(payouts[p]) then Attempting(p, payouts[p].initiations) else Finished;
      case NoticeLoaded(p, notice) =>
        call := if p < |payouts| && payouts[p].status != NoticeStatus(notice)
                then Handling(p, notice, Loaded(commissions, allocations)) else Finished;
    }

    method PerformCheck(event: Event)
      requires Structured(State()) && IsCheck(event)
      modifies this`calls
      ensures State() == Step(old(State()), event)
    {
      var call := CheckFor(event);
      if !call.Finished? {
        calls := calls + [call];
      }
    }

    method Perform(event: Event)
      requires Structured(State())
      modifies this, ledger
      ensures State() == Step(old(State()), event)
    {
      if event.Accrued? {
        commissions := commissions + [Commission(event.owner, event.accrued, 0.0, Active)];
      } else if event.GivenUp? {
        if event.payout < |payouts| {
          WriteStatus(event.payout, TransferFailed);
        }
      } else if event.Written? {
        PerformWrite(event.call, event.code);
      } else {
        PerformCheck(event);
      }
    }

    /** What other processes do between a call's reads and its write. */
    method Interleave(others: seq<Event>)
      requires Structured(State())
      modifies this, ledger
      ensures Structured(State()) && Grows(old(State()), State())
      ensures State() == Run(old(State()), others)
    {
      ghost var before := State();
      for k := 0 to |others|
        invariant Structured(State()) && State() == Run(before, others[..k])
      {
        assert others[..k + 1][..k] == others[..k];
        StepKeepsStructured(State(), others[k]);
        Perform(others[k]);
      }
      assert others[..|others|] == others;
      RunGrows(before, others);
    }

    // ---- The services ----

    /** requestPayout: the checks, whatever others do meanwhile, and the transaction. */
    method RequestPayout(user: nat, amount: Money, others: seq<Event>) returns (r: Result<nat, PayoutError>)
      requires Structured(State())
      modifies this, ledger
      ensures var refusal := CheckRequest(old(State()), user, amount);
              var between := Run(old(State()), others);
              if refusal.Some? then r == Err(refusal.value) && State() == old(State())
              else if MayRequest(between, user, amount)
              then r == Ok(|between.payouts|) && State() == Request(between, user, amount)
              else r == Err(InsufficientBalance) && State() == between
    {
      if user >= |users| {
        return Err(UserNotFound);
      }
      if users[user].company.None? {
        return Err(NoCompany);
      }
      if amount <= 0.0 {
        return Err(AmountNotPositive);
      }
      var inProgress := FindInProgress(user);
      if inProgress {
        return Err(PayoutInProgress);
      }
      if users[user].creatorRole.None? {
        return Err(NoCreator);
      }
      Interleave(others);
      var payout := WriteRequest(user, amount);
      r := if payout.Some? then Ok(payout.value) else Err(InsufficientBalance);
    }

    /** adminApprovePayout: open to exactly the admins of the payout's company while it waits for one. */
    method AdminApprove(payout: nat, actor: nat, others: seq<Event>) returns (refusal: Option<PayoutError>)
      requires Structured(State())
      modifies this, ledger
      ensures refusal == CheckAdminApproval(old(State()), payout, actor)
      ensures refusal.None? <==>
                && actor < |users| && users[actor].role.Admin? && payout < |old(payouts)|
                && users[actor].company == Some(old(payouts)[payout].company)
                && old(payouts)[payout].status.PendingAdminApproval?
      ensures refusal.Some? ==> State() == old(State())
      ensures refusal.None? ==>
                payout < |Run(old(State()), others).payouts|
                && State() == SetStatus(Run(old(State()), others), payout, PendingCompanyApproval)
    {
      if actor >= |users| || !users[actor].role.Admin? {
        return Some(Forbidden);
      }
      if payout >= |payouts| || !payouts[payout].status.PendingAdminApproval? {
        return Some(PayoutNotFound);
      }
      if Some(payouts[payout].company) != users[actor].company {
        return Some(Forbidden);
      }
      Interleave(others);
      WriteStatus(payout, PendingCompanyApproval);
      refusal := None;
    }

    /** companyApprovePayout: open to exactly the owners of the payout's company while it waits for one. */
    method CompanyApprove(payout: nat, actor: nat, others: seq<Event>) returns (refusal: Option<PayoutError>)
      requires Structured(State())
      modifies this, ledger
      ensures refusal == CheckCompanyApproval(old(State()), payout, actor)
      ensures refusal.None? <==>
                && actor < |users| && users[actor].role.CompanyOwner? && payout < |old(payouts)|
                && users[actor].company == Some(old(payouts)[payout].company)
                && old(payouts)[payout].status.PendingCompanyApproval?
      ensures refusal.Some? ==> State() == old(State())
      ensures refusal.None? ==>
                payout < |Run(old(State()), others).payouts|
                && State() == SetStatus(Run(old(State()), others), payout, Approved)
    {
      if actor >= |users| || !users[actor].role.CompanyOwner? {
        return Some(Forbidden);
      }
      if payout >= |payouts| {
        return Some(PayoutNotFound);
      }
      if Some(payouts[payout].company) != users[actor].company {
        return Some(Forbidden);
      }
      if !payouts[payout].status.PendingCompanyApproval? {
        return Some(WrongStatus);
      }
      Interleave(others);
      WriteStatus(payout, Approved);
      refusal := None;
    }

    /** The writes of initiateTransfer, each in its own transaction or update. */
    method WriteInitiation(payout: nat, status: PayoutStatus, beforeFirst: seq<Event>, beforeLast: seq<Event>)
      requires Structured(State()) && payout < |payouts|
      modifies this, ledger
      ensures State() == Initiation(old(State()), payout, status, beforeFirst, beforeLast)
    {
      Interleave(beforeFirst);
      PreparedIsStructured(State(), payout, status);
      if !status.Approved? {
        WritePreparation(payout, status);
      }
      Interleave(beforeLast);
      WriteStart(payout);
    }

    /** initiateTransfer */
    method InitiateTransfer(payout: nat, actor: nat, hasBank: bool, beforeFirst: seq<Event>, beforeLast: seq<Event>)
        returns (refusal: Option<PayoutError>)
      requires Structured(State())
      modifies this, ledger
      ensures refusal == CheckInitiation(old(State()), payout, actor, hasBank)
      ensures refusal.Some? ==> State() == old(State())
      ensures refusal.None? ==>
                State() == Initiation(old(State()), payout, old(payouts)[payout].status, beforeFirst, beforeLast)
    {
      if actor >= |users| || !users[actor].role.CompanyOwner? {
        return Some(Forbidden);
      }
      if payout >= |payouts| {
        return Some(PayoutNotFound);
      }
      if Some(payouts[payout].company) != users[actor].company {
        return Some(Forbidden);
      }
      if !Initiatable(payouts[payout].status) {
        return Some(WrongStatus);
      }
      if !hasBank {
        return Some(NoBankAccount);
      }
      WriteInitiation(payout, payouts[payout].status, beforeFirst, beforeLast);
      refusal := None;
    }

    method ValidateEach(ids: seq<nat>, actor: nat, banked: set<nat>) returns (errors: seq<nat>)
      requires actor < |users| && users[actor].role.CompanyOwner?
      ensures errors == [] <==> forall k :: 0 <= k < |ids| ==> Valid(State(), ids[k], actor, banked)
    {
      errors := [];
      for k := 0 to |ids|
        invariant errors == [] <==> forall j :: 0 <= j < k ==> Valid(State(), ids[j], actor, banked)
      {
        var p := ids[k];
        if p >= |payouts| || Some(payouts[p].company) != users[actor].company
           || !Initiatable(payouts[p].status) || payouts[p].user !in banked {
          errors := errors + [p];
        }
      }
    }

    /** initiateTransfer of one payout of the list; its failure is caught and reported. */
    method TakeTurn(payout: nat, actor: nat, banked: set<nat>, meanwhile: Meanwhile)
        returns (refusal: Option<PayoutError>)
      requires Structured(State())
      modifies this, ledger
      ensures forall refusals ::
                BulkTurn(BulkResult(old(State()), refusals), payout, actor, banked, meanwhile)
                == BulkResult(State(), refusals + [refusal])
    {
      Interleave(meanwhile.before);
      var hasBank := payout < |payouts| && payouts[payout].user in banked;
      refusal := InitiateTransfer(payout, actor, hasBank, meanwhile.beforeFirst, meanwhile.beforeLast);
    }

    method InitiateValidated(ids: seq<nat>, actor: nat, banked: set<nat>, others: seq<Meanwhile>)
        returns (refusals: seq<Option<PayoutError>>)
      requires Structured(State())
      modifies this, ledger
      ensures BulkResult(State(), refusals) == InitiateAmid(old(State()), ids, actor, banked, others)
    {
      ghost var start := State();
      refusals := [];
      for k := 0 to |ids|
        invariant BulkResult(State(), refusals) == InitiateAmid(start, ids[..k], actor, banked, others)
      {
        NextTurn(start, ids[..k], ids[k], actor, banked, others);
        PrefixMore(ids, k);
        var refusal := TakeTurn(ids[k], actor, banked, At(others, k));
        refusals := refusals + [refusal];
      }
      assert ids[..|ids|] == ids;
    }

    /**
     initiateBulkTransfer: validate every distinct payout first, then initiate them one by one, others acting before
     each one's checks and writes.
     */
    method InitiateBulk(payoutIds: seq<nat>, actor: nat, banked: set<nat>, others: seq<Meanwhile>)
        returns (refusals: Option<seq<Option<PayoutError>>>)
      requires Structured(State())
      modifies this, ledger
      ensures if Refused(old(State()), payoutIds, actor, banked)
              then refusals == None && State() == old(State())
              else && refusals.Some?
                   && BulkResult(State(), refusals.value)
                      == InitiateAmid(old(State()), Distinct(payoutIds), actor, banked, others)
    {
      if payoutIds == [] || actor >= |users| || !users[actor].role.CompanyOwner? {
        return None;
      }
      var uniqueIds := Distinct(payoutIds);
      var errors := ValidateEach(uniqueIds, actor, banked);
      if errors != [] {
        return None;
      }
      var each := InitiateValidated(uniqueIds, actor, banked, others);
      refusals := Some(each);
    }

    /** One attempt of the transfer job: None is an attempt that fails or crashes before its commit. */
    method AttemptTransfer(payout: nat, others: seq<Event>, code: Option<nat>) returns (committed: bool)
      requires Structured(State()) && payout < |payouts|
      modifies this, ledger
      ensures committed <==> Attemptable(old(payouts)[payout]) && code.Some?
      ensures if !Attemptable(old(payouts)[payout]) then State() == old(State())
              else
                var between := Run(old(State()), others);
                && payout < |between.payouts|
                && State() == if code.Some?
                              then CommitAttempt(between, payout, old(payouts)[payout].initiations, code.value)
                              else between
    {
      var row := payouts[payout];
      if !row.status.TransferInitiated? || row.transferCode.Some? {
        return false;
      }
      Interleave(others);
      if code.None? {
        return false;
      }
      WriteAttempt(payout, row.initiations, code.value);
      committed := true;
    }

    /** The failed handler once the attempts are used up. */
    method GiveUp(payout: nat)
      requires payout < |payouts|
      modifies this`payouts
      ensures State() == SetStatus(old(State()), payout, TransferFailed)
    {
      WriteStatus(payout, TransferFailed);
    }

    /** handleTransferSuccess, handleTransferFailed and handleTransferReversed: the load, then the transaction. */
    method HandleNotice(payout: nat, notice: Notice, others: seq<Event>) returns (handled: bool)
      requires Structured(State())
      modifies this, ledger
      ensures handled <==> payout < |old(payouts)| && old(payouts)[payout].status != NoticeStatus(notice)
      ensures !handled ==> State() == old(State())
      ensures handled ==>
                var between := Run(old(State()), others);
                && CallFits(between, Handling(payout, notice, Now(old(State()))))
                && State() == WriteNotice(between, payout, notice, Now(old(State())))
    {
      if payout >= |payouts| || payouts[payout].status == NoticeStatus(notice) {
        return false;
      }
      var loaded := Loaded(commissions, allocations);
      NoticeFits(State(), payout, notice, others);
      Interleave(others);
      WriteNoticeRows(payout, notice, loaded);
      handled := true;
    }
  }
}
