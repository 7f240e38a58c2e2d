/**
 Who is let through by the checks of payouts and who is told what, in terms of the rows; what a request writes; and
 which accounts a transfer moves.
 */
module PayoutChecks {
  import opened Common
  import opened Ledger
  import opened LedgerSides
  import opened Payouts
  import opened PayoutPlans
  import opened PayoutProofs
  import opened PayoutTransfers

  // ---- Requests ----

  /** A payout of this user has been asked for and has neither been refused nor come to an end. */
  predicate IsWaiting(t: Tables, user: nat) {
    exists p :: 0 <= p < |t.payouts| && t.payouts[p].user == user
                && t.payouts[p].status in {PendingAdminApproval, PendingCompanyApproval, Approved, TransferInitiated}
  }

  /** The first of the five objections that applies is the one the user is told. */
  lemma RequestObjections(t: Tables, user: nat, amount: Money)
    ensures CheckRequest(t, user, amount)
         == if |t.users| <= user then Some(UserNotFound)
            else if t.users[user].company == None then Some(NoCompany)
            else if !(0.0 < amount) then Some(AmountNotPositive)
            else if IsWaiting(t, user) then Some(PayoutInProgress)
            else if t.users[user].creatorRole == None then Some(NoCreator)
            else None
  {
    if HasPayoutInProgress(t, user) {
      var p :| 0 <= p < |t.payouts| && t.payouts[p].user == user && InProgress(t.payouts[p].status);
      assert IsWaiting(t, user);
    }
    if IsWaiting(t, user) {
      var p :| 0 <= p < |t.payouts| && t.payouts[p].user == user
               && t.payouts[p].status in {PendingAdminApproval, PendingCompanyApproval, Approved, TransferInitiated};
      assert InProgress(t.payouts[p].status);
    }
  }

  /** What is left on the commissions a user can still draw on. */
  function LeftFor(commissions: seq<Commission>, user: nat): Money {
    if commissions == [] then 0.0
    else
      var n := |commissions| - 1;
      var row := commissions[n];
      LeftFor(commissions[..n], user)
      + (if row.owner == user && IsOpen(row.status) && row.reserved < row.amount then row.amount - row.reserved
         else 0.0)
  }

  predicate IsOpen(status: CommissionStatus) {
    match status
    case Active | PartiallyReserved | FullyReserved => true
    case FullyPaid | Frozen => false
  }

  lemma {:induction false} TotalOfPrefix(commissions: seq<Commission>, n: nat, ids: seq<nat>)
    requires n <= |commissions| && ValidIds(commissions[..n], ids)
    ensures ValidIds(commissions, ids) && TotalAvailable(commissions, ids) == TotalAvailable(commissions[..n], ids)
  {
    if ids != [] {
      TotalOfPrefix(commissions, n, ids[..|ids| - 1]);
    }
  }

  lemma TotalWithLast(commissions: seq<Commission>, ids: seq<nat>, last: nat)
    requires ValidIds(commissions, ids) && last < |commissions|
    ensures ValidIds(commissions, ids + [last])
    ensures TotalAvailable(commissions, ids + [last]) == TotalAvailable(commissions, ids) + Available(commissions[last])
  {
    assert (ids + [last])[..|ids|] == ids;
  }

  /** What the last commission adds to what is offered. */
  lemma LastOffered(commissions: seq<Commission>, user: nat)
    requires commissions != []
    ensures var n := |commissions| - 1;
            TotalAvailable(commissions, EligibleIds(commissions, user))
            == TotalAvailable(commissions[..n], EligibleIds(commissions[..n], user))
               + (if Eligible(commissions[n], user) then Available(commissions[n]) else 0.0)
  {
    var n := |commissions| - 1;
    var before := EligibleIds(commissions[..n], user);
    TotalOfPrefix(commissions, n, before);
    if Eligible(commissions[n], user) {
      TotalWithLast(commissions, before, n);
    } else {
      assert EligibleIds(commissions, user) == before;
    }
  }

  lemma {:induction false} OfferedTotal(commissions: seq<Commission>, user: nat)
    ensures TotalAvailable(commissions, EligibleIds(commissions, user)) == LeftFor(commissions, user)
  {
    if commissions != [] {
      OfferedTotal(commissions[..|commissions| - 1], user);
      LastOffered(commissions, user);
    }
  }

  /**
   The transaction goes on exactly when the amount is positive and no more than is left; it adds one payout without
   a code, never initiated, which waits for the owner if an admin asks or the owner created who asks, and for an
   admin otherwise.
   */
  lemma RequestOpensPayout(t: Tables, user: nat, amount: Money)
    requires user < |t.users| && t.users[user].company.Some? && t.users[user].creatorRole.Some?
    ensures MayRequest(t, user, amount) <==> 0.0 < amount <= LeftFor(t.commissions, user)
    ensures MayRequest(t, user, amount) ==>
              var asker := t.users[user];
              Request(t, user, amount).payouts
              == t.payouts
                 + [Payout(user, asker.company.value, amount,
                           if asker.role == Admin || asker.creatorRole == Some(CompanyOwner) then PendingCompanyApproval
                           else PendingAdminApproval,
                           None, 0)]
  {
    OfferedTotal(t.commissions, user);
    if MayRequest(t, user, amount) {
      RequestFrame(t, user, amount);
    }
  }

  /** Until the new payout has ended the same user is refused another, whatever is left. */
  lemma OneRequestAtATime(t: Tables, user: nat, amount: Money, more: Money)
    requires Structured(t) && MayRequest(t, user, amount) && 0.0 < more
    ensures CheckRequest(Request(t, user, amount), user, more) == Some(PayoutInProgress)
  {
    RequestFrame(t, user, amount);
    NewPayoutWaits(t, user, amount);
  }

  lemma NewPayoutWaits(t: Tables, user: nat, amount: Money)
    requires MayRequest(t, user, amount)
    ensures var payouts := WithPayout(t, user, amount).payouts;
            payouts[|t.payouts|].user == user && InProgress(payouts[|t.payouts|].status)
  {
  }

  // ---- Approvals and initiations ----

  predicate ActsFor(t: Tables, actor: nat, role: Role) {
    actor < |t.users| && t.users[actor].role == role
  }

  predicate OfCompany(t: Tables, actor: nat, p: nat)
    requires actor < |t.users| && p < |t.payouts|
  {
    t.users[actor].company == Some(t.payouts[p].company)
  }

  /** Who asks is checked before what is asked for, and the company before or after the status, as the code has it. */
  lemma ApprovalObjections(t: Tables, p: nat, actor: nat)
    ensures CheckAdminApproval(t, p, actor)
         == if !ActsFor(t, actor, Admin) then Some(Forbidden)
            else if |t.payouts| <= p || t.payouts[p].status != PendingAdminApproval then Some(PayoutNotFound)
            else if !OfCompany(t, actor, p) then Some(Forbidden)
            else None
    ensures CheckCompanyApproval(t, p, actor)
         == if !ActsFor(t, actor, CompanyOwner) then Some(Forbidden)
            else if |t.payouts| <= p then Some(PayoutNotFound)
            else if !OfCompany(t, actor, p) then Some(Forbidden)
            else if t.payouts[p].status != PendingCompanyApproval then Some(WrongStatus)
            else None
  {
  }

  /**
   A transfer is initiated by owners of the payout's company alone, to a bank account, of a payout that is approved or
   whose transfer failed or was reversed; such a one is prepared first.
   */
  lemma InitiationObjections(t: Tables, p: nat, actor: nat, hasBank: bool)
    requires Ready(t)
    ensures CheckInitiation(t, p, actor, hasBank)
         == if !ActsFor(t, actor, CompanyOwner) then Some(Forbidden)
            else if |t.payouts| <= p then Some(PayoutNotFound)
            else if !OfCompany(t, actor, p) then Some(Forbidden)
            else if t.payouts[p].status !in {Approved, TransferFailed, TransferReversed} then Some(WrongStatus)
            else if !hasBank then Some(NoBankAccount)
            else None
    ensures CheckInitiation(t, p, actor, hasBank) == None ==>
              Step(t, InitiationChecked(p, actor, hasBank)).calls
              == t.calls + [if t.payouts[p].status == Approved then Starting(p) else Preparing(p, t.payouts[p].status)]
  {
  }

  // ---- Attempts and notices ----

  /** The worker goes on with a payout whose transfer is initiated and that has no code, and with no other. */
  lemma AttemptsOpen(t: Tables, p: nat)
    requires Ready(t)
    ensures Step(t, AttemptChecked(p)).calls
         == if p < |t.payouts| && t.payouts[p].status == TransferInitiated && t.payouts[p].transferCode == None
            then t.calls + [Attempting(p, t.payouts[p].initiations)] else t.calls
  {
  }

  /** A notice is taken up unless the payout has come to what it reports already. */
  lemma NoticesOpen(t: Tables, p: nat, notice: Notice)
    requires Ready(t)
    ensures var reported := match notice
                            case Succeeded => PaidOut
                            case Failed => TransferFailed
                            case Reversed => TransferReversed;
            && Step(t, NoticeLoaded(p, notice)).calls
               == (if p < |t.payouts| && t.payouts[p].status != reported
                   then t.calls + [Handling(p, notice, Loaded(t.commissions, t.allocations))] else t.calls)
            && forall loaded :: p < |t.payouts| && LoadedFits(t, loaded) ==>
                 WriteNotice(t, p, notice, loaded).payouts
                 == t.payouts[p := t.payouts[p].(status := reported)]
  {
  }

  /**
   A commit takes the amount off what is owed and puts it in transit; success takes it from transit to the bank;
   failure gives it back from transit, reversal from the bank, to what is owed.
   */
  lemma TransfersShift(t: Tables, p: nat, initiation: nat, code: nat, loaded: Loaded)
    requires p < |t.payouts| && LoadedFits(t, loaded)
    ensures var row := t.payouts[p];
            && Shifts(t.books, CommitAttempt(t, p, initiation, code).books,
                      "COMMISSION_PAYABLE", "PAYOUTS_IN_TRANSIT", row.amount, Some(row.company))
            && Shifts(t.books, WriteNotice(t, p, Succeeded, loaded).books,
                      "PAYOUTS_IN_TRANSIT", "BANK_SETTLED", row.amount, Some(row.company))
            && Shifts(t.books, WriteNotice(t, p, Failed, loaded).books,
                      "PAYOUTS_IN_TRANSIT", "COMMISSION_PAYABLE", row.amount, Some(row.company))
            && Shifts(t.books, WriteNotice(t, p, Reversed, loaded).books,
                      "BANK_SETTLED", "COMMISSION_PAYABLE", row.amount, Some(row.company))
  {
    var row := t.payouts[p];
    PairShifts(t.books, InitiationPosting(p, row),
               "COMMISSION_PAYABLE", "PAYOUTS_IN_TRANSIT", row.amount);
    PairShifts(t.books, NoticePosting(Succeeded, p, row),
               "PAYOUTS_IN_TRANSIT", "BANK_SETTLED", row.amount);
    PairShifts(t.books, NoticePosting(Failed, p, row),
               "PAYOUTS_IN_TRANSIT", "COMMISSION_PAYABLE", row.amount);
    PairShifts(t.books, NoticePosting(Reversed, p, row),
               "BANK_SETTLED", "COMMISSION_PAYABLE", row.amount);
  }

  /** The name under which a notice is posted. */
  function PrefixOf(notice: Notice): string {
    match notice
    case Succeeded => "TRANSFER_SUCCESS_"
    case Failed => "TRANSFER_FAILED_"
    case Reversed => "TRANSFER_REVERSED_"
  }

  /** Each write of a transfer adds two lines under its own reference to the payout. */
  lemma TransfersAreReferenced(t: Tables, p: nat, initiation: nat, code: nat, notice: Notice, loaded: Loaded)
    requires WellFormed(t.books) && p < |t.payouts| && LoadedFits(t, loaded)
    ensures Lines(CommitAttempt(t, p, initiation, code).books, Reference("TRANSFER_INIT_", p))
         == Lines(t.books, Reference("TRANSFER_INIT_", p)) + 2
    ensures Lines(WriteNotice(t, p, notice, loaded).books, Reference(PrefixOf(notice), p))
         == Lines(t.books, Reference(PrefixOf(notice), p)) + 2
  {
    var row := t.payouts[p];
    var committed, noticed := InitiationPosting(p, row), NoticePosting(notice, p, row);
    PairAddsLines(t.books, committed, committed.entries[0].accountName, committed.entries[1].accountName, row.amount);
    PairAddsLines(t.books, noticed, noticed.entries[0].accountName, noticed.entries[1].accountName, row.amount);
  }
}
