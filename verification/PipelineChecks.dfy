/**
 Whom the checks of payments and settlements let through, in terms of the rows, what the writes make of a row, and
 which accounts they move.
 */
module PipelineChecks {
  import opened Common
  import opened Ledger
  import opened LedgerSides
  import opened Installments
  import opened Eligibility
  import opened Pipeline
  import opened PipelineRows
  import opened PipelineMoney

  // ---- Instalments ----

  /**
   An instalment becomes a target exactly when it is the lowest unpaid one of a contract that is active or in
   default, and due in three days at most or overdue.
   */
  lemma PaymentsOpen(db: Db, i: nat, today: int)
    requires ContractRows(db)
    ensures Step(db, CheckedPayable(i, today)).targets
         == if i < |db.installments|
               && IsNextUnpaid(db.installments, db.installments[i].contract, db.installments[i])
               && db.contracts[db.installments[i].contract].status in {Active, InDefault}
               && db.installments[i].dueDate - today <= 3
            then db.targets + {i} else db.targets
  {
    if i < |db.installments| {
      assert db.installments[i] in db.installments;
      PayableExactlyWhenNextAndDue(db.installments, db.installments[i], today);
    }
  }

  /** The payment job begins on an unpaid target, with the contract as it is then, and on nothing else. */
  lemma JobsOpen(db: Db, i: nat, key: nat)
    requires Ready(db)
    ensures Step(db, PaymentChecked(i, key)).calls
         == if i < |db.installments| && db.installments[i].status != Paid && i in db.targets
            then db.calls + [Paying(i, key, db.contracts[db.installments[i].contract])] else db.calls
  {
  }

  /** The job commits exactly when no payment has its key; a refused job changes nothing but that it has ended. */
  lemma JobsCommitOnNewKeys(db: Db, k: nat, code: nat)
    requires Sound(db) && k < |db.calls| && db.calls[k].Paying?
    ensures IsPayment(db, Written(k, code)) <==>
              forall n :: 0 <= n < |db.payments| ==> db.payments[n].key != db.calls[k].key
    ensures !IsPayment(db, Written(k, code)) ==>
              Step(db, Written(k, code)) == db.(calls := db.calls[k := Finished])
  {
    JobAddsPayment(db, db.calls[k].installment, db.calls[k].key);
    assert CallFits(db, db.calls[k]);
  }

  /** The contract of a paid instalment is completed exactly when no PENDING one is left to it, and otherwise kept. */
  lemma PaymentCompletes(db: Db, event: Event)
    requires Sound(db) && IsPayment(db, event)
    ensures var c := db.installments[db.calls[event.call].installment].contract;
            var r := Step(db, event);
            && c < |db.contracts|
            && r.contracts
               == if exists i :: 0 <= i < |r.installments| && r.installments[i].contract == c
                                 && r.installments[i].status == Pending
                  then db.contracts
                  else db.contracts[c := db.contracts[c].(status := Completed)]
  {
    assert CallFits(db, db.calls[event.call]);
    PaymentStep(db, event);
  }

  /** The daily scan makes a pending instalment due and a due one overdue, and changes no other and nothing else. */
  lemma RemindersAdvance(db: Db, i: nat)
    requires Ready(db)
    ensures var r := Step(db, Reminded(i));
            && r == db.(installments := r.installments) && |r.installments| == |db.installments|
            && forall j :: 0 <= j < |db.installments| ==>
                 var row := db.installments[j];
                 r.installments[j]
                 == if j == i && row.status == Pending then row.(status := Due)
                    else if j == i && row.status == Due then row.(status := Overdue)
                    else row
  {
  }

  /** A contract over a positive amount, at a rate of 0 to 100, is activated with at least one instalment. */
  lemma ActivationsOpen(db: Db, contract: Contract, months: nat, firstPaymentDate: int)
    requires Ready(db)
    ensures var r := Step(db, Activated(contract, months, firstPaymentDate));
            if months > 0 && contract.totalFinanced > 0.0 && 0.0 <= contract.commissionRate <= 100.0
            then && r.contracts == db.contracts + [contract.(status := Active)]
                 && |r.installments| == |db.installments| + months
                 && r.installments[..|db.installments|] == db.installments
                 && forall i :: |db.installments| <= i < |r.installments| ==>
                      && r.installments[i].id == i && r.installments[i].contract == |db.contracts|
                      && r.installments[i].sequence == i - |db.installments| + 1
                      && r.installments[i].status == Pending
            else r == db
  {
  }

  // ---- Settlements ----

  /** To be settled are the paid instalments of the company's contracts that have no line, each once, in order. */
  lemma SettledAreThePaid(db: Db, company: string, i: nat)
    requires Linked(db)
    ensures i in EligibleIds(db, company) <==>
              && i < |db.installments| && db.installments[i].status == Paid
              && db.contracts[db.installments[i].contract].company == Some(company)
              && forall l :: 0 <= l < |db.lines| ==> db.lines[l].installment != i
  {
    var ids := EligibleIds(db, company);
    if i in ids {
      var k :| 0 <= k < |ids| && ids[k] == i;
      assert ToSettle(db, company, ids[k]);
    }
    if i < |db.installments| && db.installments[i].status == Paid
       && db.contracts[db.installments[i].contract].company == Some(company)
       && forall l :: 0 <= l < |db.lines| ==> db.lines[l].installment != i {
      assert ToSettle(db, company, i);
    }
  }

  /**
   A generation that is not refused adds one settlement: approved, never initiated, without a code or a bank account,
   of a positive amount, the sum of the nets of its lines, which are those it computed under its number.
   */
  lemma GenerationAdds(db: Db, event: Event)
    requires Ready(db) && IsGeneration(db, event)
    ensures var call := db.calls[event.call];
            var r := Step(db, event);
            && |r.settlements| == |db.settlements| + 1 && r.settlements[..|db.settlements|] == db.settlements
            && |r.lines| == |db.lines| + |call.lines| && r.lines[..|db.lines|] == db.lines
            && (forall k :: 0 <= k < |call.lines| ==>
                  r.lines[|db.lines| + k] == call.lines[k].(settlement := |db.settlements|))
    ensures var r := Step(db, event);
            var row := r.settlements[|db.settlements|];
            && row.company == db.calls[event.call].company && row.status == SettlementStatus.Approved
            && row.transferCode == None && !row.everInitiated && row.initiations == 0 && !row.bankLinked
            && 0.0 < row.amount == SettledNet(r.lines[|db.lines|..], |db.settlements|)
  {
    var call := db.calls[event.call];
    GenerationStep(db, event);
    assert CallFits(db, call);
    var added := Numbered(call.lines, |db.settlements|);
    assert Step(db, event).lines[|db.lines|..] == added;
    SettledNetOfOne(added, |db.settlements|, |db.settlements|);
    NumberedNets(call.lines, |db.settlements|);
  }

  // ---- Settlement transfers ----

  /** Queued are approved settlements that were never initiated, of a company with a verified bank account. */
  lemma QueueingsOpen(db: Db, s: nat, verifiedBank: bool)
    requires Ready(db)
    ensures Step(db, QueueChecked(s, verifiedBank)).calls
         == if s < |db.settlements| && db.settlements[s].status == SettlementStatus.Approved
               && !db.settlements[s].everInitiated && verifiedBank
            then db.calls + [Queueing(s)] else db.calls
  {
  }

  /** Retried are settlements whose transfer failed or was reversed. */
  lemma RetriesOpen(db: Db, s: nat)
    requires Ready(db)
    ensures Step(db, RetryChecked(s)).calls
         == if s < |db.settlements| && db.settlements[s].status in {TransferFailed, TransferReversed}
            then db.calls + [Retrying(s)] else db.calls
  {
  }

  /** Attempted are settlements whose transfer is initiated, with a bank account and without a code. */
  lemma AttemptsOpen(db: Db, s: nat)
    requires Ready(db)
    ensures Step(db, AttemptChecked(s)).calls
         == if s < |db.settlements| && db.settlements[s].status == TransferInitiated && db.settlements[s].bankLinked
               && db.settlements[s].transferCode == None
            then db.calls + [Attempting(s, db.settlements[s].initiations)] else db.calls
  {
  }

  function Reported(notice: Notice): SettlementStatus {
    match notice
    case Succeeded => TransferSuccess
    case Failed => TransferFailed
    case Reversed => TransferReversed
  }

  /** A notice is taken up unless the settlement has come to what it reports already. */
  lemma NoticesOpen(db: Db, s: nat, notice: Notice)
    requires Ready(db)
    ensures Step(db, NoticeChecked(s, notice)).calls
         == if s < |db.settlements| && db.settlements[s].status != Reported(notice)
            then db.calls + [Handling(s, notice)] else db.calls
  {
  }

  /**
   Queueing and retrying begin a new initiation, only the retry forgetting the code; a commit stores the code; a
   notice sets the status it reports.  No other settlement is touched.
   */
  lemma TransfersWrite(db: Db, s: nat, initiation: nat, notice: Notice, code: nat)
    requires s < |db.settlements|
    ensures var row := db.settlements[s];
            && WriteTransfer(db, Queueing(s), code).settlements
               == db.settlements[s := row.(
                    status := TransferInitiated, everInitiated := true, initiations := row.initiations + 1)]
            && WriteTransfer(db, Retrying(s), code).settlements
               == db.settlements[s := row.(
                    status := TransferInitiated, transferCode := None, initiations := row.initiations + 1)]
            && WriteTransfer(db, Attempting(s, initiation), code).settlements
               == db.settlements[s := row.(transferCode := Some(code))]
            && WriteTransfer(db, Handling(s, notice), code).settlements
               == db.settlements[s := row.(status := Reported(notice))]
  {
  }

  // ---- Accounts ----

  /**
   A commit takes the amount off what the merchant is owed and puts it in transit; success takes it from transit to
   the bank; failure gives it back from transit, reversal from the bank, to what is owed; queueing and retrying post
   nothing.
   */
  lemma TransfersShift(db: Db, s: nat, initiation: nat, code: nat)
    requires s < |db.settlements|
    ensures var row := db.settlements[s];
            var company := Some(row.company);
            && WriteTransfer(db, Queueing(s), code).books == db.books
            && WriteTransfer(db, Retrying(s), code).books == db.books
            && Shifts(db.books, WriteTransfer(db, Attempting(s, initiation), code).books,
                      "MERCHANT_PAYABLE", "PAYOUTS_IN_TRANSIT", row.amount, company)
            && Shifts(db.books, WriteTransfer(db, Handling(s, Succeeded), code).books,
                      "PAYOUTS_IN_TRANSIT", "BANK_SETTLED", row.amount, company)
            && Shifts(db.books, WriteTransfer(db, Handling(s, Failed), code).books,
                      "PAYOUTS_IN_TRANSIT", "MERCHANT_PAYABLE", row.amount, company)
            && Shifts(db.books, WriteTransfer(db, Handling(s, Reversed), code).books,
                      "BANK_SETTLED", "MERCHANT_PAYABLE", row.amount, company)
  {
    var row := db.settlements[s];
    PairShifts(db.books, SentPosting(s, row), "MERCHANT_PAYABLE", "PAYOUTS_IN_TRANSIT", row.amount);
    PairShifts(db.books, NoticePosting(Succeeded, s, row), "PAYOUTS_IN_TRANSIT", "BANK_SETTLED", row.amount);
    PairShifts(db.books, NoticePosting(Failed, s, row), "PAYOUTS_IN_TRANSIT", "MERCHANT_PAYABLE", row.amount);
    PairShifts(db.books, NoticePosting(Reversed, s, row), "BANK_SETTLED", "MERCHANT_PAYABLE", row.amount);
  }

  /** A subscription is cash of the platform's on the books of the company. */
  lemma SubscriptionShifts(db: Db, company: string, price: Money, key: nat)
    requires Ready(db)
    ensures var r := Step(db, SubscriptionPaid(company, price, key));
            && r == db.(books := r.books)
            && Shifts(db.books, r.books, "PAYSTACK_CLEARING", "PLATFORM_REVENUE", price, Some(company))
  {
    PairShifts(db.books, SubscriptionPosting(company, price, key), "PAYSTACK_CLEARING", "PLATFORM_REVENUE", price);
  }

  /** Writing off takes what was financed and not paid off the receivable, as a bad debt. */
  lemma WriteOffShifts(db: Db, c: nat)
    requires Ready(db) && c < |db.contracts|
    ensures var r := Step(db, WroteOff(c));
            var contract := db.contracts[c];
            && r.contracts == db.contracts[c := contract.(status := WrittenOff)]
            && Shifts(db.books, r.books, "BAD_DEBT_EXPENSE", "CUSTOMER_RECEIVABLE",
                      contract.totalFinanced - PaidAmount(db.installments, c), contract.company)
  {
    var outstanding := db.contracts[c].totalFinanced - PaidAmount(db.installments, c);
    var posting := WriteOffPosting(c, db.contracts[c], outstanding);
    PairShifts(db.books, posting, "BAD_DEBT_EXPENSE", "CUSTOMER_RECEIVABLE", outstanding);
    assert WriteOff(db, c).books == Post(db.books, posting);
    assert Step(db, WroteOff(c)) == WriteOff(db, c);
  }

  function PrefixOf(notice: Notice): string {
    match notice
    case Succeeded => "SETTLEMENT_TRANSFER_SUCCESS_"
    case Failed => "SETTLEMENT_TRANSFER_FAILED_"
    case Reversed => "SETTLEMENT_TRANSFER_REVERSED_"
  }

  /** Each write of a transfer adds two lines under its own reference to the settlement. */
  lemma TransfersAreReferenced(db: Db, s: nat, initiation: nat, code: nat, notice: Notice)
    requires WellFormed(db.books) && s < |db.settlements|
    ensures Lines(WriteTransfer(db, Attempting(s, initiation), code).books, Reference("SETTLEMENT_TRANSFER_INIT_", s))
         == Lines(db.books, Reference("SETTLEMENT_TRANSFER_INIT_", s)) + 2
    ensures Lines(WriteTransfer(db, Handling(s, notice), code).books, Reference(PrefixOf(notice), s))
         == Lines(db.books, Reference(PrefixOf(notice), s)) + 2
  {
    var row := db.settlements[s];
    var sent, noticed := SentPosting(s, row), NoticePosting(notice, s, row);
    PairAddsLines(db.books, sent, sent.entries[0].accountName, sent.entries[1].accountName, row.amount);
    PairAddsLines(db.books, noticed, noticed.entries[0].accountName, noticed.entries[1].accountName, row.amount);
  }
}
