/** Runs from empty tables in which a promise one might expect of the pipeline is not kept. */
module PipelineExamples {
  import opened Common
  import opened Ledger
  import opened Installments
  import opened Eligibility
  import opened Pipeline
  import opened PipelineRows
  import opened PipelinePostings
  import opened PipelineMoney
  import opened PipelineRuns
  import opened PipelineTransfers
  import opened PipelineCash

  const CONTRACT := Contract(Some("acme"), None, false, 0.0, 100.0, PendingActivation)

  /** The tables as they are after these events. */
  ghost predicate Reached(events: seq<Event>, db: Db) {
    db == Run(EMPTY_DB, events)
  }

  lemma Then(done: seq<Event>, db: Db, event: Event) returns (events: seq<Event>, r: Db)
    requires Reached(done, db)
    ensures events == done + [event] && Reached(events, r) && Sound(db) && r == Step(db, event)
  {
    events := done + [event];
    RunMore(EMPTY_DB, done, event);
    r := Step(db, event);
  }

  const FINANCED := CONTRACT.(status := Active)

  /** The contract and its pending instalments, and nothing else, with these calls under way. */
  ghost predicate JustFinanced(db: Db, months: nat, calls: seq<Call>) {
    && db == EMPTY_DB.(contracts := [FINANCED], installments := db.installments, targets := db.targets, calls := calls)
    && |db.installments| == months
    && forall i :: 0 <= i < months ==>
         && db.installments[i].contract == 0 && db.installments[i].status == Pending
         && db.installments[i].sequence == i + 1
         && db.installments[i].amount == if months == 1 then 100.0 else 50.0
  }

  lemma HundredOrHalves(months: nat, i: nat)
    requires months == 1 || months == 2
    requires i < months
    ensures Shares(10000 / months, 10000 % months, months)[i] == if months == 1 then 100.0 else 50.0
  {
    if months == 1 {
      assert Amount(10000) == 100.0;
    } else {
      assert Amount(5000) == 50.0;
    }
  }

  lemma RowsOfHundred(months: nat)
    requires months == 1 || months == 2
    ensures JustFinanced(Activate(EMPTY_DB, CONTRACT, months, 0), months, [])
  {
    assert Cents(100.0) == 10000;
    var db := Activate(EMPTY_DB, CONTRACT, months, 0);
    forall i | 0 <= i < months ensures db.installments[i].amount == if months == 1 then 100.0 else 50.0 {
      HundredOrHalves(months, i);
    }
  }

  lemma ActivatesOne(months: nat)
    requires months == 1 || months == 2
    ensures JustFinanced(Step(EMPTY_DB, Activated(CONTRACT, months, 0)), months, [])
    ensures Step(EMPTY_DB, Activated(CONTRACT, months, 0)).targets == {}
  {
    RowsOfHundred(months);
    assert Step(EMPTY_DB, Activated(CONTRACT, months, 0)) == Activate(EMPTY_DB, CONTRACT, months, 0);
  }

  lemma FirstIsPayable(db: Db, months: nat)
    requires Linked(db) && JustFinanced(db, months, []) && 1 <= months <= 2
    ensures MayInitialize(db, 0, db.installments[0].dueDate)
  {
    FirstIsNext(db.installments);
  }

  lemma FirstBecomesTarget(db: Db, months: nat)
    requires Ready(db) && JustFinanced(db, months, []) && db.targets == {} && 1 <= months <= 2
    ensures Step(db, CheckedPayable(0, db.installments[0].dueDate)) == db.(targets := {0})
    ensures JustFinanced(db.(targets := {0}), months, [])
  {
    FirstIsPayable(db, months);
  }

  /** A contract over 100 to be paid in one or two instalments, of which the first is payable. */
  lemma Financed(months: nat) returns (events: seq<Event>, db: Db)
    requires months == 1 || months == 2
    ensures Reached(events, db) && JustFinanced(db, months, []) && db.targets == {0}
  {
    ActivatesOne(months);
    events, db := Then([], EMPTY_DB, Activated(CONTRACT, months, 0));
    FirstBecomesTarget(db, months);
    events, db := Then(events, db, CheckedPayable(0, db.installments[0].dueDate));
  }

  lemma FirstIsNext(rows: seq<Installment>)
    requires 1 <= |rows| <= 2
    requires forall i :: 0 <= i < |rows| ==>
               rows[i].contract == 0 && rows[i].status == Pending && rows[i].sequence == i + 1
    ensures FirstUnpaid(rows, 0) == Some(rows[0])
  {
    var one := rows[..1];
    assert one[..0] == [];
    assert FirstUnpaid(one, 0) == Some(rows[0]);
    if |rows| == 1 {
      assert rows == one;
    }
  }

  // ---- Completion ----

  lemma CompletesOnPay(db: Db)
    requires Linked(db) && |db.contracts| == 1 && |db.installments| == 2
    requires db.installments[0].contract == 0 && db.installments[1].contract == 0 && db.installments[1].status == Due
    ensures Pay(db, 0, 1, FINANCED).contracts[0].status == Completed
    ensures Pay(db, 0, 1, FINANCED).installments[1] == db.installments[1]
  {
  }

  /** A job for the first instalment has started, and the second one has become due. */
  lemma SecondBecameDue() returns (events: seq<Event>, db: Db)
    ensures Reached(events, db) && db.calls == [Paying(0, 1, FINANCED)] && db.payments == []
    ensures |db.contracts| == 1 && |db.installments| == 2
    ensures db.installments[0].contract == 0 && db.installments[1].contract == 0 && db.installments[1].status == Due
  {
    events, db := Financed(2);
    events, db := Then(events, db, Reminded(1));
    events, db := Then(events, db, PaymentChecked(0, 1));
  }

  /** A contract is completed while its second instalment, which had become due, is unpaid. */
  lemma CompletedWithAnInstallmentUnpaid() returns (events: seq<Event>, db: Db)
    ensures Reached(events, db) && |db.contracts| == 1 && |db.installments| == 2
    ensures db.contracts[0].status == Completed
    ensures db.installments[1].contract == 0 && db.installments[1].status == Due
  {
    var before;
    events, before := SecondBecameDue();
    events, db := Then(events, before, Written(0, 0));
    PaymentStep(before, Written(0, 0));
    CompletesOnPay(Advanced(before, 0));
  }

  // ---- Overlapping payment jobs ----

  const JOBS := [Paying(0, 1, FINANCED), Paying(0, 2, FINANCED)]

  lemma JobStartsOn(db: Db, key: nat)
    requires Ready(db) && JustFinanced(db, 1, db.calls) && db.targets == {0}
    ensures Step(db, PaymentChecked(0, key)) == db.(calls := db.calls + [Paying(0, key, FINANCED)])
  {
  }

  /** Two jobs, for two references, see the instalment unpaid. */
  lemma BothJobsStarted() returns (events: seq<Event>, db: Db)
    ensures Reached(events, db) && JustFinanced(db, 1, JOBS)
  {
    events, db := Financed(1);
    JobStartsOn(db, 1);
    events, db := Then(events, db, PaymentChecked(0, 1));
    JobStartsOn(db, 2);
    events, db := Then(events, db, PaymentChecked(0, 2));
  }

  lemma PaysHundred(db: Db, k: nat)
    requires Sound(db) && IsPayment(db, Written(k, 0)) && db.calls[k].installment == 0
    requires db.calls[k].contract == FINANCED && db.installments[0].amount == 100.0
    ensures Position(Step(db, Written(k, 0)).books, CLEARING, Some("acme"))
         == Position(db.books, CLEARING, Some("acme")) + 100.0
  {
    StepMoves(db, Written(k, 0), CLEARING, Some("acme"));
    PaymentPosts(db, Written(k, 0));
    PaymentCash(db.calls[k].contract, 100.0, db.calls[k].key, Some("acme"));
    PaymentMoves(db.calls[k].contract, 100.0, db.calls[k].key, CLEARING);
  }

  /** The instalment is paid by the first job, and the second is still under way. */
  ghost predicate FirstPaid(db: Db) {
    && |db.installments| == 1 && db.installments[0].amount == 100.0 && db.installments[0].status == Paid
    && db.installments[0].contract == 0 && |db.contracts| == 1 && db.contracts[0].company == Some("acme")
    && db.payments == [Payment(0, 100.0, PaymentSuccess, 1)] && db.commissions == [] && db.lines == []
    && db.settlements == [] && db.posted == [] && db.calls == [Finished, Paying(0, 2, FINANCED)]
  }

  lemma FirstPays(db: Db)
    requires Sound(db) && JustFinanced(db, 1, JOBS)
    ensures IsPayment(db, Written(0, 0)) && FirstPaid(Step(db, Written(0, 0)))
  {
    PaymentStep(db, Written(0, 0));
  }

  lemma NothingPostedYet(db: Db)
    requires Sound(db) && JustFinanced(db, |db.installments|, db.calls)
    ensures PayableAgrees(db) && CashAgrees(db)
  {
    forall tenant: Tenant ensures PayableDue(db, tenant) == 0.0 && Sum(PaidColumn(db, tenant)) == 0.0 {
      SumOfZeros(UnsettledColumn(db, tenant));
      SumOfZeros(PaidColumn(db, tenant));
    }
  }

  lemma FirstAgrees(db: Db)
    requires Sound(db) && JustFinanced(db, 1, JOBS)
    ensures Linked(Step(db, Written(0, 0)))
    ensures CashAgrees(Step(db, Written(0, 0))) && PayableAgrees(Step(db, Written(0, 0)))
    ensures Position(Step(db, Written(0, 0)).books, CLEARING, Some("acme")) == 100.0
  {
    FirstPays(db);
    PaysHundred(db, 0);
    NothingPostedYet(db);
    PaymentKeepsPayableExactlyWhenHarmless(db, Written(0, 0));
    StepKeepsCashExactlyWhenPaidOnce(db, Written(0, 0));
  }

  lemma SecondPays(db: Db)
    requires Sound(db) && FirstPaid(db) && CashAgrees(db) && PayableAgrees(db)
    requires Position(db.books, CLEARING, Some("acme")) == 100.0
    ensures var r := Step(db, Written(1, 0));
            && r.installments == db.installments && Linked(r)
            && !CashAgrees(r) && !PayableAgrees(r)
            && Position(r.books, CLEARING, Some("acme")) == 200.0
  {
    assert IsPayment(db, Written(1, 0));
    assert Deducted(db, 0) == 0.0;
    PaymentStep(db, Written(1, 0));
    PaysHundred(db, 1);
    SecondPaymentBreaksCash(db, Written(1, 0));
    PaymentKeepsPayableExactlyWhenHarmless(db, Written(1, 0));
  }

  /**
   One instalment of 100 is paid twice, through two references whose jobs overlap: 200 are collected and the
   merchant is credited twice, although one instalment is all there is.
   */
  lemma OverlappingJobsPayTwice() returns (events: seq<Event>, db: Db)
    ensures Reached(events, db) && |db.installments| == 1 && db.installments[0].amount == 100.0
    ensures Position(db.books, CLEARING, Some("acme")) == 200.0
    ensures !CashAgrees(db) && !PayableAgrees(db)
  {
    events, db := BothJobsStarted();
    FirstAgrees(db);
    FirstPays(db);
    events, db := Then(events, db, Written(0, 0));
    SecondPays(db);
    events, db := Then(events, db, Written(1, 0));
  }

  // ---- Two attempts on one initiation ----

  /** A paid instalment is settled, and its settlement queued with a bank account linked to it. */
  lemma SettlementQueued() returns (events: seq<Event>, db: Db)
    ensures Reached(events, db) && |db.settlements| == 1 && db.posted == []
    ensures var row := db.settlements[0];
            row.status.TransferInitiated? && row.initiations == 1 && row.transferCode.None? && row.bankLinked
  {
    events, db := BothJobsStarted();
    FirstPays(db);
    events, db := Then(events, db, Written(0, 0));
    events, db := Generates(events, db);
    events, db := Queues(events, db);
  }

  lemma WritesQueued(db: Db, k: nat)
    requires Ready(db) && k < |db.calls| && db.calls[k] == Queueing(0) && db.posted == []
    requires db.settlements == [Settlement("acme", 100.0, Approved, None, false, 0, true)]
    ensures var r := Step(db, Written(k, 0));
            && r.posted == []
            && r.settlements == [Settlement("acme", 100.0, TransferInitiated, None, true, 1, true)]
  {
    WrittenTransferStep(db, k, 0);
  }

  lemma Queues(done: seq<Event>, db: Db) returns (events: seq<Event>, r: Db)
    requires Reached(done, db) && db.posted == []
    requires db.settlements == [Settlement("acme", 100.0, Approved, None, false, 0, false)]
    ensures Reached(events, r) && r.posted == []
    ensures r.settlements == [Settlement("acme", 100.0, TransferInitiated, None, true, 1, true)]
  {
    events, r := LinksAndChecks(done, db);
    WritesQueued(r, |r.calls| - 1);
    events, r := Then(events, r, Written(|r.calls| - 1, 0));
  }

  lemma LinksAndChecks(done: seq<Event>, db: Db) returns (events: seq<Event>, r: Db)
    requires Reached(done, db)
    requires db.settlements == [Settlement("acme", 100.0, Approved, None, false, 0, false)]
    ensures Reached(events, r) && Ready(r) && r.posted == db.posted
    ensures r.settlements == [Settlement("acme", 100.0, Approved, None, false, 0, true)]
    ensures r.calls == db.calls + [Queueing(0)]
  {
    events, r := Then(done, db, BankLinked(0));
    events, r := Then(events, r, QueueChecked(0, true));
  }

  const LINE := SettlementLine(0, 0, 100.0, 0.0, 100.0)

  lemma OneToSettle(db: Db)
    requires Linked(db) && FirstPaid(db)
    ensures EligibleIds(db, "acme") == [0]
    ensures WorthSettling(db, "acme") && LinesFor(db, 0, [0]) == [LINE] && NetOf([LINE]) == 100.0
  {
    assert ToSettle(db, "acme", 0);
    assert EligibleBelow(db, "acme", 0) == [];
    assert Deducted(db, 0) == 0.0;
    assert LinesFor(db, 0, [0]) == [LINE];
    assert [LINE][..0] == [] && NetOf([LINE][..0]) == 0.0;
    assert NetOf([LINE]) == 100.0;
  }

  lemma Generates(done: seq<Event>, db: Db) returns (events: seq<Event>, r: Db)
    requires Reached(done, db) && FirstPaid(db)
    ensures Reached(events, r) && r.posted == []
    ensures r.settlements == [Settlement("acme", 100.0, Approved, None, false, 0, false)]
  {
    OneToSettle(db);
    events, r := Then(done, db, GenerationChecked("acme"));
    assert r == db.(calls := db.calls + [Generating("acme", [LINE])]);
    GenerationStep(r, Written(2, 0));
    events, r := Then(events, r, Written(2, 0));
  }

  /** Both attempts have looked, and none has committed. */
  lemma BothAttemptsStarted() returns (events: seq<Event>, db: Db, k: nat)
    ensures Reached(events, db) && |db.settlements| == 1 && db.settlements[0].initiations == 1 && db.posted == []
    ensures k + 2 == |db.calls| && db.calls[k] == Attempting(0, 1) && db.calls[k + 1] == Attempting(0, 1)
  {
    events, db := SettlementQueued();
    events, db := Then(events, db, AttemptChecked(0));
    events, db := Then(events, db, AttemptChecked(0));
    k := |db.calls| - 2;
  }

  lemma SentTwice(db: Db, amount: Money)
    requires db.posted == [Sent(0, 1, amount, 7), Sent(0, 1, amount, 8)]
    ensures SentCount(db.posted, 0) == 2 && !TransfersAgree(db)
  {
    var first, second := Sent(0, 1, amount, 7), Sent(0, 1, amount, 8);
    SentCountAppend([], first, 0);
    SentCountAppend([first], second, 0);
    assert [first] + [second] == db.posted && [] + [first] == [first];
    assert db.posted[0].initiation == db.posted[1].initiation;
  }

  /** Two runs of the transfer job check before either commits: one initiation is sent, and posted, twice. */
  lemma TwoAttemptsPostTwice() returns (events: seq<Event>, db: Db)
    ensures Reached(events, db) && |db.settlements| == 1 && db.settlements[0].initiations == 1
    ensures LinesUnder(db.books.journal, db.books.transactions, Reference(SETTLEMENT_INIT, 0)) == 4
    ensures !TransfersAgree(db)
  {
    var k;
    events, db, k := BothAttemptsStarted();
    var amount := db.settlements[0].amount;
    events, db := Commits(events, db, k, 7);
    events, db := Commits(events, db, k + 1, 8);
    SentTwice(db, amount);
    LogIsAlwaysJournal(events);
  }

  lemma Commits(done: seq<Event>, db: Db, k: nat, code: nat) returns (events: seq<Event>, r: Db)
    requires Reached(done, db) && k < |db.calls| && db.calls[k] == Attempting(0, 1) && |db.settlements| == 1
    ensures Reached(events, r) && r.calls == db.calls[k := Finished] && |r.settlements| == 1
    ensures r.settlements[0] == db.settlements[0].(transferCode := Some(code))
    ensures r.posted == db.posted + [Sent(0, 1, db.settlements[0].amount, code)]
  {
    events, r := Then(done, db, Written(k, code));
    WrittenTransferStep(db, k, code);
  }

  // ---- A generation on nets that have moved ----

  const SHARED := FINANCED.(referrer := Some(1), referrerEligible := true, commissionRate := 100.0)
  const SHARED_JOBS := [Paying(0, 1, SHARED), Paying(0, 2, FINANCED)]

  lemma ThenAgreeing(done: seq<Event>, db: Db, event: Event) returns (events: seq<Event>, r: Db)
    requires Reached(done, db) && Sound(db) && PostedRows(db) && PayableAgrees(db)
    requires PaysHarmlessly(db, event) && GeneratesHarmlessly(db, event)
    ensures Reached(events, r) && r == Step(db, event) && Sound(r) && PostedRows(r) && PayableAgrees(r)
  {
    events, r := Then(done, db, event);
    StepKeepsPayableExactlyWhenHarmless(db, event);
    StepKeepsPostedRows(db, event);
  }

  lemma ReferralChanges(done: seq<Event>, db: Db, referrer: Option<nat>, eligible: bool, rate: Money)
      returns (events: seq<Event>, r: Db)
    requires Reached(done, db) && |db.contracts| == 1 && ValidRate(rate)
    ensures Reached(events, r)
    ensures r == db.(contracts := [db.contracts[0].(
                       referrer := referrer, referrerEligible := eligible, commissionRate := rate)])
  {
    events, r := Then(done, db, ReferralSet(0, referrer, eligible, rate));
  }

  lemma JobStartsFor(db: Db, key: nat)
    requires Ready(db) && |db.installments| == 2 && |db.contracts| == 1 && db.targets == {0}
    requires db.installments[0].status == Pending && db.installments[0].contract == 0
    ensures Step(db, PaymentChecked(0, key)) == db.(calls := db.calls + [Paying(0, key, db.contracts[0])])
  {
  }

  lemma FirstSharedJob() returns (events: seq<Event>, db: Db)
    ensures Reached(events, db) && db.contracts == [SHARED]
    ensures JustFinanced(db.(contracts := [FINANCED]), 2, [Paying(0, 1, SHARED)]) && db.targets == {0}
  {
    events, db := Financed(2);
    events, db := ReferralChanges(events, db, Some(1), true, 100.0);
    JobStartsFor(db, 1);
    events, db := Then(events, db, PaymentChecked(0, 1));
  }

  /** Two jobs for the first half; the contract passes everything on to a referrer when the first one reads it. */
  lemma SharedJobsStarted() returns (events: seq<Event>, db: Db)
    ensures Reached(events, db) && JustFinanced(db, 2, SHARED_JOBS) && db.targets == {0}
  {
    events, db := FirstSharedJob();
    events, db := ReferralChanges(events, db, None, false, 0.0);
    assert db.contracts == [FINANCED];
    JobStartsFor(db, 2);
    events, db := Then(events, db, PaymentChecked(0, 2));
  }

  const FIRST_SHARE := CommissionRow(1, 0, 50.0)
  const FIRST_HALF := Payment(0, 50.0, PaymentSuccess, 1)
  const SECOND_HALF := Payment(1, 50.0, PaymentSuccess, 3)

  ghost predicate HalvesOf(db: Db, first: InstallmentStatus, second: InstallmentStatus) {
    && |db.installments| == 2 && |db.contracts| == 1 && db.contracts[0].company == Some("acme")
    && db.installments[0].contract == 0 && db.installments[1].contract == 0
    && db.installments[0].sequence == 1 && db.installments[1].sequence == 2
    && db.installments[0].amount == 50.0 && db.installments[1].amount == 50.0
    && db.installments[0].status == first && db.installments[1].status == second
  }

  /** The first half is paid, all of it to the referrer, and the second job for it is still under way. */
  ghost predicate FirstShared(db: Db) {
    && HalvesOf(db, Paid, Pending) && db.contracts == [FINANCED]
    && db.payments == [FIRST_HALF] && db.commissions == [FIRST_SHARE] && db.targets == {0}
    && db.lines == [] && db.settlements == [] && db.posted == [] && db.calls == [Finished, Paying(0, 2, FINANCED)]
  }

  lemma SharedPays(db: Db)
    requires Sound(db) && JustFinanced(db, 2, SHARED_JOBS) && db.targets == {0}
    ensures IsPayment(db, Written(0, 0)) && FirstShared(Step(db, Written(0, 0)))
  {
    PaymentStep(db, Written(0, 0));
    assert CommissionAmount(SHARED, 50.0) == 50.0;
  }

  lemma FirstHalfShared() returns (events: seq<Event>, db: Db)
    ensures Reached(events, db) && FirstShared(db) && Sound(db) && PostedRows(db) && PayableAgrees(db)
  {
    events, db := SharedJobsStarted();
    NothingPostedYet(db);
    SharedPays(db);
    events, db := ThenAgreeing(events, db, Written(0, 0));
  }

  /** Both halves are paid, the second without commission. */
  ghost predicate HalvesPaid(db: Db, calls: seq<Call>) {
    && HalvesOf(db, Paid, Paid)
    && db.payments == [FIRST_HALF, SECOND_HALF] && db.commissions == [FIRST_SHARE]
    && db.lines == [] && db.settlements == [] && db.posted == [] && db.calls == calls
  }

  lemma SecondIsPayable(db: Db)
    requires Linked(db) && FirstShared(db)
    ensures MayInitialize(db, 1, db.installments[1].dueDate)
  {
    var rows := db.installments;
    assert rows[..1] == [rows[0]] && rows[..1][..0] == [];
    assert FirstUnpaid(rows[..1], 0) == None;
    assert FirstUnpaid(rows, 0) == Some(rows[1]);
  }

  lemma SecondPaysHalf(db: Db)
    requires Sound(db) && HalvesOf(db, Paid, Pending) && db.payments == [FIRST_HALF] && db.commissions == [FIRST_SHARE]
    requires db.lines == [] && db.settlements == [] && db.posted == []
    requires db.calls == [Finished, Paying(0, 2, FINANCED), Paying(1, 3, FINANCED)]
    ensures IsPayment(db, Written(2, 0)) && PaysOnce(db, Written(2, 0))
    ensures HalvesPaid(Step(db, Written(2, 0)), [Finished, Paying(0, 2, FINANCED), Finished])
  {
    PaymentStep(db, Written(2, 0));
  }

  lemma SecondBecomesTarget(db: Db)
    requires Ready(db) && FirstShared(db)
    ensures Step(db, CheckedPayable(1, db.installments[1].dueDate)) == db.(targets := {0, 1})
  {
    SecondIsPayable(db);
  }

  lemma SecondJobStarts(db: Db)
    requires Ready(db) && HalvesOf(db, Paid, Pending) && db.contracts == [FINANCED] && 1 in db.targets
    ensures Step(db, PaymentChecked(1, 3)) == db.(calls := db.calls + [Paying(1, 3, FINANCED)])
  {
  }

  /** A job for the second half has found it payable. */
  lemma SecondHalfChecked() returns (events: seq<Event>, db: Db)
    ensures Reached(events, db) && Sound(db) && PostedRows(db) && PayableAgrees(db)
    ensures HalvesOf(db, Paid, Pending) && db.payments == [FIRST_HALF] && db.commissions == [FIRST_SHARE]
    ensures db.lines == [] && db.settlements == [] && db.posted == []
    ensures db.calls == [Finished, Paying(0, 2, FINANCED), Paying(1, 3, FINANCED)]
  {
    events, db := FirstHalfShared();
    SecondBecomesTarget(db);
    events, db := ThenAgreeing(events, db, CheckedPayable(1, db.installments[1].dueDate));
    SecondJobStarts(db);
    events, db := ThenAgreeing(events, db, PaymentChecked(1, 3));
  }

  lemma BothHalvesPaid() returns (events: seq<Event>, db: Db)
    ensures Reached(events, db) && Sound(db) && PostedRows(db) && PayableAgrees(db)
    ensures HalvesPaid(db, [Finished, Paying(0, 2, FINANCED), Finished])
  {
    events, db := SecondHalfChecked();
    SecondPaysHalf(db);
    events, db := ThenAgreeing(events, db, Written(2, 0));
  }

  const OLD_LINES := [SettlementLine(0, 0, 50.0, 50.0, 0.0), SettlementLine(0, 1, 50.0, 0.0, 50.0)]
  const READ := [Finished, Paying(0, 2, FINANCED), Finished, Generating("acme", OLD_LINES)]

  lemma OneShare(payment: nat)
    ensures CommissionTotal([FIRST_SHARE], payment) == if payment == 0 then 50.0 else 0.0
  {
    assert [FIRST_SHARE][..0] == [];
  }

  lemma LatestOfHalves()
    ensures LatestSuccess([FIRST_HALF, SECOND_HALF], 0) == Some(0)
    ensures LatestSuccess([FIRST_HALF, SECOND_HALF], 1) == Some(1)
  {
    var payments := [FIRST_HALF, SECOND_HALF];
    assert payments[..1] == [FIRST_HALF];
    assert LatestSuccess(payments[..1], 0) == Some(0);
  }

  lemma DeductedHalves(db: Db)
    requires db.commissions == [FIRST_SHARE] && db.payments == [FIRST_HALF, SECOND_HALF]
    ensures Deducted(db, 0) == 50.0 && Deducted(db, 1) == 0.0
  {
    LatestOfHalves();
    OneShare(0);
    OneShare(1);
  }

  lemma NetOfTwo(first: SettlementLine, second: SettlementLine)
    ensures NetOf([first, second]) == first.net + second.net
  {
    var lines := [first, second];
    assert lines[..1] == [first] && lines[..1][..0] == [];
    assert NetOf(lines[..1]) == first.net;
  }

  lemma OldNets()
    ensures NetOf(OLD_LINES) == 50.0
  {
    NetOfTwo(OLD_LINES[0], OLD_LINES[1]);
  }

  lemma EligibleHalves(db: Db)
    requires Linked(db) && HalvesOf(db, Paid, Paid) && db.lines == []
    ensures EligibleIds(db, "acme") == [0, 1]
  {
    assert EligibleBelow(db, "acme", 0) == [];
    assert ToSettle(db, "acme", 0);
    assert EligibleBelow(db, "acme", 1) == [0];
    assert ToSettle(db, "acme", 1);
  }

  lemma LinesOfHalves(db: Db)
    requires HalvesOf(db, Paid, Paid) && Deducted(db, 0) == 50.0 && Deducted(db, 1) == 0.0
    ensures LinesFor(db, 0, [0, 1]) == OLD_LINES
  {
    assert LineFor(db, 0, 0) == OLD_LINES[0] && LineFor(db, 0, 1) == OLD_LINES[1];
  }

  lemma ReadsHalves(db: Db)
    requires Ready(db) && HalvesPaid(db, [Finished, Paying(0, 2, FINANCED), Finished])
    ensures HalvesPaid(Step(db, GenerationChecked("acme")), READ)
  {
    EligibleHalves(db);
    DeductedHalves(db);
    LinesOfHalves(db);
    OldNets();
    assert Checked(db, GenerationChecked("acme")) == Generating("acme", OLD_LINES);
  }

  /** The second job for the first half lands after the generation has read it, and pays the referrer nothing. */
  ghost predicate PaidAgain(db: Db) {
    && HalvesOf(db, Paid, Paid)
    && db.payments == [FIRST_HALF, SECOND_HALF, Payment(0, 50.0, PaymentSuccess, 2)] && db.commissions == [FIRST_SHARE]
    && db.lines == [] && db.calls == [Finished, Finished, Finished, Generating("acme", OLD_LINES)]
  }

  lemma PaysAgain(db: Db)
    requires Sound(db) && HalvesPaid(db, READ)
    ensures PaysHarmlessly(db, Written(1, 0)) && PaidAgain(Step(db, Written(1, 0)))
  {
    DeductedHalves(db);
    assert IsPayment(db, Written(1, 0));
    PaymentStep(db, Written(1, 0));
  }

  lemma DeductedAgain(db: Db)
    requires PaidAgain(db)
    ensures Deducted(db, 0) == 0.0 && Deducted(db, 1) == 0.0
  {
    assert db.payments[..2] == [FIRST_HALF, SECOND_HALF];
    LatestOfHalves();
    assert LatestSuccess(db.payments, 0) == Some(2) && LatestSuccess(db.payments, 1) == Some(1);
    OneShare(1);
    OneShare(2);
  }

  lemma WorthMoreNow(db: Db)
    requires Sound(db) && PaidAgain(db)
    ensures IsGeneration(db, Written(3, 0)) && !GeneratesHarmlessly(db, Written(3, 0))
  {
    OldNets();
    DeductedAgain(db);
    var renewed := Renewed(db, OLD_LINES);
    NetOfTwo(renewed[0], renewed[1]);
    assert renewed == [renewed[0], renewed[1]];
  }

  /**
   Everything of the first half went to the referrer when a generation read it; a second job for it then pays the
   merchant in full.  Up to there the payable agrees: it is the generation, on what it had read, that parts them.
   */
  lemma LateGenerationSettlesTooLittle() returns (events: seq<Event>, before: Db, db: Db)
    ensures Reached(events, before) && Linked(before) && PayableAgrees(before)
    ensures Reached(events + [Written(3, 0)], db) && Linked(db) && !PayableAgrees(db)
  {
    events, before := BothHalvesPaid();
    ReadsHalves(before);
    events, before := ThenAgreeing(events, before, GenerationChecked("acme"));
    PaysAgain(before);
    events, before := ThenAgreeing(events, before, Written(1, 0));
    WorthMoreNow(before);
    var all;
    all, db := Then(events, before, Written(3, 0));
    StepKeepsPayableExactlyWhenHarmless(before, Written(3, 0));
  }
}
