/** The other side of payments and settlement transfers: clearing, expenses, accruals, transit and bank. */
module PipelineCash {
  import opened Common
  import opened Ledger
  import opened LedgerProofs
  import opened Installments
  import opened Pipeline
  import opened PipelineRows
  import opened PipelinePostings
  import opened PipelineMoney
  import opened PipelineRuns
  import opened PipelineTransfers

  // ---- Columns of the paid instalments ----

  /** The amounts of the paid instalments of a tenant. */
  function PaidColumn(db: Db, tenant: Tenant): (column: seq<Money>)
    requires Linked(db)
    ensures |column| == |db.installments|
  {
    seq(|db.installments|, i requires 0 <= i < |db.installments| =>
      if db.installments[i].status == Paid && TenantOfInstallment(db, i) == tenant
      then db.installments[i].amount else 0.0)
  }

  /** The commissions of the paid instalments of a tenant. */
  function AccruedColumn(db: Db, tenant: Tenant): (column: seq<Money>)
    requires Linked(db)
    ensures |column| == |db.installments|
  {
    seq(|db.installments|, i requires 0 <= i < |db.installments| =>
      if db.installments[i].status == Paid && TenantOfInstallment(db, i) == tenant then Deducted(db, i) else 0.0)
  }

  lemma SameNetsKeepPaid(db: Db, r: Db, tenant: Tenant)
    requires Linked(db) && Linked(r)
    requires SameRows(db.installments, r.installments) && ContractsKept(db.contracts, r.contracts)
    ensures PaidColumn(r, tenant) == PaidColumn(db, tenant)
    ensures r.payments == db.payments && r.commissions == db.commissions ==>
              AccruedColumn(r, tenant) == AccruedColumn(db, tenant)
  {
    forall i | 0 <= i < |db.installments|
      ensures PaidColumn(r, tenant)[i] == PaidColumn(db, tenant)[i]
      ensures r.payments == db.payments && r.commissions == db.commissions ==>
                AccruedColumn(r, tenant)[i] == AccruedColumn(db, tenant)[i]
    {
      assert SameRow(db.installments[i], r.installments[i]);
    }
  }

  lemma AddedZeros(before: seq<Money>, after: seq<Money>)
    requires |before| <= |after| && forall i :: 0 <= i < |before| ==> after[i] == before[i]
    requires forall i :: |before| <= i < |after| ==> after[i] == 0.0
    ensures Sum(after) == Sum(before)
  {
    var added := after[|before|..];
    assert after == before + added;
    SumConcat(before, added);
    SumOfZeros(added);
  }

  lemma ActivatedRows(db: Db, contract: Contract, months: nat, firstPaymentDate: int)
    requires ContractRows(db) && MayActivate(contract, months)
    ensures var r := Activate(db, contract, months, firstPaymentDate);
            && Linked(r) && |db.installments| <= |r.installments|
            && (forall i :: 0 <= i < |db.installments| ==> r.installments[i] == db.installments[i])
            && (forall i :: |db.installments| <= i < |r.installments| ==> r.installments[i].status == Pending)
  {
    var r := Activate(db, contract, months, firstPaymentDate);
    ActivateGrows(db, contract, months, firstPaymentDate);
    forall i | |db.installments| <= i < |r.installments| ensures r.installments[i].status == Pending {
      ActivatedRow(db, contract, months, firstPaymentDate, i);
    }
  }

  /** The instalments of a new contract are not paid. */
  lemma PaidAfterActivate(db: Db, contract: Contract, months: nat, firstPaymentDate: int, tenant: Tenant)
    requires ContractRows(db) && MayActivate(contract, months)
    ensures var r := Activate(db, contract, months, firstPaymentDate);
            Linked(r) && Sum(PaidColumn(r, tenant)) == Sum(PaidColumn(db, tenant))
  {
    ActivatedRows(db, contract, months, firstPaymentDate);
    AddedZeros(PaidColumn(db, tenant), PaidColumn(Activate(db, contract, months, firstPaymentDate), tenant));
  }

  lemma AccruedAfterActivate(db: Db, contract: Contract, months: nat, firstPaymentDate: int, tenant: Tenant)
    requires ContractRows(db) && MayActivate(contract, months)
    ensures var r := Activate(db, contract, months, firstPaymentDate);
            Linked(r) && Sum(AccruedColumn(r, tenant)) == Sum(AccruedColumn(db, tenant))
  {
    var r := Activate(db, contract, months, firstPaymentDate);
    ActivatedRows(db, contract, months, firstPaymentDate);
    assert forall i :: 0 <= i < |db.installments| ==> Deducted(r, i) == Deducted(db, i);
    AddedZeros(AccruedColumn(db, tenant), AccruedColumn(r, tenant));
  }

  lemma PaidAfterPay(db: Db, i: nat, key: nat, contract: Contract, tenant: Tenant)
    requires Linked(db) && i < |db.installments|
    ensures var r := Pay(db, i, key, contract);
            && Linked(r)
            && PaidColumn(r, tenant)
               == PaidColumn(db, tenant)[i :=
                    if TenantOfInstallment(db, i) == tenant then db.installments[i].amount else 0.0]
  {
    PayKeepsLinked(db, i, key, contract);
    var r := Pay(db, i, key, contract);
    assert forall j :: 0 <= j < |db.installments| ==> TenantOfInstallment(r, j) == TenantOfInstallment(db, j);
  }

  /** The commission of one instalment after the job, for this tenant. */
  function AccruedPart(db: Db, i: nat, contract: Contract, tenant: Tenant): Money
    requires Linked(db) && i < |db.installments|
  {
    if TenantOfInstallment(db, i) == tenant then CommissionAmount(contract, db.installments[i].amount) else 0.0
  }

  lemma AccruedRowAfterPay(db: Db, i: nat, key: nat, contract: Contract, tenant: Tenant, j: nat)
    requires Linked(db) && PaymentRows(db) && i < |db.installments| && j < |db.installments|
    ensures var r := Pay(db, i, key, contract);
            && Linked(r)
            && AccruedColumn(r, tenant)[j]
               == if j == i then AccruedPart(db, i, contract, tenant) else AccruedColumn(db, tenant)[j]
  {
    PayKeepsLinked(db, i, key, contract);
    DeductedAfterPay(db, i, key, contract, j);
    assert TenantOfInstallment(Pay(db, i, key, contract), j) == TenantOfInstallment(db, j);
  }

  lemma AccruedAfterPay(db: Db, i: nat, key: nat, contract: Contract, tenant: Tenant)
    requires Linked(db) && PaymentRows(db) && i < |db.installments|
    ensures Linked(Pay(db, i, key, contract))
    ensures AccruedColumn(Pay(db, i, key, contract), tenant)
         == AccruedColumn(db, tenant)[i := AccruedPart(db, i, contract, tenant)]
  {
    PayKeepsLinked(db, i, key, contract);
    var after := AccruedColumn(Pay(db, i, key, contract), tenant);
    var expected := AccruedColumn(db, tenant)[i := AccruedPart(db, i, contract, tenant)];
    forall j | 0 <= j < |db.installments| ensures after[j] == expected[j] {
      AccruedRowAfterPay(db, i, key, contract, tenant, j);
    }
    assert after == expected;
  }

  lemma SumsAfterPay(db: Db, i: nat, key: nat, contract: Contract, tenant: Tenant)
    requires Linked(db) && PaymentRows(db) && i < |db.installments|
    ensures var r := Pay(db, i, key, contract);
            var amount := db.installments[i].amount;
            var own := TenantOfInstallment(db, i) == tenant;
            && Linked(r)
            && Sum(PaidColumn(r, tenant))
               == Sum(PaidColumn(db, tenant)) - PaidColumn(db, tenant)[i] + (if own then amount else 0.0)
            && Sum(AccruedColumn(r, tenant))
               == Sum(AccruedColumn(db, tenant)) - AccruedColumn(db, tenant)[i]
                  + (if own then CommissionAmount(contract, amount) else 0.0)
  {
    var amount := db.installments[i].amount;
    var own := TenantOfInstallment(db, i) == tenant;
    PaidAfterPay(db, i, key, contract, tenant);
    AccruedAfterPay(db, i, key, contract, tenant);
    SumUpdate(PaidColumn(db, tenant), i, if own then amount else 0.0);
    SumUpdate(AccruedColumn(db, tenant), i, AccruedPart(db, i, contract, tenant));
  }

  // ---- The cash of paid instalments ----

  /** What a posting moves on clearing that is not the platform's own. */
  function CashMove(posting: Option<Posting>, tenant: Tenant): Money {
    NetOn(posting, CLEARING, tenant) + NetOn(posting, PLATFORM_REVENUE, tenant)
  }

  function CostMove(posting: Option<Posting>, tenant: Tenant): Money {
    NetOn(posting, COMMISSION_COST, tenant) + NetOn(posting, MERCHANT_COST, tenant)
  }

  lemma PaymentCash(contract: Contract, amount: Money, key: nat, tenant: Tenant)
    requires amount >= 0.0 && ValidRate(contract.commissionRate)
    ensures var posting := Some(PaymentPosting(contract, amount, key));
            var own := tenant == TenantOf(contract.company);
            && CashMove(posting, tenant) == (if own then amount else 0.0)
            && CostMove(posting, tenant) == (if own then amount else 0.0)
            && NetOn(posting, COMMISSION_PAYABLE, tenant) == if own then -CommissionAmount(contract, amount) else 0.0
  {
    PaymentMoves(contract, amount, key, CLEARING);
    PaymentMoves(contract, amount, key, PLATFORM_REVENUE);
    PaymentMoves(contract, amount, key, COMMISSION_COST);
    PaymentMoves(contract, amount, key, MERCHANT_COST);
    PaymentMoves(contract, amount, key, COMMISSION_PAYABLE);
  }

  predicate IsCashAccount(name: string) {
    name == CLEARING || name == PLATFORM_REVENUE || name == COMMISSION_COST || name == MERCHANT_COST
    || name == COMMISSION_PAYABLE
  }

  /** Transfers of settlements touch none of the payment accounts. */
  lemma TransferMovesNoCash(row: Settlement, call: Call, name: string, tenant: Tenant)
    requires IsTransferCall(call) && IsCashAccount(name)
    ensures NetOn(TransferPostingOf(row, call), name, tenant) == 0.0
  {
    TransferMoves(row, call, name, tenant);
  }

  lemma WrittenMovesNoCash(db: Db, k: nat, code: nat, name: string, tenant: Tenant)
    requires Ready(db) && !IsPayment(db, Written(k, code)) && IsCashAccount(name)
    ensures NetOn(PostingOf(db, Written(k, code)), name, tenant) == 0.0
  {
    if k < |db.calls| {
      assert CallFits(db, db.calls[k]);
      if IsTransferCall(db.calls[k]) {
        TransferMovesNoCash(db.settlements[db.calls[k].settlement], db.calls[k], name, tenant);
      }
    }
  }

  /** A subscription brings cash that is the platform's. */
  lemma SubscriptionCash(company: string, price: Money, key: nat, tenant: Tenant)
    ensures CashMove(Some(SubscriptionPosting(company, price, key)), tenant) == 0.0
  {
    SubscriptionMoves(company, price, key, CLEARING, tenant);
    SubscriptionMoves(company, price, key, PLATFORM_REVENUE, tenant);
  }

  lemma OthersMoveNoCash(db: Db, event: Event, tenant: Tenant)
    requires Ready(db) && !IsPayment(db, event)
    ensures CashMove(PostingOf(db, event), tenant) == 0.0
  {
    if event.Written? {
      WrittenMovesNoCash(db, event.call, event.code, CLEARING, tenant);
      WrittenMovesNoCash(db, event.call, event.code, PLATFORM_REVENUE, tenant);
    } else if event.SubscriptionPaid? {
      SubscriptionCash(event.company, event.price, event.key, tenant);
    } else {
      OtherEventMoves(db, event, CLEARING, tenant);
      OtherEventMoves(db, event, PLATFORM_REVENUE, tenant);
    }
  }

  lemma OthersMoveNone(db: Db, event: Event, name: string, tenant: Tenant)
    requires Ready(db) && !IsPayment(db, event)
    requires name == COMMISSION_COST || name == MERCHANT_COST || name == COMMISSION_PAYABLE
    ensures NetOn(PostingOf(db, event), name, tenant) == 0.0
  {
    if event.Written? {
      WrittenMovesNoCash(db, event.call, event.code, name, tenant);
    } else {
      OtherEventMoves(db, event, name, tenant);
    }
  }

  lemma OthersKeepPaid(db: Db, event: Event, tenant: Tenant)
    requires Sound(db) && !IsPayment(db, event)
    ensures Linked(Step(db, event))
    ensures Sum(PaidColumn(Step(db, event), tenant)) == Sum(PaidColumn(db, tenant))
    ensures Sum(AccruedColumn(Step(db, event), tenant)) == Sum(AccruedColumn(db, tenant))
  {
    StepGrows(db, event);
    if event.Activated? {
      if MayActivate(event.contract, event.months) {
        PaidAfterActivate(db, event.contract, event.months, event.firstPaymentDate, tenant);
        AccruedAfterActivate(db, event.contract, event.months, event.firstPaymentDate, tenant);
      }
    } else if IsGeneration(db, event) {
      GenerationStep(db, event);
      SameNetsKeepPaid(db, Step(db, event), tenant);
    } else {
      NetsLeft(db, event);
      SameNetsKeepPaid(db, Step(db, event), tenant);
    }
  }

  lemma PaymentPosts(db: Db, event: Event)
    requires ContractRows(db) && IsPayment(db, event)
    ensures var call := db.calls[event.call];
            && CallFits(db, call) && db.installments[call.installment].amount >= 0.0
            && PostingOf(db, event)
               == Some(PaymentPosting(call.contract, db.installments[call.installment].amount, call.key))
            && TenantOf(call.contract.company) == TenantOfInstallment(db, call.installment)
  {
    assert CallFits(db, db.calls[event.call]);
  }

  lemma PaymentColumns(db: Db, event: Event, tenant: Tenant)
    requires Sound(db) && IsPayment(db, event) && CallFits(db, db.calls[event.call])
    ensures var call := db.calls[event.call];
            var amount := db.installments[call.installment].amount;
            var own := TenantOfInstallment(db, call.installment) == tenant;
            && Linked(Step(db, event))
            && Sum(PaidColumn(Step(db, event), tenant))
               == Sum(PaidColumn(db, tenant)) - PaidColumn(db, tenant)[call.installment] + (if own then amount else 0.0)
            && Sum(AccruedColumn(Step(db, event), tenant))
               == Sum(AccruedColumn(db, tenant)) - AccruedColumn(db, tenant)[call.installment]
                  + (if own then CommissionAmount(call.contract, amount) else 0.0)
  {
    var call := db.calls[event.call];
    var before := Advanced(db, event.call);
    AdvancedKeepsSound(db, event.call);
    PaymentStep(db, event);
    SameNetsKeepPaid(db, before, tenant);
    SumsAfterPay(before, call.installment, call.key, call.contract, tenant);
  }

  /** A second payment of an instalment is harmless here only when it is for nothing. */
  predicate PaysOnceOrNothing(db: Db, event: Event)
    requires Ready(db)
  {
    IsPayment(db, event) ==>
      var row := db.installments[db.calls[event.call].installment];
      row.status != Paid || row.amount == 0.0
  }

  /** What an event moves in the ledger it moves in the column of paid instalments. */
  lemma StepFollowsCash(db: Db, event: Event, tenant: Tenant)
    requires Sound(db) && PaysOnceOrNothing(db, event)
    ensures Linked(Step(db, event))
    ensures Sum(PaidColumn(Step(db, event), tenant))
         == Sum(PaidColumn(db, tenant)) + CashMove(PostingOf(db, event), tenant)
    ensures Sum(PaidColumn(Step(db, event), tenant))
         == Sum(PaidColumn(db, tenant)) + CostMove(PostingOf(db, event), tenant)
  {
    if IsPayment(db, event) {
      var call := db.calls[event.call];
      PaymentPosts(db, event);
      PaymentColumns(db, event, tenant);
      PaymentCash(call.contract, db.installments[call.installment].amount, call.key, tenant);
    } else {
      OthersKeepPaid(db, event, tenant);
      OthersMoveNoCash(db, event, tenant);
      OthersMoveNone(db, event, COMMISSION_COST, tenant);
      OthersMoveNone(db, event, MERCHANT_COST, tenant);
    }
  }

  /**
   Clearing holds what was paid, beside the platform's own revenue, and all of it is earmarked, for the
   referrer or for the merchant.
   */
  ghost predicate CashAgreesFor(db: Db, tenant: Tenant)
    requires Linked(db)
  {
    && Position(db.books, CLEARING, tenant) + Position(db.books, PLATFORM_REVENUE, tenant)
       == Sum(PaidColumn(db, tenant))
    && Position(db.books, COMMISSION_COST, tenant) + Position(db.books, MERCHANT_COST, tenant)
       == Sum(PaidColumn(db, tenant))
  }

  ghost predicate CashAgrees(db: Db)
    requires Linked(db)
  {
    forall tenant: Tenant :: CashAgreesFor(db, tenant)
  }

  lemma CashMoves(db: Db, event: Event, tenant: Tenant)
    requires Sound(db)
    ensures var r := Step(db, event);
            && Position(r.books, CLEARING, tenant) + Position(r.books, PLATFORM_REVENUE, tenant)
               == Position(db.books, CLEARING, tenant) + Position(db.books, PLATFORM_REVENUE, tenant)
                  + CashMove(PostingOf(db, event), tenant)
            && Position(r.books, COMMISSION_COST, tenant) + Position(r.books, MERCHANT_COST, tenant)
               == Position(db.books, COMMISSION_COST, tenant) + Position(db.books, MERCHANT_COST, tenant)
                  + CostMove(PostingOf(db, event), tenant)
  {
    StepMoves(db, event, CLEARING, tenant);
    StepMoves(db, event, PLATFORM_REVENUE, tenant);
    StepMoves(db, event, COMMISSION_COST, tenant);
    StepMoves(db, event, MERCHANT_COST, tenant);
  }

  /** Of all events only the second payment of an instalment that is worth something parts cash and tables. */
  lemma StepKeepsCashExactlyWhenPaidOnce(db: Db, event: Event)
    requires Sound(db) && CashAgrees(db)
    ensures Linked(Step(db, event))
    ensures CashAgrees(Step(db, event)) <==> PaysOnceOrNothing(db, event)
  {
    StepGrows(db, event);
    if PaysOnceOrNothing(db, event) {
      forall tenant: Tenant ensures CashAgreesFor(Step(db, event), tenant) {
        assert CashAgreesFor(db, tenant);
        StepFollowsCash(db, event, tenant);
        CashMoves(db, event, tenant);
      }
    } else {
      SecondPaymentBreaksCash(db, event);
    }
  }

  lemma SecondPaymentBreaksCash(db: Db, event: Event)
    requires Sound(db) && CashAgrees(db) && !PaysOnceOrNothing(db, event)
    ensures Linked(Step(db, event)) && !CashAgrees(Step(db, event))
  {
    var call := db.calls[event.call];
    assert CallFits(db, call);
    var tenant := TenantOfInstallment(db, call.installment);
    assert CashAgreesFor(db, tenant);
    PaymentPosts(db, event);
    PaymentColumns(db, event, tenant);
    PaymentCash(call.contract, db.installments[call.installment].amount, call.key, tenant);
    CashMoves(db, event, tenant);
    assert !CashAgreesFor(Step(db, event), tenant);
  }

  /**
   In every run whose payment jobs find their instalment still unpaid, for every tenant: PAYSTACK_CLEARING holds the
   amounts of the paid instalments and the subscriptions credited to PLATFORM_REVENUE, nothing else, and the two
   expense accounts together have earmarked exactly the paid instalments, to the last cent.
   */
  lemma {:induction false} AllCashIsEarmarked(events: seq<Event>)
    requires AllPayOnce(EMPTY_DB, events)
    ensures CashAgrees(Run(EMPTY_DB, events))
  {
    if events != [] {
      var n := |events| - 1;
      AllCashIsEarmarked(events[..n]);
      StepKeepsCashExactlyWhenPaidOnce(Run(EMPTY_DB, events[..n]), events[n]);
    } else {
      NothingPaid();
    }
  }

  lemma NothingPaid()
    ensures CashAgrees(EMPTY_DB)
  {
  }

  // ---- Accruals ----

  /** Commissions are credited to COMMISSION_PAYABLE as the instalments that accrue them are paid. */
  lemma StepFollowsAccruals(db: Db, event: Event, tenant: Tenant)
    requires Sound(db) && PaysOnce(db, event)
    ensures Linked(Step(db, event))
    ensures Sum(AccruedColumn(Step(db, event), tenant))
         == Sum(AccruedColumn(db, tenant)) - NetOn(PostingOf(db, event), COMMISSION_PAYABLE, tenant)
  {
    if IsPayment(db, event) {
      var call := db.calls[event.call];
      PaymentPosts(db, event);
      PaymentColumns(db, event, tenant);
      PaymentCash(call.contract, db.installments[call.installment].amount, call.key, tenant);
    } else {
      OthersKeepPaid(db, event, tenant);
      OthersMoveNone(db, event, COMMISSION_PAYABLE, tenant);
    }
  }

  // ---- Transit and bank ----

  predicate IsTransitAccount(account: string) {
    account == PAYOUTS_IN_TRANSIT || account == BANK_SETTLED
  }

  /** What a settlement should have moved on an account by now, as a net debit. */
  function Due(row: Settlement, account: string): Money {
    if account == PAYOUTS_IN_TRANSIT then (if InTransit(row) then -row.amount else 0.0)
    else if account == BANK_SETTLED then (if row.status.TransferSuccess? then -row.amount else 0.0)
    else 0.0
  }

  function DueColumn(settlements: seq<Settlement>, account: string, tenant: Tenant): (column: seq<Money>)
    ensures |column| == |settlements|
  {
    seq(|settlements|, s requires 0 <= s < |settlements| =>
      if TenantOf(Some(settlements[s].company)) == tenant then Due(settlements[s], account) else 0.0)
  }

  function TotalDue(settlements: seq<Settlement>, account: string, tenant: Tenant): Money {
    Sum(DueColumn(settlements, account, tenant))
  }

  lemma ChangedSettlement(settlements: seq<Settlement>, s: nat, row: Settlement, account: string, tenant: Tenant)
    requires s < |settlements| && row.company == settlements[s].company
    ensures TotalDue(settlements[s := row], account, tenant)
         == TotalDue(settlements, account, tenant)
            + (if TenantOf(Some(row.company)) == tenant then Due(row, account) - Due(settlements[s], account) else 0.0)
  {
    var column := DueColumn(settlements, account, tenant);
    var part := if TenantOf(Some(row.company)) == tenant then Due(row, account) else 0.0;
    assert DueColumn(settlements[s := row], account, tenant) == column[s := part];
    SumUpdate(column, s, part);
  }

  lemma AddedSettlement(settlements: seq<Settlement>, row: Settlement, account: string, tenant: Tenant)
    requires row.status.Approved?
    ensures TotalDue(settlements + [row], account, tenant) == TotalDue(settlements, account, tenant)
  {
    var column := DueColumn(settlements, account, tenant);
    assert DueColumn(settlements + [row], account, tenant) == column + [0.0];
    SumAppend(column, 0.0);
  }

  /** What a timely write posts on transit and bank is what its change of the row is due. */
  lemma TransferIsDue(row: Settlement, call: Call, code: nat, account: string, tenant: Tenant)
    requires IsTransferCall(call) && CallTimely(row, call) && IsTransitAccount(account)
    requires row.status.Approved? ==> row.transferCode.None?
    ensures NetOn(TransferPostingOf(row, call), account, tenant)
         == if TenantOf(Some(row.company)) == tenant then Due(RowAfter(row, call, code), account) - Due(row, account)
            else 0.0
  {
    TransferMoves(row, call, account, tenant);
  }

  /** What a settlement's notice posts on an account is what its change of the row is due there. */
  predicate NoticeIsDue(row: Settlement, notice: Notice, s: nat, account: string) {
    NetOn(TransferPostingOf(row, Handling(s, notice)), account, TenantOf(Some(row.company)))
    == Due(row.(status := NoticeStatus(notice)), account) - Due(row, account)
  }

  /**
   A notice posts on transit and bank what is due if and only if it is written in time: of success or failure
   while the transfer is under way, of a reversal after it succeeded.  A second delivery never is.
   */
  lemma NoticeIsDueExactlyInTime(row: Settlement, notice: Notice, s: nat)
    requires row.amount != 0.0
    ensures && NoticeIsDue(row, notice, s, PAYOUTS_IN_TRANSIT)
            && NoticeIsDue(row, notice, s, BANK_SETTLED)
       <==> if notice.Reversed? then row.status.TransferSuccess? else InTransit(row)
  {
    TransferMoves(row, Handling(s, notice), PAYOUTS_IN_TRANSIT, TenantOf(Some(row.company)));
    TransferMoves(row, Handling(s, notice), BANK_SETTLED, TenantOf(Some(row.company)));
  }

  lemma WrittenFollowsTransit(db: Db, k: nat, code: nat, account: string, tenant: Tenant)
    requires Sound(db) && AllClearedWhole(db) && Timely(db, Written(k, code)) && IsTransitAccount(account)
    ensures TotalDue(Step(db, Written(k, code)).settlements, account, tenant)
         == TotalDue(db.settlements, account, tenant) + NetOn(PostingOf(db, Written(k, code)), account, tenant)
  {
    if k < |db.calls| && IsTransferCall(db.calls[k]) {
      var call := db.calls[k];
      WrittenTransferStep(db, k, code);
      var row := db.settlements[call.settlement];
      assert ClearedWhole(db.settlements, db.posted, call.settlement);
      TransferIsDue(row, call, code, account, tenant);
      ChangedSettlement(db.settlements, call.settlement, RowAfter(row, call, code), account, tenant);
    } else if IsPayment(db, Written(k, code)) {
      PaymentMovesNoTransit(db, k, code, account, tenant);
    } else if IsGeneration(db, Written(k, code)) {
      GenerationStep(db, Written(k, code));
      var row := Settlement(db.calls[k].company, NetOf(db.calls[k].lines), Approved, None, false, 0, false);
      AddedSettlement(db.settlements, row, account, tenant);
    }
  }

  lemma PaymentMovesNoTransit(db: Db, k: nat, code: nat, account: string, tenant: Tenant)
    requires Sound(db) && IsPayment(db, Written(k, code)) && IsTransitAccount(account)
    ensures NetOn(PostingOf(db, Written(k, code)), account, tenant) == 0.0
    ensures Step(db, Written(k, code)).settlements == db.settlements
  {
    var call := db.calls[k];
    assert CallFits(db, call);
    PaymentMoves(call.contract, db.installments[call.installment].amount, call.key, account);
    PaymentStep(db, Written(k, code));
  }

  lemma UpdateFollowsTransit(db: Db, event: Event, account: string, tenant: Tenant)
    requires Sound(db) && Timely(db, event) && IsTransitAccount(account) && (event.BankLinked? || event.GaveUp?)
    ensures TotalDue(Step(db, event).settlements, account, tenant) == TotalDue(db.settlements, account, tenant)
  {
    if event.settlement < |db.settlements| {
      var row := Step(db, event).settlements[event.settlement];
      ChangedSettlement(db.settlements, event.settlement, row, account, tenant);
    }
  }

  /** Every timely step moves PAYOUTS_IN_TRANSIT and BANK_SETTLED as the settlements are due, whatever else is there. */
  lemma StepFollowsTransit(db: Db, event: Event, account: string, tenant: Tenant)
    requires Sound(db) && AllClearedWhole(db) && Timely(db, event) && IsTransitAccount(account)
    ensures TotalDue(Step(db, event).settlements, account, tenant)
         == TotalDue(db.settlements, account, tenant) + NetOn(PostingOf(db, event), account, tenant)
  {
    if event.Written? {
      WrittenFollowsTransit(db, event.call, event.code, account, tenant);
    } else {
      OtherEventMoves(db, event, account, tenant);
      if event.BankLinked? || event.GaveUp? {
        UpdateFollowsTransit(db, event, account, tenant);
      } else {
        OthersLeaveSettlements(db, event);
      }
    }
  }
}
