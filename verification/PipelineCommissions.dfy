/**
 How a payment is divided between referrer and merchant, in terms of the rate that was read, and what all payments of
 a run have put on the accounts, however often an instalment was paid.
 */
module PipelineCommissions {
  import opened Common
  import opened Ledger
  import opened LedgerProofs
  import opened Installments
  import opened Pipeline
  import opened PipelineRows
  import opened PipelinePostings
  import opened PipelineMoney
  import opened PipelineRuns
  import opened PipelineTransfers
  import opened PipelineCash

  /** The books of this tenant: of the company, or the global ones for no company or an empty one. */
  predicate IsTenantOf(tenant: Tenant, company: Option<string>) {
    tenant == if company == None || company == Some("") then None else company
  }

  predicate Earns(contract: Contract) {
    contract.referrer.Some? && contract.referrerEligible && 0.0 < contract.commissionRate
  }

  /** What one account gains, as a net debit. */
  ghost predicate Gains(before: Books, after: Books, name: string, tenant: Tenant, amount: Money) {
    Position(after, name, tenant) == Position(before, name, tenant) + amount
  }

  lemma PaymentGains(db: Db, event: Event, name: string, tenant: Tenant)
    requires Sound(db) && IsPayment(db, event)
    ensures var call := db.calls[event.call];
            CallFits(db, call)
            && var amount := db.installments[call.installment].amount;
               var share := CommissionAmount(call.contract, amount);
               Gains(db.books, Step(db, event).books, name, tenant,
                     if TenantOf(call.contract.company) == tenant
                     then PairPart(CLEARING, RECEIVABLE, amount, name)
                          + PairPart(COMMISSION_COST, COMMISSION_PAYABLE, share, name)
                          + PairPart(MERCHANT_COST, PAYABLE, amount - share, name)
                     else 0.0)
  {
    var call := db.calls[event.call];
    PaymentPosts(db, event);
    PaymentMoves(call.contract, db.installments[call.installment].amount, call.key, name);
    StepMoves(db, event, name, tenant);
  }

  lemma ShareOfRate(contract: Contract, amount: Money)
    ensures 100.0 * CommissionAmount(contract, amount)
         == if Earns(contract) then contract.commissionRate * amount else 0.0
  {
  }

  lemma PaymentRowsWritten(db: Db, event: Event)
    requires Sound(db) && IsPayment(db, event)
    ensures var call := db.calls[event.call];
            CallFits(db, call)
            && var i, contract := call.installment, call.contract;
               var r := Step(db, event);
               && r.installments == db.installments[i := db.installments[i].(status := Paid)]
               && r.payments
                  == db.payments + [Payment(i, db.installments[i].amount, PaymentSuccess, call.key)]
               && r.commissions
                  == db.commissions
                     + (if Earns(contract)
                        then [CommissionRow(contract.referrer.value, |db.payments|,
                                            CommissionAmount(contract, db.installments[i].amount))]
                        else [])
  {
    var call := db.calls[event.call];
    assert CallFits(db, call);
    PaymentStep(db, event);
    JobAddsPayment(Advanced(db, event.call), call.installment, call.key);
    assert db.commissions + [] == db.commissions;
  }

  /** Clearing against the receivable, the referrer's share and the merchant's rest each against its expense. */
  ghost predicate Divided(before: Books, after: Books, tenant: Tenant, amount: Money, share: Money) {
    && Gains(before, after, "PAYSTACK_CLEARING", tenant, amount)
    && Gains(before, after, "CUSTOMER_RECEIVABLE", tenant, -amount)
    && Gains(before, after, "COMMISSION_EXPENSE", tenant, share)
    && Gains(before, after, "COMMISSION_PAYABLE", tenant, -share)
    && Gains(before, after, "MERCHANT_SETTLEMENT_EXPENSE", tenant, amount - share)
    && Gains(before, after, "MERCHANT_PAYABLE", tenant, share - amount)
  }

  lemma PaymentOfTenant(db: Db, event: Event, tenant: Tenant)
    requires Sound(db) && IsPayment(db, event)
    ensures var call := db.calls[event.call];
            CallFits(db, call)
            && var amount := db.installments[call.installment].amount;
               var share := CommissionAmount(call.contract, amount);
               if IsTenantOf(tenant, call.contract.company)
               then Divided(db.books, Step(db, event).books, tenant, amount, share)
               else Divided(db.books, Step(db, event).books, tenant, 0.0, 0.0)
  {
    PaymentGains(db, event, "PAYSTACK_CLEARING", tenant);
    PaymentGains(db, event, "CUSTOMER_RECEIVABLE", tenant);
    PaymentGains(db, event, "COMMISSION_EXPENSE", tenant);
    PaymentGains(db, event, "COMMISSION_PAYABLE", tenant);
    PaymentGains(db, event, "MERCHANT_SETTLEMENT_EXPENSE", tenant);
    PaymentGains(db, event, "MERCHANT_PAYABLE", tenant);
  }

  /**
   A committing payment job adds a successful payment of its instalment, which is paid then.  If the contract it read
   had an eligible referrer and a positive rate, one commission for that payment and that referrer, a hundred of
   which are the rate times the instalment; otherwise none.  The books of the contract's company, and no others, are
   divided accordingly.
   */
  lemma PaymentDivides(db: Db, event: Event) returns (share: Money)
    requires Sound(db) && IsPayment(db, event)
    ensures var call := db.calls[event.call];
            CallFits(db, call)
            && var i, contract := call.installment, call.contract;
               var amount := db.installments[i].amount;
               var r := Step(db, event);
               && 100.0 * share == (if Earns(contract) then contract.commissionRate * amount else 0.0)
               && r.installments == db.installments[i := db.installments[i].(status := Paid)]
               && r.payments == db.payments + [Payment(i, amount, PaymentSuccess, call.key)]
               && r.commissions
                  == db.commissions
                     + (if Earns(contract)
                        then [CommissionRow(contract.referrer.value, |db.payments|, share)] else [])
               && forall tenant: Tenant ::
                    if IsTenantOf(tenant, contract.company) then Divided(db.books, r.books, tenant, amount, share)
                    else Divided(db.books, r.books, tenant, 0.0, 0.0)
  {
    var call := db.calls[event.call];
    PaymentRowsWritten(db, event);
    var amount := db.installments[call.installment].amount;
    share := CommissionAmount(call.contract, amount);
    ShareOfRate(call.contract, amount);
    forall tenant: Tenant
      ensures if IsTenantOf(tenant, call.contract.company)
              then Divided(db.books, Step(db, event).books, tenant, amount, share)
              else Divided(db.books, Step(db, event).books, tenant, 0.0, 0.0)
    {
      PaymentOfTenant(db, event, tenant);
    }
  }

  // ---- Every run ----

  /** What the payment of an event, if it is one, collects for a tenant. */
  function CollectedBy(db: Db, event: Event, tenant: Tenant): Money
    requires Ready(db)
  {
    if IsPayment(db, event) && CallFits(db, db.calls[event.call])
       && IsTenantOf(tenant, db.calls[event.call].contract.company)
    then db.installments[db.calls[event.call].installment].amount else 0.0
  }

  /** A hundred times what it earns the referrer: the rate as it was read times the instalment. */
  function EarnedBy(db: Db, event: Event, tenant: Tenant): Money
    requires Ready(db)
  {
    if IsPayment(db, event) && Earns(db.calls[event.call].contract)
    then db.calls[event.call].contract.commissionRate * CollectedBy(db, event, tenant) else 0.0
  }

  ghost function Collected(events: seq<Event>, tenant: Tenant): Money {
    if events == [] then 0.0
    else
      var n := |events| - 1;
      Collected(events[..n], tenant) + CollectedBy(Run(EMPTY_DB, events[..n]), events[n], tenant)
  }

  ghost function Earned(events: seq<Event>, tenant: Tenant): Money {
    if events == [] then 0.0
    else
      var n := |events| - 1;
      Earned(events[..n], tenant) + EarnedBy(Run(EMPTY_DB, events[..n]), events[n], tenant)
  }

  /** What has been cleared of a tenant's settlements. */
  function ClearedColumn(db: Db, tenant: Tenant): (column: seq<Money>)
    ensures |column| == |db.settlements|
  {
    seq(|db.settlements|, s requires 0 <= s < |db.settlements| =>
      if TenantOf(Some(db.settlements[s].company)) == tenant then Cleared(db.posted, s) else 0.0)
  }

  lemma ClearedAfterTransfer(db: Db, call: Call, code: nat, tenant: Tenant)
    requires IsTransferCall(call) && call.settlement < |db.settlements|
    ensures var row := db.settlements[call.settlement];
            Sum(ClearedColumn(WriteTransfer(db, call, code), tenant))
            == Sum(ClearedColumn(db, tenant))
               + (if TenantOf(Some(row.company)) == tenant then ClearedChange(row, call) else 0.0)
  {
    var s := call.settlement;
    var row := db.settlements[s];
    var cleared := ClearedColumn(db, tenant);
    var more := if TenantOf(Some(row.company)) == tenant then cleared[s] + ClearedChange(row, call) else 0.0;
    var after := ClearedColumn(WriteTransfer(db, call, code), tenant);
    forall t | 0 <= t < |cleared| ensures after[t] == cleared[s := more][t] {
      LogClears(db.posted, row, call, code, t);
    }
    assert after == cleared[s := more];
    SumUpdate(cleared, s, more);
  }

  lemma ClearedAfterGeneration(db: Db, company: string, lines: seq<SettlementLine>, tenant: Tenant)
    requires PostedRows(db) && !LinesTaken(db.lines, lines)
    ensures Sum(ClearedColumn(WriteGeneration(db, company, lines), tenant)) == Sum(ClearedColumn(db, tenant))
  {
    NothingCleared(db.posted, |db.settlements|);
    assert ClearedColumn(WriteGeneration(db, company, lines), tenant) == ClearedColumn(db, tenant) + [0.0];
    SumAppend(ClearedColumn(db, tenant), 0.0);
  }

  /** Every event moves MERCHANT_PAYABLE, against what it collects and clears, by what is left of that. */
  lemma OtherStepClears(db: Db, event: Event, tenant: Tenant)
    requires Sound(db) && PostedRows(db) && !IsPayment(db, event)
    ensures Gains(db.books, Step(db, event).books, PAYABLE, tenant,
                  Sum(ClearedColumn(Step(db, event), tenant)) - Sum(ClearedColumn(db, tenant)))
  {
    StepMoves(db, event, PAYABLE, tenant);
    if IsTransferWrite(db, event) {
      var call := db.calls[event.call];
      WrittenTransferStep(db, event.call, event.code);
      ClearedAfterTransfer(Advanced(db, event.call), call, event.code, tenant);
      assert ClearedColumn(Advanced(db, event.call), tenant) == ClearedColumn(db, tenant);
      TransferMoves(db.settlements[call.settlement], call, PAYABLE, tenant);
    } else {
      QuietOnPayable(db, event, tenant);
    }
  }

  lemma QuietOnPayable(db: Db, event: Event, tenant: Tenant)
    requires Sound(db) && PostedRows(db) && !IsPayment(db, event) && !IsTransferWrite(db, event)
    ensures NetOn(PostingOf(db, event), PAYABLE, tenant) == 0.0
    ensures Sum(ClearedColumn(Step(db, event), tenant)) == Sum(ClearedColumn(db, tenant))
  {
    if IsGeneration(db, event) {
      var call := db.calls[event.call];
      GenerationStep(db, event);
      ClearedAfterGeneration(Advanced(db, event.call), call.company, call.lines, tenant);
      assert ClearedColumn(Advanced(db, event.call), tenant) == ClearedColumn(db, tenant);
    } else {
      NeitherClears(db, event, tenant);
    }
  }

  lemma NeitherClears(db: Db, event: Event, tenant: Tenant)
    requires Sound(db) && !IsPayment(db, event) && !IsTransferWrite(db, event) && !IsGeneration(db, event)
    ensures NetOn(PostingOf(db, event), PAYABLE, tenant) == 0.0
    ensures ClearedColumn(Step(db, event), tenant) == ClearedColumn(db, tenant)
  {
    if event.Written? {
      if event.call < |db.calls| {
        NothingWritten(db, event.call, event.code);
      }
    } else {
      OtherEventMoves(db, event, PAYABLE, tenant);
      if !TouchesSettlements(db, event) {
        OthersLeaveSettlements(db, event);
      }
    }
  }

  /** What payments have come to on a tenant's accounts; `earned` is a hundred times what referrers were given. */
  ghost predicate DividedSoFar(db: Db, tenant: Tenant, collected: Money, earned: Money) {
    && Position(db.books, "PAYSTACK_CLEARING", tenant) + Position(db.books, "PLATFORM_REVENUE", tenant) == collected
    && 100.0 * Position(db.books, "COMMISSION_EXPENSE", tenant) == earned
    && -100.0 * Position(db.books, "COMMISSION_PAYABLE", tenant) == earned
    && 100.0 * Position(db.books, "MERCHANT_SETTLEMENT_EXPENSE", tenant) == 100.0 * collected - earned
    && -100.0 * (Position(db.books, "MERCHANT_PAYABLE", tenant) - Sum(ClearedColumn(db, tenant)))
       == 100.0 * collected - earned
  }

  /** The accounts of a tenant's payments have moved as one payment, or nothing, is divided. */
  ghost predicate MovesAsDivided(db: Db, r: Db, tenant: Tenant, amount: Money, share: Money) {
    && Position(r.books, "PAYSTACK_CLEARING", tenant) + Position(r.books, "PLATFORM_REVENUE", tenant)
       == Position(db.books, "PAYSTACK_CLEARING", tenant) + Position(db.books, "PLATFORM_REVENUE", tenant) + amount
    && Gains(db.books, r.books, "COMMISSION_EXPENSE", tenant, share)
    && Gains(db.books, r.books, "COMMISSION_PAYABLE", tenant, -share)
    && Gains(db.books, r.books, "MERCHANT_SETTLEMENT_EXPENSE", tenant, amount - share)
    && Gains(db.books, r.books, "MERCHANT_PAYABLE", tenant,
             share - amount + Sum(ClearedColumn(r, tenant)) - Sum(ClearedColumn(db, tenant)))
  }

  /** The share of the payment an event makes, as far as it is this tenant's. */
  function ShareBy(db: Db, event: Event, tenant: Tenant): Money
    requires Ready(db)
  {
    if IsPayment(db, event) && CallFits(db, db.calls[event.call])
       && IsTenantOf(tenant, db.calls[event.call].contract.company)
    then CommissionAmount(db.calls[event.call].contract, db.installments[db.calls[event.call].installment].amount)
    else 0.0
  }

  lemma ShareIsEarned(db: Db, event: Event, tenant: Tenant)
    requires Sound(db) && IsPayment(db, event)
    ensures 100.0 * ShareBy(db, event, tenant) == EarnedBy(db, event, tenant)
  {
    var call := db.calls[event.call];
    assert CallFits(db, call);
    ShareOfRate(call.contract, db.installments[call.installment].amount);
  }

  lemma PaymentLeavesOthers(db: Db, event: Event, tenant: Tenant)
    requires Sound(db) && IsPayment(db, event)
    ensures Gains(db.books, Step(db, event).books, PLATFORM_REVENUE, tenant, 0.0)
    ensures ClearedColumn(Step(db, event), tenant) == ClearedColumn(db, tenant)
  {
    PaymentGains(db, event, PLATFORM_REVENUE, tenant);
    PaymentStep(db, event);
  }

  lemma PaymentMovesAsDivided(db: Db, event: Event, tenant: Tenant)
    requires Sound(db) && IsPayment(db, event)
    ensures MovesAsDivided(db, Step(db, event), tenant, CollectedBy(db, event, tenant), ShareBy(db, event, tenant))
  {
    assert CallFits(db, db.calls[event.call]);
    PaymentOfTenant(db, event, tenant);
    PaymentLeavesOthers(db, event, tenant);
  }

  lemma OthersMoveAsDivided(db: Db, event: Event, tenant: Tenant)
    requires Sound(db) && PostedRows(db) && !IsPayment(db, event)
    ensures MovesAsDivided(db, Step(db, event), tenant, 0.0, 0.0)
  {
    OthersMoveNoCash(db, event, tenant);
    OthersMoveNone(db, event, COMMISSION_COST, tenant);
    OthersMoveNone(db, event, COMMISSION_PAYABLE, tenant);
    OthersMoveNone(db, event, MERCHANT_COST, tenant);
    StepMoves(db, event, CLEARING, tenant);
    StepMoves(db, event, PLATFORM_REVENUE, tenant);
    StepMoves(db, event, COMMISSION_COST, tenant);
    StepMoves(db, event, COMMISSION_PAYABLE, tenant);
    StepMoves(db, event, MERCHANT_COST, tenant);
    OtherStepClears(db, event, tenant);
  }

  lemma StepDivides(db: Db, event: Event, tenant: Tenant) returns (share: Money)
    requires Sound(db) && PostedRows(db)
    ensures MovesAsDivided(db, Step(db, event), tenant, CollectedBy(db, event, tenant), share)
    ensures 100.0 * share == EarnedBy(db, event, tenant)
  {
    if IsPayment(db, event) {
      share := ShareBy(db, event, tenant);
      ShareIsEarned(db, event, tenant);
      PaymentMovesAsDivided(db, event, tenant);
    } else {
      share := 0.0;
      OthersMoveAsDivided(db, event, tenant);
    }
  }

  lemma MovesAddUp(
      db: Db, r: Db, tenant: Tenant, collected: Money, earned: Money, amount: Money, share: Money)
    requires DividedSoFar(db, tenant, collected, earned) && MovesAsDivided(db, r, tenant, amount, share)
    ensures DividedSoFar(r, tenant, collected + amount, earned + 100.0 * share)
  {
  }

  /**
   In every run, however often an instalment is paid and however jobs overlap, per tenant: clearing beside the
   subscriptions is what the payments collected; a hundred times what referrers are owed, or their expense is, is the
   sum over the payments of the rate that was read times the instalment; and the merchant's expense, and what it is
   owed once what was sent to it is put back, are the rest.
   */
  lemma {:induction false} EveryRunDivides(events: seq<Event>, tenant: Tenant)
    ensures DividedSoFar(Run(EMPTY_DB, events), tenant, Collected(events, tenant), Earned(events, tenant))
  {
    if events == [] {
      assert Sum(ClearedColumn(EMPTY_DB, tenant)) == 0.0;
    } else {
      var n := |events| - 1;
      var db := Run(EMPTY_DB, events[..n]);
      EveryRunDivides(events[..n], tenant);
      PostedRowsInEveryRun(events[..n]);
      var share := StepDivides(db, events[n], tenant);
      MovesAddUp(db, Step(db, events[n]), tenant, Collected(events[..n], tenant), Earned(events[..n], tenant),
                 CollectedBy(db, events[n], tenant), share);
    }
  }
}
