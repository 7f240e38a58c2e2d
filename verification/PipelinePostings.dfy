/** Every step of the pipeline posts once or not at all: what it posts, and what that moves on an account. */
module PipelinePostings {
  import opened Common
  import opened Ledger
  import opened LedgerProofs
  import opened Pipeline
  import opened PipelineRows

  function PostingOfCall(db: Db, call: Call): Option<Posting>
    requires Linked(db) && CallFits(db, call)
  {
    match call
    case Paying(i, key, contract) =>
      if JobCommits(db, i, key) then Some(PaymentPosting(contract, db.installments[i].amount, key)) else None
    case Generating(_, _) => None
    case Finished => None
    case _ => TransferPostingOf(db.settlements[call.settlement], call)
  }

  function Outstanding(db: Db, c: nat): Money
    requires c < |db.contracts|
  {
    db.contracts[c].totalFinanced - PaidAmount(db.installments, c)
  }

  function PostingOf(db: Db, event: Event): Option<Posting>
    requires Ready(db)
  {
    match event
    case WroteOff(c) =>
      if c < |db.contracts| then Some(WriteOffPosting(c, db.contracts[c], Outstanding(db, c))) else None
    case SubscriptionPaid(company, price, key) => Some(SubscriptionPosting(company, price, key))
    case Written(k, _) => if k < |db.calls| then PostingOfCall(db, db.calls[k]) else None
    case _ => None
  }

  function LogOfCall(db: Db, call: Call, code: nat): seq<TransferPosting>
    requires Linked(db) && CallFits(db, call)
  {
    if IsTransferCall(call) then TransferLog(db.settlements[call.settlement], call, code) else []
  }

  function LogOf(db: Db, event: Event): seq<TransferPosting>
    requires Ready(db)
  {
    if event.Written? && event.call < |db.calls| then LogOfCall(db, db.calls[event.call], event.code) else []
  }

  /** The tables on another ledger, with another log behind them. */
  function On(db: Db, books: Books, posted: seq<TransferPosting>): Db {
    db.(books := books, posted := posted)
  }

  lemma WritePosts(db: Db, call: Call, code: nat, books: Books, posted: seq<TransferPosting>)
    requires Linked(db) && CallFits(db, call)
    ensures WriteCall(On(db, books, posted), call, code)
         == On(WriteCall(db, call, code),
               PostIfAny(books, PostingOfCall(db, call)), posted + LogOfCall(db, call, code))
  {
  }

  lemma ContractEventPosts(db: Db, event: Event, books: Books, posted: seq<TransferPosting>)
    requires Ready(db) && IsContractEvent(event)
    ensures StepContract(On(db, books, posted), event)
         == On(StepContract(db, event), PostIfAny(books, PostingOf(db, event)), posted)
  {
  }

  /** What generation reads does not depend on the ledger. */
  lemma SameGeneration(db: Db, company: string, books: Books, posted: seq<TransferPosting>)
    requires Linked(db)
    ensures var other := On(db, books, posted);
            && EligibleIds(other, company) == EligibleIds(db, company)
            && LinesFor(other, |db.settlements|, EligibleIds(db, company))
               == LinesFor(db, |db.settlements|, EligibleIds(db, company))
  {
    SameEligible(db, On(db, books, posted), company, |db.installments|);
  }

  lemma {:induction false} SameEligible(db: Db, r: Db, company: string, n: nat)
    requires Linked(db) && Linked(r) && n <= |db.installments| == |r.installments|
    requires forall i :: 0 <= i < n ==> (ToSettle(r, company, i) <==> ToSettle(db, company, i))
    ensures EligibleBelow(r, company, n) == EligibleBelow(db, company, n)
  {
    if n > 0 {
      SameEligible(db, r, company, n - 1);
    }
  }

  lemma CheckPosts(db: Db, event: Event, books: Books, posted: seq<TransferPosting>)
    requires Ready(db) && IsCheck(event)
    ensures Step(On(db, books, posted), event) == On(Step(db, event), books, posted)
  {
    if event.GenerationChecked? {
      SameGeneration(db, event.company, books, posted);
    }
  }

  /** What a call remembers is not of the ledger. */
  lemma SameFits(db: Db, books: Books, posted: seq<TransferPosting>)
    requires Linked(db)
    ensures var other := On(db, books, posted);
            && Linked(other)
            && forall k :: 0 <= k < |db.calls| ==> (CallFits(db, db.calls[k]) <==> CallFits(other, db.calls[k]))
  {
    var other := On(db, books, posted);
    forall k | 0 <= k < |db.calls| ensures CallFits(db, db.calls[k]) <==> CallFits(other, db.calls[k]) {
      if db.calls[k].Generating? {
        var lines := db.calls[k].lines;
        assert forall l :: 0 <= l < |lines| ==>
            (LineFits(db, db.calls[k].company, lines[l]) <==> LineFits(other, db.calls[k].company, lines[l]));
      }
    }
  }

  /** On whatever ledger: the step posts this and does the same to the tables. */
  lemma StepPosts(db: Db, event: Event, books: Books, posted: seq<TransferPosting>)
    requires ContractRows(db)
    ensures Ready(On(db, books, posted))
    ensures Step(On(db, books, posted), event)
         == On(Step(db, event), PostIfAny(books, PostingOf(db, event)), posted + LogOf(db, event))
  {
    SameFits(db, books, posted);
    assert posted + [] == posted;
    if IsContractEvent(event) {
      ContractEventPosts(db, event, books, posted);
    } else if IsCheck(event) {
      CheckPosts(db, event, books, posted);
    } else if event.Written? {
      WrittenPosts(db, event.call, event.code, books, posted);
    }
  }

  lemma WrittenPosts(db: Db, k: nat, code: nat, books: Books, posted: seq<TransferPosting>)
    requires Ready(db) && Ready(On(db, books, posted))
    ensures Step(On(db, books, posted), Written(k, code))
         == On(Step(db, Written(k, code)), PostIfAny(books, PostingOf(db, Written(k, code))),
               posted + LogOf(db, Written(k, code)))
  {
    if k < |db.calls| {
      assert CallFits(db, db.calls[k]);
      WritePosts(Advanced(db, k), db.calls[k], code, books, posted);
    } else {
      assert posted + [] == posted;
    }
  }

  lemma SamePosting(db: Db, event: Event, books: Books, posted: seq<TransferPosting>)
    requires Ready(db)
    ensures Ready(On(db, books, posted)) && PostingOf(On(db, books, posted), event) == PostingOf(db, event)
  {
    SameFits(db, books, posted);
  }

  /** On its own ledger. */
  lemma StepBooks(db: Db, event: Event)
    requires ContractRows(db)
    ensures Step(db, event).books == PostIfAny(db.books, PostingOf(db, event))
    ensures Step(db, event).posted == db.posted + LogOf(db, event)
  {
    StepPosts(db, event, db.books, db.posted);
    assert On(db, db.books, db.posted) == db;
  }

  /** The tables on their own, as a step that knows no ledger would leave them, tell what it does with one. */
  lemma StepOnRows(db: Db, event: Event)
    requires ContractRows(db)
    ensures var rows := On(db, EMPTY_BOOKS, []);
            && Ready(rows) && PostingOf(rows, event) == PostingOf(db, event)
            && Step(db, event)
               == On(Step(rows, event), PostIfAny(db.books, PostingOf(db, event)), db.posted + LogOf(db, event))
  {
    StepPosts(db, event, EMPTY_BOOKS, []);
    SamePosting(db, event, EMPTY_BOOKS, []);
    StepBooks(db, event);
  }

  lemma StepMoves(db: Db, event: Event, name: string, tenant: Tenant)
    requires ContractRows(db)
    ensures Position(Step(db, event).books, name, tenant)
         == Position(db.books, name, tenant) + NetOn(PostingOf(db, event), name, tenant)
  {
    StepBooks(db, event);
    PostIfAnyPosition(db.books, PostingOf(db, event), name, tenant);
  }

  // ---- What the postings come to ----

  lemma Portion(amount: Money, rate: Money)
    requires amount >= 0.0 && 0.0 <= rate <= 1.0
    ensures 0.0 <= amount * rate <= amount
  {
  }

  lemma CommissionWithinAmount(contract: Contract, amount: Money)
    requires amount >= 0.0 && ValidRate(contract.commissionRate)
    ensures 0.0 <= CommissionAmount(contract, amount) <= amount
  {
    var rate := contract.commissionRate / 100.0;
    assert 0.0 <= rate <= 1.0;
    Portion(amount, rate);
    assert CommissionAmount(contract, amount) == if EarnsCommission(contract) then amount * rate else 0.0;
  }

  /** A pair written only when its amount is positive. */
  lemma PairOrNothing(entries: seq<Entry>, debit: string, credit: string, amount: Money, name: string)
    requires amount >= 0.0
    requires if amount > 0.0 then IsPair(entries, debit, credit, amount) else entries == []
    ensures Balanced(entries) && NamedNet(entries, name) == PairPart(debit, credit, amount, name)
  {
    if amount > 0.0 {
      PairBalances(entries, debit, credit, amount, name);
    }
  }

  /** A payment moves three pairs of accounts: the cash, the referrer's part and the merchant's part. */
  lemma PaymentMoves(contract: Contract, amount: Money, key: nat, name: string)
    requires amount >= 0.0 && ValidRate(contract.commissionRate)
    ensures var commission := CommissionAmount(contract, amount);
            var entries := PaymentPosting(contract, amount, key).entries;
            && Balanced(entries)
            && NamedNet(entries, name)
               == PairPart(CLEARING, RECEIVABLE, amount, name)
                  + PairPart(COMMISSION_COST, COMMISSION_PAYABLE, commission, name)
                  + PairPart(MERCHANT_COST, PAYABLE, amount - commission, name)
  {
    var commission := CommissionAmount(contract, amount);
    var cash, shared := CashEntries(amount), CommissionEntries(commission);
    var merchant := MerchantEntries(amount - commission);
    CommissionWithinAmount(contract, amount);
    PairBalances(cash, CLEARING, RECEIVABLE, amount, name);
    PairOrNothing(shared, COMMISSION_COST, COMMISSION_PAYABLE, commission, name);
    PairOrNothing(merchant, MERCHANT_COST, PAYABLE, amount - commission, name);
    EntriesAppend(cash, shared, name);
    EntriesAppend(cash + shared, merchant, name);
  }

  lemma TransferMoves(row: Settlement, call: Call, name: string, tenant: Tenant)
    requires IsTransferCall(call)
    ensures NetOn(TransferPostingOf(row, call), name, tenant)
         == if tenant != TenantOf(Some(row.company)) then 0.0
            else if call.Attempting? then PairPart(PAYABLE, PAYOUTS_IN_TRANSIT, row.amount, name)
            else if !call.Handling? then 0.0
            else if call.notice.Succeeded? then PairPart(PAYOUTS_IN_TRANSIT, BANK_SETTLED, row.amount, name)
            else if call.notice.Failed? then PairPart(PAYOUTS_IN_TRANSIT, PAYABLE, row.amount, name)
            else PairPart(BANK_SETTLED, PAYABLE, row.amount, name)
  {
    var posting := TransferPostingOf(row, call);
    if posting.Some? {
      var entries := posting.value.entries;
      PairBalances(entries, entries[0].accountName, entries[1].accountName, row.amount, name);
    }
  }

  lemma WriteOffMoves(c: nat, contract: Contract, outstanding: Money, name: string, tenant: Tenant)
    ensures NetOn(Some(WriteOffPosting(c, contract, outstanding)), name, tenant)
         == if tenant == TenantOf(contract.company) then PairPart(BAD_DEBT, RECEIVABLE, outstanding, name) else 0.0
  {
    PairBalances(WriteOffPosting(c, contract, outstanding).entries, BAD_DEBT, RECEIVABLE, outstanding, name);
  }

  lemma SubscriptionMoves(company: string, price: Money, key: nat, name: string, tenant: Tenant)
    ensures NetOn(Some(SubscriptionPosting(company, price, key)), name, tenant)
         == if tenant == TenantOf(Some(company)) then PairPart(CLEARING, PLATFORM_REVENUE, price, name) else 0.0
  {
    PairBalances(SubscriptionPosting(company, price, key).entries, CLEARING, PLATFORM_REVENUE, price, name);
  }

  /** Writing off and subscriptions are of no concern to any other account. */
  lemma OtherEventMoves(db: Db, event: Event, name: string, tenant: Tenant)
    requires Ready(db) && !event.Written?
    requires name != RECEIVABLE && name != BAD_DEBT
    requires event.SubscriptionPaid? ==> name != CLEARING && name != PLATFORM_REVENUE
    ensures NetOn(PostingOf(db, event), name, tenant) == 0.0
  {
    if event.SubscriptionPaid? {
      SubscriptionMoves(event.company, event.price, event.key, name, tenant);
    } else if event.WroteOff? && event.contractId < |db.contracts| {
      WriteOffMoves(event.contractId, db.contracts[event.contractId], Outstanding(db, event.contractId), name, tenant);
    }
  }

  // ---- The type of a liability ----

  lemma JoinedDeclare(first: seq<Entry>, second: seq<Entry>, name: string)
    requires DeclaresOnly(first, name, Liability) && DeclaresOnly(second, name, Liability)
    ensures DeclaresOnly(first + second, name, Liability)
  {
  }

  predicate IsLiability(name: string) {
    name == PAYABLE || name == COMMISSION_PAYABLE
  }

  lemma PaymentDeclares(contract: Contract, amount: Money, key: nat, name: string)
    requires IsLiability(name)
    ensures DeclaresOnly(PaymentPosting(contract, amount, key).entries, name, Liability)
  {
    var commission := CommissionAmount(contract, amount);
    JoinedDeclare(CashEntries(amount), CommissionEntries(commission), name);
    JoinedDeclare(CashEntries(amount) + CommissionEntries(commission), MerchantEntries(amount - commission), name);
  }

  lemma TransferDeclares(row: Settlement, call: Call, name: string)
    requires IsTransferCall(call) && IsLiability(name)
    ensures var posting := TransferPostingOf(row, call);
            posting.Some? ==> DeclaresOnly(posting.value.entries, name, Liability)
  {
  }

  lemma PostingDeclares(db: Db, event: Event, name: string)
    requires Ready(db) && IsLiability(name)
    ensures var posting := PostingOf(db, event);
            posting.Some? ==> DeclaresOnly(posting.value.entries, name, Liability)
  {
    if event.Written? && event.call < |db.calls| {
      var call := db.calls[event.call];
      assert CallFits(db, call);
      if call.Paying? {
        PaymentDeclares(call.contract, db.installments[call.installment].amount, call.key, name);
      } else if IsTransferCall(call) {
        TransferDeclares(db.settlements[call.settlement], call, name);
      }
    }
  }

  lemma StepStoredAs(db: Db, event: Event, name: string)
    requires ContractRows(db) && StoredAs(db.books, name, Liability) && IsLiability(name)
    ensures StoredAs(Step(db, event).books, name, Liability)
  {
    StepBooks(db, event);
    PostingDeclares(db, event, name);
    var posting := PostingOf(db, event);
    if posting.Some? {
      PostStoredAs(db.books, posting.value, name, Liability);
    }
  }
}
