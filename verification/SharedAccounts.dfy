/** The accounts of the platform: which there are, of which type, and on which side their balances stand. */
module SharedAccounts {
  import opened Common
  import opened Ledger
  import opened LedgerSides
  import PayoutTransfers
  import Payouts
  import Pipeline
  import PipelinePostings
  import opened SharedLedger

  const CHART: map<string, AccountType> := map[
    "PAYSTACK_CLEARING" := Asset,
    "CUSTOMER_RECEIVABLE" := Asset,
    "PAYOUTS_IN_TRANSIT" := Asset,
    "BANK_SETTLED" := Asset,
    "COMMISSION_EXPENSE" := Expense,
    "MERCHANT_SETTLEMENT_EXPENSE" := Expense,
    "BAD_DEBT_EXPENSE" := Expense,
    "COMMISSION_PAYABLE" := Liability,
    "MERCHANT_PAYABLE" := Liability,
    "PLATFORM_REVENUE" := Revenue]

  predicate InChart(name: string, accountType: AccountType) {
    name in CHART && CHART[name] == accountType
  }

  predicate EntriesInChart(entries: seq<Entry>) {
    forall k :: 0 <= k < |entries| ==> InChart(entries[k].accountName, entries[k].accountType)
  }

  predicate AccountsInChart(accounts: seq<Account>) {
    forall id :: 0 <= id < |accounts| ==> InChart(accounts[id].name, accounts[id].accountType)
  }

  lemma {:induction false} EntriesKeepChart(books: Books, transaction: nat, tenant: Tenant, entries: seq<Entry>)
    requires AccountsInChart(books.accounts) && EntriesInChart(entries)
    ensures AccountsInChart(PostEntries(books, transaction, tenant, entries).accounts)
  {
    if entries != [] {
      var n := |entries| - 1;
      EntriesKeepChart(books, transaction, tenant, entries[..n]);
      assert InChart(entries[n].accountName, entries[n].accountType);
    }
  }

  lemma PostKeepsChart(books: Books, posting: Posting)
    requires AccountsInChart(books.accounts) && EntriesInChart(posting.entries)
    ensures AccountsInChart(Post(books, posting).accounts)
  {
    if Balanced(posting.entries) {
      EntriesKeepChart(
        books.(transactions := Upsert(books.transactions, posting.reference, posting.description)),
        FindTransaction(books.transactions, posting.reference), TenantOf(posting.companyId), posting.entries);
    }
  }

  lemma PaymentInChart(contract: Pipeline.Contract, amount: Money, key: nat)
    ensures EntriesInChart(Pipeline.PaymentPosting(contract, amount, key).entries)
  {
    var commission := Pipeline.CommissionAmount(contract, amount);
    assert EntriesInChart(Pipeline.CashEntries(amount));
    assert EntriesInChart(Pipeline.CommissionEntries(commission));
    assert EntriesInChart(Pipeline.MerchantEntries(amount - commission));
  }

  lemma TransferInChart(row: Pipeline.Settlement, call: Pipeline.Call)
    requires Pipeline.IsTransferCall(call)
    ensures var posting := Pipeline.TransferPostingOf(row, call);
            posting.Some? ==> EntriesInChart(posting.value.entries)
  {
  }

  lemma PayoutPostingInChart(t: Payouts.Tables, e: Payouts.Event)
    requires Payouts.Ready(t)
    ensures var posting := PayoutTransfers.PostingOf(t, e);
            posting.Some? ==> EntriesInChart(posting.value.entries)
  {
  }

  lemma PipelinePostingInChart(db: Pipeline.Db, e: Pipeline.Event)
    requires Pipeline.Ready(db)
    ensures var posting := PipelinePostings.PostingOf(db, e);
            posting.Some? ==> EntriesInChart(posting.value.entries)
  {
    if e.Written? && e.call < |db.calls| {
      var call := db.calls[e.call];
      assert Pipeline.CallFits(db, call);
      if call.Paying? {
        PaymentInChart(call.contract, db.installments[call.installment].amount, call.key);
      } else if Pipeline.IsTransferCall(call) {
        TransferInChart(db.settlements[call.settlement], call);
      }
    }
  }

  lemma PostingInChart(s: Platform, event: Event)
    requires Fit(s)
    ensures var posting := PostingOf(s, event);
            posting.Some? ==> EntriesInChart(posting.value.entries)
  {
    match event
    case OfPayouts(e) => PayoutPostingInChart(s.payouts, e);
    case OfPipeline(e) => PipelinePostingInChart(s.pipeline, e);
  }

  lemma StepKeepsChart(s: Platform, event: Event)
    requires Fit(s) && AccountsInChart(BooksOf(s).accounts)
    ensures AccountsInChart(BooksOf(Step(s, event)).accounts)
  {
    StepPosts(s, event);
    PostingInChart(s, event);
    if PostingOf(s, event).Some? {
      PostKeepsChart(BooksOf(s), PostingOf(s, event).value);
    }
  }

  lemma {:induction false} EveryAccountIsInTheChart(users: seq<Payouts.User>, events: seq<Event>)
    ensures AccountsInChart(BooksOf(Run(Start(users), events)).accounts)
  {
    if events != [] {
      var n := |events| - 1;
      EveryAccountIsInTheChart(users, events[..n]);
      StepKeepsChart(Run(Start(users), events[..n]), events[n]);
    }
  }

  lemma ChartedBalance(books: Books, id: nat)
    requires AccountsInChart(books.accounts) && Reconciled(books) && id < |books.accounts|
    ensures var account := books.accounts[id];
            var debits, credits := DebitsOf(books.journal, id), CreditsOf(books.journal, id);
            if account.name in {"COMMISSION_PAYABLE", "MERCHANT_PAYABLE", "PLATFORM_REVENUE"}
            then account.balance == credits - debits
            else account.name in CHART && account.balance == debits - credits
  {
    assert InChart(books.accounts[id].name, books.accounts[id].accountType);
    BalanceOnItsSide(books, id);
  }

  /**
   In every run of the platform there are no accounts but those of the chart, of the types it gives; clearing,
   receivable, transit, bank and the expenses store debits less credits, the payables and the revenue credits less
   debits; and per tenant what the former store is what the latter store.
   */
  lemma PlatformStandsOnItsSides(users: seq<Payouts.User>, events: seq<Event>)
    ensures var books := BooksOf(Run(Start(users), events));
            && (forall id :: 0 <= id < |books.accounts| ==>
                  var account := books.accounts[id];
                  var debits, credits := DebitsOf(books.journal, id), CreditsOf(books.journal, id);
                  if account.name in {"COMMISSION_PAYABLE", "MERCHANT_PAYABLE", "PLATFORM_REVENUE"}
                  then account.balance == credits - debits
                  else account.name in CHART && account.balance == debits - credits)
            && (forall tenant: Tenant ::
                  StoredOn(books.accounts, tenant, {Asset, Expense})
                  == StoredOn(books.accounts, tenant, {Liability, Equity, Revenue}))
  {
    var books := BooksOf(Run(Start(users), events));
    EveryAccountIsInTheChart(users, events);
    BooksInEveryRun(users, events);
    forall id | 0 <= id < |books.accounts|
      ensures var account := books.accounts[id];
              var debits, credits := DebitsOf(books.journal, id), CreditsOf(books.journal, id);
              if account.name in {"COMMISSION_PAYABLE", "MERCHANT_PAYABLE", "PLATFORM_REVENUE"}
              then account.balance == credits - debits
              else account.name in CHART && account.balance == debits - credits
    {
      ChartedBalance(books, id);
    }
    forall tenant: Tenant
      ensures StoredOn(books.accounts, tenant, {Asset, Expense})
           == StoredOn(books.accounts, tenant, {Liability, Equity, Revenue})
    {
      SidesAreEqual(books, tenant);
    }
  }
}
