/**
 The ledger as its rows show it: on which side each type of account stands, and which rows one posting writes.
 Nothing here refers to how the increments are computed.
 */
module LedgerSides {
  import opened Common
  import opened Ledger
  import opened LedgerProofs

  // ---- Debits and credits of an account ----

  function DebitsOf(journal: seq<Line>, account: nat): Money {
    if journal == [] then 0.0
    else
      var n := |journal| - 1;
      DebitsOf(journal[..n], account) + (if journal[n].account == account then journal[n].debit else 0.0)
  }

  function CreditsOf(journal: seq<Line>, account: nat): Money {
    if journal == [] then 0.0
    else
      var n := |journal| - 1;
      CreditsOf(journal[..n], account) + (if journal[n].account == account then journal[n].credit else 0.0)
  }

  lemma {:induction false} NetIsDebitsLessCredits(journal: seq<Line>, account: nat)
    ensures AccountNet(journal, account) == DebitsOf(journal, account) - CreditsOf(journal, account)
  {
    if journal != [] {
      NetIsDebitsLessCredits(journal[..|journal| - 1], account);
    }
  }

  /** What the reconciliation computes for an account, whatever is stored: debits and credits on its side. */
  lemma ComputedOnItsSide(books: Books, id: nat)
    requires id < |books.accounts|
    ensures var debits, credits := DebitsOf(books.journal, id), CreditsOf(books.journal, id);
            Canonical(books, id)
            == match books.accounts[id].accountType
               case Asset | Expense => debits - credits
               case Liability | Equity | Revenue => credits - debits
  {
    CanonicalIsSignedNet(books.accounts[id].accountType, books.journal, id);
    NetIsDebitsLessCredits(books.journal, id);
  }

  lemma BalanceOnItsSide(books: Books, id: nat)
    requires Reconciled(books) && id < |books.accounts|
    ensures var debits, credits := DebitsOf(books.journal, id), CreditsOf(books.journal, id);
            books.accounts[id].balance
            == match books.accounts[id].accountType
               case Asset | Expense => debits - credits
               case Liability | Equity | Revenue => credits - debits
  {
    ComputedOnItsSide(books, id);
  }

  // ---- The two sides of a tenant ----

  /** The stored balances of a tenant's accounts of some types. */
  function StoredOn(accounts: seq<Account>, tenant: Tenant, types: set<AccountType>): Money {
    if accounts == [] then 0.0
    else
      var n := |accounts| - 1;
      StoredOn(accounts[..n], tenant, types)
      + (if accounts[n].tenant == tenant && accounts[n].accountType in types then accounts[n].balance else 0.0)
  }

  lemma {:induction false} TrialBalanceBySides(accounts: seq<Account>, tenant: Tenant)
    ensures TrialBalance(accounts, tenant)
         == StoredOn(accounts, tenant, {Asset, Expense}) - StoredOn(accounts, tenant, {Liability, Equity, Revenue})
  {
    if accounts != [] {
      TrialBalanceBySides(accounts[..|accounts| - 1], tenant);
    }
  }

  lemma SidesAreEqual(books: Books, tenant: Tenant)
    requires JournalBalanced(books) && Reconciled(books)
    ensures StoredOn(books.accounts, tenant, {Asset, Expense})
         == StoredOn(books.accounts, tenant, {Liability, Equity, Revenue})
  {
    ReconciledTrialBalance(books, tenant);
    TrialBalanceBySides(books.accounts, tenant);
  }

  /**
   After every run of postings an account of type ASSET or EXPENSE stores the debits less the credits of its lines,
   one of type LIABILITY, EQUITY or REVENUE the credits less the debits; and for every tenant, the null tenant's
   included, what the one kind stores is what the other stores.
   */
  lemma EveryRunStandsOnItsSides(postings: seq<Posting>)
    ensures var books := PostAll(EMPTY_BOOKS, postings);
            && (forall id :: 0 <= id < |books.accounts| ==>
                  var debits, credits := DebitsOf(books.journal, id), CreditsOf(books.journal, id);
                  books.accounts[id].balance
                  == match books.accounts[id].accountType
                     case Asset | Expense => debits - credits
                     case Liability | Equity | Revenue => credits - debits)
            && (forall tenant: Tenant ::
                  StoredOn(books.accounts, tenant, {Asset, Expense})
                  == StoredOn(books.accounts, tenant, {Liability, Equity, Revenue}))
  {
    var books := PostAll(EMPTY_BOOKS, postings);
    EveryRunKeepsTheBooks(postings);
    forall id | 0 <= id < |books.accounts|
      ensures var debits, credits := DebitsOf(books.journal, id), CreditsOf(books.journal, id);
              books.accounts[id].balance
              == match books.accounts[id].accountType
                 case Asset | Expense => debits - credits
                 case Liability | Equity | Revenue => credits - debits
    {
      BalanceOnItsSide(books, id);
    }
    forall tenant: Tenant
      ensures StoredOn(books.accounts, tenant, {Asset, Expense})
           == StoredOn(books.accounts, tenant, {Liability, Equity, Revenue})
    {
      SidesAreEqual(books, tenant);
    }
  }

  // ---- The rows of one posting ----

  /** A line says of its entry all there is to say. */
  predicate IsLineOf(books: Books, line: Line, transaction: nat, tenant: Tenant, entry: Entry) {
    && line.transaction == transaction && line.account < |books.accounts|
    && books.accounts[line.account].name == entry.accountName && books.accounts[line.account].tenant == tenant
    && line.debit == entry.debit && line.credit == entry.credit
  }

  /** The journal is continued by one line for each entry, in order. */
  predicate ContinuedBy(before: seq<Line>, books: Books, transaction: nat, tenant: Tenant, entries: seq<Entry>) {
    && |books.journal| == |before| + |entries|
    && (forall l :: 0 <= l < |before| ==> books.journal[l] == before[l])
    && (forall k :: 0 <= k < |entries| ==>
          IsLineOf(books, books.journal[|before| + k], transaction, tenant, entries[k]))
  }

  lemma {:induction false} EntriesWrite(books: Books, transaction: nat, tenant: Tenant, entries: seq<Entry>)
    requires WellFormed(books) && transaction < |books.transactions|
    ensures ContinuedBy(books.journal, PostEntries(books, transaction, tenant, entries), transaction, tenant, entries)
    ensures PostEntries(books, transaction, tenant, entries).transactions == books.transactions
  {
    if entries != [] {
      var n := |entries| - 1;
      var before := PostEntries(books, transaction, tenant, entries[..n]);
      var after := PostEntry(before, transaction, tenant, entries[n]);
      EntriesWrite(books, transaction, tenant, entries[..n]);
      PostEntryExtends(before, transaction, tenant, entries[n]);
      forall k | 0 <= k < |entries|
        ensures IsLineOf(after, after.journal[|books.journal| + k], transaction, tenant, entries[k])
      {
        if k < n {
          assert IsLineOf(before, before.journal[|books.journal| + k], transaction, tenant, entries[..n][k]);
        }
      }
    }
  }

  /**
   A balanced posting continues the journal by one line for each entry, with its debit, its credit and its account:
   the one of that name of its company, of the null tenant when there is no company or an empty one.  The
   transaction of its reference has its description, and no other transaction is touched.
   */
  lemma PostWrites(books: Books, posting: Posting) returns (transaction: nat)
    requires WellFormed(books) && TotalDebits(posting.entries) == TotalCredits(posting.entries)
    ensures var r := Post(books, posting);
            var tenant := if posting.companyId == None || posting.companyId == Some("") then None
                          else posting.companyId;
            && ContinuedBy(books.journal, r, transaction, tenant, posting.entries)
            && transaction < |r.transactions|
            && r.transactions[transaction] == Transaction(posting.reference, posting.description)
            && |books.transactions| <= |r.transactions| <= |books.transactions| + 1
            && (forall t :: 0 <= t < |books.transactions| && t != transaction ==>
                  r.transactions[t] == books.transactions[t]
                  && r.transactions[t].reference != posting.reference)
  {
    transaction := FindTransaction(books.transactions, posting.reference);
    var upserted := books.(transactions := Upsert(books.transactions, posting.reference, posting.description));
    UpsertKeepsWellFormed(books, posting.reference, posting.description);
    EntriesWrite(upserted, transaction, TenantOf(posting.companyId), posting.entries);
  }

  /** A posting whose debits and credits differ writes nothing. */
  lemma UnbalancedWritesNothing(books: Books, posting: Posting)
    ensures TotalDebits(posting.entries) != TotalCredits(posting.entries) ==> Post(books, posting) == books
  {
  }

  // ---- What a pair moves ----

  /** Two accounts of one tenant, and no other account at all: one gains what the other loses. */
  ghost predicate Shifts(
      before: Books, after: Books, gains: string, loses: string, amount: Money, company: Option<string>)
  {
    forall name: string, tenant: Tenant ::
      Position(after, name, tenant)
      == Position(before, name, tenant)
         + (if tenant == (if company == Some("") then None else company)
            then (if name == gains then amount else 0.0) - (if name == loses then amount else 0.0)
            else 0.0)
  }

  lemma PairShifts(books: Books, posting: Posting, gains: string, loses: string, amount: Money)
    requires IsPair(posting.entries, gains, loses, amount)
    ensures Shifts(books, Post(books, posting), gains, loses, amount, posting.companyId)
  {
    forall name: string, tenant: Tenant
      ensures Position(Post(books, posting), name, tenant)
           == Position(books, name, tenant)
              + (if tenant == (if posting.companyId == Some("") then None else posting.companyId)
                 then (if name == gains then amount else 0.0) - (if name == loses then amount else 0.0)
                 else 0.0)
    {
      PairBalances(posting.entries, gains, loses, amount, name);
      PostPosition(books, posting, name, tenant);
    }
  }

  function Lines(books: Books, reference: Reference): nat {
    LinesUnder(books.journal, books.transactions, reference)
  }

  lemma PairAddsLines(books: Books, posting: Posting, gains: string, loses: string, amount: Money)
    requires WellFormed(books) && IsPair(posting.entries, gains, loses, amount)
    ensures Lines(Post(books, posting), posting.reference) == Lines(books, posting.reference) + 2
  {
    PairBalances(posting.entries, gains, loses, amount, "");
    PostLinesUnder(books, posting, posting.reference);
  }
}
