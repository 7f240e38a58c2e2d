/**
 What every posting keeps: stored balances agree with the journal, every financial
 transaction balances, and so does every tenant on its own.
 */
module LedgerProofs {
  import opened Common
  import opened Ledger

  /** Debits minus credits of the lines on one account. */
  function AccountNet(journal: seq<Line>, account: nat): Money {
    if journal == [] then 0.0
    else
      var n := |journal| - 1;
      AccountNet(journal[..n], account)
      + (if journal[n].account == account then journal[n].debit - journal[n].credit else 0.0)
  }

  /** Debits minus credits of the lines on the accounts of one tenant. */
  function TenantNet(journal: seq<Line>, accounts: seq<Account>, tenant: Tenant): Money {
    if journal == [] then 0.0
    else
      var n := |journal| - 1;
      TenantNet(journal[..n], accounts, tenant)
      + (if journal[n].account < |accounts| && accounts[journal[n].account].tenant == tenant
         then journal[n].debit - journal[n].credit else 0.0)
  }

  /** The journal balances by transaction and by tenant; stored balances play no part. */
  ghost predicate JournalBalanced(books: Books) {
    && WellFormed(books)
    && (forall t: nat :: TransactionNet(books.journal, t) == 0.0)
    && (forall tenant: Tenant :: TenantNet(books.journal, books.accounts, tenant) == 0.0)
  }

  // ---- Accounts keep their identity ----

  /** Rows are only added; an old row keeps everything but its balance. */
  ghost predicate Extends(before: seq<Account>, after: seq<Account>) {
    && |before| <= |after|
    && forall i :: 0 <= i < |before| ==>
         && after[i].name == before[i].name
         && after[i].tenant == before[i].tenant
         && after[i].accountType == before[i].accountType
  }

  lemma FindAccountIn(accounts: seq<Account>, name: string, tenant: Tenant, id: nat)
    requires id < |accounts| && accounts[id].name == name && accounts[id].tenant == tenant
    requires forall i :: 0 <= i < id ==> !(accounts[i].name == name && accounts[i].tenant == tenant)
    ensures FindAccount(accounts, name, tenant) == id
  {
  }

  lemma FindAccountExtends(before: seq<Account>, after: seq<Account>, name: string, tenant: Tenant)
    requires Extends(before, after)
    requires FindAccount(before, name, tenant) < |before|
    ensures FindAccount(after, name, tenant) == FindAccount(before, name, tenant)
  {
    FindAccountIn(after, name, tenant, FindAccount(before, name, tenant));
  }

  lemma PostEntryExtends(books: Books, transaction: nat, tenant: Tenant, entry: Entry)
    ensures Extends(books.accounts, PostEntry(books, transaction, tenant, entry).accounts)
  {
  }

  lemma {:induction false} TenantNetExtends(
      journal: seq<Line>, before: seq<Account>, after: seq<Account>, tenant: Tenant)
    requires Extends(before, after)
    requires forall l :: 0 <= l < |journal| ==> journal[l].account < |before|
    ensures TenantNet(journal, after, tenant) == TenantNet(journal, before, tenant)
  {
    if journal != [] {
      TenantNetExtends(journal[..|journal| - 1], before, after, tenant);
    }
  }

  // ---- Canonical balance is the signed net of the account's lines ----

  lemma CanonicalAppend(accountType: AccountType, journal: seq<Line>, line: Line, id: nat)
    ensures CanonicalBalance(accountType, LinesOf(journal + [line], id))
         == CanonicalBalance(accountType, LinesOf(journal, id))
            + (if line.account == id then Signed(accountType, line.debit - line.credit) else 0.0)
  {
    assert (journal + [line])[..|journal|] == journal;
    var before := LinesOf(journal, id);
    if line.account == id {
      assert (before + [line])[..|before|] == before;
    } else {
      assert before + [] == before;
    }
  }

  lemma {:induction false} CanonicalIsSignedNet(accountType: AccountType, journal: seq<Line>, id: nat)
    ensures CanonicalBalance(accountType, LinesOf(journal, id)) == Signed(accountType, AccountNet(journal, id))
  {
    if journal != [] {
      var before, line := journal[..|journal| - 1], journal[|journal| - 1];
      assert journal == before + [line];
      CanonicalAppend(accountType, before, line, id);
      CanonicalIsSignedNet(accountType, before, id);
      assert AccountNet(journal, id)
          == AccountNet(before, id) + (if line.account == id then line.debit - line.credit else 0.0);
    }
  }

  // ---- One entry ----

  lemma LinesOfNoLine(journal: seq<Line>, id: nat)
    requires forall l :: 0 <= l < |journal| ==> journal[l].account != id
    ensures LinesOf(journal, id) == []
  {
  }

  /** How far a stored balance is from its journal. */
  function Drift(books: Books, id: nat): Money
    requires id < |books.accounts|
  {
    books.accounts[id].balance - Canonical(books, id)
  }

  lemma PostEntryKeepsWellFormed(books: Books, transaction: nat, tenant: Tenant, entry: Entry)
    requires WellFormed(books) && transaction < |books.transactions|
    ensures WellFormed(PostEntry(books, transaction, tenant, entry))
  {
    var after := PostEntry(books, transaction, tenant, entry);
    forall i, j | 0 <= i < j < |after.accounts|
      ensures after.accounts[i].name != after.accounts[j].name || after.accounts[i].tenant != after.accounts[j].tenant
    {
      if j < |books.accounts| {
        assert books.accounts[i].name != books.accounts[j].name || books.accounts[i].tenant != books.accounts[j].tenant;
      }
    }
  }

  function EntryLine(books: Books, transaction: nat, tenant: Tenant, entry: Entry): Line {
    Line(transaction, FindAccount(books.accounts, entry.accountName, tenant), entry.debit, entry.credit)
  }

  lemma EntryRows(books: Books, transaction: nat, tenant: Tenant, entry: Entry, id: nat)
    requires id < |PostEntry(books, transaction, tenant, entry).accounts|
    ensures var after := PostEntry(books, transaction, tenant, entry);
            var touched := FindAccount(books.accounts, entry.accountName, tenant);
            && after.journal == books.journal + [EntryLine(books, transaction, tenant, entry)]
            && after.accounts[id].accountType
               == (if id < |books.accounts| then books.accounts[id].accountType else entry.accountType)
            && after.accounts[id].balance
               == (if id < |books.accounts| then books.accounts[id].balance else 0.0)
                  + (if id == touched then Signed(after.accounts[id].accountType, entry.debit - entry.credit) else 0.0)
            && (id >= |books.accounts| ==> id == touched)
  {
  }

  /** What the journal says of an account grows by the entry, if it is on it. */
  lemma EntryCanonical(books: Books, transaction: nat, tenant: Tenant, entry: Entry, id: nat)
    requires WellFormed(books) && id < |PostEntry(books, transaction, tenant, entry).accounts|
    ensures var after := PostEntry(books, transaction, tenant, entry);
            var touched := FindAccount(books.accounts, entry.accountName, tenant);
            Canonical(after, id)
            == (if id < |books.accounts| then Canonical(books, id) else 0.0)
               + (if id == touched then Signed(after.accounts[id].accountType, entry.debit - entry.credit) else 0.0)
  {
    var after := PostEntry(books, transaction, tenant, entry);
    EntryRows(books, transaction, tenant, entry, id);
    CanonicalAppend(after.accounts[id].accountType, books.journal,
                    EntryLine(books, transaction, tenant, entry), id);
    if id >= |books.accounts| {
      LinesOfNoLine(books.journal, id);
    }
  }

  lemma EntryKeepsDrift(books: Books, transaction: nat, tenant: Tenant, entry: Entry, id: nat)
    requires WellFormed(books) && id < |PostEntry(books, transaction, tenant, entry).accounts|
    ensures Drift(PostEntry(books, transaction, tenant, entry), id)
         == if id < |books.accounts| then Drift(books, id) else 0.0
  {
    EntryRows(books, transaction, tenant, entry, id);
    EntryCanonical(books, transaction, tenant, entry, id);
  }

  /** The increment is exactly the canonical change, whatever type the entry declares. */
  lemma PostEntryKeepsDrift(books: Books, transaction: nat, tenant: Tenant, entry: Entry)
    requires WellFormed(books)
    ensures var after := PostEntry(books, transaction, tenant, entry);
            forall id :: 0 <= id < |after.accounts| ==>
              Drift(after, id) == if id < |books.accounts| then Drift(books, id) else 0.0
  {
    forall id | 0 <= id < |PostEntry(books, transaction, tenant, entry).accounts|
      ensures Drift(PostEntry(books, transaction, tenant, entry), id)
           == if id < |books.accounts| then Drift(books, id) else 0.0
    {
      EntryKeepsDrift(books, transaction, tenant, entry, id);
    }
  }

  lemma PostEntryNets(books: Books, transaction: nat, tenant: Tenant, entry: Entry, t: nat, other: Tenant)
    requires WellFormed(books)
    ensures var after := PostEntry(books, transaction, tenant, entry);
            var change := entry.debit - entry.credit;
            && TransactionNet(after.journal, t)
               == TransactionNet(books.journal, t) + (if t == transaction then change else 0.0)
            && TenantNet(after.journal, after.accounts, other)
               == TenantNet(books.journal, books.accounts, other) + (if other == tenant then change else 0.0)
  {
    var after := PostEntry(books, transaction, tenant, entry);
    assert after.journal[..|books.journal|] == books.journal;
    PostEntryExtends(books, transaction, tenant, entry);
    TenantNetExtends(books.journal, books.accounts, after.accounts, other);
  }

  // ---- All entries of a posting ----

  lemma {:induction false} PostEntriesKeepsDrift(
      books: Books, transaction: nat, tenant: Tenant, entries: seq<Entry>)
    requires WellFormed(books) && transaction < |books.transactions|
    ensures var after := PostEntries(books, transaction, tenant, entries);
            && WellFormed(after)
            && after.transactions == books.transactions
            && Extends(books.accounts, after.accounts)
            && forall id :: 0 <= id < |after.accounts| ==>
                 Drift(after, id) == if id < |books.accounts| then Drift(books, id) else 0.0
  {
    if entries != [] {
      var n := |entries| - 1;
      var before := PostEntries(books, transaction, tenant, entries[..n]);
      PostEntriesKeepsDrift(books, transaction, tenant, entries[..n]);
      PostEntryKeepsWellFormed(before, transaction, tenant, entries[n]);
      PostEntryKeepsDrift(before, transaction, tenant, entries[n]);
      PostEntryExtends(before, transaction, tenant, entries[n]);
    }
  }

  lemma {:induction false} PostEntriesNets(
      books: Books, transaction: nat, tenant: Tenant, entries: seq<Entry>, t: nat, other: Tenant)
    requires WellFormed(books) && transaction < |books.transactions|
    ensures var after := PostEntries(books, transaction, tenant, entries);
            var change := TotalDebits(entries) - TotalCredits(entries);
            && TransactionNet(after.journal, t)
               == TransactionNet(books.journal, t) + (if t == transaction then change else 0.0)
            && TenantNet(after.journal, after.accounts, other)
               == TenantNet(books.journal, books.accounts, other) + (if other == tenant then change else 0.0)
  {
    if entries != [] {
      var n := |entries| - 1;
      var before := PostEntries(books, transaction, tenant, entries[..n]);
      PostEntriesKeepsDrift(books, transaction, tenant, entries[..n]);
      PostEntriesNets(books, transaction, tenant, entries[..n], t, other);
      PostEntryNets(before, transaction, tenant, entries[n], t, other);
    }
  }

  lemma UpsertKeepsWellFormed(books: Books, reference: Reference, description: string)
    requires WellFormed(books)
    ensures var after := books.(transactions := Upsert(books.transactions, reference, description));
            && WellFormed(after)
            && FindTransaction(books.transactions, reference) < |after.transactions|
            && |books.transactions| <= |after.transactions|
            && forall id :: 0 <= id < |books.accounts| ==> Drift(after, id) == Drift(books, id)
  {
  }

  // ---- One posting, and every run of postings ----

  /** No posting changes the drift of any account; a new account starts without any. */
  lemma PostKeepsDrift(books: Books, posting: Posting)
    requires WellFormed(books)
    ensures var after := Post(books, posting);
            && WellFormed(after)
            && Extends(books.accounts, after.accounts)
            && forall id :: 0 <= id < |after.accounts| ==>
                 Drift(after, id) == if id < |books.accounts| then Drift(books, id) else 0.0
  {
    if Balanced(posting.entries) {
      var upserted := books.(transactions := Upsert(books.transactions, posting.reference, posting.description));
      UpsertKeepsWellFormed(books, posting.reference, posting.description);
      PostEntriesKeepsDrift(upserted, FindTransaction(books.transactions, posting.reference),
                            TenantOf(posting.companyId), posting.entries);
    }
  }

  lemma PostKeepsJournalBalanced(books: Books, posting: Posting)
    requires JournalBalanced(books)
    ensures JournalBalanced(Post(books, posting))
  {
    PostKeepsDrift(books, posting);
    if Balanced(posting.entries) {
      var upserted := books.(transactions := Upsert(books.transactions, posting.reference, posting.description));
      var transaction := FindTransaction(books.transactions, posting.reference);
      UpsertKeepsWellFormed(books, posting.reference, posting.description);
      var after := Post(books, posting);
      forall t: nat ensures TransactionNet(after.journal, t) == 0.0 {
        PostEntriesNets(upserted, transaction, TenantOf(posting.companyId), posting.entries, t, None);
      }
      forall tenant: Tenant ensures TenantNet(after.journal, after.accounts, tenant) == 0.0 {
        PostEntriesNets(upserted, transaction, TenantOf(posting.companyId), posting.entries, 0, tenant);
      }
    }
  }

  lemma PostKeepsReconciled(books: Books, posting: Posting)
    requires WellFormed(books) && Reconciled(books)
    ensures WellFormed(Post(books, posting)) && Reconciled(Post(books, posting))
  {
    PostKeepsDrift(books, posting);
    var after := Post(books, posting);
    forall id | 0 <= id < |after.accounts|
      ensures after.accounts[id].balance == Canonical(after, id)
    {
      assert Drift(after, id) == 0.0;
      if id < |books.accounts| {
        assert Drift(books, id) == 0.0;
      }
    }
  }

  // ---- Tenants: from the journal to the stored balances ----

  /** The trial balance, taken over the journal instead of over stored balances. */
  function NetOverAccounts(accounts: seq<Account>, journal: seq<Line>, tenant: Tenant): Money {
    if accounts == [] then 0.0
    else
      var n := |accounts| - 1;
      NetOverAccounts(accounts[..n], journal, tenant)
      + (if accounts[n].tenant == tenant then AccountNet(journal, n) else 0.0)
  }

  lemma {:induction false} NetOverAccountsAppend(
      accounts: seq<Account>, journal: seq<Line>, line: Line, tenant: Tenant)
    ensures NetOverAccounts(accounts, journal + [line], tenant)
         == NetOverAccounts(accounts, journal, tenant)
            + (if line.account < |accounts| && accounts[line.account].tenant == tenant
               then line.debit - line.credit else 0.0)
  {
    if accounts != [] {
      var n := |accounts| - 1;
      NetOverAccountsAppend(accounts[..n], journal, line, tenant);
      assert (journal + [line])[..|journal|] == journal;
    }
  }

  lemma {:induction false} NetOverNoLines(accounts: seq<Account>, tenant: Tenant)
    ensures NetOverAccounts(accounts, [], tenant) == 0.0
  {
    if accounts != [] {
      NetOverNoLines(accounts[..|accounts| - 1], tenant);
    }
  }

  /** Summing by account and summing by line come to the same. */
  lemma {:induction false} NetOverAccountsIsTenantNet(accounts: seq<Account>, journal: seq<Line>, tenant: Tenant)
    ensures NetOverAccounts(accounts, journal, tenant) == TenantNet(journal, accounts, tenant)
  {
    if journal == [] {
      NetOverNoLines(accounts, tenant);
    } else {
      var n := |journal| - 1;
      assert journal == journal[..n] + [journal[n]];
      NetOverAccountsAppend(accounts, journal[..n], journal[n], tenant);
      NetOverAccountsIsTenantNet(accounts, journal[..n], tenant);
    }
  }

  lemma {:induction false} TrialBalanceIsNet(accounts: seq<Account>, journal: seq<Line>, tenant: Tenant)
    requires forall id :: 0 <= id < |accounts| ==>
               accounts[id].balance == Signed(accounts[id].accountType, AccountNet(journal, id))
    ensures TrialBalance(accounts, tenant) == NetOverAccounts(accounts, journal, tenant)
  {
    if accounts != [] {
      TrialBalanceIsNet(accounts[..|accounts| - 1], journal, tenant);
    }
  }

  lemma ReconciledTrialBalance(books: Books, tenant: Tenant)
    requires JournalBalanced(books) && Reconciled(books)
    ensures TrialBalance(books.accounts, tenant) == 0.0
  {
    forall id | 0 <= id < |books.accounts|
      ensures books.accounts[id].balance == Signed(books.accounts[id].accountType, AccountNet(books.journal, id))
    {
      assert books.accounts[id].balance == Canonical(books, id);
      CanonicalIsSignedNet(books.accounts[id].accountType, books.journal, id);
    }
    TrialBalanceIsNet(books.accounts, books.journal, tenant);
    NetOverAccountsIsTenantNet(books.accounts, books.journal, tenant);
    assert TenantNet(books.journal, books.accounts, tenant) == 0.0;
  }

  /** Every reachable ledger: balances equal the fold of the journal, and everything balances. */
  lemma {:induction false} EveryRunKeepsTheBooks(postings: seq<Posting>)
    ensures var books := PostAll(EMPTY_BOOKS, postings);
            && WellFormed(books)
            && Reconciled(books)
            && (forall t: nat :: TransactionNet(books.journal, t) == 0.0)
            && (forall tenant: Tenant :: TrialBalance(books.accounts, tenant) == 0.0)
            && JournalBalanced(books)
  {
    if postings != [] {
      var n := |postings| - 1;
      EveryRunKeepsTheBooks(postings[..n]);
      PostKeepsReconciled(PostAll(EMPTY_BOOKS, postings[..n]), postings[n]);
      PostKeepsJournalBalanced(PostAll(EMPTY_BOOKS, postings[..n]), postings[n]);
    }
    var books := PostAll(EMPTY_BOOKS, postings);
    forall tenant: Tenant ensures TrialBalance(books.accounts, tenant) == 0.0 {
      ReconciledTrialBalance(books, tenant);
    }
  }

  // ---- What a posting does to one named account ----

  lemma PostEntryPosition(books: Books, transaction: nat, tenant: Tenant, entry: Entry, name: string, other: Tenant)
    ensures Position(PostEntry(books, transaction, tenant, entry), name, other)
         == Position(books, name, other)
            + (if other == tenant && entry.accountName == name then entry.debit - entry.credit else 0.0)
  {
    var after := PostEntry(books, transaction, tenant, entry);
    var id := FindAccount(books.accounts, name, other);
    PostEntryExtends(books, transaction, tenant, entry);
    if id < |books.accounts| {
      FindAccountExtends(books.accounts, after.accounts, name, other);
    } else if FindAccount(after.accounts, name, other) < |after.accounts| {
      assert FindAccount(after.accounts, name, other) == |books.accounts|;
    }
  }

  lemma {:induction false} PostEntriesPosition(
      books: Books, transaction: nat, tenant: Tenant, entries: seq<Entry>, name: string, other: Tenant)
    ensures Position(PostEntries(books, transaction, tenant, entries), name, other)
         == Position(books, name, other) + (if other == tenant then NamedNet(entries, name) else 0.0)
  {
    if entries != [] {
      var n := |entries| - 1;
      PostEntriesPosition(books, transaction, tenant, entries[..n], name, other);
      PostEntryPosition(PostEntries(books, transaction, tenant, entries[..n]), transaction, tenant, entries[n],
                        name, other);
    }
  }

  /** A balanced posting moves a named account of its tenant by its net entries, and nothing else. */
  lemma PostPosition(books: Books, posting: Posting, name: string, other: Tenant)
    ensures Position(Post(books, posting), name, other)
         == Position(books, name, other)
            + (if Balanced(posting.entries) && other == TenantOf(posting.companyId)
               then NamedNet(posting.entries, name) else 0.0)
  {
    if Balanced(posting.entries) {
      var upserted := books.(transactions := Upsert(books.transactions, posting.reference, posting.description));
      PostEntriesPosition(upserted, FindTransaction(books.transactions, posting.reference),
                          TenantOf(posting.companyId), posting.entries, name, other);
    }
  }

  /**
   A reference does not make a posting idempotent, although the architecture notes call it so:
   posting the same thing again leaves the account where it was if and only if its entries
   on that account cancel out.
   */
  lemma RepostingIsIdempotentOnlyIfNetIsZero(books: Books, posting: Posting, name: string)
    requires Balanced(posting.entries)
    ensures var once := Post(books, posting);
            var twice := Post(once, posting);
            var tenant := TenantOf(posting.companyId);
            Position(twice, name, tenant) == Position(once, name, tenant) <==> NamedNet(posting.entries, name) == 0.0
  {
    PostPosition(Post(books, posting), posting, name, TenantOf(posting.companyId));
  }

  const DEPOSIT :=
    Posting(Reference("DEPOSIT_", 0), "Deposit", None, [Debit("CASH", Asset, 5.0), Credit("EQUITY", Equity, 5.0)])

  /** The same posting under the same reference a second time: the account holds twice the amount. */
  lemma RepostingDoubles()
    ensures Position(PostAll(EMPTY_BOOKS, [DEPOSIT]), "CASH", None) == 5.0
    ensures Position(PostAll(EMPTY_BOOKS, [DEPOSIT, DEPOSIT]), "CASH", None) == 10.0
  {
    PairBalances(DEPOSIT.entries, "CASH", "EQUITY", 5.0, "CASH");
    assert [DEPOSIT][..0] == [] && [DEPOSIT, DEPOSIT][..1] == [DEPOSIT];
    PostPosition(EMPTY_BOOKS, DEPOSIT, "CASH", None);
    PostPosition(PostAll(EMPTY_BOOKS, [DEPOSIT]), DEPOSIT, "CASH", None);
  }

  // ---- Lines under a reference ----

  ghost predicate LinesWithin(journal: seq<Line>, n: nat) {
    forall l :: 0 <= l < |journal| ==> journal[l].transaction < n
  }

  ghost predicate SameReferences(before: seq<Transaction>, after: seq<Transaction>) {
    |before| <= |after| && forall t :: 0 <= t < |before| ==> after[t].reference == before[t].reference
  }

  lemma {:induction false} LinesUnderSame(
      journal: seq<Line>, before: seq<Transaction>, after: seq<Transaction>, reference: Reference)
    requires LinesWithin(journal, |before|) && SameReferences(before, after)
    ensures LinesUnder(journal, after, reference) == LinesUnder(journal, before, reference)
  {
    if journal != [] {
      LinesUnderSame(journal[..|journal| - 1], before, after, reference);
    }
  }

  lemma {:induction false} LinesUnderPosted(
      books: Books, transaction: nat, tenant: Tenant, entries: seq<Entry>, reference: Reference)
    requires transaction < |books.transactions|
    ensures var after := PostEntries(books, transaction, tenant, entries);
            && after.transactions == books.transactions
            && LinesUnder(after.journal, after.transactions, reference)
               == LinesUnder(books.journal, books.transactions, reference)
                  + (if books.transactions[transaction].reference == reference then |entries| else 0)
  {
    if entries != [] {
      var n := |entries| - 1;
      var before := PostEntries(books, transaction, tenant, entries[..n]);
      var after := PostEntries(books, transaction, tenant, entries);
      LinesUnderPosted(books, transaction, tenant, entries[..n], reference);
      assert after.journal[..|before.journal|] == before.journal;
    }
  }

  /** A posting adds its entries to the lines under its reference, and none under any other. */
  lemma PostLinesUnder(books: Books, posting: Posting, reference: Reference)
    requires WellFormed(books)
    ensures var after := Post(books, posting);
            LinesUnder(after.journal, after.transactions, reference)
            == LinesUnder(books.journal, books.transactions, reference)
               + (if Balanced(posting.entries) && posting.reference == reference then |posting.entries| else 0)
  {
    if Balanced(posting.entries) {
      var upserted := books.(transactions := Upsert(books.transactions, posting.reference, posting.description));
      LinesUnderSame(books.journal, books.transactions, upserted.transactions, reference);
      LinesUnderPosted(upserted, FindTransaction(books.transactions, posting.reference),
                       TenantOf(posting.companyId), posting.entries, reference);
    }
  }

  // ---- Entries in pairs ----

  lemma {:induction false} EntriesAppend(first: seq<Entry>, second: seq<Entry>, name: string)
    ensures TotalDebits(first + second) == TotalDebits(first) + TotalDebits(second)
    ensures TotalCredits(first + second) == TotalCredits(first) + TotalCredits(second)
    ensures NamedNet(first + second, name) == NamedNet(first, name) + NamedNet(second, name)
  {
    if second == [] {
      assert first + second == first;
    } else {
      var n := |second| - 1;
      assert (first + second)[..|first| + n] == first + second[..n];
      EntriesAppend(first, second[..n], name);
    }
  }

  lemma PairNet(debit: Entry, credit: Entry, name: string)
    ensures TotalDebits([debit, credit]) == debit.debit + credit.debit
    ensures TotalCredits([debit, credit]) == debit.credit + credit.credit
    ensures NamedNet([debit, credit], name)
         == (if debit.accountName == name then debit.debit - debit.credit else 0.0)
            + (if credit.accountName == name then credit.debit - credit.credit else 0.0)
  {
    var one := [debit];
    var none := one[..0];
    assert [debit, credit][..1] == one;
    assert TotalDebits(none) == 0.0 && TotalCredits(none) == 0.0 && NamedNet(none, name) == 0.0;
    assert TotalDebits(one) == debit.debit && TotalCredits(one) == debit.credit;
    assert NamedNet(one, name) == if debit.accountName == name then debit.debit - debit.credit else 0.0;
  }

  /** What a debit of one account and a credit of another come to on a named account. */
  function PairPart(debit: string, credit: string, amount: Money, name: string): Money {
    (if name == debit then amount else 0.0) - (if name == credit then amount else 0.0)
  }

  predicate IsPair(entries: seq<Entry>, debit: string, credit: string, amount: Money) {
    && |entries| == 2
    && entries[0].accountName == debit && entries[0].debit == amount && entries[0].credit == 0.0
    && entries[1].accountName == credit && entries[1].debit == 0.0 && entries[1].credit == amount
  }

  lemma PairBalances(entries: seq<Entry>, debit: string, credit: string, amount: Money, name: string)
    requires IsPair(entries, debit, credit, amount)
    ensures Balanced(entries) && NamedNet(entries, name) == PairPart(debit, credit, amount, name)
  {
    assert entries == [entries[0], entries[1]];
    PairNet(entries[0], entries[1], name);
  }

  /** What a posting, if there is one, moves on an account of a tenant. */
  function NetOn(posting: Option<Posting>, name: string, tenant: Tenant): Money {
    if posting.Some? && Balanced(posting.value.entries) && tenant == TenantOf(posting.value.companyId)
    then NamedNet(posting.value.entries, name) else 0.0
  }

  lemma PostIfAnyPosition(books: Books, posting: Option<Posting>, name: string, tenant: Tenant)
    ensures Position(PostIfAny(books, posting), name, tenant)
         == Position(books, name, tenant) + NetOn(posting, name, tenant)
  {
    if posting.Some? {
      PostPosition(books, posting.value, name, tenant);
    }
  }

  // ---- Accounts of a known type ----

  /** Wherever the account exists it has this stored type. */
  ghost predicate StoredAs(books: Books, name: string, accountType: AccountType) {
    forall id :: 0 <= id < |books.accounts| && books.accounts[id].name == name ==>
      books.accounts[id].accountType == accountType
  }

  ghost predicate DeclaresOnly(entries: seq<Entry>, name: string, accountType: AccountType) {
    forall i :: 0 <= i < |entries| && entries[i].accountName == name ==> entries[i].accountType == accountType
  }

  lemma {:induction false} PostEntriesStoredAs(
      books: Books, transaction: nat, tenant: Tenant, entries: seq<Entry>, name: string, accountType: AccountType)
    requires StoredAs(books, name, accountType) && DeclaresOnly(entries, name, accountType)
    ensures StoredAs(PostEntries(books, transaction, tenant, entries), name, accountType)
  {
    if entries != [] {
      PostEntriesStoredAs(books, transaction, tenant, entries[..|entries| - 1], name, accountType);
    }
  }

  lemma PostStoredAs(books: Books, posting: Posting, name: string, accountType: AccountType)
    requires StoredAs(books, name, accountType) && DeclaresOnly(posting.entries, name, accountType)
    ensures StoredAs(Post(books, posting), name, accountType)
  {
    if Balanced(posting.entries) {
      PostEntriesStoredAs(
        books.(transactions := Upsert(books.transactions, posting.reference, posting.description)),
        FindTransaction(books.transactions, posting.reference),
        TenantOf(posting.companyId), posting.entries, name, accountType);
    }
  }
}
