/**
 The double-entry ledger: accounts, financial transactions and journal lines, each a
 table whose row id is its position.  `Post` is what one call of
 LedgerService.recordTransaction does to the tables.
 */
module Ledger {
  import opened Common

  datatype AccountType = Asset | Liability | Revenue | Expense | Equity

  /** None is the global (null) tenant. */
  type Tenant = Option<string>

  /** The empty company id counts as no company, as `companyId || null` has it. */
  function TenantOf(companyId: Option<string>): Tenant {
    if companyId == Some("") then None else companyId
  }

  /** A reference is a fixed prefix followed by the id of the row it is about. */
  datatype Reference = Reference(prefix: string, subject: nat)

  datatype Entry = Entry(accountName: string, accountType: AccountType, debit: Money, credit: Money)

  function Debit(name: string, accountType: AccountType, amount: Money): Entry {
    Entry(name, accountType, amount, 0.0)
  }

  function Credit(name: string, accountType: AccountType, amount: Money): Entry {
    Entry(name, accountType, 0.0, amount)
  }

  datatype Posting = Posting(
    reference: Reference, description: string, companyId: Option<string>, entries: seq<Entry>)

  datatype Account = Account(
    name: string, accountType: AccountType, tenant: Tenant, balance: Money, reconciledAt: Option<int>)

  datatype Transaction = Transaction(reference: Reference, description: string)

  datatype Line = Line(transaction: nat, account: nat, debit: Money, credit: Money)

  datatype Books = Books(accounts: seq<Account>, transactions: seq<Transaction>, journal: seq<Line>)

  const EMPTY_BOOKS := Books([], [], [])

  // Accounts on which more than one service posts.
  const COMMISSION_PAYABLE := "COMMISSION_PAYABLE"
  const PAYOUTS_IN_TRANSIT := "PAYOUTS_IN_TRANSIT"
  const BANK_SETTLED := "BANK_SETTLED"

  function TotalDebits(entries: seq<Entry>): Money {
    if entries == [] then 0.0 else TotalDebits(entries[..|entries| - 1]) + entries[|entries| - 1].debit
  }

  function TotalCredits(entries: seq<Entry>): Money {
    if entries == [] then 0.0 else TotalCredits(entries[..|entries| - 1]) + entries[|entries| - 1].credit
  }

  predicate Balanced(entries: seq<Entry>) {
    TotalDebits(entries) == TotalCredits(entries)
  }

  predicate DebitNormal(accountType: AccountType) {
    accountType.Asset? || accountType.Expense?
  }

  /** The change of a balance, or the balance of a net debit position, on the account's normal side. */
  function Signed(accountType: AccountType, net: Money): Money {
    if DebitNormal(accountType) then net else -net
  }

  /** The row of (name, tenant), or the number of rows when there is none. */
  function FindAccount(accounts: seq<Account>, name: string, tenant: Tenant): (id: nat)
    ensures id <= |accounts|
    ensures id < |accounts| ==> accounts[id].name == name && accounts[id].tenant == tenant
    ensures forall i :: 0 <= i < id ==> !(accounts[i].name == name && accounts[i].tenant == tenant)
  {
    if accounts == [] then 0
    else
      var n := |accounts| - 1;
      var before := FindAccount(accounts[..n], name, tenant);
      if before < n then before
      else if accounts[n].name == name && accounts[n].tenant == tenant then n
      else n + 1
  }

  function FindTransaction(transactions: seq<Transaction>, reference: Reference): (id: nat)
    ensures id <= |transactions|
    ensures id < |transactions| ==> transactions[id].reference == reference
    ensures forall i :: 0 <= i < id ==> transactions[i].reference != reference
  {
    if transactions == [] then 0
    else
      var n := |transactions| - 1;
      var before := FindTransaction(transactions[..n], reference);
      if before < n then before
      else if transactions[n].reference == reference then n
      else n + 1
  }

  /** Upsert on the reference: an old row only gets the new description. */
  function Upsert(transactions: seq<Transaction>, reference: Reference, description: string): seq<Transaction> {
    var id := FindTransaction(transactions, reference);
    if id < |transactions| then transactions[id := Transaction(reference, description)]
    else transactions + [Transaction(reference, description)]
  }

  /** The account of an entry is created with the declared type only when it does not exist yet. */
  function EnsureAccount(accounts: seq<Account>, entry: Entry, tenant: Tenant): (r: seq<Account>)
    ensures FindAccount(accounts, entry.accountName, tenant) < |r|
  {
    if FindAccount(accounts, entry.accountName, tenant) < |accounts| then accounts
    else accounts + [Account(entry.accountName, entry.accountType, tenant, 0.0, None)]
  }

  function PostEntry(books: Books, transaction: nat, tenant: Tenant, entry: Entry): Books {
    var id := FindAccount(books.accounts, entry.accountName, tenant);
    var accounts := EnsureAccount(books.accounts, entry, tenant);
    var account := accounts[id];
    var change := Signed(account.accountType, entry.debit - entry.credit);
    Books(accounts[id := account.(balance := account.balance + change)],
          books.transactions,
          books.journal + [Line(transaction, id, entry.debit, entry.credit)])
  }

  function PostEntries(books: Books, transaction: nat, tenant: Tenant, entries: seq<Entry>): Books {
    if entries == [] then books
    else
      var n := |entries| - 1;
      PostEntry(PostEntries(books, transaction, tenant, entries[..n]), transaction, tenant, entries[n])
  }

  /** An unbalanced posting is refused before anything is written. */
  function Post(books: Books, posting: Posting): Books {
    if !Balanced(posting.entries) then books
    else
      PostEntries(books.(transactions := Upsert(books.transactions, posting.reference, posting.description)),
                  FindTransaction(books.transactions, posting.reference),
                  TenantOf(posting.companyId),
                  posting.entries)
  }

  function PostIfAny(books: Books, posting: Option<Posting>): Books {
    if posting.Some? then Post(books, posting.value) else books
  }

  function PostAll(books: Books, postings: seq<Posting>): Books {
    if postings == [] then books
    else Post(PostAll(books, postings[..|postings| - 1]), postings[|postings| - 1])
  }

  // ---- What the journal says ----

  /** The lines of one account, as the reconciliation query loads them. */
  function LinesOf(journal: seq<Line>, account: nat): seq<Line> {
    if journal == [] then []
    else
      var n := |journal| - 1;
      LinesOf(journal[..n], account) + (if journal[n].account == account then [journal[n]] else [])
  }

  /** The reduce of computeCanonicalBalance. */
  function CanonicalBalance(accountType: AccountType, lines: seq<Line>): Money {
    if lines == [] then 0.0
    else
      var n := |lines| - 1;
      CanonicalBalance(accountType, lines[..n]) + Signed(accountType, lines[n].debit - lines[n].credit)
  }

  function Canonical(books: Books, id: nat): Money
    requires id < |books.accounts|
  {
    CanonicalBalance(books.accounts[id].accountType, LinesOf(books.journal, id))
  }

  ghost predicate Reconciled(books: Books) {
    forall id :: 0 <= id < |books.accounts| ==> books.accounts[id].balance == Canonical(books, id)
  }

  /** Debits minus credits of the lines of one financial transaction. */
  function TransactionNet(journal: seq<Line>, transaction: nat): Money {
    if journal == [] then 0.0
    else
      var n := |journal| - 1;
      TransactionNet(journal[..n], transaction)
      + (if journal[n].transaction == transaction then journal[n].debit - journal[n].credit else 0.0)
  }

  /** Stored balances of ASSET and EXPENSE accounts minus those of the other types, one tenant. */
  function TrialBalance(accounts: seq<Account>, tenant: Tenant): Money {
    if accounts == [] then 0.0
    else
      var n := |accounts| - 1;
      TrialBalance(accounts[..n], tenant)
      + (if accounts[n].tenant == tenant then Signed(accounts[n].accountType, accounts[n].balance) else 0.0)
  }

  /** The net debit position of a named account: what its lines come to whatever its type. */
  function Position(books: Books, name: string, tenant: Tenant): Money {
    var id := FindAccount(books.accounts, name, tenant);
    if id < |books.accounts| then Signed(books.accounts[id].accountType, books.accounts[id].balance) else 0.0
  }

  function StoredBalance(books: Books, name: string, tenant: Tenant): Money {
    var id := FindAccount(books.accounts, name, tenant);
    if id < |books.accounts| then books.accounts[id].balance else 0.0
  }

  /** Debits minus credits of the entries that name an account. */
  function NamedNet(entries: seq<Entry>, name: string): Money {
    if entries == [] then 0.0
    else
      var n := |entries| - 1;
      NamedNet(entries[..n], name)
      + (if entries[n].accountName == name then entries[n].debit - entries[n].credit else 0.0)
  }

  /** How many lines belong to the transactions under a reference. */
  function LinesUnder(journal: seq<Line>, transactions: seq<Transaction>, reference: Reference): nat {
    if journal == [] then 0
    else
      var n := |journal| - 1;
      LinesUnder(journal[..n], transactions, reference)
      + (if journal[n].transaction < |transactions| && transactions[journal[n].transaction].reference == reference
         then 1 else 0)
  }

  // ---- Structure of the tables ----

  /** Foreign keys exist, and the unique keys of schema.prisma hold. */
  ghost predicate WellFormed(books: Books) {
    && (forall l :: 0 <= l < |books.journal| ==>
          books.journal[l].account < |books.accounts| && books.journal[l].transaction < |books.transactions|)
    && (forall i, j :: 0 <= i < j < |books.accounts| ==>
          books.accounts[i].name != books.accounts[j].name || books.accounts[i].tenant != books.accounts[j].tenant)
    && (forall i, j :: 0 <= i < j < |books.transactions| ==>
          books.transactions[i].reference != books.transactions[j].reference)
  }
}
