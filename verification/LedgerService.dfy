/** The ledger tables as they are updated in place by LedgerService and the reconciliation worker. */
module LedgerService {
  import opened Common
  import opened Ledger
  import Reconciliation

  datatype LedgerError = Unbalanced(debits: Money, credits: Money)

  class LedgerStore {
    var accounts: seq<Account>
    var transactions: seq<Transaction>
    var journal: seq<Line>

    constructor ()
      ensures State() == EMPTY_BOOKS
    {
      accounts, transactions, journal := [], [], [];
    }

    ghost function State(): Books
      reads this
    {
      Books(accounts, transactions, journal)
    }

    /** The two reduces over the entries. */
    static method Totals(entries: seq<Entry>) returns (debits: Money, credits: Money)
      ensures debits == TotalDebits(entries) && credits == TotalCredits(entries)
    {
      debits, credits := 0.0, 0.0;
      for i := 0 to |entries|
        invariant debits == TotalDebits(entries[..i]) && credits == TotalCredits(entries[..i])
      {
        assert entries[..i + 1][..i] == entries[..i];
        debits := debits + entries[i].debit;
        credits := credits + entries[i].credit;
      }
      assert entries[..|entries|] == entries;
    }

    /** The body of the entry loop: find or create the account, write the line, increment the balance. */
    method WriteEntry(transaction: nat, tenant: Tenant, entry: Entry)
      modifies this
      ensures State() == PostEntry(old(State()), transaction, tenant, entry)
    {
      var account := FindAccount(accounts, entry.accountName, tenant);
      if account == |accounts| {
        accounts := accounts + [Account(entry.accountName, entry.accountType, tenant, 0.0, None)];
      }
      journal := journal + [Line(transaction, account, entry.debit, entry.credit)];
      var change;
      match accounts[account].accountType {
        case Asset | Expense => change := entry.debit - entry.credit;
        case Liability | Equity | Revenue => change := entry.credit - entry.debit;
      }
      accounts := accounts[account := accounts[account].(balance := accounts[account].balance + change)];
    }

    /** recordTransaction: the balance check, the upsert of the parent row, then entry by entry. */
    method RecordTransaction(posting: Posting) returns (r: Result<nat, LedgerError>)
      modifies this
      ensures State() == Post(old(State()), posting)
      ensures r.Err? <==> !Balanced(posting.entries)
      ensures r.Err? ==> r.error == Unbalanced(TotalDebits(posting.entries), TotalCredits(posting.entries))
      ensures r.Ok? ==> r.value == FindTransaction(old(transactions), posting.reference)
    {
      var entries := posting.entries;
      var totalDebits, totalCredits := Totals(entries);
      if totalDebits != totalCredits {
        return Err(Unbalanced(totalDebits, totalCredits));
      }

      var transaction := FindTransaction(transactions, posting.reference);
      var parent := Transaction(posting.reference, posting.description);
      if transaction < |transactions| {
        transactions := transactions[transaction := parent];
      } else {
        transactions := transactions + [parent];
      }

      ghost var upserted := State();
      var tenant := TenantOf(posting.companyId);
      for i := 0 to |entries|
        invariant State() == PostEntries(upserted, transaction, tenant, entries[..i])
      {
        assert entries[..i + 1][..i] == entries[..i];
        WriteEntry(transaction, tenant, entries[i]);
      }
      assert entries[..|entries|] == entries;
      r := Ok(transaction);
    }

    /** What others post between two writes of the reconciliation worker. */
    method RecordAll(postings: seq<Posting>)
      modifies this
      ensures State() == PostAll(old(State()), postings)
    {
      ghost var before := State();
      for k := 0 to |postings|
        invariant State() == PostAll(before, postings[..k])
      {
        assert postings[..k + 1][..k] == postings[..k];
        var _ := RecordTransaction(postings[k]);
      }
      assert postings[..|postings|] == postings;
    }

    /** The update of one account, `computed` and `drifting` being from what the pass loaded. */
    method WriteReconciled(id: nat, computed: Money, drifting: bool, reconciledAt: int, ghost snapshot: Books)
      requires id < |snapshot.accounts| && id < |accounts| && computed == Canonical(snapshot, id)
      requires drifting <==> snapshot.accounts[id].balance != computed
      modifies this`accounts
      ensures State() == Reconciliation.WriteBalance(snapshot, old(State()), id, reconciledAt)
    {
      var account := accounts[id];
      if drifting {
        accounts := accounts[id := account.(balance := computed, reconciledAt := Some(reconciledAt))];
      } else {
        accounts := accounts[id := account.(reconciledAt := Some(reconciledAt))];
      }
    }

    /** One run of the reconciliation worker; `between[k]` is what others post before its k-th write. */
    method Reconcile(reconciledAt: int, between: seq<seq<Posting>>) returns (discrepancies: nat)
      requires WellFormed(State()) && |between| == |accounts|
      modifies this
      ensures State() == Reconciliation.InterleavedPass(old(State()), between, reconciledAt)
      ensures discrepancies == |Reconciliation.Drifting(old(State()))|
    {
      var loaded, entries := accounts, journal;
      ghost var before := State();
      discrepancies := 0;
      for id := 0 to |loaded|
        invariant State() == Reconciliation.PassUntil(before, between, reconciledAt, id)
        invariant discrepancies == Reconciliation.DriftCount(before, id)
      {
        var computed := CanonicalBalance(loaded[id].accountType, LinesOf(entries, id));
        if computed != loaded[id].balance {
          discrepancies := discrepancies + 1;
        }
        RecordAll(between[id]);
        Reconciliation.PassNext(before, between, reconciledAt, id);
        WriteReconciled(id, computed, computed != loaded[id].balance, reconciledAt, before);
      }
      Reconciliation.AllDriftsCounted(before);
    }
  }
}
