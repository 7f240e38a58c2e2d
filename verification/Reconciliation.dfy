/** The daily reconciliation: stored balances are replaced by the fold of the journal. */
module Reconciliation {
  import opened Common
  import opened Ledger
  import opened LedgerProofs

  /** The accounts the worker reports as discrepant. */
  ghost function Drifting(books: Books): set<nat> {
    set id: nat | id < |books.accounts| && books.accounts[id].balance != Canonical(books, id)
  }

  function Repair(books: Books, reconciledAt: int): Books {
    books.(accounts := seq(|books.accounts|, id requires 0 <= id < |books.accounts| =>
             books.accounts[id].(balance := Canonical(books, id), reconciledAt := Some(reconciledAt))))
  }

  /** Any books with the same rows except for what is stored in the balance column. */
  ghost predicate SameButBalances(books: Books, corrupted: Books) {
    && corrupted.journal == books.journal
    && corrupted.transactions == books.transactions
    && |corrupted.accounts| == |books.accounts|
    && forall id :: 0 <= id < |books.accounts| ==>
         && corrupted.accounts[id].name == books.accounts[id].name
         && corrupted.accounts[id].tenant == books.accounts[id].tenant
         && corrupted.accounts[id].accountType == books.accounts[id].accountType
  }

  lemma RepairKeepsJournal(books: Books, reconciledAt: int)
    ensures SameButBalances(books, Repair(books, reconciledAt))
    ensures Reconciled(Repair(books, reconciledAt))
  {
  }

  lemma SameButBalancesKeepsJournalBalanced(books: Books, corrupted: Books)
    requires JournalBalanced(books) && WellFormed(books) && SameButBalances(books, corrupted)
    ensures JournalBalanced(corrupted)
  {
    forall tenant: Tenant ensures TenantNet(corrupted.journal, corrupted.accounts, tenant) == 0.0 {
      TenantNetExtends(books.journal, books.accounts, corrupted.accounts, tenant);
    }
    forall i, j | 0 <= i < j < |corrupted.accounts|
      ensures corrupted.accounts[i].name != corrupted.accounts[j].name
           || corrupted.accounts[i].tenant != corrupted.accounts[j].tenant
    {
      assert books.accounts[i].name != books.accounts[j].name || books.accounts[i].tenant != books.accounts[j].tenant;
    }
  }

  /**
   Whatever happened to the stored balances of a ledger built by postings, one pass puts every
   account on its journal, every transaction and every tenant balance again, and a second pass
   finds nothing.
   */
  lemma RepairRestoresBooks(postings: seq<Posting>, corrupted: Books, reconciledAt: int)
    requires SameButBalances(PostAll(EMPTY_BOOKS, postings), corrupted)
    ensures var repaired := Repair(corrupted, reconciledAt);
            && Reconciled(repaired)
            && Drifting(repaired) == {}
            && (forall id :: 0 <= id < |repaired.accounts| ==>
                  repaired.accounts[id].balance == PostAll(EMPTY_BOOKS, postings).accounts[id].balance)
            && (forall t: nat :: TransactionNet(repaired.journal, t) == 0.0)
            && (forall tenant: Tenant :: TrialBalance(repaired.accounts, tenant) == 0.0)
  {
    var books := PostAll(EMPTY_BOOKS, postings);
    var repaired := Repair(corrupted, reconciledAt);
    EveryRunKeepsTheBooks(postings);
    SameButBalancesKeepsJournalBalanced(books, corrupted);
    RepairKeepsJournal(corrupted, reconciledAt);
    SameButBalancesKeepsJournalBalanced(corrupted, repaired);
    forall tenant: Tenant ensures TrialBalance(repaired.accounts, tenant) == 0.0 {
      ReconciledTrialBalance(repaired, tenant);
    }
  }

  /** On a ledger that only postings touched the pass corrects nothing but the time stamp. */
  lemma NothingToCorrect(postings: seq<Posting>, reconciledAt: int)
    ensures var books := PostAll(EMPTY_BOOKS, postings);
            && Drifting(books) == {}
            && forall id :: 0 <= id < |books.accounts| ==>
                 Repair(books, reconciledAt).accounts[id] == books.accounts[id].(reconciledAt := Some(reconciledAt))
  {
    EveryRunKeepsTheBooks(postings);
  }

  // ---- A pass that postings interleave with ----

  /** The update of one account, computed from what the pass loaded. */
  function WriteBalance(snapshot: Books, books: Books, id: nat, reconciledAt: int): (r: Books)
    requires id < |snapshot.accounts| && id < |books.accounts|
    ensures r == books.(accounts := r.accounts) && |r.accounts| == |books.accounts|
  {
    var account := books.accounts[id];
    var drifting := snapshot.accounts[id].balance != Canonical(snapshot, id);
    books.(accounts := books.accounts[id := account.(
             balance := if drifting then Canonical(snapshot, id) else account.balance,
             reconciledAt := Some(reconciledAt))])
  }

  /** The books when the first `n` accounts are written; `between[k]` are posted before the write of account k. */
  function PassUntil(snapshot: Books, between: seq<seq<Posting>>, reconciledAt: int, n: nat): (r: Books)
    requires n <= |snapshot.accounts| == |between|
    ensures |snapshot.accounts| <= |r.accounts|
    decreases n, 0
  {
    if n == 0 then snapshot
    else WriteBalance(snapshot, AtWrite(snapshot, between, reconciledAt, n - 1), n - 1, reconciledAt)
  }

  /** The books that the write of account `id` finds. */
  function AtWrite(snapshot: Books, between: seq<seq<Posting>>, reconciledAt: int, id: nat): (r: Books)
    requires id < |snapshot.accounts| == |between|
    ensures |snapshot.accounts| <= |r.accounts|
    decreases id, 1
  {
    var before := PassUntil(snapshot, between, reconciledAt, id);
    PostAllAddsAccounts(before, between[id]);
    PostAll(before, between[id])
  }

  function InterleavedPass(snapshot: Books, between: seq<seq<Posting>>, reconciledAt: int): Books
    requires |snapshot.accounts| == |between|
  {
    PassUntil(snapshot, between, reconciledAt, |snapshot.accounts|)
  }

  lemma {:induction false} PostEntriesAddAccounts(books: Books, transaction: nat, tenant: Tenant, entries: seq<Entry>)
    ensures |books.accounts| <= |PostEntries(books, transaction, tenant, entries).accounts|
  {
    if entries != [] {
      PostEntriesAddAccounts(books, transaction, tenant, entries[..|entries| - 1]);
    }
  }

  lemma {:induction false} PostAllAddsAccounts(books: Books, postings: seq<Posting>)
    ensures |books.accounts| <= |PostAll(books, postings).accounts|
  {
    if postings != [] {
      var n := |postings| - 1;
      var posting := postings[n];
      var before := PostAll(books, postings[..n]);
      PostAllAddsAccounts(books, postings[..n]);
      PostEntriesAddAccounts(
        before.(transactions := Upsert(before.transactions, posting.reference, posting.description)),
        FindTransaction(before.transactions, posting.reference), TenantOf(posting.companyId), posting.entries);
    }
  }

  lemma PassNext(snapshot: Books, between: seq<seq<Posting>>, reconciledAt: int, id: nat)
    requires id < |snapshot.accounts| == |between|
    ensures var before := AtWrite(snapshot, between, reconciledAt, id);
            && before == PostAll(PassUntil(snapshot, between, reconciledAt, id), between[id])
            && PassUntil(snapshot, between, reconciledAt, id + 1)
               == WriteBalance(snapshot, before, id, reconciledAt)
  {
  }

  lemma WriteKeepsWellFormed(snapshot: Books, books: Books, id: nat, reconciledAt: int)
    requires WellFormed(books) && id < |snapshot.accounts| && id < |books.accounts|
    ensures WellFormed(WriteBalance(snapshot, books, id, reconciledAt))
  {
    var r := WriteBalance(snapshot, books, id, reconciledAt);
    forall i, j | 0 <= i < j < |r.accounts|
      ensures r.accounts[i].name != r.accounts[j].name || r.accounts[i].tenant != r.accounts[j].tenant
    {
      assert books.accounts[i].name != books.accounts[j].name || books.accounts[i].tenant != books.accounts[j].tenant;
    }
  }

  lemma {:induction false} PassIsWellFormed(snapshot: Books, between: seq<seq<Posting>>, reconciledAt: int, n: nat)
    requires WellFormed(snapshot) && n <= |snapshot.accounts| == |between|
    ensures WellFormed(PassUntil(snapshot, between, reconciledAt, n))
  {
    if n > 0 {
      PassIsWellFormed(snapshot, between, reconciledAt, n - 1);
      RunKeepsDrift(PassUntil(snapshot, between, reconciledAt, n - 1), between[n - 1]);
      WriteKeepsWellFormed(snapshot, AtWrite(snapshot, between, reconciledAt, n - 1), n - 1, reconciledAt);
    }
  }

  lemma {:induction false} RunKeepsDrift(books: Books, postings: seq<Posting>)
    requires WellFormed(books)
    ensures var after := PostAll(books, postings);
            && WellFormed(after)
            && Extends(books.accounts, after.accounts)
            && forall id :: 0 <= id < |after.accounts| ==>
                 Drift(after, id) == if id < |books.accounts| then Drift(books, id) else 0.0
  {
    if postings != [] {
      var n := |postings| - 1;
      RunKeepsDrift(books, postings[..n]);
      PostKeepsDrift(PostAll(books, postings[..n]), postings[n]);
    }
  }

  lemma DriftAfterWrite(snapshot: Books, books: Books, written: nat, reconciledAt: int, id: nat)
    requires written < |snapshot.accounts| && written < |books.accounts| && id < |books.accounts|
    ensures Drift(WriteBalance(snapshot, books, written, reconciledAt), id)
         == if id == written && written in Drifting(snapshot) then Canonical(snapshot, id) - Canonical(books, id)
            else Drift(books, id)
  {
    var r := WriteBalance(snapshot, books, written, reconciledAt);
    assert Canonical(r, id) == Canonical(books, id);
  }

  /** What an account is off by when the pass has written the first `n` accounts. */
  lemma {:induction false} DriftInPass(
      snapshot: Books, between: seq<seq<Posting>>, reconciledAt: int, n: nat, id: nat)
    requires WellFormed(snapshot) && n <= |snapshot.accounts| == |between|
    requires id < |PassUntil(snapshot, between, reconciledAt, n).accounts|
    ensures Drift(PassUntil(snapshot, between, reconciledAt, n), id)
         == if id < n && id in Drifting(snapshot)
            then Canonical(snapshot, id) - Canonical(AtWrite(snapshot, between, reconciledAt, id), id)
            else if id < |snapshot.accounts| then Drift(snapshot, id) else 0.0
    decreases n, 0
  {
    if n > 0 {
      DriftAtWrite(snapshot, between, reconciledAt, n - 1, id);
      DriftAfterWrite(snapshot, AtWrite(snapshot, between, reconciledAt, n - 1), n - 1, reconciledAt, id);
    }
  }

  lemma {:induction false} DriftAtWrite(
      snapshot: Books, between: seq<seq<Posting>>, reconciledAt: int, n: nat, id: nat)
    requires WellFormed(snapshot) && n < |snapshot.accounts| == |between|
    requires id < |AtWrite(snapshot, between, reconciledAt, n).accounts|
    ensures Drift(AtWrite(snapshot, between, reconciledAt, n), id)
         == if id < n && id in Drifting(snapshot)
            then Canonical(snapshot, id) - Canonical(AtWrite(snapshot, between, reconciledAt, id), id)
            else if id < |snapshot.accounts| then Drift(snapshot, id) else 0.0
    decreases n, 1
  {
    var start := PassUntil(snapshot, between, reconciledAt, n);
    PassIsWellFormed(snapshot, between, reconciledAt, n);
    RunKeepsDrift(start, between[n]);
    if id < |start.accounts| {
      DriftInPass(snapshot, between, reconciledAt, n, id);
    }
  }

  /**
   The worker takes no transaction: it loads all accounts, and writes them one by one while others post.  An
   account is on its journal afterwards exactly when it was not drifting when it was loaded, or the postings up to
   its own write left its canonical balance where it was.
   */
  lemma InterleavedPassRepairsExactlyUnmoved(
      snapshot: Books, between: seq<seq<Posting>>, reconciledAt: int, id: nat)
    requires WellFormed(snapshot) && |snapshot.accounts| == |between|
    requires id < |InterleavedPass(snapshot, between, reconciledAt).accounts|
    ensures Drift(InterleavedPass(snapshot, between, reconciledAt), id) == 0.0 <==>
              || id !in Drifting(snapshot)
              || Canonical(AtWrite(snapshot, between, reconciledAt, id), id) == Canonical(snapshot, id)
  {
    DriftInPass(snapshot, between, reconciledAt, |snapshot.accounts|, id);
  }

  /** With nothing in between, account by account is all at once. */
  lemma {:induction false} UninterruptedPrefix(snapshot: Books, between: seq<seq<Posting>>, reconciledAt: int, n: nat)
    requires WellFormed(snapshot) && n <= |snapshot.accounts| == |between|
    requires forall k :: 0 <= k < |between| ==> between[k] == []
    ensures var r := PassUntil(snapshot, between, reconciledAt, n);
            && r == snapshot.(accounts := r.accounts) && |r.accounts| == |snapshot.accounts|
            && forall k :: 0 <= k < |snapshot.accounts| ==>
                 r.accounts[k] == if k < n then Repair(snapshot, reconciledAt).accounts[k] else snapshot.accounts[k]
  {
    if n > 0 {
      UninterruptedPrefix(snapshot, between, reconciledAt, n - 1);
    }
  }

  lemma UninterruptedPassRepairs(snapshot: Books, between: seq<seq<Posting>>, reconciledAt: int)
    requires WellFormed(snapshot) && |snapshot.accounts| == |between|
    requires forall k :: 0 <= k < |between| ==> between[k] == []
    ensures InterleavedPass(snapshot, between, reconciledAt) == Repair(snapshot, reconciledAt)
  {
    UninterruptedPrefix(snapshot, between, reconciledAt, |snapshot.accounts|);
    assert InterleavedPass(snapshot, between, reconciledAt).accounts == Repair(snapshot, reconciledAt).accounts;
  }

  // ---- Counting ----

  function DriftCount(books: Books, n: nat): nat
    requires n <= |books.accounts|
  {
    if n == 0 then 0
    else DriftCount(books, n - 1) + (if books.accounts[n - 1].balance != Canonical(books, n - 1) then 1 else 0)
  }

  lemma {:induction false} DriftCountIsSize(books: Books, n: nat)
    requires n <= |books.accounts|
    ensures DriftCount(books, n) == |set id: nat | id in Drifting(books) && id < n|
  {
    var all := set id: nat | id in Drifting(books) && id < n;
    if n == 0 {
      assert all == {};
    } else {
      DriftCountIsSize(books, n - 1);
      var before := set id: nat | id in Drifting(books) && id < n - 1;
      assert all == if n - 1 in Drifting(books) then before + {n - 1} else before;
    }
  }

  lemma AllDriftsCounted(books: Books)
    ensures DriftCount(books, |books.accounts|) == |Drifting(books)|
  {
    DriftCountIsSize(books, |books.accounts|);
    assert (set id: nat | id in Drifting(books) && id < |books.accounts|) == Drifting(books);
  }

  // ---- A pass that leaves an account wrong ----

  /** One deposit; then the stored balance of CASH is one too high. */
  lemma OneDeposit() returns (books: Books, snapshot: Books)
    ensures books == PostAll(EMPTY_BOOKS, [DEPOSIT]) && SameButBalances(books, snapshot) && WellFormed(snapshot)
    ensures |snapshot.accounts| == 2 && snapshot.accounts[0].name == "CASH" && snapshot.accounts[0].tenant == None
    ensures snapshot.accounts[0].accountType.Asset?
    ensures snapshot.accounts[0].balance == 6.0 && Drift(snapshot, 0) == 1.0
  {
    books := PostAll(EMPTY_BOOKS, [DEPOSIT]);
    assert [DEPOSIT][..0] == [];
    PairBalances(DEPOSIT.entries, "CASH", "EQUITY", 5.0, "CASH");
    var upserted := EMPTY_BOOKS.(transactions := Upsert([], DEPOSIT.reference, DEPOSIT.description));
    var one := PostEntry(upserted, 0, None, DEPOSIT.entries[0]);
    assert PostEntries(upserted, 0, None, DEPOSIT.entries[..1]) == one by {
      assert DEPOSIT.entries[..1][..0] == [];
    }
    assert one.accounts == [Account("CASH", Asset, None, 5.0, None)];
    EveryRunKeepsTheBooks([DEPOSIT]);
    snapshot := books.(accounts := books.accounts[0 := books.accounts[0].(balance := 6.0)]);
    assert Canonical(snapshot, 0) == Canonical(books, 0);
  }

  /** The second deposit finds CASH at 6 and leaves 11 on a journal that says 10. */
  lemma SecondDeposit(snapshot: Books)
    requires WellFormed(snapshot) && |snapshot.accounts| == 2
    requires snapshot.accounts[0].name == "CASH" && snapshot.accounts[0].tenant == None
    requires snapshot.accounts[0].accountType.Asset?
    requires snapshot.accounts[0].balance == 6.0 && Drift(snapshot, 0) == 1.0
    ensures 0 < |Post(snapshot, DEPOSIT).accounts| && Canonical(Post(snapshot, DEPOSIT), 0) == 10.0
    ensures Canonical(snapshot, 0) == 5.0
  {
    var after := Post(snapshot, DEPOSIT);
    PostKeepsDrift(snapshot, DEPOSIT);
    FindAccountIn(snapshot.accounts, "CASH", None, 0);
    FindAccountIn(after.accounts, "CASH", None, 0);
    PairBalances(DEPOSIT.entries, "CASH", "EQUITY", 5.0, "CASH");
    PostPosition(snapshot, DEPOSIT, "CASH", None);
    assert after.accounts[0].balance == 11.0;
  }

  lemma FirstWriteAfterDeposit(snapshot: Books, between: seq<seq<Posting>>)
    requires WellFormed(snapshot) && |snapshot.accounts| == |between| > 0 && between[0] == [DEPOSIT]
    ensures AtWrite(snapshot, between, 0, 0) == Post(snapshot, DEPOSIT)
  {
    assert PassUntil(snapshot, between, 0, 0) == snapshot;
    assert [DEPOSIT][..0] == [];
    assert PostAll(snapshot, [DEPOSIT]) == Post(PostAll(snapshot, []), DEPOSIT);
  }

  /**
   The pass loads CASH while it is one too high, another deposit is posted, and then the pass writes what it had
   computed: CASH is short of the second deposit.
   */
  lemma LatePostingIsOverwritten() returns (snapshot: Books, between: seq<seq<Posting>>)
    ensures SameButBalances(PostAll(EMPTY_BOOKS, [DEPOSIT]), snapshot)
    ensures WellFormed(snapshot) && |snapshot.accounts| == |between| > 0
    ensures 0 < |InterleavedPass(snapshot, between, 0).accounts|
    ensures Drift(InterleavedPass(snapshot, between, 0), 0) == -5.0
  {
    var books;
    books, snapshot := OneDeposit();
    between := [[DEPOSIT], []];
    SecondDeposit(snapshot);
    FirstWriteAfterDeposit(snapshot, between);
    DriftInPass(snapshot, between, 0, 2, 0);
  }
}
