/** Restructuring and writing off: what the amounts come to, and when a restructure can commit at all. */
module Financing {
  import opened Common
  import opened Ledger
  import opened LedgerProofs
  import opened Installments
  import opened Pipeline
  import opened PipelineRows
  import opened PipelinePostings

  datatype CallerRole = AdminRole | CompanyRole | OtherRole

  datatype Caller = Caller(role: CallerRole, company: Option<string>)

  datatype Terms = Terms(interestPercentage: Money, numberOfInstallments: int, firstPaymentDate: int)

  datatype RestructureError =
    | InvalidTerms | ContractNotFound | NotInDefault | Forbidden | NothingToFinance | SequenceTaken

  predicate ValidTerms(terms: Terms) {
    0.0 <= terms.interestPercentage <= 100.0 && 1 <= terms.numberOfInstallments <= 120
  }

  /** A caller without a company, or with an empty one, may act on any contract. */
  predicate MayAct(caller: Caller, company: Option<string>) {
    !caller.role.OtherRole?
    && (caller.company.Some? && caller.company.value != "" ==> company == caller.company)
  }

  function NewInterest(remaining: Money, interestPercentage: Money): Money {
    remaining * interestPercentage / 100.0
  }

  function NewTotal(db: Db, c: nat, terms: Terms): Money
    requires c < |db.contracts|
  {
    Outstanding(db, c) + NewInterest(Outstanding(db, c), terms.interestPercentage)
  }

  /** An instalment of the contract already has one of the sequence numbers the new ones would get. */
  predicate Clashes(installments: seq<Installment>, c: nat, n: int) {
    exists i :: 0 <= i < |installments| && installments[i].contract == c && 1 <= installments[i].sequence <= n
  }

  /** Why the transaction does not commit, in the order in which it would notice. */
  function RestructureRefusal(db: Db, c: nat, caller: Option<Caller>, terms: Terms): Option<RestructureError> {
    if !ValidTerms(terms) then Some(InvalidTerms)
    else if c >= |db.contracts| then Some(ContractNotFound)
    else if !db.contracts[c].status.InDefault? then Some(NotInDefault)
    else if caller.None? || !MayAct(caller.value, db.contracts[c].company) then Some(Forbidden)
    else if NewTotal(db, c, terms) <= 0.0 then Some(NothingToFinance)
    else if Clashes(db.installments, c, terms.numberOfInstallments) then Some(SequenceTaken)
    else None
  }

  function RestructurePosting(c: nat, contract: Contract, remaining: Money, interest: Money): Posting {
    Posting(Reference("RESTRUCTURE-", c), "Contract restructured", contract.company,
            [Debit(RECEIVABLE, Asset, remaining + interest),
             Credit("BAD_DEBT_RECOVERY", Revenue, remaining),
             Credit("INTEREST_INCOME", Revenue, interest)])
  }

  function NewRows(db: Db, c: nat, terms: Terms): seq<NewInstallment>
    requires c < |db.contracts| && terms.numberOfInstallments > 0
  {
    Schedule(c, Cents(NewTotal(db, c, terms)), terms.numberOfInstallments, terms.firstPaymentDate)
  }

  function Restructure(db: Db, c: nat, terms: Terms): Db
    requires c < |db.contracts| && terms.numberOfInstallments > 0
  {
    var contract := db.contracts[c];
    var remaining := Outstanding(db, c);
    var interest := NewInterest(remaining, terms.interestPercentage);
    db.(contracts := db.contracts[c := contract.(status := Restructured, totalFinanced := remaining + interest)],
        installments := Insert(VoidContract(db.installments, c), NewRows(db, c, terms)),
        books := Post(db.books, RestructurePosting(c, contract, remaining, interest)))
  }

  // ---- Arithmetic of a restructure ----

  lemma ThreeEntries(a: Entry, b: Entry, c: Entry, name: string)
    ensures TotalDebits([a, b, c]) == a.debit + b.debit + c.debit
    ensures TotalCredits([a, b, c]) == a.credit + b.credit + c.credit
  {
    PairNet(a, b, name);
    EntriesAppend([a, b], [c], name);
    assert [a, b] + [c] == [a, b, c];
    assert [c][..0] == [];
  }

  /** The receivable equals recovery plus income, so the ledger never refuses it. */
  lemma RestructureBalances(c: nat, contract: Contract, remaining: Money, interest: Money)
    ensures Balanced(RestructurePosting(c, contract, remaining, interest).entries)
  {
    ThreeEntries(Debit(RECEIVABLE, Asset, remaining + interest),
                 Credit("BAD_DEBT_RECOVERY", Revenue, remaining),
                 Credit("INTEREST_INCOME", Revenue, interest), "");
  }

  /**
   The new instalments come to the new total of the contract, within half a cent; they are numbered
   from 1 again; the old unpaid ones are voided, and no paid one is touched.
   */
  lemma RestructuredSchedule(db: Db, c: nat, terms: Terms)
    requires c < |db.contracts| && terms.numberOfInstallments > 0
    ensures var rows := NewRows(db, c, terms);
            var newTotal := Restructure(db, c, terms).contracts[c].totalFinanced;
            && |rows| == terms.numberOfInstallments
            && -0.005 < Sum(Amounts(rows)) - newTotal <= 0.005
            && (forall k :: 0 <= k < |rows| ==> rows[k].sequence == k + 1 && rows[k].contract == c)
    ensures var r := Restructure(db, c, terms);
            forall i :: 0 <= i < |db.installments| ==>
              if db.installments[i].contract == c && !db.installments[i].status.Paid?
              then r.installments[i] == db.installments[i].(status := Voided)
              else r.installments[i] == db.installments[i]
  {
    ScheduleAmounts(c, NewTotal(db, c, terms), terms.numberOfInstallments, terms.firstPaymentDate);
  }

  /** A caller without a company, or with an empty one, is let through on any contract; other roles on none. */
  predicate IsLetThrough(caller: Option<Caller>, company: Option<string>) {
    && caller.Some? && caller.value.role in {AdminRole, CompanyRole}
    && (caller.value.company == None || caller.value.company == Some("") || caller.value.company == company)
  }

  /**
   The first of six objections that applies is the answer: an interest outside 0 to 100 or a number of instalments
   outside 1 to 120, no such contract, one that is not in default, a caller who is not let through, nothing left to
   finance, and a number from 1 on that is taken.
   */
  lemma RestructureObjections(db: Db, c: nat, caller: Option<Caller>, terms: Terms)
    ensures var n := terms.numberOfInstallments;
            RestructureRefusal(db, c, caller, terms)
            == if !(0.0 <= terms.interestPercentage <= 100.0 && 1 <= n <= 120) then Some(InvalidTerms)
               else if |db.contracts| <= c then Some(ContractNotFound)
               else if db.contracts[c].status != InDefault then Some(NotInDefault)
               else if !IsLetThrough(caller, db.contracts[c].company) then Some(Forbidden)
               else if Remaining(db, c) + Remaining(db, c) * terms.interestPercentage / 100.0 <= 0.0
               then Some(NothingToFinance)
               else if exists i :: 0 <= i < |db.installments| && db.installments[i].contract == c
                                   && 1 <= db.installments[i].sequence <= n
               then Some(SequenceTaken)
               else None
  {
    if c < |db.contracts| {
      RemainingIsOutstanding(db, c);
    }
  }

  /** What was financed, less the paid instalments. */
  function Remaining(db: Db, c: nat): Money
    requires c < |db.contracts|
  {
    db.contracts[c].totalFinanced - (RowsAmount(db.installments, c) - UnpaidAmount(db.installments, c))
  }

  lemma RemainingIsOutstanding(db: Db, c: nat)
    requires c < |db.contracts|
    ensures Remaining(db, c) == Outstanding(db, c)
  {
    PaidAndUnpaid(db.installments, c);
  }

  /** The position of an account gains this much on the books of the contract's company. */
  ghost predicate GainsOn(before: Books, after: Books, name: string, company: Option<string>, amount: Money) {
    var tenant := if company == Some("") then None else company;
    Position(after, name, tenant) == Position(before, name, tenant) + amount
  }

  /**
   A restructure finances anew what remains, with that percentage of it as interest: the contract says so, and on the
   books of its company the customer owes both, the one recovered from bad debts and the other as income.
   */
  lemma RestructureFinances(db: Db, c: nat, terms: Terms, remaining: Money, interest: Money)
    requires c < |db.contracts| && terms.numberOfInstallments > 0
    requires remaining == Remaining(db, c) && IsInterest(remaining, terms.interestPercentage, interest)
    ensures var contract := db.contracts[c];
            var r := Restructure(db, c, terms);
            && r.contracts
               == db.contracts[c := contract.(status := Restructured, totalFinanced := remaining + interest)]
            && GainsOn(db.books, r.books, "CUSTOMER_RECEIVABLE", contract.company, remaining + interest)
            && GainsOn(db.books, r.books, "BAD_DEBT_RECOVERY", contract.company, -remaining)
            && GainsOn(db.books, r.books, "INTEREST_INCOME", contract.company, -interest)
  {
    RemainingIsOutstanding(db, c);
    InterestIs(remaining, terms.interestPercentage, interest);
    RestructureWrites(db, c, terms, remaining, interest);
    RestructureGains(db.books, c, db.contracts[c], remaining, interest, "CUSTOMER_RECEIVABLE");
    RestructureGains(db.books, c, db.contracts[c], remaining, interest, "BAD_DEBT_RECOVERY");
    RestructureGains(db.books, c, db.contracts[c], remaining, interest, "INTEREST_INCOME");
  }

  predicate IsInterest(remaining: Money, percentage: Money, interest: Money) {
    100.0 * interest == remaining * percentage
  }

  lemma InterestIs(remaining: Money, percentage: Money, interest: Money)
    requires IsInterest(remaining, percentage, interest)
    ensures interest == NewInterest(remaining, percentage)
  {
  }

  lemma RestructureWrites(db: Db, c: nat, terms: Terms, remaining: Money, interest: Money)
    requires c < |db.contracts| && terms.numberOfInstallments > 0
    requires remaining == Outstanding(db, c) && interest == NewInterest(remaining, terms.interestPercentage)
    ensures var contract := db.contracts[c];
            var r := Restructure(db, c, terms);
            && r.contracts
               == db.contracts[c := contract.(status := Restructured, totalFinanced := remaining + interest)]
            && r.books == Post(db.books, RestructurePosting(c, contract, remaining, interest))
  {
  }

  lemma RestructureGains(
      books: Books, c: nat, contract: Contract, remaining: Money, interest: Money, name: string)
    ensures GainsOn(books, Post(books, RestructurePosting(c, contract, remaining, interest)), name, contract.company,
                    (if name == "CUSTOMER_RECEIVABLE" then remaining + interest else 0.0)
                    - (if name == "BAD_DEBT_RECOVERY" then remaining else 0.0)
                    - (if name == "INTEREST_INCOME" then interest else 0.0))
  {
    var posting := RestructurePosting(c, contract, remaining, interest);
    var a, b := posting.entries[0], posting.entries[1];
    var last := posting.entries[2];
    RestructureBalances(c, contract, remaining, interest);
    PairNet(a, b, name);
    EntriesAppend([a, b], [last], name);
    assert [a, b] + [last] == posting.entries;
    assert [last][..0] == [];
    PostPosition(books, posting, name, if contract.company == Some("") then None else contract.company);
  }

  // ---- The unique key on (contract, sequence) ----

  predicate SameKey(a: Installment, b: Installment) {
    a.contract == b.contract && a.sequence == b.sequence
  }

  ghost predicate KeysUnique(rows: seq<Installment>) {
    forall i, j :: 0 <= i < j < |rows| ==> !SameKey(rows[i], rows[j])
  }

  /** The old rows under their keys, then rows of the contract numbered from 1 to n. */
  ghost predicate ExtendedBy(before: seq<Installment>, after: seq<Installment>, c: nat, n: nat) {
    && |after| == |before| + n
    && (forall i :: 0 <= i < |before| ==> SameKey(after[i], before[i]))
    && (forall k :: |before| <= k < |after| ==> after[k].contract == c && after[k].sequence == k - |before| + 1)
  }

  lemma ClashBreaksKeys(before: seq<Installment>, after: seq<Installment>, c: nat, n: nat)
    requires ExtendedBy(before, after, c, n) && Clashes(before, c, n)
    ensures !KeysUnique(after)
  {
    var i :| 0 <= i < |before| && before[i].contract == c && 1 <= before[i].sequence <= n;
    var j := |before| + before[i].sequence - 1;
    assert SameKey(after[i], before[i]);
    assert SameKey(after[i], after[j]);
  }

  lemma NoClashKeepsKeys(before: seq<Installment>, after: seq<Installment>, c: nat, n: nat)
    requires ExtendedBy(before, after, c, n) && KeysUnique(before) && !Clashes(before, c, n)
    ensures KeysUnique(after)
  {
    forall i, j | 0 <= i < j < |after| ensures !SameKey(after[i], after[j]) {
      if i < |before| {
        assert SameKey(after[i], before[i]);
      }
      if j < |before| {
        assert SameKey(after[j], before[j]) && !SameKey(before[i], before[j]);
      }
    }
  }

  lemma RestructureExtends(db: Db, c: nat, terms: Terms)
    requires c < |db.contracts| && terms.numberOfInstallments > 0
    ensures ExtendedBy(db.installments, Restructure(db, c, terms).installments, c, terms.numberOfInstallments)
  {
    RestructuredSchedule(db, c, terms);
  }

  /** The insert meets the unique key of the table exactly when no number is taken. */
  lemma RestructureKeepsKeysExactlyWithoutClash(db: Db, c: nat, terms: Terms)
    requires KeysUnique(db.installments) && c < |db.contracts| && terms.numberOfInstallments > 0
    ensures KeysUnique(Restructure(db, c, terms).installments)
       <==> !Clashes(db.installments, c, terms.numberOfInstallments)
  {
    var after := Restructure(db, c, terms).installments;
    RestructureExtends(db, c, terms);
    if Clashes(db.installments, c, terms.numberOfInstallments) {
      ClashBreaksKeys(db.installments, after, c, terms.numberOfInstallments);
    } else {
      NoClashKeepsKeys(db.installments, after, c, terms.numberOfInstallments);
    }
  }

  lemma VoidingKeepsClashes(installments: seq<Installment>, c: nat, n: int)
    ensures Clashes(VoidContract(installments, c), c, n) <==> Clashes(installments, c, n)
  {
    var voided := VoidContract(installments, c);
    assert forall i :: 0 <= i < |installments| ==> SameKey(voided[i], installments[i]);
    if Clashes(installments, c, n) {
      var i :| 0 <= i < |installments| && installments[i].contract == c && 1 <= installments[i].sequence <= n;
      assert voided[i].contract == c;
    }
  }

  ghost predicate HasFirst(installments: seq<Installment>, c: nat) {
    exists i :: 0 <= i < |installments| && installments[i].contract == c && installments[i].sequence == 1
  }

  ghost predicate AllHaveFirst(db: Db) {
    forall c :: 0 <= c < |db.contracts| ==> HasFirst(db.installments, c)
  }

  lemma KeptRowsHaveFirst(before: seq<Installment>, after: seq<Installment>, c: nat)
    requires InstallmentsKept(before, after) && HasFirst(before, c)
    ensures HasFirst(after, c)
  {
    var i :| 0 <= i < |before| && before[i].contract == c && before[i].sequence == 1;
    assert after[i].contract == c && after[i].sequence == 1;
  }

  lemma ActivatedHasFirst(db: Db, contract: Contract, months: nat, firstPaymentDate: int)
    requires months > 0
    ensures HasFirst(Activate(db, contract, months, firstPaymentDate).installments, |db.contracts|)
  {
    var rows := Activate(db, contract, months, firstPaymentDate).installments;
    assert rows[|db.installments|].contract == |db.contracts| && rows[|db.installments|].sequence == 1;
  }

  lemma StepKeepsFirst(db: Db, event: Event)
    requires Ready(db) && AllHaveFirst(db)
    ensures AllHaveFirst(Step(db, event))
  {
    var r := Step(db, event);
    StepGrows(db, event);
    if !event.Activated? {
      SameCount(db, event);
    }
    forall c | 0 <= c < |r.contracts| ensures HasFirst(r.installments, c) {
      if c < |db.contracts| {
        KeptRowsHaveFirst(db.installments, r.installments, c);
      } else {
        ActivatedHasFirst(db, event.contract, event.months, event.firstPaymentDate);
      }
    }
  }

  lemma {:induction false} RunsHaveFirst(events: seq<Event>)
    ensures AllHaveFirst(Run(EMPTY_DB, events))
  {
    if events != [] {
      RunsHaveFirst(events[..|events| - 1]);
      StepKeepsFirst(Run(EMPTY_DB, events[..|events| - 1]), events[|events| - 1]);
    }
  }

  lemma TakenNumberRefuses(db: Db, c: nat, caller: Option<Caller>, terms: Terms)
    requires AllHaveFirst(db)
    ensures RestructureRefusal(db, c, caller, terms).Some?
  {
    if ValidTerms(terms) && c < |db.contracts| {
      assert HasFirst(db.installments, c);
      assert Clashes(db.installments, c, terms.numberOfInstallments);
    }
  }

  /**
   Since every contract is given an instalment number 1 when it is activated, and numbers are never
   taken away, no restructure ever commits, whoever asks for it and on whatever terms.
   */
  lemma RestructureNeverCommits(events: seq<Event>, c: nat, caller: Option<Caller>, terms: Terms)
    ensures RestructureRefusal(Run(EMPTY_DB, events), c, caller, terms).Some?
  {
    RunsHaveFirst(events);
    TakenNumberRefuses(Run(EMPTY_DB, events), c, caller, terms);
  }

  // ---- The amount written off ----

  /** The amounts of all rows of a contract. */
  function RowsAmount(installments: seq<Installment>, c: nat): Money {
    if installments == [] then 0.0
    else
      var n := |installments| - 1;
      RowsAmount(installments[..n], c) + (if installments[n].contract == c then installments[n].amount else 0.0)
  }

  function UnpaidAmount(installments: seq<Installment>, c: nat): Money {
    if installments == [] then 0.0
    else
      var n := |installments| - 1;
      UnpaidAmount(installments[..n], c)
      + (if installments[n].contract == c && installments[n].status != Paid then installments[n].amount else 0.0)
  }

  lemma {:induction false} PaidAndUnpaid(installments: seq<Installment>, c: nat)
    ensures PaidAmount(installments, c) + UnpaidAmount(installments, c) == RowsAmount(installments, c)
  {
    if installments != [] {
      PaidAndUnpaid(installments[..|installments| - 1], c);
    }
  }

  lemma {:induction false} SameRowsAmount(before: seq<Installment>, after: seq<Installment>, c: nat)
    requires |before| == |after| && InstallmentsKept(before, after)
    ensures RowsAmount(after, c) == RowsAmount(before, c)
  {
    if before != [] {
      var n := |before| - 1;
      SameRowsAmount(before[..n], after[..n], c);
    }
  }

  lemma {:induction false} InsertedAmount(table: seq<Installment>, rows: seq<NewInstallment>, c: nat)
    requires forall k :: 0 <= k < |rows| ==> rows[k].contract == c
    ensures RowsAmount(Insert(table, rows), c) == RowsAmount(table, c) + Sum(Amounts(rows))
  {
    if rows == [] {
      assert Insert(table, rows) == table;
    } else {
      var n := |rows| - 1;
      assert Insert(table, rows)[..|table| + n] == Insert(table, rows[..n]);
      assert Amounts(rows)[..n] == Amounts(rows[..n]);
      InsertedAmount(table, rows[..n], c);
    }
  }

  lemma {:induction false} InsertedElsewhere(table: seq<Installment>, rows: seq<NewInstallment>, c: nat)
    requires forall k :: 0 <= k < |rows| ==> rows[k].contract != c
    ensures RowsAmount(Insert(table, rows), c) == RowsAmount(table, c)
  {
    if rows == [] {
      assert Insert(table, rows) == table;
    } else {
      var n := |rows| - 1;
      assert Insert(table, rows)[..|table| + n] == Insert(table, rows[..n]);
      InsertedElsewhere(table, rows[..n], c);
    }
  }

  lemma {:induction false} NoRowsYet(installments: seq<Installment>, c: nat)
    requires forall i :: 0 <= i < |installments| ==> installments[i].contract < c
    ensures RowsAmount(installments, c) == 0.0
  {
    if installments != [] {
      NoRowsYet(installments[..|installments| - 1], c);
    }
  }

  /** The rows of a contract come to what was financed, within half a cent. */
  ghost predicate RowsComeTo(db: Db, c: nat)
    requires c < |db.contracts|
  {
    -0.005 < RowsAmount(db.installments, c) - db.contracts[c].totalFinanced <= 0.005
  }

  ghost predicate AllRowsComeTo(db: Db) {
    forall c :: 0 <= c < |db.contracts| ==> RowsComeTo(db, c)
  }

  lemma ActivateKeepsRowsComeTo(db: Db, contract: Contract, months: nat, firstPaymentDate: int, c: nat)
    requires Linked(db) && AllRowsComeTo(db) && months > 0 && c <= |db.contracts|
    ensures RowsComeTo(Activate(db, contract, months, firstPaymentDate), c)
  {
    var rows := Schedule(|db.contracts|, Cents(contract.totalFinanced), months, firstPaymentDate);
    ScheduleAmounts(|db.contracts|, contract.totalFinanced, months, firstPaymentDate);
    if c < |db.contracts| {
      assert RowsComeTo(db, c);
      InsertedElsewhere(db.installments, rows, c);
    } else {
      NoRowsYet(db.installments, c);
      InsertedAmount(db.installments, rows, c);
    }
  }

  lemma OtherStepKeepsRowsComeTo(db: Db, event: Event, c: nat)
    requires Ready(db) && AllRowsComeTo(db) && !event.Activated? && c < |db.contracts|
    ensures c < |Step(db, event).contracts| && RowsComeTo(Step(db, event), c)
  {
    StepGrows(db, event);
    SameCount(db, event);
    assert RowsComeTo(db, c);
    SameRowsAmount(db.installments, Step(db, event).installments, c);
  }

  lemma StepKeepsRowsComeTo(db: Db, event: Event)
    requires Ready(db) && AllRowsComeTo(db)
    ensures AllRowsComeTo(Step(db, event))
  {
    var r := Step(db, event);
    if !event.Activated? {
      SameCount(db, event);
    }
    forall c | 0 <= c < |r.contracts| ensures RowsComeTo(r, c) {
      if !event.Activated? {
        OtherStepKeepsRowsComeTo(db, event, c);
      } else if MayActivate(event.contract, event.months) {
        ActivateKeepsRowsComeTo(db, event.contract, event.months, event.firstPaymentDate, c);
      }
    }
  }

  lemma {:induction false} RunsKeepRowsComeTo(events: seq<Event>)
    ensures AllRowsComeTo(Run(EMPTY_DB, events))
  {
    if events != [] {
      RunsKeepRowsComeTo(events[..|events| - 1]);
      StepKeepsRowsComeTo(Run(EMPTY_DB, events[..|events| - 1]), events[|events| - 1]);
    }
  }

  lemma WriteOffVoids(db: Db, c: nat, i: nat)
    requires c < |db.contracts| && i < |db.installments| && db.installments[i].contract == c
    ensures var r := WriteOff(db, c);
            && |r.installments| == |db.installments|
            && r.installments[i].status == if db.installments[i].status == Paid then Paid else Voided
  {
  }

  lemma OutstandingIsUnpaid(db: Db, c: nat)
    requires c < |db.contracts| && RowsComeTo(db, c)
    ensures -0.005 <= Outstanding(db, c) - UnpaidAmount(db.installments, c) < 0.005
  {
    PaidAndUnpaid(db.installments, c);
  }

  /** What is posted is the unpaid amount to within half a cent, and every row that was not paid is voided. */
  ghost predicate WriteOffIsExact(db: Db, c: nat)
    requires c < |db.contracts|
  {
    var r := WriteOff(db, c);
    && r.books == Post(db.books, WriteOffPosting(c, db.contracts[c], Outstanding(db, c)))
    && -0.005 <= Outstanding(db, c) - UnpaidAmount(db.installments, c) < 0.005
    && |r.installments| == |db.installments|
    && forall i :: 0 <= i < |db.installments| && db.installments[i].contract == c ==>
         r.installments[i].status == if db.installments[i].status == Paid then Paid else Voided
  }

  lemma WriteOffOfScheduled(db: Db, c: nat)
    requires c < |db.contracts| && RowsComeTo(db, c)
    ensures WriteOffIsExact(db, c)
  {
    OutstandingIsUnpaid(db, c);
    forall i | 0 <= i < |db.installments| && db.installments[i].contract == c
      ensures WriteOff(db, c).installments[i].status
           == if db.installments[i].status == Paid then Paid else Voided
    {
      WriteOffVoids(db, c, i);
    }
  }

  /**
   In every run the amount written off is, within half a cent, what the unpaid instalments of the contract
   come to; none of them is left payable, and the paid ones stay paid.
   */
  lemma WriteOffIsTheUnpaidAmount(events: seq<Event>, c: nat)
    requires c < |Run(EMPTY_DB, events).contracts|
    ensures WriteOffIsExact(Run(EMPTY_DB, events), c)
  {
    RunsKeepRowsComeTo(events);
    WriteOffOfScheduled(Run(EMPTY_DB, events), c);
  }
}
