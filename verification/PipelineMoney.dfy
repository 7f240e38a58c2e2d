/**
 MERCHANT_PAYABLE against the operational tables: what the ledger owes a company is the net of
 its paid instalments without a settlement line, plus its settlements that have not been cleared.
 */
module PipelineMoney {
  import opened Common
  import opened Ledger
  import opened LedgerProofs
  import opened Installments
  import opened Pipeline
  import opened PipelineRows
  import opened PipelinePostings

  function TenantOfInstallment(db: Db, i: nat): Tenant
    requires Linked(db) && i < |db.installments|
  {
    TenantOf(db.contracts[db.installments[i].contract].company)
  }

  /** The net still to be settled, instalment by instalment. */
  function UnsettledColumn(db: Db, tenant: Tenant): (column: seq<Money>)
    requires Linked(db)
    ensures |column| == |db.installments|
  {
    seq(|db.installments|, i requires 0 <= i < |db.installments| =>
      if Unsettled(db, i) && TenantOfInstallment(db, i) == tenant then Net(db, i) else 0.0)
  }

  /** What the posted transfers of a settlement, less those returned, have cleared. */
  function Cleared(posted: seq<TransferPosting>, s: nat): Money {
    if posted == [] then 0.0
    else
      var n := |posted| - 1;
      Cleared(posted[..n], s)
      + (if posted[n].settlement != s then 0.0 else if posted[n].Sent? then posted[n].amount else -posted[n].amount)
  }

  /** What is still owed on each settlement. */
  function OwedColumn(db: Db, tenant: Tenant): (column: seq<Money>)
    ensures |column| == |db.settlements|
  {
    seq(|db.settlements|, s requires 0 <= s < |db.settlements| =>
      if TenantOf(Some(db.settlements[s].company)) == tenant
      then db.settlements[s].amount - Cleared(db.posted, s) else 0.0)
  }

  /** What the tables say the merchant is owed. */
  function PayableDue(db: Db, tenant: Tenant): Money
    requires Linked(db)
  {
    Sum(UnsettledColumn(db, tenant)) + Sum(OwedColumn(db, tenant))
  }

  /** Every tenant's payable is the liability its tables come to, and is stored as one. */
  ghost predicate PayableAgrees(db: Db)
    requires Linked(db)
  {
    && StoredAs(db.books, PAYABLE, Liability)
    && forall tenant: Tenant :: Position(db.books, PAYABLE, tenant) == -PayableDue(db, tenant)
  }

  // ---- Lines ----

  function SettledNet(lines: seq<SettlementLine>, s: nat): Money {
    if lines == [] then 0.0
    else
      var n := |lines| - 1;
      SettledNet(lines[..n], s) + (if lines[n].settlement == s then lines[n].net else 0.0)
  }

  ghost predicate LineSound(db: Db, line: SettlementLine)
    requires Linked(db)
  {
    && line.settlement < |db.settlements|
    && line.installment < |db.installments|
    && db.installments[line.installment].status == Paid
    && db.contracts[db.installments[line.installment].contract].company == Some(db.settlements[line.settlement].company)
    && line.gross == db.installments[line.installment].amount
    && line.commission == Deducted(db, line.installment)
    && line.gross == line.commission + line.net
  }

  /** Each paid instalment is settled at most once, by its own company, and settlements are the sums of their lines. */
  ghost predicate LinesSound(db: Db)
    requires Linked(db)
  {
    && (forall l :: 0 <= l < |db.lines| ==> LineSound(db, db.lines[l]))
    && EachOnce(db.lines)
    && (forall s :: 0 <= s < |db.settlements| ==>
          db.settlements[s].amount == SettledNet(db.lines, s) && db.settlements[s].amount > 0.0)
  }

  // ---- The payment job ----

  lemma {:induction false} NoCommission(commissions: seq<CommissionRow>, payment: nat)
    requires forall k :: 0 <= k < |commissions| ==> commissions[k].payment != payment
    ensures CommissionTotal(commissions, payment) == 0.0
  {
    if commissions != [] {
      NoCommission(commissions[..|commissions| - 1], payment);
    }
  }

  lemma CommissionAppend(commissions: seq<CommissionRow>, row: CommissionRow, payment: nat)
    ensures CommissionTotal(commissions + [row], payment)
         == CommissionTotal(commissions, payment) + (if row.payment == payment then row.amount else 0.0)
  {
    assert (commissions + [row])[..|commissions|] == commissions;
  }

  lemma LatestAppend(payments: seq<Payment>, row: Payment, j: nat)
    requires row.status.PaymentSuccess?
    ensures LatestSuccess(payments + [row], j)
         == if row.installment == j then Some(|payments|) else LatestSuccess(payments, j)
  {
    assert (payments + [row])[..|payments|] == payments;
  }

  /** After the job the instalment's deduction is its commission; no other instalment's has moved. */
  lemma DeductedAfterPay(db: Db, i: nat, key: nat, contract: Contract, j: nat)
    requires Linked(db) && PaymentRows(db) && i < |db.installments|
    ensures Deducted(Pay(db, i, key, contract), j)
         == if j == i then CommissionAmount(contract, db.installments[i].amount) else Deducted(db, j)
  {
    var r := Pay(db, i, key, contract);
    JobAddsPayment(db, i, key);
    LatestAppend(db.payments, r.payments[|db.payments|], j);
    var latest := LatestSuccess(r.payments, j);
    if latest.Some? {
      if r.commissions != db.commissions {
        CommissionAppend(db.commissions, r.commissions[|db.commissions|], latest.value);
      }
      if j == i {
        NoCommission(db.commissions, latest.value);
      }
    }
  }

  /** What the job makes of its own instalment in the column. */
  function UnsettledPart(db: Db, i: nat, contract: Contract, tenant: Tenant): Money
    requires Linked(db) && i < |db.installments|
  {
    var amount := db.installments[i].amount;
    if Settled(db.lines, i) || TenantOfInstallment(db, i) != tenant then 0.0
    else amount - CommissionAmount(contract, amount)
  }

  lemma PayKeepsLinked(db: Db, i: nat, key: nat, contract: Contract)
    requires Linked(db) && i < |db.installments|
    ensures Linked(Pay(db, i, key, contract))
    ensures forall j: nat :: j < |db.installments| ==>
              TenantOfInstallment(Pay(db, i, key, contract), j) == TenantOfInstallment(db, j)
  {
  }

  lemma UnsettledAfterPay(db: Db, i: nat, key: nat, contract: Contract, tenant: Tenant)
    requires Linked(db) && PaymentRows(db) && i < |db.installments|
    ensures var r := Pay(db, i, key, contract);
            && Linked(r)
            && UnsettledColumn(r, tenant) == UnsettledColumn(db, tenant)[i := UnsettledPart(db, i, contract, tenant)]
  {
    PayKeepsLinked(db, i, key, contract);
    var r := Pay(db, i, key, contract);
    forall j | 0 <= j < |db.installments|
      ensures UnsettledColumn(r, tenant)[j]
           == UnsettledColumn(db, tenant)[i := UnsettledPart(db, i, contract, tenant)][j]
    {
      DeductedAfterPay(db, i, key, contract, j);
      assert TenantOfInstallment(r, j) == TenantOfInstallment(db, j);
    }
  }

  /** What is owed grows by what the instalment counts for now, less what it counted for before. */
  lemma DueAfterPay(db: Db, i: nat, key: nat, contract: Contract, tenant: Tenant)
    requires Linked(db) && PaymentRows(db) && i < |db.installments|
    ensures var r := Pay(db, i, key, contract);
            && Linked(r)
            && PayableDue(r, tenant)
               == PayableDue(db, tenant) + UnsettledPart(db, i, contract, tenant) - UnsettledColumn(db, tenant)[i]
  {
    UnsettledAfterPay(db, i, key, contract, tenant);
    SumUpdate(UnsettledColumn(db, tenant), i, UnsettledPart(db, i, contract, tenant));
    assert OwedColumn(Pay(db, i, key, contract), tenant) == OwedColumn(db, tenant);
  }

  /**
   A payment for an instalment without a line does no harm unless that already counts for something; one for
   an instalment that has a line, only if it leaves the merchant nothing.
   */
  predicate HarmlessPayment(db: Db, i: nat, contract: Contract)
    requires Linked(db) && i < |db.installments|
  {
    var amount := db.installments[i].amount;
    if Settled(db.lines, i) then CommissionAmount(contract, amount) == amount
    else db.installments[i].status == Paid ==> Net(db, i) == 0.0
  }

  lemma PaymentCredits(db: Db, i: nat, key: nat, contract: Contract, tenant: Tenant)
    requires ContractRows(db) && CallFits(db, Paying(i, key, contract))
    ensures Position(Pay(db, i, key, contract).books, PAYABLE, tenant)
         == Position(db.books, PAYABLE, tenant)
            - (if TenantOfInstallment(db, i) == tenant
               then db.installments[i].amount - CommissionAmount(contract, db.installments[i].amount) else 0.0)
  {
    PaymentMoves(contract, db.installments[i].amount, key, PAYABLE);
    PostPosition(db.books, PaymentPosting(contract, db.installments[i].amount, key), PAYABLE, tenant);
  }

  lemma PaymentStoredAs(db: Db, i: nat, key: nat, contract: Contract)
    requires Linked(db) && i < |db.installments| && StoredAs(db.books, PAYABLE, Liability)
    ensures StoredAs(Pay(db, i, key, contract).books, PAYABLE, Liability)
  {
    PaymentDeclares(contract, db.installments[i].amount, key, PAYABLE);
    PostStoredAs(db.books, PaymentPosting(contract, db.installments[i].amount, key), PAYABLE, Liability);
  }

  /** The payment of an instalment adds the same net to the ledger and to the tables, unless it is not the first. */
  lemma PayKeepsPayableExactlyWhenHarmless(db: Db, i: nat, key: nat, contract: Contract)
    requires Sound(db) && PayableAgrees(db) && CallFits(db, Paying(i, key, contract))
    ensures Linked(Pay(db, i, key, contract))
    ensures PayableAgrees(Pay(db, i, key, contract)) <==> HarmlessPayment(db, i, contract)
  {
    PayKeepsLinked(db, i, key, contract);
    var r := Pay(db, i, key, contract);
    PaymentStoredAs(db, i, key, contract);
    if HarmlessPayment(db, i, contract) {
      forall tenant: Tenant ensures Position(r.books, PAYABLE, tenant) == -PayableDue(r, tenant) {
        PaymentCredits(db, i, key, contract, tenant);
        DueAfterPay(db, i, key, contract, tenant);
      }
    } else {
      var tenant := TenantOfInstallment(db, i);
      PaymentCredits(db, i, key, contract, tenant);
      DueAfterPay(db, i, key, contract, tenant);
      assert Position(r.books, PAYABLE, tenant) != -PayableDue(r, tenant);
    }
  }

  lemma UnpaidIsHarmless(db: Db, i: nat, contract: Contract)
    requires Linked(db) && LinesSound(db) && i < |db.installments| && db.installments[i].status != Paid
    ensures HarmlessPayment(db, i, contract) && !Settled(db.lines, i)
  {
    forall l | 0 <= l < |db.lines| ensures db.lines[l].installment != i {
      assert LineSound(db, db.lines[l]);
    }
  }

  lemma PayKeepsLines(db: Db, i: nat, key: nat, contract: Contract)
    requires Sound(db) && LinesSound(db) && i < |db.installments| && db.installments[i].status != Paid
    ensures Linked(Pay(db, i, key, contract)) && LinesSound(Pay(db, i, key, contract))
  {
    PayKeepsLinked(db, i, key, contract);
    var r := Pay(db, i, key, contract);
    forall l | 0 <= l < |r.lines| ensures LineSound(r, r.lines[l]) {
      assert LineSound(db, db.lines[l]);
      DeductedAfterPay(db, i, key, contract, db.lines[l].installment);
    }
  }

  // ---- Settlement generation ----

  /** The column with the entries of a list of rows taken out. */
  function Without(column: seq<Money>, ids: seq<nat>): (r: seq<Money>)
    requires forall k :: 0 <= k < |ids| ==> ids[k] < |column|
    ensures |r| == |column|
    ensures forall i :: 0 <= i < |column| ==> r[i] == if i in ids then 0.0 else column[i]
  {
    if ids == [] then column else Without(column, ids[..|ids| - 1])[ids[|ids| - 1] := 0.0]
  }

  predicate DistinctRows(ids: seq<nat>, n: nat) {
    && (forall k :: 0 <= k < |ids| ==> ids[k] < n)
    && (forall j, k :: 0 <= j < k < |ids| ==> ids[j] != ids[k])
  }

  predicate NetsAt(column: seq<Money>, lines: seq<SettlementLine>, ids: seq<nat>) {
    && |lines| == |ids|
    && forall k :: 0 <= k < |ids| ==> ids[k] < |column| && lines[k].net == column[ids[k]]
  }

  lemma {:induction false} SumWithout(column: seq<Money>, lines: seq<SettlementLine>, ids: seq<nat>)
    requires DistinctRows(ids, |column|) && NetsAt(column, lines, ids)
    ensures Sum(Without(column, ids)) == Sum(column) - NetOf(lines)
  {
    if ids != [] {
      var n := |ids| - 1;
      var rest := Without(column, ids[..n]);
      assert DistinctRows(ids[..n], |column|) && NetsAt(column, lines[..n], ids[..n]);
      SumWithout(column, lines[..n], ids[..n]);
      assert ids[n] !in ids[..n];
      assert rest[ids[n]] == column[ids[n]] == lines[n].net;
      SumUpdate(rest, ids[n], 0.0);
    }
  }

  /** The instalments of some lines. */
  function InstallmentsOf(lines: seq<SettlementLine>): (ids: seq<nat>)
    ensures |ids| == |lines|
    ensures forall k :: 0 <= k < |lines| ==> ids[k] == lines[k].installment
  {
    seq(|lines|, k requires 0 <= k < |lines| => lines[k].installment)
  }

  /** The same lines, computed on the tables as they are now. */
  function Renewed(db: Db, lines: seq<SettlementLine>): (r: seq<SettlementLine>)
    requires forall k :: 0 <= k < |lines| ==> lines[k].installment < |db.installments|
    ensures |r| == |lines|
  {
    LinesFor(db, |db.settlements|, InstallmentsOf(lines))
  }

  lemma LinesMentionExactly(lines: seq<SettlementLine>, added: seq<SettlementLine>, settlement: nat, i: nat)
    ensures Settled(lines + Numbered(added, settlement), i) <==> Settled(lines, i) || i in InstallmentsOf(added)
  {
    var all := lines + Numbered(added, settlement);
    if Settled(lines, i) {
      var l :| 0 <= l < |lines| && lines[l].installment == i;
      assert all[l].installment == i;
    }
    if i in InstallmentsOf(added) {
      var k :| 0 <= k < |added| && InstallmentsOf(added)[k] == i;
      assert all[|lines| + k].installment == i;
    }
  }

  lemma UnsettledRowAfterGeneration(db: Db, company: string, lines: seq<SettlementLine>, tenant: Tenant, i: nat)
    requires Linked(db) && LinesFit(db, company, lines) && !LinesTaken(db.lines, lines) && i < |db.installments|
    ensures var before := UnsettledColumn(db, tenant)[i];
            var after := UnsettledColumn(WriteGeneration(db, company, lines), tenant)[i];
            if i in InstallmentsOf(lines)
            then after == 0.0 && (TenantOf(Some(company)) != tenant ==> before == 0.0)
            else after == before
  {
    var r := WriteGeneration(db, company, lines);
    LinesMentionExactly(db.lines, lines, |db.settlements|, i);
    assert Net(r, i) == Net(db, i);
    if i in InstallmentsOf(lines) {
      var k :| 0 <= k < |lines| && InstallmentsOf(lines)[k] == i;
      assert LineFits(db, company, lines[k]);
    }
  }

  /** Generation takes the rows of its lines out of the column. */
  lemma UnsettledAfterGeneration(db: Db, company: string, lines: seq<SettlementLine>, tenant: Tenant)
    requires Linked(db) && LinesFit(db, company, lines) && !LinesTaken(db.lines, lines)
    ensures forall k :: 0 <= k < |lines| ==> LineFits(db, company, lines[k])
    ensures UnsettledColumn(WriteGeneration(db, company, lines), tenant)
         == if TenantOf(Some(company)) == tenant then Without(UnsettledColumn(db, tenant), InstallmentsOf(lines))
            else UnsettledColumn(db, tenant)
  {
    var after := UnsettledColumn(WriteGeneration(db, company, lines), tenant);
    var before := UnsettledColumn(db, tenant);
    var expected := if TenantOf(Some(company)) == tenant then Without(before, InstallmentsOf(lines)) else before;
    assert |after| == |expected|;
    forall i | 0 <= i < |after| ensures after[i] == expected[i] {
      UnsettledRowAfterGeneration(db, company, lines, tenant, i);
    }
  }

  lemma OwedAfterGeneration(db: Db, company: string, lines: seq<SettlementLine>, tenant: Tenant)
    requires PostedRows(db) && !LinesTaken(db.lines, lines)
    ensures OwedColumn(WriteGeneration(db, company, lines), tenant)
         == OwedColumn(db, tenant) + [if TenantOf(Some(company)) == tenant then NetOf(lines) else 0.0]
  {
    NothingCleared(db.posted, |db.settlements|);
  }

  ghost predicate PostedRows(db: Db) {
    forall k :: 0 <= k < |db.posted| ==> db.posted[k].settlement < |db.settlements|
  }

  lemma {:induction false} NothingCleared(posted: seq<TransferPosting>, s: nat)
    requires forall k :: 0 <= k < |posted| ==> posted[k].settlement != s
    ensures Cleared(posted, s) == 0.0
  {
    if posted != [] {
      NothingCleared(posted[..|posted| - 1], s);
    }
  }

  lemma RenewedNets(db: Db, company: string, lines: seq<SettlementLine>)
    requires Linked(db) && LinesFit(db, company, lines) && !LinesTaken(db.lines, lines)
    ensures forall k :: 0 <= k < |lines| ==> LineFits(db, company, lines[k])
    ensures var column := UnsettledColumn(db, TenantOf(Some(company)));
            DistinctRows(InstallmentsOf(lines), |column|) && NetsAt(column, Renewed(db, lines), InstallmentsOf(lines))
  {
    forall k | 0 <= k < |lines|
      ensures LineFits(db, company, lines[k])
      ensures Net(db, lines[k].installment)
           == UnsettledColumn(db, TenantOf(Some(company)))[lines[k].installment]
    {
      assert !Settled(db.lines, lines[k].installment);
    }
  }

  /** Generation turns unsettled nets, as they are now, into a settlement that is owed, as they were read. */
  lemma DueAfterGeneration(db: Db, company: string, lines: seq<SettlementLine>, tenant: Tenant)
    requires Linked(db) && PostedRows(db) && LinesFit(db, company, lines) && !LinesTaken(db.lines, lines)
    ensures forall k :: 0 <= k < |lines| ==> LineFits(db, company, lines[k])
    ensures PayableDue(WriteGeneration(db, company, lines), tenant)
         == PayableDue(db, tenant)
            + (if TenantOf(Some(company)) == tenant then NetOf(lines) - NetOf(Renewed(db, lines)) else 0.0)
  {
    UnsettledAfterGeneration(db, company, lines, tenant);
    OwedAfterGeneration(db, company, lines, tenant);
    SumAppend(OwedColumn(db, tenant), if TenantOf(Some(company)) == tenant then NetOf(lines) else 0.0);
    if TenantOf(Some(company)) == tenant {
      RenewedNets(db, company, lines);
      SumWithout(UnsettledColumn(db, tenant), Renewed(db, lines), InstallmentsOf(lines));
    }
  }

  /** The instalments of a late generation still come to what it read of them. */
  predicate HarmlessGeneration(db: Db, lines: seq<SettlementLine>)
    requires forall k :: 0 <= k < |lines| ==> lines[k].installment < |db.installments|
  {
    NetOf(lines) == NetOf(Renewed(db, lines))
  }

  lemma GenerationKeepsPayableExactlyWhenHarmless(db: Db, company: string, lines: seq<SettlementLine>)
    requires Linked(db) && PostedRows(db) && PayableAgrees(db)
    requires LinesFit(db, company, lines) && !LinesTaken(db.lines, lines)
    ensures forall k :: 0 <= k < |lines| ==> LineFits(db, company, lines[k])
    ensures PayableAgrees(WriteGeneration(db, company, lines)) <==> HarmlessGeneration(db, lines)
  {
    var r := WriteGeneration(db, company, lines);
    forall tenant: Tenant
      ensures forall k :: 0 <= k < |lines| ==> LineFits(db, company, lines[k])
      ensures PayableDue(r, tenant)
           == PayableDue(db, tenant)
              + (if TenantOf(Some(company)) == tenant then NetOf(lines) - NetOf(Renewed(db, lines)) else 0.0)
    {
      DueAfterGeneration(db, company, lines, tenant);
    }
    var own := TenantOf(Some(company));
    assert Position(r.books, PAYABLE, own) == -PayableDue(db, own);
  }

  /** Nothing has been paid again on the instalments since a generation read them. */
  predicate LinesCurrent(db: Db, lines: seq<SettlementLine>) {
    forall k :: 0 <= k < |lines| ==> lines[k].commission == Deducted(db, lines[k].installment)
  }

  lemma {:induction false} SameNetTotal(first: seq<SettlementLine>, second: seq<SettlementLine>)
    requires |first| == |second| && forall k :: 0 <= k < |first| ==> first[k].net == second[k].net
    ensures NetOf(first) == NetOf(second)
  {
    if first != [] {
      SameNetTotal(first[..|first| - 1], second[..|second| - 1]);
    }
  }

  lemma CurrentIsHarmless(db: Db, company: string, lines: seq<SettlementLine>)
    requires Linked(db) && LinesFit(db, company, lines) && LinesCurrent(db, lines)
    ensures forall k :: 0 <= k < |lines| ==> LineFits(db, company, lines[k])
    ensures HarmlessGeneration(db, lines)
  {
    assert forall k :: 0 <= k < |lines| ==> LineFits(db, company, lines[k]);
    SameNetTotal(lines, Renewed(db, lines));
  }

  lemma {:induction false} SettledNetAppend(lines: seq<SettlementLine>, added: seq<SettlementLine>, s: nat)
    ensures SettledNet(lines + added, s) == SettledNet(lines, s) + SettledNet(added, s)
  {
    if added == [] {
      assert lines + added == lines;
    } else {
      var n := |added| - 1;
      assert (lines + added)[..|lines| + n] == lines + added[..n];
      SettledNetAppend(lines, added[..n], s);
    }
  }

  lemma {:induction false} SettledNetOfOne(lines: seq<SettlementLine>, all: nat, s: nat)
    requires forall l :: 0 <= l < |lines| ==> lines[l].settlement == all
    ensures SettledNet(lines, s) == if s == all then NetOf(lines) else 0.0
  {
    if lines != [] {
      SettledNetOfOne(lines[..|lines| - 1], all, s);
    }
  }

  lemma GeneratedLinesAreSound(db: Db, company: string, lines: seq<SettlementLine>)
    requires Linked(db) && LinesSound(db)
    requires LinesFit(db, company, lines) && LinesCurrent(db, lines) && !LinesTaken(db.lines, lines)
    ensures var r := WriteGeneration(db, company, lines);
            forall l :: 0 <= l < |r.lines| ==> LineSound(r, r.lines[l])
  {
    var r := WriteGeneration(db, company, lines);
    forall l | 0 <= l < |r.lines| ensures LineSound(r, r.lines[l]) {
      if l < |db.lines| {
        assert LineSound(db, db.lines[l]);
      } else {
        assert LineFits(db, company, lines[l - |db.lines|]);
      }
    }
  }

  lemma {:induction false} NumberedNets(lines: seq<SettlementLine>, settlement: nat)
    ensures NetOf(Numbered(lines, settlement)) == NetOf(lines)
  {
    SameNetTotal(Numbered(lines, settlement), lines);
  }

  lemma GeneratedIsSumOfLines(db: Db, company: string, lines: seq<SettlementLine>, s: nat)
    requires Linked(db) && LinesSound(db) && s <= |db.settlements|
    requires LinesFit(db, company, lines) && !LinesTaken(db.lines, lines)
    ensures var r := WriteGeneration(db, company, lines);
            r.settlements[s].amount == SettledNet(r.lines, s) && r.settlements[s].amount > 0.0
  {
    var added := Numbered(lines, |db.settlements|);
    SettledNetAppend(db.lines, added, s);
    SettledNetOfOne(added, |db.settlements|, s);
    NumberedNets(lines, |db.settlements|);
    if s == |db.settlements| {
      NoLinesYet(db);
    }
  }

  /** A generation whose instalments were not paid again keeps lines what they are for. */
  lemma GenerationKeepsLines(db: Db, company: string, lines: seq<SettlementLine>)
    requires Linked(db) && LinesSound(db)
    requires LinesFit(db, company, lines) && LinesCurrent(db, lines) && !LinesTaken(db.lines, lines)
    ensures LinesSound(WriteGeneration(db, company, lines))
  {
    var r := WriteGeneration(db, company, lines);
    GeneratedLinesAreSound(db, company, lines);
    GeneratedLinesAreNew(db.lines, lines, |db.settlements|);
    forall s | 0 <= s < |r.settlements|
      ensures r.settlements[s].amount == SettledNet(r.lines, s) && r.settlements[s].amount > 0.0
    {
      GeneratedIsSumOfLines(db, company, lines, s);
    }
  }

  predicate EachOnce(lines: seq<SettlementLine>) {
    forall j, k :: 0 <= j < k < |lines| ==> lines[j].installment != lines[k].installment
  }

  lemma GeneratedLinesAreNew(lines: seq<SettlementLine>, added: seq<SettlementLine>, settlement: nat)
    requires EachOnce(lines) && EachOnce(added) && !LinesTaken(lines, added)
    ensures EachOnce(lines + Numbered(added, settlement))
  {
    var all := lines + Numbered(added, settlement);
    forall j, k | 0 <= j < k < |all| ensures all[j].installment != all[k].installment {
      if j < |lines| <= k {
        assert !Settled(lines, added[k - |lines|].installment);
      }
    }
  }

  lemma NoLinesYet(db: Db)
    requires Linked(db) && LinesSound(db)
    ensures SettledNet(db.lines, |db.settlements|) == 0.0
  {
    forall l | 0 <= l < |db.lines| ensures db.lines[l].settlement != |db.settlements| {
      assert LineSound(db, db.lines[l]);
    }
    NoLinesOf(db.lines, |db.settlements|);
  }

  lemma {:induction false} NoLinesOf(lines: seq<SettlementLine>, s: nat)
    requires forall l :: 0 <= l < |lines| ==> lines[l].settlement != s
    ensures SettledNet(lines, s) == 0.0
  {
    if lines != [] {
      NoLinesOf(lines[..|lines| - 1], s);
    }
  }
}
