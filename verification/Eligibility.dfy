/** Which instalment of a contract may be paid, computed in the three ways the services do it. */
module Eligibility {
  import opened Common
  import opened Installments

  const PAYMENT_WINDOW_DAYS := 3

  datatype EligibilityState = Available | TooEarly | WaitingForPrevious | AlreadyPaid | ContractCompleted

  datatype Reason = SettleFirst(sequence: int) | OpensBeforeDueDate | AllPaid

  datatype PaymentLabel = Upcoming | DueToday | IsOverdue | IsPaid

  datatype Marker = Marker(id: nat, sequence: int, dueDate: int)

  datatype Eligibility = Eligibility(
    id: nat, canPay: bool, state: EligibilityState, reason: Option<Reason>, isNext: bool, windowStarted: bool,
    availableFrom: Option<int>, daysUntilDue: int, daysOverdue: int, isOverdue: bool, isDueToday: bool,
    isUpcoming: bool, status: PaymentLabel)

  function MarkerOf(row: Installment): Marker {
    Marker(row.id, row.sequence, row.dueDate)
  }

  function MarkerOfOption(row: Option<Installment>): Option<Marker> {
    if row.None? then None else Some(MarkerOf(row.value))
  }

  /** computeInstallmentEligibility; `today` is the calendar day of the reference time. */
  function ComputeEligibility(row: Installment, nextUnpaid: Option<Marker>, today: int): Eligibility {
    var isPaid := row.status == Paid;
    var diffDays := row.dueDate - today;
    var overdue := !isPaid && diffDays < 0;
    var status :=
      if isPaid then IsPaid else if overdue then IsOverdue else if diffDays == 0 then DueToday else Upcoming;
    var blocked := Eligibility(
      row.id, false, AlreadyPaid, None, false, false, None, diffDays, if overdue then -diffDays else 0,
      overdue, diffDays == 0, diffDays > 0, status);
    if isPaid then blocked
    else if nextUnpaid.None? then
      blocked.(state := ContractCompleted, reason := Some(AllPaid))
    else if row.id != nextUnpaid.value.id then
      blocked.(state := WaitingForPrevious, reason := Some(SettleFirst(nextUnpaid.value.sequence)))
    else
      var next := blocked.(isNext := true, availableFrom := Some(row.dueDate - PAYMENT_WINDOW_DAYS));
      if diffDays <= PAYMENT_WINDOW_DAYS then next.(windowStarted := true, canPay := true, state := Available)
      else next.(state := TooEarly, reason := Some(OpensBeforeDueDate))
  }

  // ---- One instalment: the first unpaid row of its contract, by sequence ----

  /** findFirst over the unpaid rows of a contract in ascending sequence. */
  function FirstUnpaid(table: seq<Installment>, contract: nat): Option<Installment> {
    if table == [] then None
    else
      var n := |table| - 1;
      var row := table[n];
      var before := FirstUnpaid(table[..n], contract);
      if row.contract == contract && row.status != Paid && (before.None? || row.sequence < before.value.sequence)
      then Some(row) else before
  }

  /** getInstallmentById and assertInstallmentIsPayable: no lookup at all for a paid instalment. */
  function SingleEligibility(table: seq<Installment>, row: Installment, today: int): Eligibility {
    ComputeEligibility(row,
                       if row.status == Paid then None else MarkerOfOption(FirstUnpaid(table, row.contract)),
                       today)
  }

  // ---- A page: minimum sequence per contract, then the rows with it ----

  /** groupBy contract, minimum of sequence over the unpaid rows. */
  function MinUnpaidSequence(table: seq<Installment>, contract: nat): Option<int> {
    if table == [] then None
    else
      var n := |table| - 1;
      var row := table[n];
      var before := MinUnpaidSequence(table[..n], contract);
      if row.contract == contract && row.status != Paid && (before.None? || row.sequence < before.value)
      then Some(row.sequence) else before
  }

  /** findMany over the disjunction of the (contract, sequence) pairs. */
  function MarkerRows(table: seq<Installment>, rows: seq<Installment>, contracts: set<nat>): seq<Installment> {
    if rows == [] then []
    else
      var n := |rows| - 1;
      var row := rows[n];
      MarkerRows(table, rows[..n], contracts)
      + (if row.contract in contracts && MinUnpaidSequence(table, row.contract) == Some(row.sequence)
         then [row] else [])
  }

  /** new Map(rows.map(...)): a later row replaces an earlier one of its contract. */
  function MarkerMap(rows: seq<Installment>): map<nat, Marker> {
    if rows == [] then map[]
    else
      var n := |rows| - 1;
      MarkerMap(rows[..n])[rows[n].contract := MarkerOf(rows[n])]
  }

  function PageMarkers(table: seq<Installment>, page: seq<Installment>): map<nat, Marker> {
    MarkerMap(MarkerRows(table, table, set row | row in page :: row.contract))
  }

  function PageEligibility(table: seq<Installment>, page: seq<Installment>, today: int): seq<Eligibility> {
    var markers := PageMarkers(table, page);
    seq(|page|, k requires 0 <= k < |page| =>
      ComputeEligibility(page[k],
                         if page[k].contract in markers then Some(markers[page[k].contract]) else None,
                         today))
  }

  // ---- A whole contract: sort, find, fill a map ----

  function InsertBySequence(sorted: seq<Installment>, row: Installment): seq<Installment> {
    if sorted == [] then [row]
    else
      var n := |sorted| - 1;
      if sorted[n].sequence <= row.sequence then sorted + [row]
      else InsertBySequence(sorted[..n], row) + [sorted[n]]
  }

  /** A stable sort by sequence. */
  function SortBySequence(rows: seq<Installment>): seq<Installment> {
    if rows == [] then []
    else InsertBySequence(SortBySequence(rows[..|rows| - 1]), rows[|rows| - 1])
  }

  function FindUnpaid(rows: seq<Installment>): Option<Installment> {
    if rows == [] then None
    else if rows[0].status != Paid then Some(rows[0])
    else FindUnpaid(rows[1..])
  }

  function FillEligibility(rows: seq<Installment>, marker: Option<Marker>, today: int): map<nat, Eligibility> {
    if rows == [] then map[]
    else
      var n := |rows| - 1;
      FillEligibility(rows[..n], marker, today)[rows[n].id := ComputeEligibility(rows[n], marker, today)]
  }

  function ContractEligibility(rows: seq<Installment>, today: int): map<nat, Eligibility> {
    var sorted := SortBySequence(rows);
    FillEligibility(sorted, MarkerOfOption(FindUnpaid(sorted)), today)
  }

  /** computeContractInstallmentEligibility */
  method ComputeContractEligibility(rows: seq<Installment>, today: int) returns (result: map<nat, Eligibility>)
    ensures result == ContractEligibility(rows, today)
  {
    result := map[];
    if |rows| == 0 {
      return;
    }
    var sorted := SortBySequence(rows);
    var marker := MarkerOfOption(FindUnpaid(sorted));
    for i := 0 to |sorted|
      invariant result == FillEligibility(sorted[..i], marker, today)
    {
      assert sorted[..i + 1][..i] == sorted[..i];
      result := result[sorted[i].id := ComputeEligibility(sorted[i], marker, today)];
    }
    assert sorted[..|sorted|] == sorted;
  }

  /** getNextPayableInstallment */
  function NextPayable(rows: seq<Installment>, today: int): Option<(Installment, Eligibility)> {
    var next := FindUnpaid(SortBySequence(rows));
    if next.None? then None
    else Some((next.value, ComputeEligibility(next.value, Some(MarkerOf(next.value)), today)))
  }

  // ---- The three agree ----

  /** The unique keys of the table: the id, and (contract, sequence). */
  ghost predicate UniqueKeys(table: seq<Installment>) {
    forall i, j :: 0 <= i < j < |table| ==>
      && table[i].id != table[j].id
      && (table[i].contract == table[j].contract ==> table[i].sequence != table[j].sequence)
  }

  ghost predicate IsNextUnpaid(table: seq<Installment>, contract: nat, row: Installment) {
    && row in table && row.contract == contract && row.status != Paid
    && forall r :: r in table && r.contract == contract && r.status != Paid ==> row.sequence <= r.sequence
  }

  ghost predicate NoUnpaid(table: seq<Installment>, contract: nat) {
    forall r :: r in table && r.contract == contract ==> r.status == Paid
  }

  /** Found or not, by whichever query: the answer is the one the definition singles out. */
  ghost predicate IsNextUnpaidOption(table: seq<Installment>, contract: nat, row: Option<Installment>) {
    if row.None? then NoUnpaid(table, contract) else IsNextUnpaid(table, contract, row.value)
  }

  lemma RowOfSequence(table: seq<Installment>, row: Installment, other: Installment)
    requires UniqueKeys(table) && row in table && other in table
    requires row.contract == other.contract && row.sequence == other.sequence
    ensures row == other
  {
    var i :| 0 <= i < |table| && table[i] == row;
    var j :| 0 <= j < |table| && table[j] == other;
    assert !(i < j) && !(j < i);
  }

  lemma NextUnpaidIsUnique(table: seq<Installment>, contract: nat, a: Option<Installment>, b: Option<Installment>)
    requires UniqueKeys(table)
    requires IsNextUnpaidOption(table, contract, a) && IsNextUnpaidOption(table, contract, b)
    ensures a == b
  {
    if a.Some? && b.Some? {
      RowOfSequence(table, a.value, b.value);
    }
  }

  lemma {:induction false} FirstUnpaidMeaning(table: seq<Installment>, contract: nat)
    ensures IsNextUnpaidOption(table, contract, FirstUnpaid(table, contract))
  {
    if table != [] {
      FirstUnpaidMeaning(table[..|table| - 1], contract);
      assert table == table[..|table| - 1] + [table[|table| - 1]];
    }
  }

  /**
   An instalment may be paid exactly when it is the lowest unpaid one of its contract and due in three days at most,
   or overdue; the state says which of the conditions fails, and the reason what to do about it.
   */
  lemma PayableExactlyWhenNextAndDue(table: seq<Installment>, row: Installment, today: int)
    requires UniqueKeys(table) && row in table
    ensures var eligibility := SingleEligibility(table, row, today);
            var next := IsNextUnpaid(table, row.contract, row);
            && (eligibility.canPay <==> next && row.dueDate - today <= 3)
            && (eligibility.isNext <==> next)
            && (eligibility.windowStarted <==> eligibility.canPay)
            && (eligibility.state == Available <==> eligibility.canPay)
            && (eligibility.state == AlreadyPaid <==> row.status == Paid)
            && (eligibility.state == WaitingForPrevious <==> row.status != Paid && !next)
            && (eligibility.state == TooEarly <==> next && row.dueDate - today > 3)
            && eligibility.state != ContractCompleted
            && eligibility.availableFrom == (if next then Some(row.dueDate - 3) else None)
            && (eligibility.isOverdue <==> row.status != Paid && row.dueDate < today)
            && eligibility.daysOverdue == (if eligibility.isOverdue then today - row.dueDate else 0)
  {
    var first := FirstUnpaid(table, row.contract);
    FirstUnpaidMeaning(table, row.contract);
    IdsAreUnique(table);
    if first.Some? && IsNextUnpaid(table, row.contract, row) {
      NextUnpaidIsUnique(table, row.contract, first, Some(row));
    }
  }

  /** What the customer is told of an instalment: its days, its label, and why it cannot be paid, if it cannot. */
  lemma EligibilityTells(table: seq<Installment>, row: Installment, today: int)
    requires UniqueKeys(table) && row in table
    ensures var eligibility := SingleEligibility(table, row, today);
            && eligibility.id == row.id
            && eligibility.daysUntilDue == row.dueDate - today
            && (eligibility.isDueToday <==> row.dueDate == today)
            && (eligibility.isUpcoming <==> row.dueDate > today)
            && (eligibility.status == IsPaid <==> row.status == Paid)
            && (eligibility.status == IsOverdue <==> row.status != Paid && row.dueDate < today)
            && (eligibility.status == DueToday <==> row.status != Paid && row.dueDate == today)
            && (eligibility.status == Upcoming <==> row.status != Paid && row.dueDate > today)
            && match eligibility.reason
               case None => eligibility.canPay || row.status == Paid
               case Some(OpensBeforeDueDate) => IsNextUnpaid(table, row.contract, row) && row.dueDate - today > 3
               case Some(SettleFirst(sequence)) =>
                 && row.status != Paid && !IsNextUnpaid(table, row.contract, row)
                 && exists next :: IsNextUnpaid(table, row.contract, next) && next.sequence == sequence
               case Some(AllPaid) => false
  {
    PayableExactlyWhenNextAndDue(table, row, today);
    FirstUnpaidMeaning(table, row.contract);
    var first := FirstUnpaid(table, row.contract);
    if first.Some? {
      assert IsNextUnpaid(table, row.contract, first.value);
    }
  }

  lemma {:induction false} MinUnpaidIsSequenceOfFirst(table: seq<Installment>, contract: nat)
    ensures MinUnpaidSequence(table, contract)
         == if FirstUnpaid(table, contract).None? then None else Some(FirstUnpaid(table, contract).value.sequence)
  {
    if table != [] {
      MinUnpaidIsSequenceOfFirst(table[..|table| - 1], contract);
    }
  }

  lemma {:induction false} MarkerMapMeaning(rows: seq<Installment>)
    ensures forall c: nat :: c in MarkerMap(rows) <==> exists r :: r in rows && r.contract == c
    ensures forall c: nat :: c in MarkerMap(rows) ==>
              exists r :: r in rows && r.contract == c && MarkerMap(rows)[c] == MarkerOf(r)
  {
    if rows != [] {
      var n := |rows| - 1;
      MarkerMapMeaning(rows[..n]);
      assert rows == rows[..n] + [rows[n]];
      forall c: nat
        ensures c in MarkerMap(rows) <==> exists r :: r in rows && r.contract == c
        ensures c in MarkerMap(rows) ==>
                  exists r :: r in rows && r.contract == c && MarkerMap(rows)[c] == MarkerOf(r)
      {
        if c == rows[n].contract {
          assert rows[n] in rows;
        }
      }
    }
  }

  lemma {:induction false} MarkerRowsMeaning(
      table: seq<Installment>, rows: seq<Installment>, contracts: set<nat>, row: Installment)
    ensures row in MarkerRows(table, rows, contracts) <==>
              && row in rows && row.contract in contracts
              && MinUnpaidSequence(table, row.contract) == Some(row.sequence)
  {
    if rows != [] {
      MarkerRowsMeaning(table, rows[..|rows| - 1], contracts, row);
      assert rows == rows[..|rows| - 1] + [rows[|rows| - 1]];
    }
  }

  lemma PageMarkerIsFirstUnpaid(table: seq<Installment>, page: seq<Installment>, contract: nat)
    requires UniqueKeys(table)
    requires exists r :: r in page && r.contract == contract
    ensures (if contract in PageMarkers(table, page) then Some(PageMarkers(table, page)[contract]) else None)
         == MarkerOfOption(FirstUnpaid(table, contract))
  {
    var contracts := set r | r in page :: r.contract;
    var rows := MarkerRows(table, table, contracts);
    var first := FirstUnpaid(table, contract);
    FirstUnpaidMeaning(table, contract);
    MinUnpaidIsSequenceOfFirst(table, contract);
    MarkerMapMeaning(rows);
    if first.Some? {
      MarkerRowsMeaning(table, table, contracts, first.value);
    }
    if contract in MarkerMap(rows) {
      var r :| r in rows && r.contract == contract && MarkerMap(rows)[contract] == MarkerOf(r);
      MarkerRowsMeaning(table, table, contracts, r);
      RowOfSequence(table, r, first.value);
    }
  }

  /** Every instalment on any page gets the eligibility its own query would give it. */
  lemma PageAgreesWithSingle(table: seq<Installment>, page: seq<Installment>, today: int, k: nat)
    requires UniqueKeys(table)
    requires k < |page|
    ensures PageEligibility(table, page, today)[k] == SingleEligibility(table, page[k], today)
  {
    assert page[k] in page;
    PageMarkerIsFirstUnpaid(table, page, page[k].contract);
  }

  // ---- The sorted computation ----

  ghost predicate SortedBySequence(rows: seq<Installment>) {
    forall i, j :: 0 <= i < j < |rows| ==> rows[i].sequence <= rows[j].sequence
  }

  lemma {:induction false} InsertAddsOne(sorted: seq<Installment>, row: Installment)
    ensures multiset(InsertBySequence(sorted, row)) == multiset(sorted) + multiset{row}
  {
    if sorted != [] {
      var n := |sorted| - 1;
      assert sorted == sorted[..n] + [sorted[n]];
      InsertAddsOne(sorted[..n], row);
    }
  }

  lemma {:induction false} InsertKeepsSorted(sorted: seq<Installment>, row: Installment)
    requires SortedBySequence(sorted)
    ensures SortedBySequence(InsertBySequence(sorted, row))
  {
    var n := |sorted| - 1;
    if sorted != [] && sorted[n].sequence > row.sequence {
      var inserted := InsertBySequence(sorted[..n], row);
      InsertKeepsSorted(sorted[..n], row);
      InsertAddsOne(sorted[..n], row);
      forall i | 0 <= i < |inserted| ensures inserted[i].sequence <= sorted[n].sequence {
        assert inserted[i] in multiset(inserted);
        assert inserted[i] == row || inserted[i] in sorted[..n];
      }
    }
  }

  lemma {:induction false} SortSorts(rows: seq<Installment>)
    ensures SortedBySequence(SortBySequence(rows))
    ensures multiset(SortBySequence(rows)) == multiset(rows)
  {
    if rows != [] {
      var n := |rows| - 1;
      assert rows == rows[..n] + [rows[n]];
      SortSorts(rows[..n]);
      InsertKeepsSorted(SortBySequence(rows[..n]), rows[n]);
      InsertAddsOne(SortBySequence(rows[..n]), rows[n]);
    }
  }

  lemma {:induction false} FindUnpaidMeaning(rows: seq<Installment>)
    requires SortedBySequence(rows)
    ensures var next := FindUnpaid(rows);
            if next.None? then forall r :: r in rows ==> r.status == Paid
            else && next.value in rows && next.value.status != Paid
                 && forall r :: r in rows && r.status != Paid ==> next.value.sequence <= r.sequence
  {
    if rows != [] {
      assert rows == [rows[0]] + rows[1..];
      FindUnpaidMeaning(rows[1..]);
    }
  }

  ghost predicate UniqueIds(rows: seq<Installment>) {
    forall r, s :: r in rows && s in rows && r.id == s.id ==> r == s
  }

  lemma {:induction false} FillMeaning(rows: seq<Installment>, marker: Option<Marker>, today: int)
    requires UniqueIds(rows)
    ensures forall id: nat :: id in FillEligibility(rows, marker, today) <==> exists r :: r in rows && r.id == id
    ensures forall r :: r in rows ==>
              r.id in FillEligibility(rows, marker, today)
              && FillEligibility(rows, marker, today)[r.id] == ComputeEligibility(r, marker, today)
  {
    if rows != [] {
      var n := |rows| - 1;
      assert rows == rows[..n] + [rows[n]];
      assert forall r :: r in rows[..n] ==> r in rows;
      FillMeaning(rows[..n], marker, today);
      forall id: nat
        ensures id in FillEligibility(rows, marker, today) <==> exists r :: r in rows && r.id == id
      {
        if id == rows[n].id {
          assert rows[n] in rows;
        }
      }
    }
  }

  lemma SameRows(rows: seq<Installment>, others: seq<Installment>)
    requires multiset(rows) == multiset(others)
    ensures forall r :: r in rows <==> r in others
  {
    forall r ensures r in rows <==> r in others {
      assert r in rows <==> r in multiset(rows);
    }
  }

  /** The rows of one contract, in whatever order, get the eligibility of their own queries. */
  lemma ContractAgreesWithSingle(table: seq<Installment>, contract: nat, rows: seq<Installment>, today: int)
    requires UniqueKeys(table)
    requires forall r :: r in rows <==> r in table && r.contract == contract
    ensures var result := ContractEligibility(rows, today);
            && (forall id: nat :: id in result <==> exists r :: r in rows && r.id == id)
            && (forall r :: r in rows ==> r.id in result && result[r.id] == SingleEligibility(table, r, today))
  {
    var sorted := SortBySequence(rows);
    SortSorts(rows);
    SameRows(sorted, rows);
    FindUnpaidMeaning(sorted);
    FirstUnpaidMeaning(table, contract);
    NextUnpaidIsUnique(table, contract, FindUnpaid(sorted), FirstUnpaid(table, contract));
    IdsAreUnique(table);
    FillMeaning(sorted, MarkerOfOption(FindUnpaid(sorted)), today);
  }

  lemma IdsAreUnique(table: seq<Installment>)
    requires UniqueKeys(table)
    ensures UniqueIds(table)
  {
    forall r, s | r in table && s in table && r.id == s.id ensures r == s {
      var i :| 0 <= i < |table| && table[i] == r;
      var j :| 0 <= j < |table| && table[j] == s;
      assert !(i < j) && !(j < i);
    }
  }

  ghost predicate OneContract(rows: seq<Installment>, contract: nat) {
    forall r :: r in rows ==> r.contract == contract
  }

  /** The order in which a contract's rows are handed over does not matter. */
  lemma OrderDoesNotMatter(rows: seq<Installment>, others: seq<Installment>, contract: nat, today: int)
    requires UniqueKeys(rows) && OneContract(rows, contract)
    requires multiset(rows) == multiset(others)
    ensures ContractEligibility(rows, today) == ContractEligibility(others, today)
  {
    SameRows(rows, others);
    ContractAgreesWithSingle(rows, contract, rows, today);
    ContractAgreesWithSingle(rows, contract, others, today);
    var result, other := ContractEligibility(rows, today), ContractEligibility(others, today);
    forall id: nat | id in result ensures id in other && result[id] == other[id] {
      var r :| r in rows && r.id == id;
    }
    forall id: nat | id in other ensures id in result {
      var r :| r in others && r.id == id;
    }
  }

  /** getNextPayableInstallment reports the lowest unpaid instalment as its own query does, or that all are paid. */
  lemma NextPayableIsTheLowestUnpaid(rows: seq<Installment>, contract: nat, today: int)
    requires UniqueKeys(rows) && OneContract(rows, contract)
    ensures var next := NextPayable(rows, today);
            if next.None? then forall r :: r in rows ==> r.status == Paid
            else && IsNextUnpaid(rows, contract, next.value.0)
                 && next.value.1 == SingleEligibility(rows, next.value.0, today)
  {
    var sorted := SortBySequence(rows);
    SortSorts(rows);
    SameRows(sorted, rows);
    FindUnpaidMeaning(sorted);
    FirstUnpaidMeaning(rows, contract);
    NextUnpaidIsUnique(rows, contract, FindUnpaid(sorted), FirstUnpaid(rows, contract));
  }

  /** At most one instalment of a contract is payable, and it is the one getNextPayable reports. */
  lemma AtMostOnePayable(rows: seq<Installment>, contract: nat, today: int, id: nat)
    requires UniqueKeys(rows) && OneContract(rows, contract)
    requires id in ContractEligibility(rows, today) && ContractEligibility(rows, today)[id].canPay
    ensures var next := NextPayable(rows, today);
            && next.Some?
            && next.value.0.id == id
            && next.value.1 == ContractEligibility(rows, today)[id]
            && IsNextUnpaid(rows, contract, next.value.0)
            && next.value.0.dueDate - today <= 3
  {
    var sorted := SortBySequence(rows);
    SortSorts(rows);
    SameRows(sorted, rows);
    FindUnpaidMeaning(sorted);
    IdsAreUnique(rows);
    FillMeaning(sorted, MarkerOfOption(FindUnpaid(sorted)), today);
    var r :| r in sorted && r.id == id;
    var next := FindUnpaid(sorted);
    assert next.Some? && next.value.id == id;
    assert next.value in rows && r in rows;
  }
}
