/** The pipeline tables as the payment worker, the settlement service, its worker and the webhooks update them. */
module PipelineService {
  import opened Common
  import opened Ledger
  import opened LedgerService
  import opened Installments
  import opened Eligibility
  import opened Pipeline
  import opened PipelineRows
  import opened PipelinePostings
  import Financing
  import PipelineGeneration

  datatype AttemptResult = Skipped | NoBankAccount | AlreadySent | NotSent | SentWith(code: nat)

  // ---- Queueing ----

  /** The settlements that get queued, in order. */
  function QueueableIds(settlements: seq<Settlement>, verified: set<string>): (ids: seq<nat>)
    ensures forall s: nat ::
              s in ids <==> s < |settlements| && Queueable(settlements[s], settlements[s].company in verified)
    ensures forall k :: 0 <= k < |ids| ==> ids[k] < |settlements|
    ensures forall j, k :: 0 <= j < k < |ids| ==> ids[j] < ids[k]
  {
    if settlements == [] then []
    else
      var n := |settlements| - 1;
      QueueableIds(settlements[..n], verified)
      + (if Queueable(settlements[n], settlements[n].company in verified) then [n] else [])
  }

  predicate ValidIds(db: Db, ids: seq<nat>) {
    forall k :: 0 <= k < |ids| ==> ids[k] < |db.settlements|
  }

  /** The queue loop: one transaction after the other. */
  function QueueAll(db: Db, ids: seq<nat>): (r: Db)
    requires ValidIds(db, ids)
    ensures |r.settlements| == |db.settlements|
  {
    if ids == [] then db
    else WriteTransfer(QueueAll(db, ids[..|ids| - 1]), Queueing(ids[|ids| - 1]), 0)
  }

  lemma QueueOneMore(db: Db, ids: seq<nat>, k: nat)
    requires ValidIds(db, ids) && k < |ids|
    ensures QueueAll(db, ids[..k + 1]) == WriteTransfer(QueueAll(db, ids[..k]), Queueing(ids[k]), 0)
  {
    assert ids[..k + 1][..k] == ids[..k];
  }

  /** Each settlement listed starts one initiation; nothing else changes, and nothing is posted. */
  lemma {:induction false} QueuesEachOnce(db: Db, ids: seq<nat>, s: nat)
    requires ValidIds(db, ids) && s < |db.settlements| && forall j, k :: 0 <= j < k < |ids| ==> ids[j] < ids[k]
    ensures var r := QueueAll(db, ids);
            && r == db.(settlements := r.settlements)
            && r.settlements[s] == if s in ids then RowAfter(db.settlements[s], Queueing(s), 0) else db.settlements[s]
  {
    if ids != [] {
      var n := |ids| - 1;
      assert ids == ids[..n] + [ids[n]];
      QueuesEachOnce(db, ids[..n], s);
    }
  }

  function QueueChecks(ids: seq<nat>): (events: seq<Event>)
    ensures |events| == |ids|
  {
    seq(|ids|, k requires 0 <= k < |ids| => QueueChecked(ids[k], true))
  }

  function QueueWrites(first: nat, n: nat): (events: seq<Event>)
    ensures |events| == n
  {
    seq(n, k requires 0 <= k < n => Written(first + k, 0))
  }

  function QueueCalls(ids: seq<nat>): (calls: seq<Call>)
    ensures |calls| == |ids|
  {
    seq(|ids|, k requires 0 <= k < |ids| => Queueing(ids[k]))
  }

  lemma OneMoreChecked(calls: seq<Call>, ids: seq<nat>)
    requires ids != []
    ensures var n := |ids| - 1;
            && calls + QueueCalls(ids) == (calls + QueueCalls(ids[..n])) + [Queueing(ids[n])]
            && QueueChecks(ids) == QueueChecks(ids[..n]) + [QueueChecked(ids[n], true)]
  {
  }

  lemma OneMoreWrite(first: nat, n: nat)
    ensures QueueWrites(first, n + 1) == QueueWrites(first, n) + [Written(first + n, 0)]
  {
  }

  lemma CheckRemembers(db: Db, r: Db, id: nat)
    requires Ready(r) && r == db.(calls := r.calls) && id < |db.settlements| && Queueable(db.settlements[id], true)
    ensures Step(r, QueueChecked(id, true)) == db.(calls := r.calls + [Queueing(id)])
  {
  }

  lemma {:induction false} ChecksRemember(db: Db, ids: seq<nat>)
    requires Sound(db)
    requires forall k :: 0 <= k < |ids| ==> ids[k] < |db.settlements| && Queueable(db.settlements[ids[k]], true)
    ensures Run(db, QueueChecks(ids)) == db.(calls := db.calls + QueueCalls(ids))
  {
    if ids == [] {
      assert db.calls + QueueCalls(ids) == db.calls;
    } else {
      var n := |ids| - 1;
      ChecksRemember(db, ids[..n]);
      RunMore(db, QueueChecks(ids[..n]), QueueChecked(ids[n], true));
      CheckRemembers(db, Run(db, QueueChecks(ids[..n])), ids[n]);
      OneMoreChecked(db.calls, ids);
    }
  }

  lemma WriteQueues(db: Db, r: Db, k: nat, id: nat)
    requires Ready(r) && r == db.(calls := r.calls) && id < |db.settlements|
    requires k < |r.calls| && r.calls[k] == Queueing(id)
    ensures Step(r, Written(k, 0)) == WriteTransfer(db, Queueing(id), 0).(calls := r.calls[k := Finished])
  {
  }

  /** The calls from `first` on are those of the listed settlements. */
  predicate AreQueueing(calls: seq<Call>, first: nat, ids: seq<nat>) {
    first + |ids| <= |calls| && forall k :: 0 <= k < |ids| ==> calls[first + k] == Queueing(ids[k])
  }

  lemma CallsAreQueueing(calls: seq<Call>, ids: seq<nat>)
    ensures AreQueueing(calls + QueueCalls(ids), |calls|, ids)
  {
  }

  /** The calls with `n` of them, from `first` on, finished. */
  function FinishedFrom(calls: seq<Call>, first: nat, n: nat): (r: seq<Call>)
    ensures |r| == |calls|
  {
    seq(|calls|, k requires 0 <= k < |calls| => if first <= k < first + n then Finished else calls[k])
  }

  lemma OneMoreFinished(calls: seq<Call>, first: nat, n: nat)
    requires first + n < |calls|
    ensures FinishedFrom(calls, first, n)[first + n] == calls[first + n]
    ensures FinishedFrom(calls, first, n)[first + n := Finished] == FinishedFrom(calls, first, n + 1)
  {
  }

  lemma NoneFinished(calls: seq<Call>, first: nat)
    ensures FinishedFrom(calls, first, 0) == calls
  {
  }

  lemma {:induction false} WritesQueue(db: Db, start: Db, first: nat, ids: seq<nat>)
    requires ValidIds(db, ids) && Sound(start) && start == db.(calls := start.calls)
    requires AreQueueing(start.calls, first, ids)
    ensures Run(start, QueueWrites(first, |ids|))
         == QueueAll(db, ids).(calls := FinishedFrom(start.calls, first, |ids|))
  {
    if ids == [] {
      NoneFinished(start.calls, first);
    } else {
      var n := |ids| - 1;
      WritesQueue(db, start, first, ids[..n]);
      OneMoreFinished(start.calls, first, n);
      OneMoreWrite(first, n);
      RunMore(start, QueueWrites(first, n), Written(first + n, 0));
      WriteQueues(QueueAll(db, ids[..n]), Run(start, QueueWrites(first, n)), first + n, ids[n]);
    }
  }

  /** The queue loop is a run: the checks of its query, then the writes, one settlement after the other. */
  lemma QueueingIsARun(db: Db, verified: set<string>)
    requires Sound(db)
    ensures var ids := QueueableIds(db.settlements, verified);
            && ValidIds(db, ids)
            && Run(db, QueueChecks(ids) + QueueWrites(|db.calls|, |ids|))
               == QueueAll(db, ids).(calls := FinishedFrom(db.calls + QueueCalls(ids), |db.calls|, |ids|))
  {
    var ids := QueueableIds(db.settlements, verified);
    assert forall k :: 0 <= k < |ids| ==> ids[k] in ids;
    ChecksRemember(db, ids);
    RunTwice(db, QueueChecks(ids), QueueWrites(|db.calls|, |ids|));
    CallsAreQueueing(db.calls, ids);
    WritesQueue(db, Run(db, QueueChecks(ids)), |db.calls|, ids);
  }

  // ---- Queueing while others act ----

  lemma TransferKeepsSound(db: Db, call: Call, code: nat)
    requires Sound(db) && IsTransferCall(call) && call.settlement < |db.settlements|
    ensures Sound(WriteTransfer(db, call, code))
  {
    var r := WriteTransfer(db, call, code);
    forall k | 0 <= k < |r.calls| ensures CallFits(r, r.calls[k]) {
      CallStillFits(db, r, db.calls[k]);
    }
  }

  function OthersAt(others: seq<seq<Event>>, k: nat): seq<Event> {
    if k < |others| then others[k] else []
  }

  /** One settlement's transaction, others acting before it. */
  function QueueTurn(db: Db, s: nat, others: seq<Event>): (r: Db)
    requires Sound(db) && s < |db.settlements|
    ensures Sound(r) && |db.settlements| <= |r.settlements|
  {
    RunGrows(db, others);
    TransferKeepsSound(Run(db, others), Queueing(s), 0);
    WriteTransfer(Run(db, others), Queueing(s), 0)
  }

  /** The queue loop, others acting before each transaction. */
  function QueueAmid(db: Db, ids: seq<nat>, others: seq<seq<Event>>): (r: Db)
    requires Sound(db) && ValidIds(db, ids)
    ensures Sound(r) && |db.settlements| <= |r.settlements|
  {
    if ids == [] then db
    else
      var n := |ids| - 1;
      QueueTurn(QueueAmid(db, ids[..n], others), ids[n], OthersAt(others, n))
  }

  lemma QueueNext(db: Db, ids: seq<nat>, others: seq<seq<Event>>, k: nat)
    requires Sound(db) && ValidIds(db, ids) && k < |ids|
    ensures QueueAmid(db, ids[..k + 1], others)
         == QueueTurn(QueueAmid(db, ids[..k], others), ids[k], OthersAt(others, k))
  {
    assert ids[..k + 1][..k] == ids[..k];
  }

  lemma UninterruptedTurn(db: Db, s: nat)
    requires Sound(db) && s < |db.settlements|
    ensures QueueTurn(db, s, []) == WriteTransfer(db, Queueing(s), 0)
  {
  }

  /** With nothing in between it is the plain loop. */
  lemma {:induction false} UninterruptedQueue(db: Db, ids: seq<nat>)
    requires Sound(db) && ValidIds(db, ids)
    ensures QueueAmid(db, ids, []) == QueueAll(db, ids)
  {
    if ids != [] {
      var n := |ids| - 1;
      UninterruptedQueue(db, ids[..n]);
      UninterruptedTurn(QueueAmid(db, ids[..n], []), ids[n]);
    }
  }

  lemma CallFitsLater(db: Db, others: seq<Event>, call: Call)
    requires Sound(db) && CallFits(db, call)
    ensures CallFits(Run(db, others), call)
  {
    RunGrows(db, others);
    CallStillFits(db, Run(db, others), call);
  }

  class PipelineStore {
    const ledger: LedgerStore
    var contracts: seq<Contract>
    var installments: seq<Installment>
    var targets: set<nat>
    var payments: seq<Payment>
    var commissions: seq<CommissionRow>
    var settlements: seq<Settlement>
    var lines: seq<SettlementLine>
    /** The calls that others have under way. */
    var calls: seq<Call>
    /** The transfer pairs in the ledger, in posting order. */
    ghost var posted: seq<TransferPosting>

    constructor ()
      ensures State() == EMPTY_DB
      ensures fresh(ledger)
    {
      ledger := new LedgerStore();
      contracts, installments, targets, payments := [], [], {}, [];
      commissions, settlements, lines, calls, posted := [], [], [], [], [];
    }

    ghost function State(): Db
      reads this, ledger
    {
      Db(contracts, installments, targets, payments, commissions, settlements, lines, posted, ledger.State(), calls)
    }

    // ---- Other processes ----

    /** The tables without the ledger and the log. */
    function Rows(): Db
      reads this
    {
      Db(contracts, installments, targets, payments, commissions, settlements, lines, [], EMPTY_BOOKS, calls)
    }

    method SetRows(r: Db)
      modifies this
      ensures Rows() == On(r, EMPTY_BOOKS, []) && posted == old(posted)
    {
      contracts, installments, targets, payments := r.contracts, r.installments, r.targets, r.payments;
      commissions, settlements, lines, calls := r.commissions, r.settlements, r.lines, r.calls;
    }

    method Perform(event: Event)
      requires Sound(State())
      modifies this, ledger
      ensures State() == Step(old(State()), event)
    {
      ghost var before := State();
      StepOnRows(before, event);
      assert Rows() == On(before, EMPTY_BOOKS, []);
      var posting := PostingOf(Rows(), event);
      SetRows(Step(Rows(), event));
      posted := posted + LogOf(before, event);
      if posting.Some? {
        var _ := ledger.RecordTransaction(posting.value);
      }
    }

    /** What other processes do between a call's reads and its write. */
    method Interleave(others: seq<Event>)
      requires Sound(State())
      modifies this, ledger
      ensures State() == Run(old(State()), others)
    {
      ghost var before := State();
      for k := 0 to |others|
        invariant State() == Run(before, others[..k])
      {
        RunNext(before, others, k);
        Perform(others[k]);
      }
      assert others[..|others|] == others;
    }

    // ---- The services ----

    /** A contract with its schedule, as KYC approval creates them. */
    method ActivateContract(contract: Contract, months: int, firstPaymentDate: int)
        returns (r: Result<nat, ScheduleError>)
      modifies this
      ensures r.Err? <==> months <= 0 || contract.totalFinanced <= 0.0
      ensures r.Err? ==> State() == old(State())
      ensures r.Ok? ==>
                r.value == |old(contracts)| && State() == Activate(old(State()), contract, months, firstPaymentDate)
    {
      var id := |contracts|;
      var schedule := GenerateInstallmentSchedule(id, contract.totalFinanced, months, firstPaymentDate);
      if schedule.Err? {
        return Err(schedule.error);
      }
      contracts := contracts + [contract.(status := Active)];
      installments := Insert(installments, schedule.value);
      r := Ok(id);
    }

    /** initializeInstallmentPayment up to the reservation: only a payable instalment becomes a target. */
    method InitializePayment(i: nat, today: int) returns (accepted: bool)
      requires Linked(State())
      modifies this`targets
      ensures accepted <==> MayInitialize(old(State()), i, today)
      ensures State() == StepContract(old(State()), CheckedPayable(i, today))
    {
      if i >= |installments| || installments[i].status == Paid {
        return false;
      }
      var status := contracts[installments[i].contract].status;
      if !status.Active? && !status.InDefault? {
        return false;
      }
      accepted := SingleEligibility(installments, installments[i], today).canPay;
      if accepted {
        targets := targets + {i};
      }
    }

    /** The pending row of the reference turns successful, or a successful row is created. */
    method RecordSuccess(i: nat, key: nat, amount: Money) returns (payment: Option<nat>)
      modifies this`payments
      ensures payment.None? <==> FindPending(old(payments), i, key) == |old(payments)| && KeyUsed(old(payments), key)
      ensures payment.None? ==> payments == old(payments)
      ensures payment.Some? ==>
                && payment.value == FindPending(old(payments), i, key)
                && payments == RecordPayment(old(payments), i, amount, key)
    {
      var id := FindPending(payments, i, key);
      if id < |payments| {
        payments := payments[id := payments[id].(status := PaymentSuccess)];
      } else if KeyUsed(payments, key) {
        return None;
      } else {
        payments := payments + [Payment(i, amount, PaymentSuccess, key)];
      }
      payment := Some(id);
    }

    method AccrueCommission(contract: Contract, payment: nat, amount: Money) returns (commission: Money)
      modifies this`commissions
      ensures commission == CommissionAmount(contract, amount)
      ensures commissions == if EarnsCommission(contract)
                             then old(commissions) + [CommissionRow(contract.referrer.value, payment, commission)]
                             else old(commissions)
    {
      commission := 0.0;
      if contract.referrer.Some? && contract.referrerEligible && contract.commissionRate > 0.0 {
        commission := amount * (contract.commissionRate / 100.0);
        commissions := commissions + [CommissionRow(contract.referrer.value, payment, commission)];
      }
    }

    method CompleteIfNonePending(c: nat)
      requires c < |contracts|
      modifies this`contracts
      ensures contracts == if HasPending(installments, c) then old(contracts)
                           else old(contracts)[c := old(contracts)[c].(status := Completed)]
    {
      if !HasPending(installments, c) {
        contracts := contracts[c := contracts[c].(status := Completed)];
      }
    }

    method PostPayment(contract: Contract, amount: Money, commission: Money, key: nat)
      requires commission == CommissionAmount(contract, amount)
      modifies ledger
      ensures ledger.State() == Post(old(ledger.State()), PaymentPosting(contract, amount, key))
    {
      var entries := CashEntries(amount) + CommissionEntries(commission) + MerchantEntries(amount - commission);
      var _ := ledger.RecordTransaction(Posting(Reference("", key), "Installment payment", contract.company, entries));
    }

    /** The rows and the posting of a payment whose row is in place. */
    method ApplyPayment(row: Installment, i: nat, key: nat, contract: Contract, payment: nat)
      requires i < |installments| && row == installments[i] && row.contract < |contracts|
      modifies this`installments, this`commissions, this`contracts, ledger
      ensures installments == old(installments)[i := row.(status := Paid)]
      ensures commissions == if EarnsCommission(contract)
                             then old(commissions) + [CommissionRow(contract.referrer.value, payment,
                                                                    CommissionAmount(contract, row.amount))]
                             else old(commissions)
      ensures ledger.State() == Post(old(ledger.State()), PaymentPosting(contract, row.amount, key))
      ensures contracts == if HasPending(installments, row.contract) then old(contracts)
                           else old(contracts)[row.contract := old(contracts)[row.contract].(status := Completed)]
    {
      installments := installments[i := row.(status := Paid)];
      var commission := AccrueCommission(contract, payment, row.amount);
      PostPayment(contract, row.amount, commission, key);
      CompleteIfNonePending(row.contract);
    }

    /** The transaction of the payment job, undone when the key is taken. */
    method WritePayment(i: nat, key: nat, contract: Contract) returns (paid: bool)
      requires Linked(State()) && i < |installments|
      modifies this`payments, this`installments, this`commissions, this`contracts, ledger
      ensures paid <==> JobCommits(old(State()), i, key)
      ensures State() == if paid then Pay(old(State()), i, key, contract) else old(State())
    {
      var row := installments[i];
      var payment := RecordSuccess(i, key, row.amount);
      if payment.None? {
        return false;
      }
      ApplyPayment(row, i, key, contract, payment.value);
      paid := true;
    }

    /** The payment job for a reference whose charge the provider has confirmed: the checks, then the transaction. */
    method ProcessPayment(i: nat, key: nat, others: seq<Event>) returns (paid: bool)
      requires Sound(State())
      modifies this, ledger
      ensures if !JobStarts(old(State()), i) then !paid && State() == old(State())
              else
                var between := Run(old(State()), others);
                var call := Paying(i, key, old(contracts)[old(installments)[i].contract]);
                && (paid <==> JobCommits(between, i, key))
                && CallFits(between, call) && State() == WriteCall(between, call, 0)
    {
      if i >= |installments| || installments[i].status == Paid || i !in targets {
        return false;
      }
      var contract := contracts[installments[i].contract];
      CallFitsLater(State(), others, Paying(i, key, contract));
      Interleave(others);
      paid := WritePayment(i, key, contract);
    }

    method SumPaid(c: nat) returns (paidAmount: Money)
      ensures paidAmount == PaidAmount(installments, c)
    {
      paidAmount := 0.0;
      for i := 0 to |installments|
        invariant paidAmount == PaidAmount(installments[..i], c)
      {
        assert installments[..i + 1][..i] == installments[..i];
        if installments[i].contract == c && installments[i].status == Paid {
          paidAmount := paidAmount + installments[i].amount;
        }
      }
      assert installments[..|installments|] == installments;
    }

    /** writeOffContract once the caller is authorised. */
    method WriteOffContract(c: nat) returns (done: bool)
      requires Linked(State())
      modifies this, ledger
      ensures done <==>
                c < |old(contracts)| && (old(contracts)[c].status.InDefault? || old(contracts)[c].status.Restructured?)
      ensures State() == if done then WriteOff(old(State()), c) else old(State())
    {
      if c >= |contracts| || (!contracts[c].status.InDefault? && !contracts[c].status.Restructured?) {
        return false;
      }
      var paidAmount := SumPaid(c);
      var contract := contracts[c];
      contracts := contracts[c := contract.(status := WrittenOff)];
      installments := VoidContract(installments, c);
      var _ := ledger.RecordTransaction(WriteOffPosting(c, contract, contract.totalFinanced - paidAmount));
      done := true;
    }

    method SequenceTaken(c: nat, n: int) returns (taken: bool)
      ensures taken <==> Financing.Clashes(installments, c, n)
    {
      for i := 0 to |installments|
        invariant forall k :: 0 <= k < i ==>
                    !(installments[k].contract == c && 1 <= installments[k].sequence <= n)
      {
        if installments[i].contract == c && 1 <= installments[i].sequence <= n {
          return true;
        }
      }
      return false;
    }

    /** The updates and the insert of a restructure, undone when the schedule or the unique key refuses. */
    method ReplaceSchedule(c: nat, newTotal: Money, terms: Financing.Terms)
        returns (error: Option<Financing.RestructureError>)
      requires c < |contracts| && terms.numberOfInstallments > 0
      modifies this`contracts, this`installments
      ensures error == if newTotal <= 0.0 then Some(Financing.NothingToFinance)
                       else if Financing.Clashes(old(installments), c, terms.numberOfInstallments)
                       then Some(Financing.SequenceTaken) else None
      ensures error.Some? ==> contracts == old(contracts) && installments == old(installments)
      ensures error.None? ==>
                && contracts
                   == old(contracts)[c := old(contracts)[c].(status := Restructured, totalFinanced := newTotal)]
                && installments == Insert(
                     VoidContract(old(installments), c),
                     Schedule(c, Cents(newTotal), terms.numberOfInstallments, terms.firstPaymentDate))
    {
      var savedContracts, savedInstallments := contracts, installments;
      contracts := contracts[c := contracts[c].(status := Restructured, totalFinanced := newTotal)];
      installments := VoidContract(installments, c);
      Financing.VoidingKeepsClashes(savedInstallments, c, terms.numberOfInstallments);
      var rows := GenerateInstallmentSchedule(c, newTotal, terms.numberOfInstallments, terms.firstPaymentDate);
      if rows.Err? {
        contracts, installments := savedContracts, savedInstallments;
        return Some(Financing.NothingToFinance);
      }
      var taken := SequenceTaken(c, terms.numberOfInstallments);
      if taken {
        contracts, installments := savedContracts, savedInstallments;
        return Some(Financing.SequenceTaken);
      }
      installments := Insert(installments, rows.value);
      error := None;
    }

    /** The arithmetic, the rows, and the posting when they are in place. */
    method ReplaceTerms(c: nat, terms: Financing.Terms) returns (error: Option<Financing.RestructureError>)
      requires c < |contracts| && terms.numberOfInstallments > 0
      modifies this`contracts, this`installments, ledger
      ensures error == if Financing.NewTotal(old(State()), c, terms) <= 0.0 then Some(Financing.NothingToFinance)
                       else if Financing.Clashes(old(installments), c, terms.numberOfInstallments)
                       then Some(Financing.SequenceTaken) else None
      ensures State() == if error.Some? then old(State()) else Financing.Restructure(old(State()), c, terms)
    {
      var contract := contracts[c];
      var paidAmount := SumPaid(c);
      var remaining := contract.totalFinanced - paidAmount;
      var interest := Financing.NewInterest(remaining, terms.interestPercentage);
      ghost var before := State();
      assert remaining == Outstanding(before, c) && remaining + interest == Financing.NewTotal(before, c, terms);
      error := ReplaceSchedule(c, remaining + interest, terms);
      if error.None? {
        var _ := ledger.RecordTransaction(Financing.RestructurePosting(c, contract, remaining, interest));
      }
    }

    /** restructureContract */
    method RestructureContract(c: nat, caller: Option<Financing.Caller>, terms: Financing.Terms)
        returns (error: Option<Financing.RestructureError>)
      modifies this, ledger
      ensures error == Financing.RestructureRefusal(old(State()), c, caller, terms)
      ensures State() == if error.Some? then old(State()) else Financing.Restructure(old(State()), c, terms)
    {
      if !Financing.ValidTerms(terms) {
        return Some(Financing.InvalidTerms);
      }
      if c >= |contracts| {
        return Some(Financing.ContractNotFound);
      }
      if !contracts[c].status.InDefault? {
        return Some(Financing.NotInDefault);
      }
      if caller.None? || !Financing.MayAct(caller.value, contracts[c].company) {
        return Some(Financing.Forbidden);
      }
      error := ReplaceTerms(c, terms);
    }

    /** The paid instalments of the company without a line. */
    method FindEligible(company: string) returns (ids: seq<nat>)
      requires Linked(State())
      ensures ids == EligibleIds(State(), company)
    {
      ids := [];
      for i := 0 to |installments|
        invariant ids == EligibleBelow(State(), company, i)
      {
        if installments[i].status == Paid && !Settled(lines, i)
           && contracts[installments[i].contract].company == Some(company) {
          ids := ids + [i];
        }
      }
    }

    method LinesAndTotal(ids: seq<nat>) returns (added: seq<SettlementLine>, total: Money)
      requires forall k :: 0 <= k < |ids| ==> ids[k] < |installments|
      ensures added == LinesFor(State(), |settlements|, ids)
      ensures total == NetOf(added)
    {
      added, total := [], 0.0;
      for k := 0 to |ids|
        invariant added == LinesFor(State(), |settlements|, ids)[..k]
        invariant total == NetOf(added)
      {
        var i := ids[k];
        var latest := LatestSuccess(payments, i);
        var deducted := if latest.Some? then CommissionTotal(commissions, latest.value) else 0.0;
        var line := SettlementLine(
          |settlements|, i, installments[i].amount, deducted, installments[i].amount - deducted);
        assert line == LinesFor(State(), |settlements|, ids)[k];
        assert (added + [line])[..k] == added;
        added := added + [line];
        total := total + line.net;
      }
    }

    /** The transaction of a generation: its settlement and lines, or neither when an instalment has got a line. */
    method WriteSettlement(company: string, added: seq<SettlementLine>, total: Money) returns (created: Option<nat>)
      requires total == NetOf(added)
      modifies this`settlements, this`lines
      ensures State() == WriteGeneration(old(State()), company, added)
      ensures created == if LinesTaken(old(lines), added) then None else Some(|old(settlements)|)
    {
      if LinesTaken(lines, added) {
        return None;
      }
      var id := |settlements|;
      settlements := settlements + [Settlement(company, total, Generated, None, false, 0, false)];
      lines := lines + Numbered(added, id);
      settlements := settlements[id := settlements[id].(status := Approved)];
      created := Some(id);
    }

    /** generateForCompany: others act between its reads and its transaction. */
    method GenerateForCompany(company: string, during: seq<Event>) returns (outcome: PipelineGeneration.Generated)
      requires Sound(State())
      modifies this, ledger
      ensures PipelineGeneration.GenerationResult(State(), outcome)
           == PipelineGeneration.GenerateAmid(old(State()), company, during)
    {
      var ids := FindEligible(company);
      if ids == [] {
        return PipelineGeneration.NothingToSettle;
      }
      var added, total := LinesAndTotal(ids);
      if total <= 0.0 {
        return PipelineGeneration.NothingToSettle;
      }
      Interleave(during);
      var created := WriteSettlement(company, added, total);
      outcome := if created.Some? then PipelineGeneration.Created(created.value) else PipelineGeneration.Refused;
    }

    method FindCompanies() returns (companies: seq<string>)
      requires Linked(State())
      ensures companies == PipelineGeneration.CompaniesToSettle(State())
    {
      companies := [];
      for i := 0 to |installments|
        invariant companies == PipelineGeneration.CompaniesBelow(State(), i)
      {
        var company := contracts[installments[i].contract].company;
        if installments[i].status == Paid && !Settled(lines, i)
           && company.Some? && company.value != "" && company.value !in companies {
          companies := companies + [company.value];
        }
      }
    }

    method TakeTurn(company: string, meanwhile: PipelineGeneration.Meanwhile, before: seq<nat>)
        returns (created: seq<nat>, completed: bool)
      requires Sound(State())
      modifies this, ledger
      ensures PipelineGeneration.PassResult(State(), created, completed)
           == PipelineGeneration.Turn(PipelineGeneration.PassResult(old(State()), before, true), company, meanwhile)
    {
      Interleave(meanwhile.before);
      var outcome := GenerateForCompany(company, meanwhile.during);
      created := if outcome.Created? then before + [outcome.id] else before;
      completed := !outcome.Refused?;
    }

    method GenerateEach(companies: seq<string>, others: seq<PipelineGeneration.Meanwhile>)
        returns (created: seq<nat>, completed: bool)
      requires Sound(State())
      modifies this, ledger
      ensures PipelineGeneration.PassResult(State(), created, completed)
           == PipelineGeneration.PassAmid(old(State()), companies, others)
    {
      created, completed := [], true;
      ghost var start := State();
      var k := 0;
      while k < |companies| && completed
        invariant k <= |companies|
        invariant PipelineGeneration.PassResult(State(), created, completed)
               == PipelineGeneration.PassAmid(start, companies[..k], others)
      {
        PipelineGeneration.NextTurn(start, companies[..k], companies[k], others);
        PrefixMore(companies, k);
        created, completed := TakeTurn(companies[k], PipelineGeneration.At(others, k), created);
        k := k + 1;
      }
      PipelineGeneration.PassEnds(start, companies, others, k);
    }

    /**
     generatePendingSettlements: the companies with something to settle, in order, others acting before each one's
     reads and before its transaction; a refused transaction ends the pass.
     */
    method GeneratePendingSettlements(others: seq<PipelineGeneration.Meanwhile>)
        returns (created: seq<nat>, completed: bool)
      requires Sound(State())
      modifies this, ledger
      ensures var companies := PipelineGeneration.CompaniesToSettle(old(State()));
              PipelineGeneration.PassResult(State(), created, completed)
              == PipelineGeneration.PassAmid(old(State()), companies, others)
    {
      var companies := FindCompanies();
      created, completed := GenerateEach(companies, others);
    }

    // ---- Transfers ----

    method WriteQueued(s: nat)
      requires s < |settlements|
      modifies this`settlements
      ensures State() == WriteTransfer(old(State()), Queueing(s), 0)
    {
      var row := settlements[s];
      settlements := settlements[s := row.(
        status := TransferInitiated, everInitiated := true, initiations := row.initiations + 1)];
      assert posted + [] == posted;
    }

    method WriteRetry(s: nat)
      requires s < |settlements|
      modifies this`settlements
      ensures State() == WriteTransfer(old(State()), Retrying(s), 0)
    {
      var row := settlements[s];
      settlements := settlements[s := row.(
        status := TransferInitiated, transferCode := None, initiations := row.initiations + 1)];
      assert posted + [] == posted;
    }

    /** The transaction of an attempt that has reached the provider. */
    method WriteAttempt(s: nat, initiation: nat, code: nat)
      requires s < |settlements|
      modifies this`settlements, this`posted, ledger
      ensures State() == WriteTransfer(old(State()), Attempting(s, initiation), code)
    {
      var row := settlements[s];
      settlements := settlements[s := row.(transferCode := Some(code))];
      posted := posted + [Sent(s, initiation, row.amount, code)];
      var _ := ledger.RecordTransaction(SentPosting(s, row));
    }

    /** The transaction of a webhook handler. */
    method WriteNotice(s: nat, notice: Notice)
      requires s < |settlements|
      modifies this`settlements, this`posted, ledger
      ensures State() == WriteTransfer(old(State()), Handling(s, notice), 0)
    {
      var row := settlements[s];
      settlements := settlements[s := row.(status := NoticeStatus(notice))];
      posted := posted + TransferLog(row, Handling(s, notice), 0);
      var _ := ledger.RecordTransaction(NoticePosting(notice, s, row));
    }

    method FindQueueable(verified: set<string>) returns (eligible: seq<nat>)
      ensures eligible == QueueableIds(settlements, verified)
    {
      eligible := [];
      for s := 0 to |settlements|
        invariant eligible == QueueableIds(settlements[..s], verified)
      {
        var row := settlements[s];
        assert settlements[..s + 1][..s] == settlements[..s];
        if row.status.Approved? && !row.everInitiated && row.company in verified {
          eligible := eligible + [s];
        }
      }
      assert settlements[..|settlements|] == settlements;
    }

    method QueueOne(s: nat, others: seq<Event>)
      requires Sound(State()) && s < |settlements|
      modifies this, ledger
      ensures State() == QueueTurn(old(State()), s, others)
    {
      RunGrows(State(), others);
      Interleave(others);
      WriteQueued(s);
    }

    method WriteEachQueued(eligible: seq<nat>, others: seq<seq<Event>>) returns (queued: seq<nat>)
      requires Sound(State()) && ValidIds(State(), eligible)
      modifies this, ledger
      ensures queued == eligible
      ensures State() == QueueAmid(old(State()), eligible, others)
    {
      ghost var before := State();
      queued := [];
      for k := 0 to |eligible|
        invariant queued == eligible[..k]
        invariant State() == QueueAmid(before, eligible[..k], others)
      {
        QueueNext(before, eligible, others, k);
        QueueOne(eligible[k], OthersAt(others, k));
        PrefixMore(eligible, k);
        queued := queued + [eligible[k]];
      }
      assert eligible[..|eligible|] == eligible;
    }

    /**
     queueEligibleTransfers; `verified` are the companies with a verified primary bank account, and others act
     before each transaction.
     */
    method QueueEligibleTransfers(verified: set<string>, others: seq<seq<Event>>) returns (queued: seq<nat>)
      requires Sound(State())
      modifies this, ledger
      ensures queued == QueueableIds(old(settlements), verified)
      ensures State() == QueueAmid(old(State()), queued, others)
    {
      var eligible := FindQueueable(verified);
      queued := WriteEachQueued(eligible, others);
    }

    /** One attempt of the settlement transfer job: None is an attempt that fails or crashes before its commit. */
    method AttemptTransfer(s: nat, others: seq<Event>, code: Option<nat>) returns (r: AttemptResult)
      requires Sound(State()) && s < |settlements|
      modifies this, ledger
      ensures var row := old(settlements)[s];
              r == if row.status != TransferInitiated then Skipped
                   else if !row.bankLinked then NoBankAccount
                   else if row.transferCode != None then AlreadySent
                   else if code == None then NotSent
                   else SentWith(code.value)
      ensures if !Attemptable(old(settlements)[s]) then State() == old(State())
              else
                var between := Run(old(State()), others);
                && s < |between.settlements|
                && State() == if code.Some?
                              then WriteTransfer(between, Attempting(s, old(settlements)[s].initiations), code.value)
                              else between
    {
      var row := settlements[s];
      if !row.status.TransferInitiated? {
        return Skipped;
      }
      if !row.bankLinked {
        return NoBankAccount;
      }
      if row.transferCode.Some? {
        return AlreadySent;
      }
      CallFitsLater(State(), others, Attempting(s, row.initiations));
      Interleave(others);
      if code.None? {
        return NotSent;
      }
      WriteAttempt(s, row.initiations, code.value);
      r := SentWith(code.value);
    }

    /** The failed handler once the attempts are used up. */
    method GiveUp(s: nat)
      requires s < |settlements|
      modifies this`settlements
      ensures State() == Put(old(State()), s, old(settlements)[s].(status := TransferFailed))
    {
      settlements := settlements[s := settlements[s].(status := TransferFailed)];
    }

    /** The settlement handlers of transfer.success, transfer.failed and transfer.reversed. */
    method HandleNotice(s: nat, notice: Notice, others: seq<Event>) returns (handled: bool)
      requires Sound(State())
      modifies this, ledger
      ensures handled <==> s < |old(settlements)| && old(settlements)[s].status != NoticeStatus(notice)
      ensures !handled ==> State() == old(State())
      ensures handled ==>
                var between := Run(old(State()), others);
                && s < |between.settlements|
                && State() == WriteTransfer(between, Handling(s, notice), 0)
    {
      if s >= |settlements| || settlements[s].status == NoticeStatus(notice) {
        return false;
      }
      CallFitsLater(State(), others, Handling(s, notice));
      Interleave(others);
      WriteNotice(s, notice);
      handled := true;
    }

    /** retryTransfer */
    method RetryTransfer(s: nat, others: seq<Event>) returns (ok: bool)
      requires Sound(State())
      modifies this, ledger
      ensures ok <==> s < |old(settlements)| && Retryable(old(settlements)[s])
      ensures !ok ==> State() == old(State())
      ensures ok ==>
                var between := Run(old(State()), others);
                && s < |between.settlements|
                && State() == WriteTransfer(between, Retrying(s), 0)
    {
      if s >= |settlements| || (!settlements[s].status.TransferFailed? && !settlements[s].status.TransferReversed?) {
        return false;
      }
      CallFitsLater(State(), others, Retrying(s));
      Interleave(others);
      WriteRetry(s);
      ok := true;
    }
  }
}
