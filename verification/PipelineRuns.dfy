/** MERCHANT_PAYABLE agrees with the operational tables after every step, and so in every run that pays once. */
module PipelineRuns {
  import opened Common
  import opened Ledger
  import opened LedgerProofs
  import opened Installments
  import opened Pipeline
  import opened PipelineRows
  import opened PipelinePostings
  import opened PipelineMoney

  // ---- Steps that leave the unsettled column alone ----

  /** The tables an unsettled net is computed from have not moved. */
  ghost predicate SameNets(db: Db, r: Db) {
    && SameRows(db.installments, r.installments)
    && |r.contracts| == |db.contracts| && ContractsKept(db.contracts, r.contracts)
    && r.payments == db.payments && r.commissions == db.commissions && r.lines == db.lines
  }

  lemma SameNetsKeepColumn(db: Db, r: Db, tenant: Tenant)
    requires Linked(db) && Linked(r) && SameNets(db, r)
    ensures UnsettledColumn(r, tenant) == UnsettledColumn(db, tenant)
  {
    forall i | 0 <= i < |db.installments| ensures UnsettledColumn(r, tenant)[i] == UnsettledColumn(db, tenant)[i] {
      assert SameRow(db.installments[i], r.installments[i]);
    }
  }

  ghost predicate SameMoney(before: seq<Settlement>, after: seq<Settlement>) {
    && |before| == |after|
    && forall s :: 0 <= s < |before| ==> after[s].company == before[s].company && after[s].amount == before[s].amount
  }

  lemma SameNetsKeepLines(db: Db, r: Db)
    requires Linked(db) && Linked(r) && LinesSound(db) && SameNets(db, r) && SameMoney(db.settlements, r.settlements)
    ensures LinesSound(r)
  {
    forall l | 0 <= l < |r.lines| ensures LineSound(r, r.lines[l]) {
      assert LineSound(db, db.lines[l]);
      assert SameRow(db.installments[db.lines[l].installment], r.installments[db.lines[l].installment]);
    }
  }

  /** Same nets, same settlements and log: the same is owed. */
  lemma UntouchedKeepsDue(db: Db, r: Db, tenant: Tenant)
    requires Linked(db) && Linked(r) && SameNets(db, r)
    requires SameMoney(db.settlements, r.settlements) && r.posted == db.posted
    ensures PayableDue(r, tenant) == PayableDue(db, tenant)
  {
    SameNetsKeepColumn(db, r, tenant);
    assert OwedColumn(r, tenant) == OwedColumn(db, tenant);
  }

  /** Every event but an activation, a payment and a generation leaves the nets and the money of settlements alone. */
  predicate LeavesNets(db: Db, event: Event)
    requires Ready(db)
  {
    !event.Activated? && !IsGeneration(db, event) && !IsPayment(db, event)
  }

  lemma ContractEventLeavesNets(db: Db, event: Event)
    requires Linked(db) && IsContractEvent(event)
    ensures var r := StepContract(db, event);
            SameNets(db, r) && r.settlements == db.settlements && r.posted == db.posted
  {
  }

  lemma TransferLeavesNets(db: Db, call: Call, code: nat)
    requires IsTransferCall(call) && call.settlement < |db.settlements|
    ensures var r := WriteTransfer(db, call, code);
            SameNets(db, r) && SameMoney(db.settlements, r.settlements)
  {
  }

  lemma NetsLeft(db: Db, event: Event)
    requires Ready(db) && LeavesNets(db, event)
    ensures var r := Step(db, event);
            SameNets(db, r) && SameMoney(db.settlements, r.settlements)
  {
    if IsContractEvent(event) {
      ContractEventLeavesNets(db, event);
    } else if event.Written? && event.call < |db.calls| && IsTransferCall(db.calls[event.call]) {
      TransferLeavesNets(Advanced(db, event.call), db.calls[event.call], event.code);
    }
  }

  // ---- What is owed follows what is posted ----

  lemma DueAfterActivate(db: Db, contract: Contract, months: nat, firstPaymentDate: int, tenant: Tenant)
    requires ContractRows(db) && MayActivate(contract, months)
    ensures var r := Activate(db, contract, months, firstPaymentDate);
            Linked(r) && PayableDue(r, tenant) == PayableDue(db, tenant)
  {
    var r := Activate(db, contract, months, firstPaymentDate);
    var n := |db.installments|;
    ActivateGrows(db, contract, months, firstPaymentDate);
    var before, after := UnsettledColumn(db, tenant), UnsettledColumn(r, tenant);
    forall i | 0 <= i < n ensures after[i] == before[i] {
      assert r.installments[i] == db.installments[i];
    }
    forall i | n <= i < |after| ensures after[i] == 0.0 {
      ActivatedRow(db, contract, months, firstPaymentDate, i);
    }
    assert after == before + after[n..];
    SumConcat(before, after[n..]);
    SumOfZeros(after[n..]);
    assert OwedColumn(r, tenant) == OwedColumn(db, tenant);
  }

  function ClearedBy(posting: TransferPosting, t: nat): Money {
    if posting.settlement != t then 0.0 else if posting.Sent? then posting.amount else -posting.amount
  }

  lemma ClearedAppend(posted: seq<TransferPosting>, added: TransferPosting, t: nat)
    ensures Cleared(posted + [added], t) == Cleared(posted, t) + ClearedBy(added, t)
  {
    assert (posted + [added])[..|posted|] == posted;
  }

  /** What a transfer call clears of its settlement. */
  function ClearedChange(row: Settlement, call: Call): Money
    requires IsTransferCall(call)
  {
    if call.Attempting? then row.amount
    else if call.Handling? && !call.notice.Succeeded? then -row.amount
    else 0.0
  }

  lemma LogClears(posted: seq<TransferPosting>, row: Settlement, call: Call, code: nat, t: nat)
    requires IsTransferCall(call)
    ensures Cleared(posted + TransferLog(row, call, code), t)
         == Cleared(posted, t) + (if t == call.settlement then ClearedChange(row, call) else 0.0)
  {
    if call.Attempting? {
      ClearedAppend(posted, Sent(call.settlement, call.initiation, row.amount, code), t);
    } else if call.Handling? && !call.notice.Succeeded? {
      ClearedAppend(posted, Returned(call.settlement, row.amount), t);
    } else {
      assert posted + TransferLog(row, call, code) == posted;
    }
  }

  lemma OwedAfterTransfer(db: Db, call: Call, code: nat, tenant: Tenant)
    requires IsTransferCall(call) && call.settlement < |db.settlements|
    ensures var row := db.settlements[call.settlement];
            Sum(OwedColumn(WriteTransfer(db, call, code), tenant))
            == Sum(OwedColumn(db, tenant))
               - (if TenantOf(Some(row.company)) == tenant then ClearedChange(row, call) else 0.0)
  {
    var s := call.settlement;
    var row := db.settlements[s];
    var owed := OwedColumn(db, tenant);
    var rest := if TenantOf(Some(row.company)) == tenant then owed[s] - ClearedChange(row, call) else 0.0;
    var after := OwedColumn(WriteTransfer(db, call, code), tenant);
    forall t | 0 <= t < |owed| ensures after[t] == owed[s := rest][t] {
      LogClears(db.posted, row, call, code, t);
    }
    assert after == owed[s := rest];
    SumUpdate(owed, s, rest);
  }

  /** A transfer moves the payable and what is cleared of its settlement alike. */
  lemma TransferCallKeepsPayable(db: Db, call: Call, code: nat, tenant: Tenant)
    requires Linked(db) && IsTransferCall(call) && call.settlement < |db.settlements|
    ensures var r := WriteTransfer(db, call, code);
            && Linked(r)
            && PayableDue(r, tenant)
               == PayableDue(db, tenant)
                  - NetOn(TransferPostingOf(db.settlements[call.settlement], call), PAYABLE, tenant)
  {
    TransferMoves(db.settlements[call.settlement], call, PAYABLE, tenant);
    TransferLeavesNets(db, call, code);
    SameNetsKeepColumn(db, WriteTransfer(db, call, code), tenant);
    OwedAfterTransfer(db, call, code, tenant);
  }

  // ---- Every step ----

  /** An instalment is still unpaid when its payment is written. */
  predicate PaysOnce(db: Db, event: Event)
    requires Ready(db)
  {
    IsPayment(db, event) ==> db.installments[db.calls[event.call].installment].status != Paid
  }

  predicate PaysHarmlessly(db: Db, event: Event)
    requires Ready(db)
  {
    IsPayment(db, event) ==>
      assert CallFits(db, db.calls[event.call]);
      HarmlessPayment(db, db.calls[event.call].installment, db.calls[event.call].contract)
  }

  predicate GeneratesHarmlessly(db: Db, event: Event)
    requires Ready(db)
  {
    IsGeneration(db, event) ==>
      assert CallFits(db, db.calls[event.call]);
      assert forall k :: 0 <= k < |db.calls[event.call].lines| ==>
          LineFits(db, db.calls[event.call].company, db.calls[event.call].lines[k]);
      HarmlessGeneration(db, db.calls[event.call].lines)
  }

  /** A payment job whose key is taken, a refused generation and a call that has ended write nothing. */
  lemma NothingWritten(db: Db, k: nat, code: nat)
    requires Ready(db) && k < |db.calls| && !IsTransferCall(db.calls[k])
    requires !IsPayment(db, Written(k, code)) && !IsGeneration(db, Written(k, code))
    ensures Step(db, Written(k, code)) == Advanced(db, k) && PostingOf(db, Written(k, code)) == None
  {
    assert CallFits(db, db.calls[k]);
  }

  lemma WrittenKeepsDue(db: Db, k: nat, code: nat, tenant: Tenant)
    requires Sound(db) && k < |db.calls| && !IsPayment(db, Written(k, code)) && !IsGeneration(db, Written(k, code))
    ensures var r := Step(db, Written(k, code));
            && Linked(r)
            && PayableDue(r, tenant) == PayableDue(db, tenant) - NetOn(PostingOf(db, Written(k, code)), PAYABLE, tenant)
  {
    var call := db.calls[k];
    var before := Advanced(db, k);
    AdvancedKeepsSound(db, k);
    UntouchedKeepsDue(db, before, tenant);
    if IsTransferCall(call) {
      TransferCallKeepsPayable(before, call, code, tenant);
    } else {
      NothingWritten(db, k, code);
    }
  }

  /** Of all events but payments and generations: what is owed moves as MERCHANT_PAYABLE is posted to. */
  lemma StepKeepsDue(db: Db, event: Event, tenant: Tenant)
    requires Sound(db) && PostedRows(db) && !IsPayment(db, event) && !IsGeneration(db, event)
    ensures Linked(Step(db, event))
    ensures PayableDue(Step(db, event), tenant) == PayableDue(db, tenant) - NetOn(PostingOf(db, event), PAYABLE, tenant)
  {
    StepGrows(db, event);
    if event.Written? {
      if event.call < |db.calls| {
        WrittenKeepsDue(db, event.call, event.code, tenant);
      }
    } else {
      OtherEventMoves(db, event, PAYABLE, tenant);
      if event.Activated? {
        if MayActivate(event.contract, event.months) {
          DueAfterActivate(db, event.contract, event.months, event.firstPaymentDate, tenant);
        }
      } else {
        NetsLeft(db, event);
        StepBooks(db, event);
        UntouchedKeepsDue(db, Step(db, event), tenant);
      }
    }
  }

  lemma PaymentKeepsPayableExactlyWhenHarmless(db: Db, event: Event)
    requires Sound(db) && PayableAgrees(db) && IsPayment(db, event)
    ensures Linked(Step(db, event))
    ensures PayableAgrees(Step(db, event)) <==> PaysHarmlessly(db, event)
  {
    var call := db.calls[event.call];
    var before := Advanced(db, event.call);
    AdvancedKeepsSound(db, event.call);
    forall tenant: Tenant ensures PayableDue(before, tenant) == PayableDue(db, tenant) {
      UntouchedKeepsDue(db, before, tenant);
    }
    PaymentStep(db, event);
    PayKeepsPayableExactlyWhenHarmless(before, call.installment, call.key, call.contract);
    assert Net(before, call.installment) == Net(db, call.installment);
  }

  lemma GenerationKeepsPayable(db: Db, event: Event)
    requires Sound(db) && PostedRows(db) && PayableAgrees(db) && IsGeneration(db, event)
    ensures Linked(Step(db, event))
    ensures PayableAgrees(Step(db, event)) <==> GeneratesHarmlessly(db, event)
  {
    var call := db.calls[event.call];
    var before := Advanced(db, event.call);
    AdvancedKeepsSound(db, event.call);
    StepGrows(db, event);
    forall tenant: Tenant ensures PayableDue(before, tenant) == PayableDue(db, tenant) {
      UntouchedKeepsDue(db, before, tenant);
    }
    GenerationStep(db, event);
    GenerationKeepsPayableExactlyWhenHarmless(before, call.company, call.lines);
    SameNetTotal(Renewed(before, call.lines), Renewed(db, call.lines));
  }

  /**
   Of all events only a payment of an instalment that is paid already, and a generation whose instalments were
   paid again since it read them, can part MERCHANT_PAYABLE from the tables.  A payment does so exactly when the
   instalment counts for something already, a generation exactly when its instalments come to something else now.
   */
  lemma StepKeepsPayableExactlyWhenHarmless(db: Db, event: Event)
    requires Sound(db) && PostedRows(db) && PayableAgrees(db)
    ensures Linked(Step(db, event))
    ensures PayableAgrees(Step(db, event)) <==> PaysHarmlessly(db, event) && GeneratesHarmlessly(db, event)
  {
    if IsPayment(db, event) {
      PaymentKeepsPayableExactlyWhenHarmless(db, event);
    } else if IsGeneration(db, event) {
      GenerationKeepsPayable(db, event);
    } else {
      OthersKeepPayable(db, event);
    }
  }

  lemma OthersKeepPayable(db: Db, event: Event)
    requires Sound(db) && PostedRows(db) && PayableAgrees(db) && !IsPayment(db, event) && !IsGeneration(db, event)
    ensures Linked(Step(db, event)) && PayableAgrees(Step(db, event))
  {
    StepStoredAs(db, event, PAYABLE);
    StepGrows(db, event);
    forall tenant: Tenant
      ensures Position(Step(db, event).books, PAYABLE, tenant) == -PayableDue(Step(db, event), tenant)
    {
      StepKeepsDue(db, event, tenant);
      StepMoves(db, event, PAYABLE, tenant);
    }
  }

  lemma StepKeepsPostedRows(db: Db, event: Event)
    requires ContractRows(db) && PostedRows(db)
    ensures PostedRows(Step(db, event))
  {
    StepBooks(db, event);
    StepGrows(db, event);
  }

  lemma PaidOnceKeepsLines(db: Db, event: Event)
    requires Sound(db) && LinesSound(db) && IsPayment(db, event) && PaysOnce(db, event)
    ensures Linked(Step(db, event)) && LinesSound(Step(db, event))
    ensures PaysHarmlessly(db, event)
  {
    var call := db.calls[event.call];
    var before := Advanced(db, event.call);
    AdvancedKeepsSound(db, event.call);
    SameNetsKeepLines(db, before);
    PaymentStep(db, event);
    PayKeepsLines(before, call.installment, call.key, call.contract);
    UnpaidIsHarmless(db, call.installment, call.contract);
  }

  lemma ActivateKeepsLines(db: Db, contract: Contract, months: nat, firstPaymentDate: int)
    requires ContractRows(db) && LinesSound(db) && MayActivate(contract, months)
    ensures var r := Activate(db, contract, months, firstPaymentDate);
            Linked(r) && LinesSound(r)
  {
    var r := Activate(db, contract, months, firstPaymentDate);
    ActivateGrows(db, contract, months, firstPaymentDate);
    forall l | 0 <= l < |r.lines| ensures LineSound(r, r.lines[l]) {
      assert LineSound(db, db.lines[l]);
      assert r.installments[db.lines[l].installment] == db.installments[db.lines[l].installment];
    }
  }

  // ---- Generations under way ----

  /** What generations under way have read of their instalments is still the case. */
  predicate GenerationsCurrent(db: Db) {
    forall k :: 0 <= k < |db.calls| && db.calls[k].Generating? ==> LinesCurrent(db, db.calls[k].lines)
  }

  lemma SameDeductions(db: Db, r: Db, lines: seq<SettlementLine>)
    requires LinesCurrent(db, lines) && r.payments == db.payments && r.commissions == db.commissions
    ensures LinesCurrent(r, lines)
  {
    assert forall k :: 0 <= k < |lines| ==> Deducted(r, lines[k].installment) == Deducted(db, lines[k].installment);
  }

  /** A payment of an unpaid instalment is of none that a generation has read. */
  lemma PaidOnceKeepsCurrent(db: Db, i: nat, key: nat, contract: Contract, company: string, lines: seq<SettlementLine>)
    requires Linked(db) && PaymentRows(db) && i < |db.installments| && db.installments[i].status != Paid
    requires LinesFit(db, company, lines) && LinesCurrent(db, lines)
    ensures LinesCurrent(Pay(db, i, key, contract), lines)
  {
    forall k | 0 <= k < |lines|
      ensures lines[k].commission == Deducted(Pay(db, i, key, contract), lines[k].installment)
    {
      assert LineFits(db, company, lines[k]);
      DeductedAfterPay(db, i, key, contract, lines[k].installment);
    }
  }

  lemma StaysCurrent(db: Db, event: Event, company: string, lines: seq<SettlementLine>)
    requires Sound(db) && PaysOnce(db, event) && LinesFit(db, company, lines) && LinesCurrent(db, lines)
    ensures LinesCurrent(Step(db, event), lines)
  {
    if IsPayment(db, event) {
      var call := db.calls[event.call];
      var before := Advanced(db, event.call);
      AdvancedKeepsSound(db, event.call);
      PaymentStep(db, event);
      SameDeductions(db, before, lines);
      LinesStillFit(db, before, company, lines);
      PaidOnceKeepsCurrent(before, call.installment, call.key, call.contract, company, lines);
    } else {
      OthersPayNothing(db, event);
      SameDeductions(db, Step(db, event), lines);
    }
  }

  /** Checks add a call, writes end one, and nothing else touches them. */
  lemma CallsAfter(db: Db, event: Event)
    requires Ready(db)
    ensures Step(db, event).calls
         == if IsCheck(event) then Remember(db, Checked(db, event)).calls
            else if event.Written? && event.call < |db.calls| then Advanced(db, event.call).calls
            else db.calls
  {
  }

  lemma StepKeepsCurrent(db: Db, event: Event)
    requires Sound(db) && PaysOnce(db, event) && GenerationsCurrent(db)
    ensures GenerationsCurrent(Step(db, event))
  {
    var r := Step(db, event);
    CallsAfter(db, event);
    forall k | 0 <= k < |r.calls| && r.calls[k].Generating? ensures LinesCurrent(r, r.calls[k].lines) {
      if k < |db.calls| {
        assert r.calls[k] == db.calls[k] && CallFits(db, db.calls[k]);
        StaysCurrent(db, event, db.calls[k].company, db.calls[k].lines);
      } else {
        CheckedFits(db, event);
        StaysCurrent(db, event, event.company, r.calls[k].lines);
      }
    }
  }

  lemma GenerationStepKeepsLines(db: Db, event: Event)
    requires Sound(db) && LinesSound(db) && GenerationsCurrent(db) && IsGeneration(db, event)
    ensures Linked(Step(db, event)) && LinesSound(Step(db, event))
    ensures GeneratesHarmlessly(db, event)
  {
    var call := db.calls[event.call];
    var before := Advanced(db, event.call);
    AdvancedKeepsSound(db, event.call);
    SameNetsKeepLines(db, before);
    GenerationStep(db, event);
    SameDeductions(db, before, call.lines);
    GenerationKeepsLines(before, call.company, call.lines);
    CurrentIsHarmless(db, call.company, call.lines);
  }

  lemma StepKeepsLines(db: Db, event: Event)
    requires Sound(db) && LinesSound(db) && GenerationsCurrent(db) && PaysOnce(db, event)
    ensures Linked(Step(db, event)) && LinesSound(Step(db, event))
  {
    StepGrows(db, event);
    if event.Activated? {
      if MayActivate(event.contract, event.months) {
        ActivateKeepsLines(db, event.contract, event.months, event.firstPaymentDate);
      }
    } else if IsGeneration(db, event) {
      GenerationStepKeepsLines(db, event);
    } else if IsPayment(db, event) {
      PaidOnceKeepsLines(db, event);
    } else {
      NetsLeft(db, event);
      SameNetsKeepLines(db, Step(db, event));
    }
  }

  /** What runs that pay every instalment once keep. */
  ghost predicate Kept(db: Db) {
    Sound(db) && PostedRows(db) && LinesSound(db) && GenerationsCurrent(db) && PayableAgrees(db)
  }

  lemma StepKeepsKept(db: Db, event: Event)
    requires Kept(db) && PaysOnce(db, event)
    ensures Kept(Step(db, event))
  {
    StepKeepsSound(db, event);
    StepKeepsPostedRows(db, event);
    StepKeepsLines(db, event);
    StepKeepsCurrent(db, event);
    if IsPayment(db, event) {
      PaidOnceKeepsLines(db, event);
    } else if IsGeneration(db, event) {
      GenerationStepKeepsLines(db, event);
    }
    StepKeepsPayableExactlyWhenHarmless(db, event);
  }

  // ---- No instalment is settled twice ----

  lemma StepSettlesEachOnce(db: Db, event: Event)
    requires Ready(db) && EachOnce(db.lines)
    ensures EachOnce(Step(db, event).lines)
  {
    if IsGeneration(db, event) {
      var call := db.calls[event.call];
      GenerationStep(db, event);
      GeneratedLinesAreNew(db.lines, call.lines, |db.settlements|);
    } else if LeavesNets(db, event) {
      NetsLeft(db, event);
    }
  }

  /** In every run, however generations overlap and payments repeat: no instalment gets a second line. */
  lemma {:induction false} EachSettledOnceInEveryRun(events: seq<Event>)
    ensures EachOnce(Run(EMPTY_DB, events).lines)
  {
    if events != [] {
      var n := |events| - 1;
      EachSettledOnceInEveryRun(events[..n]);
      StepSettlesEachOnce(Run(EMPTY_DB, events[..n]), events[n]);
    }
  }

  ghost predicate StaysTaken(db: Db, r: Db) {
    forall i :: Settled(db.lines, i) ==> Settled(r.lines, i)
  }

  lemma StepStaysTaken(db: Db, event: Event)
    requires Ready(db)
    ensures StaysTaken(db, Step(db, event))
  {
    var r := Step(db, event);
    if IsGeneration(db, event) {
      GenerationStep(db, event);
    } else if LeavesNets(db, event) {
      NetsLeft(db, event);
    }
    assert |db.lines| <= |r.lines| && forall l :: 0 <= l < |db.lines| ==> r.lines[l] == db.lines[l];
    forall i | Settled(db.lines, i) ensures Settled(r.lines, i) {
      var l :| 0 <= l < |db.lines| && db.lines[l].installment == i;
      assert r.lines[l].installment == i;
    }
  }

  lemma {:induction false} RunStaysTaken(db: Db, events: seq<Event>)
    requires Sound(db)
    ensures StaysTaken(db, Run(db, events))
  {
    if events != [] {
      var n := |events| - 1;
      RunStaysTaken(db, events[..n]);
      StepStaysTaken(Run(db, events[..n]), events[n]);
    }
  }

  lemma GenerationTakes(db: Db, event: Event, i: nat)
    requires Ready(db) && IsGeneration(db, event) && i in InstallmentsOf(db.calls[event.call].lines)
    ensures Settled(Step(db, event).lines, i)
  {
    GenerationStep(db, event);
    LinesMentionExactly(db.lines, db.calls[event.call].lines, |db.settlements|, i);
  }

  lemma TakenIsRefused(db: Db, k: nat, code: nat, i: nat)
    requires Ready(db) && k < |db.calls| && db.calls[k].Generating?
    requires i in InstallmentsOf(db.calls[k].lines) && Settled(db.lines, i)
    ensures Step(db, Written(k, code)) == Advanced(db, k)
  {
    var lines := db.calls[k].lines;
    var l :| 0 <= l < |lines| && InstallmentsOf(lines)[l] == i;
    assert Settled(Advanced(db, k).lines, lines[l].installment);
  }

  /**
   Two generations that have read one instalment: once the one has written, the other is refused whenever its
   transaction comes, and changes nothing.
   */
  lemma OverlappingGenerationIsRefused(db: Db, first: Event, others: seq<Event>, second: nat, code: nat, i: nat)
    requires Sound(db) && IsGeneration(db, first) && i in InstallmentsOf(db.calls[first.call].lines)
    ensures Sound(Step(db, first))
    ensures var r := Run(Step(db, first), others);
            second < |r.calls| && r.calls[second].Generating? && i in InstallmentsOf(r.calls[second].lines) ==>
              Step(r, Written(second, code)) == Advanced(r, second)
  {
    StepKeepsSound(db, first);
    GenerationTakes(db, first, i);
    RunStaysTaken(Step(db, first), others);
    var r := Run(Step(db, first), others);
    if second < |r.calls| && r.calls[second].Generating? && i in InstallmentsOf(r.calls[second].lines) {
      TakenIsRefused(r, second, code, i);
    }
  }

  predicate AllPayOnce(db: Db, events: seq<Event>)
    requires Sound(db)
  {
    events == [] ||
    (AllPayOnce(db, events[..|events| - 1]) && PaysOnce(Run(db, events[..|events| - 1]), events[|events| - 1]))
  }

  lemma LiabilityPosition(books: Books, name: string, tenant: Tenant)
    requires StoredAs(books, name, Liability)
    ensures StoredBalance(books, name, tenant) == -Position(books, name, tenant)
  {
  }

  lemma {:induction false} RunKeepsKept(db: Db, events: seq<Event>)
    requires Kept(db) && AllPayOnce(db, events)
    ensures Kept(Run(db, events))
  {
    if events != [] {
      var n := |events| - 1;
      RunKeepsKept(db, events[..n]);
      StepKeepsKept(Run(db, events[..n]), events[n]);
    }
  }

  /** Rows, lines and the payable are kept by every run whose payment jobs find their instalment still unpaid. */
  lemma KeptInEveryRun(events: seq<Event>)
    requires AllPayOnce(EMPTY_DB, events)
    ensures Kept(Run(EMPTY_DB, events))
  {
    EmptyIsKept();
    RunKeepsKept(EMPTY_DB, events);
  }

  /**
   In every run whose payment jobs find their instalment still unpaid, whatever is settled, sent, confirmed, failed
   or reversed and in whatever order: the balance of each tenant's MERCHANT_PAYABLE is the net of its paid
   instalments without a line plus what is not cleared of its settlements.
   */
  lemma PayableAgreesInEveryRun(events: seq<Event>, tenant: Tenant) returns (db: Db)
    requires AllPayOnce(EMPTY_DB, events)
    ensures db == Run(EMPTY_DB, events)
    ensures StoredBalance(db.books, PAYABLE, tenant)
         == Sum(UnsettledColumn(db, tenant)) + Sum(OwedColumn(db, tenant))
  {
    db := Run(EMPTY_DB, events);
    KeptInEveryRun(events);
    KeptPayable(db, tenant);
  }

  lemma KeptPayable(db: Db, tenant: Tenant)
    requires Kept(db)
    ensures StoredBalance(db.books, PAYABLE, tenant)
         == Sum(UnsettledColumn(db, tenant)) + Sum(OwedColumn(db, tenant))
  {
    LiabilityPosition(db.books, PAYABLE, tenant);
  }

  lemma EmptyIsKept()
    ensures Kept(EMPTY_DB)
  {
  }
}
