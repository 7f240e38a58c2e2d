/** The rows every run keeps consistent, and the order in which instalments are paid. */
module PipelineRows {
  import opened Installments
  import opened Eligibility
  import opened Pipeline

  ghost predicate ContractRows(db: Db) {
    && Ready(db)
    && UniqueKeys(db.installments)
    && (forall i :: 0 <= i < |db.installments| ==> db.installments[i].amount >= 0.0)
    && (forall c :: 0 <= c < |db.contracts| ==> ValidRate(db.contracts[c].commissionRate))
    && (forall i :: i in db.targets ==> i < |db.installments|)
  }

  /** Nothing creates a payment that is not successful, only paid instalments have one, and commissions are for one. */
  ghost predicate PaymentRows(db: Db) {
    && (forall k :: 0 <= k < |db.payments| ==>
          db.payments[k].status.PaymentSuccess? && db.payments[k].installment < |db.installments|
          && db.installments[db.payments[k].installment].status == Paid)
    && (forall k :: 0 <= k < |db.commissions| ==> db.commissions[k].payment < |db.payments|)
  }

  ghost predicate Sound(db: Db) {
    ContractRows(db) && PaymentRows(db)
  }

  // ---- Rows are only added ----

  /** An instalment keeps all but its status, and once paid it is paid. */
  ghost predicate InstallmentsKept(before: seq<Installment>, after: seq<Installment>) {
    && |before| <= |after|
    && forall i :: 0 <= i < |before| ==>
         && after[i] == before[i].(status := after[i].status)
         && (before[i].status == Paid ==> after[i].status == Paid)
  }

  ghost predicate ContractsKept(before: seq<Contract>, after: seq<Contract>) {
    && |before| <= |after|
    && forall c :: 0 <= c < |before| ==>
         after[c].company == before[c].company && after[c].totalFinanced == before[c].totalFinanced
  }

  ghost predicate Grows(db: Db, r: Db) {
    && InstallmentsKept(db.installments, r.installments)
    && ContractsKept(db.contracts, r.contracts)
    && |db.settlements| <= |r.settlements|
  }

  lemma ContractEventGrows(db: Db, event: Event)
    requires Linked(db) && IsContractEvent(event)
    ensures Grows(db, StepContract(db, event)) && Linked(StepContract(db, event))
    ensures |StepContract(db, event).installments| == |db.installments|
  {
  }

  lemma ActivateGrows(db: Db, contract: Contract, months: nat, firstPaymentDate: int)
    requires Linked(db) && months > 0
    ensures var r := Activate(db, contract, months, firstPaymentDate);
            Grows(db, r) && Linked(r)
  {
  }

  lemma WriteGrows(db: Db, call: Call, code: nat)
    requires Linked(db) && CallFits(db, call)
    ensures Grows(db, WriteCall(db, call, code)) && Linked(WriteCall(db, call, code))
    ensures WriteCall(db, call, code).calls == db.calls
  {
  }

  lemma StepGrows(db: Db, event: Event)
    requires Ready(db)
    ensures Grows(db, Step(db, event)) && Linked(Step(db, event))
  {
    if IsContractEvent(event) {
      ContractEventGrows(db, event);
    } else if event.Activated? {
      if MayActivate(event.contract, event.months) {
        ActivateGrows(db, event.contract, event.months, event.firstPaymentDate);
      }
    } else if event.Written? && event.call < |db.calls| {
      WriteGrows(Advanced(db, event.call), db.calls[event.call], event.code);
    }
  }

  lemma LinesStillFit(db: Db, r: Db, company: string, lines: seq<SettlementLine>)
    requires Linked(db) && Linked(r) && LinesFit(db, company, lines) && Grows(db, r)
    ensures LinesFit(r, company, lines)
  {
    forall k | 0 <= k < |lines| ensures LineFits(r, company, lines[k]) {
      assert LineFits(db, company, lines[k]);
      var i := lines[k].installment;
      assert r.installments[i] == db.installments[i].(status := r.installments[i].status);
    }
  }

  lemma CallStillFits(db: Db, r: Db, call: Call)
    requires Linked(db) && Linked(r) && CallFits(db, call) && Grows(db, r)
    ensures CallFits(r, call)
  {
    if call.Generating? {
      LinesStillFit(db, r, call.company, call.lines);
    }
  }

  /** The lines of a company's eligible instalments are of distinct paid instalments of it. */
  lemma ComputedLinesFit(db: Db, company: string)
    requires Linked(db) && WorthSettling(db, company)
    ensures LinesFit(db, company, LinesFor(db, |db.settlements|, EligibleIds(db, company)))
  {
    var ids := EligibleIds(db, company);
    var lines := LinesFor(db, |db.settlements|, ids);
    forall k | 0 <= k < |lines| ensures LineFits(db, company, lines[k]) {
      assert ToSettle(db, company, ids[k]);
    }
  }

  lemma CheckedFits(db: Db, event: Event)
    requires ContractRows(db) && IsCheck(event)
    ensures CallFits(db, Checked(db, event))
  {
    if event.GenerationChecked? && WorthSettling(db, event.company) {
      ComputedLinesFit(db, event.company);
    }
  }

  lemma StepKeepsReady(db: Db, event: Event)
    requires ContractRows(db)
    ensures Ready(Step(db, event))
  {
    var r := Step(db, event);
    StepGrows(db, event);
    if IsCheck(event) {
      CheckedFits(db, event);
    } else if event.Written? && event.call < |db.calls| {
      WriteGrows(Advanced(db, event.call), db.calls[event.call], event.code);
    }
    forall k | 0 <= k < |r.calls| ensures CallFits(r, r.calls[k]) {
      if k < |db.calls| {
        CallStillFits(db, r, db.calls[k]);
      }
    }
  }

  // ---- Instalments and contracts ----

  lemma SharesNotNegative(base: nat, remainder: nat, months: nat, i: nat)
    requires i < months
    ensures Shares(base, remainder, months)[i] >= 0.0
  {
    var cents := if i == months - 1 then base + remainder else base;
    assert Shares(base, remainder, months)[i] == Amount(cents);
    assert cents as real >= 0.0;
  }

  lemma ActivatedRow(db: Db, contract: Contract, months: nat, firstPaymentDate: int, i: nat)
    requires MayActivate(contract, months)
    requires |db.installments| <= i < |Activate(db, contract, months, firstPaymentDate).installments|
    ensures var row := Activate(db, contract, months, firstPaymentDate).installments[i];
            && row.contract == |db.contracts| && row.sequence == i - |db.installments| + 1
            && row.amount >= 0.0 && row.status == Pending && row.id == i
  {
    var totalInCents := Cents(contract.totalFinanced);
    SharesNotNegative(totalInCents / months, totalInCents % months, months, i - |db.installments|);
  }

  lemma ActivateKeepsKeys(db: Db, contract: Contract, months: nat, firstPaymentDate: int)
    requires ContractRows(db) && MayActivate(contract, months)
    ensures UniqueKeys(Activate(db, contract, months, firstPaymentDate).installments)
  {
    var rows := Activate(db, contract, months, firstPaymentDate).installments;
    forall i, j | 0 <= i < j < |rows|
      ensures rows[i].id != rows[j].id
      ensures rows[i].contract == rows[j].contract ==> rows[i].sequence != rows[j].sequence
    {
      if i >= |db.installments| {
        ActivatedRow(db, contract, months, firstPaymentDate, i);
      } else {
        assert rows[i] == db.installments[i];
      }
      if j >= |db.installments| {
        ActivatedRow(db, contract, months, firstPaymentDate, j);
      } else {
        assert rows[j] == db.installments[j];
      }
    }
  }

  lemma ActivateKeepsAmounts(db: Db, contract: Contract, months: nat, firstPaymentDate: int)
    requires ContractRows(db) && MayActivate(contract, months)
    ensures var rows := Activate(db, contract, months, firstPaymentDate).installments;
            forall i :: 0 <= i < |rows| ==> rows[i].amount >= 0.0
  {
    var rows := Activate(db, contract, months, firstPaymentDate).installments;
    forall i | 0 <= i < |rows| ensures rows[i].amount >= 0.0 {
      if i >= |db.installments| {
        ActivatedRow(db, contract, months, firstPaymentDate, i);
      } else {
        assert rows[i] == db.installments[i];
      }
    }
  }

  lemma StatusesKeepKeys(before: seq<Installment>, after: seq<Installment>)
    requires UniqueKeys(before) && InstallmentsKept(before, after) && |after| == |before|
    ensures UniqueKeys(after)
  {
    forall i, j | 0 <= i < j < |after|
      ensures after[i].id != after[j].id
      ensures after[i].contract == after[j].contract ==> after[i].sequence != after[j].sequence
    {
      assert before[i].id != before[j].id;
    }
  }

  /** All but the amounts and keys of a new schedule. */
  lemma StepKeepsRates(db: Db, event: Event)
    requires ContractRows(db)
    ensures var r := Step(db, event);
            && (forall c :: 0 <= c < |r.contracts| ==> ValidRate(r.contracts[c].commissionRate))
            && (forall i :: i in r.targets ==> i < |r.installments|)
  {
    StepGrows(db, event);
  }

  lemma SameCount(db: Db, event: Event)
    requires Ready(db) && !event.Activated?
    ensures |Step(db, event).installments| == |db.installments|
    ensures |Step(db, event).contracts| == |db.contracts|
  {
  }

  lemma StepKeepsContractRows(db: Db, event: Event)
    requires ContractRows(db)
    ensures ContractRows(Step(db, event))
  {
    StepKeepsReady(db, event);
    StepKeepsRates(db, event);
    if !event.Activated? {
      StepGrows(db, event);
      SameCount(db, event);
      StatusesKeepKeys(db.installments, Step(db, event).installments);
    } else if MayActivate(event.contract, event.months) {
      ActivateKeepsKeys(db, event.contract, event.months, event.firstPaymentDate);
      ActivateKeepsAmounts(db, event.contract, event.months, event.firstPaymentDate);
    }
  }

  // ---- Payments ----

  /** Every payment of the table is successful, so a committing job adds one. */
  lemma JobAddsPayment(db: Db, i: nat, key: nat)
    requires PaymentRows(db)
    ensures FindPending(db.payments, i, key) == |db.payments|
  {
  }

  lemma PayKeepsPaymentRows(db: Db, i: nat, key: nat, contract: Contract)
    requires Linked(db) && PaymentRows(db) && i < |db.installments|
    ensures PaymentRows(Pay(db, i, key, contract))
  {
    JobAddsPayment(db, i, key);
  }

  lemma KeptPaymentRows(db: Db, r: Db)
    requires PaymentRows(db) && r.payments == db.payments && r.commissions == db.commissions
    requires InstallmentsKept(db.installments, r.installments)
    ensures PaymentRows(r)
  {
  }

  /** The call of this event, if it is a committing payment job. */
  predicate IsPayment(db: Db, event: Event)
    requires Ready(db)
  {
    && event.Written? && event.call < |db.calls| && db.calls[event.call].Paying?
    && JobCommits(db, db.calls[event.call].installment, db.calls[event.call].key)
  }

  lemma PaymentStep(db: Db, event: Event)
    requires Ready(db) && IsPayment(db, event)
    ensures var call := db.calls[event.call];
            Step(db, event) == Pay(Advanced(db, event.call), call.installment, call.key, call.contract)
  {
  }

  /** The call of this event, if it is a generation that is not refused. */
  predicate IsGeneration(db: Db, event: Event) {
    && event.Written? && event.call < |db.calls| && db.calls[event.call].Generating?
    && !LinesTaken(db.lines, db.calls[event.call].lines)
  }

  lemma GenerationStep(db: Db, event: Event)
    requires Ready(db) && IsGeneration(db, event)
    ensures var call := db.calls[event.call];
            CallFits(db, call) && Step(db, event) == WriteGeneration(Advanced(db, event.call), call.company, call.lines)
  {
    assert CallFits(db, db.calls[event.call]);
  }

  lemma OthersPayNothing(db: Db, event: Event)
    requires Ready(db) && !IsPayment(db, event)
    ensures Step(db, event).payments == db.payments && Step(db, event).commissions == db.commissions
  {
  }

  lemma StepKeepsSound(db: Db, event: Event)
    requires Sound(db)
    ensures Sound(Step(db, event))
  {
    StepKeepsContractRows(db, event);
    if IsPayment(db, event) {
      var call := db.calls[event.call];
      PaymentStep(db, event);
      PayKeepsPaymentRows(Advanced(db, event.call), call.installment, call.key, call.contract);
    } else {
      OthersPayNothing(db, event);
      StepGrows(db, event);
      KeptPaymentRows(db, Step(db, event));
    }
  }

  lemma AdvancedKeepsSound(db: Db, k: nat)
    requires Sound(db) && k < |db.calls|
    ensures Sound(Advanced(db, k)) && CallFits(Advanced(db, k), db.calls[k])
  {
    assert CallFits(db, db.calls[k]);
  }

  /** Every run from sound tables stays sound, whatever jobs, schedulers and webhooks do between each other's steps. */
  function Run(db: Db, events: seq<Event>): (r: Db)
    requires Sound(db)
    ensures Sound(r)
  {
    if events == [] then db
    else
      var n := |events| - 1;
      StepKeepsSound(Run(db, events[..n]), events[n]);
      Step(Run(db, events[..n]), events[n])
  }

  lemma RunMore(db: Db, events: seq<Event>, event: Event)
    requires Sound(db)
    ensures Run(db, events + [event]) == Step(Run(db, events), event)
  {
    assert (events + [event])[..|events|] == events;
  }

  lemma RunNext(db: Db, events: seq<Event>, k: nat)
    requires Sound(db) && k < |events|
    ensures Run(db, events[..k + 1]) == Step(Run(db, events[..k]), events[k])
  {
    assert events[..k + 1] == events[..k] + [events[k]];
    RunMore(db, events[..k], events[k]);
  }

  lemma GrowsTwice(a: Db, b: Db, c: Db)
    requires Grows(a, b) && Grows(b, c)
    ensures Grows(a, c)
  {
    forall i | 0 <= i < |a.installments|
      ensures c.installments[i] == a.installments[i].(status := c.installments[i].status)
      ensures a.installments[i].status == Paid ==> c.installments[i].status == Paid
    {
      assert b.installments[i] == a.installments[i].(status := b.installments[i].status);
    }
    assert forall k :: 0 <= k < |a.contracts| ==> b.contracts[k].company == a.contracts[k].company;
  }

  lemma {:induction false} RunGrows(db: Db, events: seq<Event>)
    requires Sound(db)
    ensures Grows(db, Run(db, events))
  {
    if events != [] {
      var n := |events| - 1;
      RunGrows(db, events[..n]);
      StepGrows(Run(db, events[..n]), events[n]);
      GrowsTwice(db, Run(db, events[..n]), Run(db, events));
    }
  }

  lemma {:induction false} RunTwice(db: Db, first: seq<Event>, second: seq<Event>)
    requires Sound(db)
    ensures Run(db, first + second) == Run(Run(db, first), second)
  {
    if second == [] {
      assert first + second == first;
    } else {
      var n := |second| - 1;
      assert first + second == (first + second[..n]) + [second[n]];
      RunTwice(db, first, second[..n]);
      RunMore(db, first + second[..n], second[n]);
    }
  }

  // ---- Instalments are paid in order ----

  ghost predicate Precedes(earlier: Installment, later: Installment) {
    earlier.contract == later.contract && earlier.sequence < later.sequence
  }

  /** Whatever is paid, everything before it in its contract is paid too. */
  ghost predicate PaidInOrder(installments: seq<Installment>) {
    forall i, j | 0 <= i < |installments| && 0 <= j < |installments| && Precedes(installments[i], installments[j]) ::
      installments[j].status == Paid ==> installments[i].status == Paid
  }

  ghost predicate LowestUnpaid(installments: seq<Installment>, i: nat)
    requires i < |installments|
  {
    forall j | 0 <= j < |installments| ::
      installments[j].contract == installments[i].contract && installments[j].status != Paid ==>
        installments[i].sequence <= installments[j].sequence
  }

  /** However late it is used, a check once passed points at a paid instalment or the next one to pay. */
  ghost predicate TargetsInOrder(db: Db) {
    forall i :: i in db.targets ==>
      && i < |db.installments|
      && (db.installments[i].status == Paid || LowestUnpaid(db.installments, i))
  }

  ghost predicate InOrder(db: Db) {
    PaidInOrder(db.installments) && TargetsInOrder(db)
  }

  lemma CheckedIsLowestUnpaid(db: Db, i: nat, today: int)
    requires ContractRows(db) && MayInitialize(db, i, today)
    ensures LowestUnpaid(db.installments, i)
  {
    var row := db.installments[i];
    var next := FirstUnpaid(db.installments, row.contract);
    FirstUnpaidMeaning(db.installments, row.contract);
    assert next.Some? && next.value.id == row.id;
    assert row in db.installments;
    IdsAreUnique(db.installments);
    assert next.value == row;
    forall j | 0 <= j < |db.installments|
               && db.installments[j].contract == row.contract && db.installments[j].status != Paid
      ensures row.sequence <= db.installments[j].sequence
    {
      assert db.installments[j] in db.installments;
    }
  }

  lemma PayKeepsInOrder(db: Db, r: Db, i: nat)
    requires InOrder(db) && i in db.targets && r.targets == db.targets && |db.installments| > i
    requires r.installments == db.installments[i := db.installments[i].(status := Paid)]
    ensures InOrder(r)
  {
    var before, after := db.installments, r.installments;
    forall j, k | 0 <= j < |after| && 0 <= k < |after| && Precedes(after[j], after[k]) && after[k].status == Paid
      ensures after[j].status == Paid
    {
      assert Precedes(before[j], before[k]);
      if k == i && before[i].status != Paid {
        assert LowestUnpaid(before, i);
        assert before[j].status == Paid;
      }
    }
    forall k | k in db.targets && after[k].status != Paid ensures LowestUnpaid(after, k) {
      assert LowestUnpaid(before, k);
    }
  }

  ghost predicate SameRow(before: Installment, after: Installment) {
    after == before.(status := after.status) && (after.status == Paid <==> before.status == Paid)
  }

  /** Tables that differ only in what an unpaid row is called. */
  ghost predicate SameRows(before: seq<Installment>, after: seq<Installment>) {
    |before| == |after| && forall i :: 0 <= i < |before| ==> SameRow(before[i], after[i])
  }

  lemma SameRowsKeepInOrder(db: Db, r: Db)
    requires InOrder(db) && r.targets == db.targets && SameRows(db.installments, r.installments)
    ensures InOrder(r)
  {
    forall i | i in r.targets ensures r.installments[i].status == Paid || LowestUnpaid(r.installments, i) {
      assert SameRow(db.installments[i], r.installments[i]);
      if r.installments[i].status != Paid {
        assert LowestUnpaid(db.installments, i);
        forall j | 0 <= j < |r.installments|
                   && r.installments[j].contract == r.installments[i].contract && r.installments[j].status != Paid
          ensures r.installments[i].sequence <= r.installments[j].sequence
        {
          assert SameRow(db.installments[j], r.installments[j]);
        }
      }
    }
    forall i, j | 0 <= i < |r.installments| && 0 <= j < |r.installments|
                  && Precedes(r.installments[i], r.installments[j]) && r.installments[j].status == Paid
      ensures r.installments[i].status == Paid
    {
      assert SameRow(db.installments[i], r.installments[i]) && SameRow(db.installments[j], r.installments[j]);
      assert Precedes(db.installments[i], db.installments[j]);
    }
  }

  lemma ActivateKeepsInOrder(db: Db, contract: Contract, months: nat, firstPaymentDate: int)
    requires ContractRows(db) && InOrder(db) && months > 0
    ensures InOrder(Activate(db, contract, months, firstPaymentDate))
  {
    var r := Activate(db, contract, months, firstPaymentDate);
    var n := |db.installments|;
    assert forall i :: 0 <= i < n ==> r.installments[i] == db.installments[i];
    assert forall i :: n <= i < |r.installments| ==>
        r.installments[i].contract == |db.contracts| && r.installments[i].status == Pending;
    forall i, j | 0 <= i < |r.installments| && 0 <= j < |r.installments|
                  && Precedes(r.installments[i], r.installments[j]) && r.installments[j].status == Paid
      ensures r.installments[i].status == Paid
    {
      assert Precedes(db.installments[i], db.installments[j]);
    }
    forall i | i in r.targets ensures r.installments[i].status == Paid || LowestUnpaid(r.installments, i) {
      if r.installments[i].status != Paid {
        assert LowestUnpaid(db.installments, i);
      }
    }
  }

  /** A payment job under way is for an instalment that passed the payability check. */
  ghost predicate PayingTargets(db: Db) {
    forall k :: 0 <= k < |db.calls| && db.calls[k].Paying? ==> db.calls[k].installment in db.targets
  }

  lemma StepKeepsPayingTargets(db: Db, event: Event)
    requires Ready(db) && PayingTargets(db)
    ensures PayingTargets(Step(db, event))
  {
    TargetsGrow(db, event);
    if event.Written? && event.call < |db.calls| {
      WriteGrows(Advanced(db, event.call), db.calls[event.call], event.code);
    }
  }

  lemma TargetsGrow(db: Db, event: Event)
    requires Ready(db)
    ensures db.targets <= Step(db, event).targets
    ensures !event.CheckedPayable? ==> Step(db, event).targets == db.targets
  {
  }

  lemma ContractEventKeepsInOrder(db: Db, event: Event)
    requires ContractRows(db) && InOrder(db) && IsContractEvent(event)
    ensures InOrder(StepContract(db, event))
  {
    if event.CheckedPayable? {
      if MayInitialize(db, event.installment, event.today) {
        CheckedIsLowestUnpaid(db, event.installment, event.today);
      }
    } else {
      SameRowsKeepInOrder(db, StepContract(db, event));
    }
  }

  lemma WriteKeepsInOrder(db: Db, event: Event)
    requires ContractRows(db) && InOrder(db) && PayingTargets(db) && event.Written?
    ensures InOrder(Step(db, event))
  {
    if IsPayment(db, event) {
      PaymentStep(db, event);
      PayKeepsInOrder(db, Step(db, event), db.calls[event.call].installment);
    }
  }

  lemma StepKeepsInOrder(db: Db, event: Event)
    requires ContractRows(db) && InOrder(db) && PayingTargets(db)
    ensures InOrder(Step(db, event))
  {
    if IsContractEvent(event) {
      ContractEventKeepsInOrder(db, event);
    } else if event.Activated? {
      if MayActivate(event.contract, event.months) {
        ActivateKeepsInOrder(db, event.contract, event.months, event.firstPaymentDate);
      }
    } else if event.Written? {
      WriteKeepsInOrder(db, event);
    } else {
      assert Step(db, event).installments == db.installments && Step(db, event).targets == db.targets;
    }
  }

  /**
   In every run the paid instalments of a contract are the first ones of it, however long an
   initiated payment takes to arrive, however its jobs overlap, and whatever happens to the contract meanwhile.
   */
  lemma {:induction false} PaidInstallmentsFormAPrefix(events: seq<Event>)
    ensures InOrder(Run(EMPTY_DB, events)) && PayingTargets(Run(EMPTY_DB, events))
  {
    if events != [] {
      var n := |events| - 1;
      PaidInstallmentsFormAPrefix(events[..n]);
      StepKeepsPayingTargets(Run(EMPTY_DB, events[..n]), events[n]);
      StepKeepsInOrder(Run(EMPTY_DB, events[..n]), events[n]);
    }
  }

  // ---- Completion ----

  /**
   A payment completes its contract when no PENDING instalment is left.  DUE, OVERDUE, DEFAULTED
   and VOIDED ones are not looked at: the contract is then complete with every instalment paid
   exactly when it had none of those.
   */
  lemma CompletionMeansPaidUnlessOverdue(db: Db, i: nat, key: nat, contract: Contract)
    requires Linked(db) && i < |db.installments|
    ensures var c := db.installments[i].contract;
            var r := Pay(db, i, key, contract);
            !HasPending(r.installments, c) ==>
              && r.contracts[c].status == Completed
              && (AllPaid(r.installments, c) <==> OthersPendingOrPaid(db.installments, c, i))
  {
    var c := db.installments[i].contract;
    var r := Pay(db, i, key, contract);
    if !HasPending(r.installments, c) {
      if OthersPendingOrPaid(db.installments, c, i) {
        forall j | 0 <= j < |r.installments| && r.installments[j].contract == c
          ensures r.installments[j].status == Paid
        {
          assert r.installments[j].status != Pending;
        }
      } else {
        var j :| 0 <= j < |db.installments| && db.installments[j].contract == c && j != i
                 && db.installments[j].status != Pending && db.installments[j].status != Paid;
        assert r.installments[j].status != Paid;
      }
    }
  }

  predicate AllPaid(installments: seq<Installment>, c: nat) {
    forall j :: 0 <= j < |installments| && installments[j].contract == c ==> installments[j].status == Paid
  }

  predicate OthersPendingOrPaid(installments: seq<Installment>, c: nat, i: nat) {
    forall j :: 0 <= j < |installments| && installments[j].contract == c && j != i ==>
      installments[j].status == Pending || installments[j].status == Paid
  }
}
