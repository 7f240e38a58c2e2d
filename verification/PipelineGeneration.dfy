/** One pass of settlement generation over the companies, and what it leaves behind. */
module PipelineGeneration {
  import opened Common
  import opened Installments
  import opened Pipeline
  import opened PipelineRows
  import opened PipelinePostings
  import opened PipelineMoney
  import opened PipelineRuns

  /** The companies with something to settle, first come first; the empty id is filtered out. */
  function CompaniesBelow(db: Db, n: nat): (companies: seq<string>)
    requires Linked(db) && n <= |db.installments|
    ensures forall k :: 0 <= k < |companies| ==> companies[k] != ""
    ensures forall i :: 0 <= i < n && Unsettled(db, i) ==>
              var company := db.contracts[db.installments[i].contract].company;
              company.Some? && company.value != "" ==> company.value in companies
  {
    if n == 0 then []
    else
      var before := CompaniesBelow(db, n - 1);
      var company := db.contracts[db.installments[n - 1].contract].company;
      if Unsettled(db, n - 1) && company.Some? && company.value != "" && company.value !in before
      then before + [company.value] else before
  }

  /** An instalment of this company is paid and has no line. */
  predicate HasSomething(db: Db, company: string, n: nat)
    requires Linked(db) && n <= |db.installments|
  {
    exists i :: 0 <= i < n && db.installments[i].status == Paid
                && db.contracts[db.installments[i].contract].company == Some(company)
                && forall l :: 0 <= l < |db.lines| ==> db.lines[l].installment != i
  }

  /** Listed are, once each, the companies with a name and something to settle. */
  lemma {:induction false} ListedCompanies(db: Db, n: nat, company: string)
    requires Linked(db) && n <= |db.installments|
    ensures company in CompaniesBelow(db, n) <==> company != "" && HasSomething(db, company, n)
    ensures var companies := CompaniesBelow(db, n);
            forall j, k :: 0 <= j < k < |companies| ==> companies[j] != companies[k]
  {
    if n > 0 {
      ListedCompanies(db, n - 1, company);
      var row := db.installments[n - 1];
      if HasSomething(db, company, n) && !HasSomething(db, company, n - 1) {
        assert Unsettled(db, n - 1) && db.contracts[row.contract].company == Some(company);
      }
      if Unsettled(db, n - 1) && db.contracts[row.contract].company == Some(company) {
        assert forall l :: 0 <= l < |db.lines| ==> db.lines[l].installment != n - 1;
        assert HasSomething(db, company, n);
      }
    }
  }

  function CompaniesToSettle(db: Db): seq<string>
    requires Linked(db)
  {
    CompaniesBelow(db, |db.installments|)
  }

  function GenerateAll(db: Db, companies: seq<string>): (r: Db)
    requires Linked(db)
    ensures Linked(r)
  {
    if companies == [] then db
    else Generate(GenerateAll(db, companies[..|companies| - 1]), companies[|companies| - 1])
  }

  lemma GenerateAllMore(db: Db, companies: seq<string>, company: string)
    requires Linked(db)
    ensures GenerateAll(db, companies + [company]) == Generate(GenerateAll(db, companies), company)
  {
    assert (companies + [company])[..|companies|] == companies;
  }

  /** generatePendingSettlements */
  function Pass(db: Db): Db
    requires Linked(db)
  {
    GenerateAll(db, CompaniesToSettle(db))
  }

  /** Nothing of this company is worth a settlement. */
  predicate Done(db: Db, company: string)
    requires Linked(db)
  {
    !WorthSettling(db, company)
  }

  /** With nothing in between the unique key refuses nothing: the lines are written as they were computed. */
  lemma GenerateWrites(db: Db, company: string)
    requires Linked(db) && WorthSettling(db, company)
    ensures var lines := LinesFor(db, |db.settlements|, EligibleIds(db, company));
            && !LinesTaken(db.lines, lines)
            && InstallmentsOf(lines) == EligibleIds(db, company)
            && Generate(db, company)
               == db.(settlements := db.settlements
                        + [Settlement(company, EligibleTotal(db, company), Approved, None, false, 0, false)],
                      lines := db.lines + lines)
  {
    var ids := EligibleIds(db, company);
    var lines := LinesFor(db, |db.settlements|, ids);
    forall k | 0 <= k < |lines| ensures !Settled(db.lines, lines[k].installment) {
      assert ToSettle(db, company, ids[k]);
    }
    assert Numbered(lines, |db.settlements|) == lines;
  }

  lemma DoneMeansNothingGenerated(db: Db, company: string)
    requires Linked(db)
    ensures Done(db, company) <==> Generate(db, company) == db
  {
    if !Done(db, company) {
      GenerateWrites(db, company);
      assert |Generate(db, company).settlements| == |db.settlements| + 1;
    }
  }

  /** Exactly the eligible instalments of the company get a line. */
  lemma GenerateMentions(db: Db, company: string, i: nat)
    requires Linked(db) && WorthSettling(db, company)
    ensures Settled(Generate(db, company).lines, i) <==> Settled(db.lines, i) || i in EligibleIds(db, company)
  {
    var lines := LinesFor(db, |db.settlements|, EligibleIds(db, company));
    GenerateWrites(db, company);
    LinesMentionExactly(db.lines, lines, |db.settlements|, i);
  }

  /** Of the rows eligible before, none is afterwards. */
  lemma GenerateIsDone(db: Db, company: string)
    requires Linked(db)
    ensures Done(Generate(db, company), company)
    ensures !Done(db, company) ==> EligibleIds(Generate(db, company), company) == []
  {
    var r := Generate(db, company);
    if !Done(db, company) {
      var ids := EligibleIds(r, company);
      if ids != [] {
        var i := ids[0];
        assert ToSettle(r, company, i);
        GenerateWrites(db, company);
        GenerateMentions(db, company, i);
        assert ToSettle(db, company, i);
        assert false;
      }
    }
  }

  /** A settlement of one company is no concern of another's. */
  lemma GenerateLeavesOthers(db: Db, company: string, other: string)
    requires Linked(db) && company != other
    ensures var r := Generate(db, company);
            && EligibleIds(r, other) == EligibleIds(db, other)
            && EligibleTotal(r, other) == EligibleTotal(db, other)
  {
    var r := Generate(db, company);
    if !Done(db, company) {
      GenerateWrites(db, company);
      forall i | 0 <= i < |db.installments| ensures ToSettle(r, other, i) <==> ToSettle(db, other, i) {
        GenerateMentions(db, company, i);
        if i in EligibleIds(db, company) {
          var k :| 0 <= k < |EligibleIds(db, company)| && EligibleIds(db, company)[k] == i;
          assert ToSettle(db, company, EligibleIds(db, company)[k]);
        }
      }
      SameEligible(db, r, other, |db.installments|);
      var ids := EligibleIds(db, other);
      SameNetTotal(LinesFor(r, |r.settlements|, ids), LinesFor(db, |db.settlements|, ids));
    }
  }

  lemma {:induction false} GenerateAllIsDone(db: Db, companies: seq<string>, company: string)
    requires Linked(db) && (company in companies || Done(db, company))
    ensures Done(GenerateAll(db, companies), company)
  {
    if companies != [] {
      var n := |companies| - 1;
      var before := GenerateAll(db, companies[..n]);
      GenerateIsDone(before, companies[n]);
      if company != companies[n] {
        GenerateAllIsDone(db, companies[..n], company);
        GenerateLeavesOthers(before, companies[n], company);
      }
    }
  }

  lemma {:induction false} NothingGenerated(db: Db, companies: seq<string>)
    requires Linked(db) && forall k :: 0 <= k < |companies| ==> Done(db, companies[k])
    ensures GenerateAll(db, companies) == db
  {
    if companies != [] {
      NothingGenerated(db, companies[..|companies| - 1]);
      DoneMeansNothingGenerated(db, companies[|companies| - 1]);
    }
  }

  /** After a pass no company has an eligible total above zero left. */
  lemma PassSettlesEveryCompany(db: Db, company: string)
    requires Linked(db) && company != ""
    ensures Done(Pass(db), company)
  {
    if EligibleIds(db, company) != [] {
      assert ToSettle(db, company, EligibleIds(db, company)[0]);
    }
    GenerateAllIsDone(db, CompaniesToSettle(db), company);
  }

  /** An immediate second pass creates nothing. */
  lemma SecondPassCreatesNothing(db: Db)
    requires Linked(db)
    ensures Pass(Pass(db)) == Pass(db)
  {
    var r := Pass(db);
    var companies := CompaniesToSettle(r);
    forall k | 0 <= k < |companies| ensures Done(r, companies[k]) {
      PassSettlesEveryCompany(db, companies[k]);
    }
    NothingGenerated(r, companies);
  }

  // ---- No net is negative, so a total of zero or less is a total of nothing ----

  ghost predicate NetsNotNegative(db: Db) {
    forall i :: 0 <= i < |db.installments| && db.installments[i].status == Paid ==> Net(db, i) >= 0.0
  }

  lemma PayKeepsNets(db: Db, i: nat, key: nat, contract: Contract)
    requires Sound(db) && NetsNotNegative(db) && CallFits(db, Paying(i, key, contract))
    ensures NetsNotNegative(Pay(db, i, key, contract))
  {
    var r := Pay(db, i, key, contract);
    CommissionWithinAmount(contract, db.installments[i].amount);
    forall j | 0 <= j < |r.installments| && r.installments[j].status == Paid ensures Net(r, j) >= 0.0 {
      DeductedAfterPay(db, i, key, contract, j);
    }
  }

  lemma GenerationKeepsNets(db: Db, company: string, lines: seq<SettlementLine>)
    requires NetsNotNegative(db)
    ensures NetsNotNegative(WriteGeneration(db, company, lines))
  {
    var r := WriteGeneration(db, company, lines);
    forall j | 0 <= j < |r.installments| && r.installments[j].status == Paid ensures Net(r, j) >= 0.0 {
      assert Net(r, j) == Net(db, j);
    }
  }

  lemma ActivateKeepsNets(db: Db, contract: Contract, months: nat, firstPaymentDate: int)
    requires Linked(db) && NetsNotNegative(db) && MayActivate(contract, months)
    ensures NetsNotNegative(Activate(db, contract, months, firstPaymentDate))
  {
    var r := Activate(db, contract, months, firstPaymentDate);
    forall j | 0 <= j < |r.installments| && r.installments[j].status == Paid ensures Net(r, j) >= 0.0 {
      if j >= |db.installments| {
        ActivatedRow(db, contract, months, firstPaymentDate, j);
      } else {
        assert r.installments[j] == db.installments[j] && Net(r, j) == Net(db, j);
      }
    }
  }

  lemma SameNetsStay(db: Db, r: Db)
    requires SameNets(db, r) && NetsNotNegative(db)
    ensures NetsNotNegative(r)
  {
    forall j | 0 <= j < |r.installments| && r.installments[j].status == Paid ensures Net(r, j) >= 0.0 {
      assert SameRow(db.installments[j], r.installments[j]) && Net(r, j) == Net(db, j);
    }
  }

  lemma StepKeepsNets(db: Db, event: Event)
    requires Sound(db) && NetsNotNegative(db)
    ensures NetsNotNegative(Step(db, event))
  {
    if event.Activated? {
      if MayActivate(event.contract, event.months) {
        ActivateKeepsNets(db, event.contract, event.months, event.firstPaymentDate);
      }
    } else if IsGeneration(db, event) {
      var call := db.calls[event.call];
      GenerationStep(db, event);
      SameNetsStay(db, Advanced(db, event.call));
      GenerationKeepsNets(Advanced(db, event.call), call.company, call.lines);
    } else if IsPayment(db, event) {
      var call := db.calls[event.call];
      AdvancedKeepsSound(db, event.call);
      PaymentStep(db, event);
      SameNetsStay(db, Advanced(db, event.call));
      PayKeepsNets(Advanced(db, event.call), call.installment, call.key, call.contract);
    } else {
      NetsLeft(db, event);
      SameNetsStay(db, Step(db, event));
    }
  }

  lemma {:induction false} RunsKeepNets(events: seq<Event>)
    ensures NetsNotNegative(Run(EMPTY_DB, events))
  {
    if events != [] {
      var n := |events| - 1;
      RunsKeepNets(events[..n]);
      StepKeepsNets(Run(EMPTY_DB, events[..n]), events[n]);
    }
  }

  lemma {:induction false} NothingInAnyLine(lines: seq<SettlementLine>, l: nat)
    requires forall k :: 0 <= k < |lines| ==> lines[k].net >= 0.0
    requires l < |lines|
    ensures 0.0 <= lines[l].net <= NetOf(lines)
  {
    var n := |lines| - 1;
    if l < n {
      NothingInAnyLine(lines[..n], l);
    } else if n > 0 {
      NothingInAnyLine(lines[..n], 0);
    }
  }

  lemma {:induction false} PassKeepsNets(db: Db, companies: seq<string>)
    requires Linked(db) && NetsNotNegative(db)
    ensures NetsNotNegative(GenerateAll(db, companies))
  {
    if companies != [] {
      var n := |companies| - 1;
      PassKeepsNets(db, companies[..n]);
      var before := GenerateAll(db, companies[..n]);
      if WorthSettling(before, companies[n]) {
        var ids := EligibleIds(before, companies[n]);
        GenerationKeepsNets(before, companies[n], LinesFor(before, |before.settlements|, ids));
      }
    }
  }

  /** With no negative net, a company with nothing worth a settlement has only instalments worth nothing. */
  lemma DoneLeavesOnlyNothing(db: Db, company: string, i: nat)
    requires Linked(db) && NetsNotNegative(db) && Done(db, company)
    requires i < |db.installments| && ToSettle(db, company, i)
    ensures Net(db, i) == 0.0
  {
    var ids := EligibleIds(db, company);
    var lines := LinesFor(db, |db.settlements|, ids);
    forall k | 0 <= k < |lines| ensures lines[k].net >= 0.0 {
      assert ToSettle(db, company, ids[k]);
    }
    var l :| 0 <= l < |ids| && ids[l] == i;
    NothingInAnyLine(lines, l);
  }

  /** In every run: after a pass, every instalment of a company that is left without a line has nothing to settle. */
  lemma PassLeavesOnlyNothing(events: seq<Event>, company: string, i: nat)
    requires company != ""
    ensures var r := Pass(Run(EMPTY_DB, events));
            i < |r.installments| && ToSettle(r, company, i) ==> Net(r, i) == 0.0
  {
    var db := Run(EMPTY_DB, events);
    var r := Pass(db);
    if i < |r.installments| && ToSettle(r, company, i) {
      RunsKeepNets(events);
      PassKeepsNets(db, CompaniesToSettle(db));
      PassSettlesEveryCompany(db, company);
      DoneLeavesOnlyNothing(r, company, i);
    }
  }

  // ---- A pass while others act ----

  /** What other processes do before the reads for a company, and between them and the transaction. */
  datatype Meanwhile = Meanwhile(before: seq<Event>, during: seq<Event>)

  function At(others: seq<Meanwhile>, k: nat): Meanwhile {
    if k < |others| then others[k] else Meanwhile([], [])
  }

  datatype Generated = NothingToSettle | Refused | Created(id: nat)

  datatype GenerationResult = GenerationResult(db: Db, outcome: Generated)

  /** `completed` is false when a refused transaction has ended the pass. */
  datatype PassResult = PassResult(db: Db, created: seq<nat>, completed: bool)

  lemma GenerationKeepsSound(db: Db, company: string, lines: seq<SettlementLine>)
    requires Sound(db)
    ensures Sound(WriteGeneration(db, company, lines))
  {
    var r := WriteGeneration(db, company, lines);
    forall k | 0 <= k < |r.calls| ensures CallFits(r, r.calls[k]) {
      CallStillFits(db, r, db.calls[k]);
    }
  }

  function ComputedLines(db: Db, company: string): seq<SettlementLine>
    requires Linked(db)
  {
    LinesFor(db, |db.settlements|, EligibleIds(db, company))
  }

  /** generateForCompany: the lines are computed from what it reads, and written to what others have made of it. */
  function GenerateAmid(db: Db, company: string, during: seq<Event>): (r: GenerationResult)
    requires Sound(db)
    ensures Sound(r.db)
  {
    if !WorthSettling(db, company) then GenerationResult(db, NothingToSettle)
    else
      var lines := ComputedLines(db, company);
      var later := Run(db, during);
      GenerationKeepsSound(later, company, lines);
      GenerationResult(WriteGeneration(later, company, lines),
                       if LinesTaken(later.lines, lines) then Refused else Created(|later.settlements|))
  }

  /** The turn of one company. */
  function Turn(before: PassResult, company: string, meanwhile: Meanwhile): (r: PassResult)
    requires Sound(before.db)
    ensures Sound(r.db)
  {
    if !before.completed then before
    else
      var next := GenerateAmid(Run(before.db, meanwhile.before), company, meanwhile.during);
      match next.outcome
      case NothingToSettle => before.(db := next.db)
      case Refused => before.(db := next.db, completed := false)
      case Created(id) => PassResult(next.db, before.created + [id], true)
  }

  /** generatePendingSettlements over these companies. */
  function PassAmid(db: Db, companies: seq<string>, others: seq<Meanwhile>): (r: PassResult)
    requires Sound(db)
    ensures Sound(r.db)
  {
    if companies == [] then PassResult(db, [], true)
    else
      var n := |companies| - 1;
      Turn(PassAmid(db, companies[..n], others), companies[n], At(others, n))
  }

  lemma NextTurn(db: Db, companies: seq<string>, company: string, others: seq<Meanwhile>)
    requires Sound(db)
    ensures PassAmid(db, companies + [company], others)
         == Turn(PassAmid(db, companies, others), company, At(others, |companies|))
  {
    assert (companies + [company])[..|companies|] == companies;
  }

  lemma Rejoined(first: seq<string>, rest: seq<string>)
    requires rest != []
    ensures first + rest == first + rest[..|rest| - 1] + [rest[|rest| - 1]]
  {
  }

  /** Once a transaction was refused no further company is looked at. */
  lemma {:induction false} RefusedStays(db: Db, first: seq<string>, rest: seq<string>, others: seq<Meanwhile>)
    requires Sound(db) && !PassAmid(db, first, others).completed
    ensures PassAmid(db, first + rest, others) == PassAmid(db, first, others)
  {
    if rest == [] {
      assert first + rest == first;
    } else {
      var n := |rest| - 1;
      RefusedStays(db, first, rest[..n], others);
      NextTurn(db, first + rest[..n], rest[n], others);
      Rejoined(first, rest);
    }
  }

  /**
   A company whose transaction finds that one of its instalments has got a line since they were read ends the pass:
   nothing is written for it, and no further company is looked at.
   */
  lemma RefusalEndsThePass(
      db: Db, first: seq<string>, company: string, rest: seq<string>, others: seq<Meanwhile>)
    requires Sound(db) && PassAmid(db, first, others).completed
    requires var now := Run(PassAmid(db, first, others).db, At(others, |first|).before);
             && EligibleIds(now, company) != [] && EligibleTotal(now, company) > 0.0
             && exists k, l :: 0 <= k < |EligibleIds(now, company)|
                               && 0 <= l < |Run(now, At(others, |first|).during).lines|
                               && Run(now, At(others, |first|).during).lines[l].installment
                                  == EligibleIds(now, company)[k]
    ensures var before := PassAmid(db, first, others);
            var later := Run(Run(before.db, At(others, |first|).before), At(others, |first|).during);
            PassAmid(db, first + [company] + rest, others) == PassResult(later, before.created, false)
  {
    var before := PassAmid(db, first, others);
    var now := Run(before.db, At(others, |first|).before);
    NextTurn(db, first, company, others);
    TakenTurn(before, company, At(others, |first|));
    RefusedStays(db, first + [company], rest, others);
  }

  lemma TakenTurn(before: PassResult, company: string, meanwhile: Meanwhile)
    requires Sound(before.db) && before.completed
    requires var now := Run(before.db, meanwhile.before);
             && WorthSettling(now, company)
             && exists k, l :: 0 <= k < |EligibleIds(now, company)| && 0 <= l < |Run(now, meanwhile.during).lines|
                               && Run(now, meanwhile.during).lines[l].installment == EligibleIds(now, company)[k]
    ensures Turn(before, company, meanwhile)
         == PassResult(Run(Run(before.db, meanwhile.before), meanwhile.during), before.created, false)
  {
    var now := Run(before.db, meanwhile.before);
    var later := Run(now, meanwhile.during);
    var lines := ComputedLines(now, company);
    var k, l :| 0 <= k < |EligibleIds(now, company)| && 0 <= l < |later.lines|
                && later.lines[l].installment == EligibleIds(now, company)[k];
    assert Settled(later.lines, lines[k].installment);
    assert LinesTaken(later.lines, lines);
  }

  lemma Parted(companies: seq<string>, k: nat)
    requires k <= |companies|
    ensures companies[..k] + companies[k..] == companies
    ensures k == |companies| ==> companies[..k] == companies
  {
  }

  lemma PassEnds(db: Db, companies: seq<string>, others: seq<Meanwhile>, k: nat)
    requires Sound(db) && k <= |companies|
    requires k == |companies| || !PassAmid(db, companies[..k], others).completed
    ensures PassAmid(db, companies, others) == PassAmid(db, companies[..k], others)
  {
    Parted(companies, k);
    if k < |companies| {
      RefusedStays(db, companies[..k], companies[k..], others);
    }
  }

  /** The ids of rows added to a table of `first` rows. */
  function Consecutive(first: nat, count: int): seq<nat> {
    if count <= 0 then [] else Consecutive(first, count - 1) + [first + count - 1]
  }

  lemma UninterruptedGeneration(db: Db, company: string)
    requires Sound(db)
    ensures var r := GenerateAmid(db, company, []);
            && r.db == Generate(db, company)
            && r.outcome == (if WorthSettling(db, company) then Created(|db.settlements|) else NothingToSettle)
            && |r.db.settlements| == |db.settlements| + (if WorthSettling(db, company) then 1 else 0)
  {
    if WorthSettling(db, company) {
      GenerateWrites(db, company);
    }
  }

  /** A completed pass over a table of `first` settlements has come to these tables. */
  predicate CameTo(r: PassResult, db: Db, first: nat) {
    && r.completed && r.db == db && first <= |db.settlements|
    && r.created == Consecutive(first, |db.settlements| - first)
  }

  lemma NextNumber(first: nat, count: nat)
    ensures Consecutive(first, count + 1) == Consecutive(first, count) + [first + count]
  {
  }

  lemma UninterruptedTurn(before: PassResult, db: Db, company: string, first: nat)
    requires Sound(db) && CameTo(before, db, first)
    ensures CameTo(Turn(before, company, Meanwhile([], [])), Generate(db, company), first)
  {
    UninterruptedGeneration(db, company);
    NextNumber(first, |db.settlements| - first);
  }

  /** With nothing in between the pass is the plain one, refuses nothing, and its settlements are numbered in order. */
  lemma {:induction false} UninterruptedPass(db: Db, companies: seq<string>)
    requires Sound(db)
    ensures CameTo(PassAmid(db, companies, []), GenerateAll(db, companies), |db.settlements|)
  {
    if companies != [] {
      var n := |companies| - 1;
      UninterruptedPass(db, companies[..n]);
      UninterruptedTurn(PassAmid(db, companies[..n], []), GenerateAll(db, companies[..n]), companies[n],
                        |db.settlements|);
    }
  }

  /** What was read stays as it was read while others pay only what is unpaid. */
  lemma {:induction false} RunKeepsCurrent(db: Db, events: seq<Event>, company: string, lines: seq<SettlementLine>)
    requires Sound(db) && AllPayOnce(db, events) && LinesFit(db, company, lines) && LinesCurrent(db, lines)
    ensures LinesFit(Run(db, events), company, lines) && LinesCurrent(Run(db, events), lines)
  {
    RunGrows(db, events);
    LinesStillFit(db, Run(db, events), company, lines);
    if events != [] {
      var n := |events| - 1;
      RunKeepsCurrent(db, events[..n], company, lines);
      StaysCurrent(Run(db, events[..n]), events[n], company, lines);
    }
  }

  lemma WritingKeepsKept(db: Db, company: string, lines: seq<SettlementLine>)
    requires Kept(db) && LinesFit(db, company, lines) && LinesCurrent(db, lines) && !LinesTaken(db.lines, lines)
    ensures Kept(WriteGeneration(db, company, lines))
  {
    var r := WriteGeneration(db, company, lines);
    GenerationKeepsSound(db, company, lines);
    GenerationKeepsLines(db, company, lines);
    CurrentIsHarmless(db, company, lines);
    GenerationKeepsPayableExactlyWhenHarmless(db, company, lines);
    forall k | 0 <= k < |r.calls| && r.calls[k].Generating? ensures LinesCurrent(r, r.calls[k].lines) {
      SameDeductions(db, r, r.calls[k].lines);
    }
  }

  lemma GenerateAmidKeepsKept(db: Db, company: string, during: seq<Event>)
    requires Kept(db) && AllPayOnce(db, during)
    ensures Kept(GenerateAmid(db, company, during).db)
  {
    if WorthSettling(db, company) {
      var lines := ComputedLines(db, company);
      ComputedLinesFit(db, company);
      RunKeepsKept(db, during);
      RunKeepsCurrent(db, during, company, lines);
      if !LinesTaken(Run(db, during).lines, lines) {
        WritingKeepsKept(Run(db, during), company, lines);
      }
    }
  }

  predicate PayOnceMeanwhile(before: PassResult, meanwhile: Meanwhile)
    requires Sound(before.db)
  {
    before.completed ==>
      AllPayOnce(before.db, meanwhile.before) && AllPayOnce(Run(before.db, meanwhile.before), meanwhile.during)
  }

  /** Whatever others do during the pass, they pay only instalments that are unpaid then. */
  predicate OthersPayOnce(db: Db, companies: seq<string>, others: seq<Meanwhile>)
    requires Sound(db)
  {
    if companies == [] then true
    else
      var n := |companies| - 1;
      OthersPayOnce(db, companies[..n], others)
      && PayOnceMeanwhile(PassAmid(db, companies[..n], others), At(others, n))
  }

  lemma TurnKeepsKept(before: PassResult, company: string, meanwhile: Meanwhile)
    requires Kept(before.db) && PayOnceMeanwhile(before, meanwhile)
    ensures Kept(Turn(before, company, meanwhile).db)
  {
    if before.completed {
      RunKeepsKept(before.db, meanwhile.before);
      GenerateAmidKeepsKept(Run(before.db, meanwhile.before), company, meanwhile.during);
    }
  }

  /**
   However a pass is interleaved with payments, other passes and transfers, MERCHANT_PAYABLE agrees with the tables
   after it, lines are what they are for, and no instalment has two.
   */
  lemma {:induction false} PassAmidKeepsKept(db: Db, companies: seq<string>, others: seq<Meanwhile>)
    requires Kept(db) && OthersPayOnce(db, companies, others)
    ensures Kept(PassAmid(db, companies, others).db)
  {
    if companies != [] {
      var n := |companies| - 1;
      PassAmidKeepsKept(db, companies[..n], others);
      TurnKeepsKept(PassAmid(db, companies[..n], others), companies[n], At(others, n));
    }
  }
}
