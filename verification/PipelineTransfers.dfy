/** Settlement transfers: when no initiation is posted twice, that the log is the journal, what timely writes leave. */
module PipelineTransfers {
  import opened Common
  import opened Ledger
  import opened LedgerProofs
  import opened Pipeline
  import opened PipelineRows
  import opened PipelinePostings
  import opened PipelineMoney
  import opened PipelineRuns

  // ---- The code and the current initiation ----

  predicate IsSendingOf(entry: TransferPosting, s: nat, initiation: nat) {
    entry.Sent? && entry.settlement == s && entry.initiation == initiation
  }

  /** The code with which the pair of an initiation was posted. */
  function CodeOf(posted: seq<TransferPosting>, s: nat, initiation: nat): Option<nat> {
    if posted == [] then None
    else
      var n := |posted| - 1;
      if IsSendingOf(posted[n], s, initiation) then Some(posted[n].code) else CodeOf(posted[..n], s, initiation)
  }

  lemma CodeOfAppend(posted: seq<TransferPosting>, added: TransferPosting, s: nat, initiation: nat)
    ensures CodeOf(posted + [added], s, initiation)
         == if IsSendingOf(added, s, initiation) then Some(added.code) else CodeOf(posted, s, initiation)
  {
    assert (posted + [added])[..|posted|] == posted;
  }

  lemma {:induction false} CodeOfNone(posted: seq<TransferPosting>, s: nat, initiation: nat)
    ensures CodeOf(posted, s, initiation).None? <==>
              forall k :: 0 <= k < |posted| ==> !IsSendingOf(posted[k], s, initiation)
  {
    if posted != [] {
      CodeOfNone(posted[..|posted| - 1], s, initiation);
    }
  }

  predicate RowCodeAgrees(settlements: seq<Settlement>, posted: seq<TransferPosting>, s: nat)
    requires s < |settlements|
  {
    settlements[s].transferCode == CodeOf(posted, s, settlements[s].initiations)
  }

  predicate AllCodesAgree(settlements: seq<Settlement>, posted: seq<TransferPosting>) {
    forall s :: 0 <= s < |settlements| ==> RowCodeAgrees(settlements, posted, s)
  }

  /** The sendings of a settlement are in the order of its initiations, each at most once. */
  predicate InOrder(posted: seq<TransferPosting>) {
    forall j, k :: 0 <= j < k < |posted| && posted[j].Sent? && posted[k].Sent?
                   && posted[j].settlement == posted[k].settlement ==>
      posted[j].initiation < posted[k].initiation
  }

  /** A row's code is the one posted with its current initiation, and initiations are posted in order, each once. */
  predicate TransfersAgree(db: Db) {
    AllCodesAgree(db.settlements, db.posted) && InOrder(db.posted)
  }

  predicate KnownInitiation(settlements: seq<Settlement>, s: nat, initiation: nat) {
    s < |settlements| && 1 <= initiation <= settlements[s].initiations
  }

  /** A settlement that waits to be queued was never initiated; afterwards it was. */
  predicate RowKnown(row: Settlement) {
    && (row.status.TransferInitiated? ==> row.initiations > 0)
    && (row.status.Generated? || row.status.Approved? ==> row.initiations == 0 && row.transferCode.None?)
  }

  /** Postings and attempts are of initiations there have been. */
  predicate InitiationsKnown(db: Db) {
    && (forall s :: 0 <= s < |db.settlements| ==> RowKnown(db.settlements[s]))
    && (forall k :: 0 <= k < |db.posted| && db.posted[k].Sent? ==>
          KnownInitiation(db.settlements, db.posted[k].settlement, db.posted[k].initiation))
    && (forall k :: 0 <= k < |db.calls| && db.calls[k].Attempting? ==>
          KnownInitiation(db.settlements, db.calls[k].settlement, db.calls[k].initiation))
  }

  /** An attempt commits to the current initiation, and a settlement is queued, while the row has no code. */
  predicate Belongs(row: Settlement, call: Call)
    requires IsTransferCall(call)
  {
    match call
    case Queueing(_) => row.transferCode.None?
    case Attempting(_, initiation) => initiation == row.initiations && row.transferCode.None?
    case _ => true
  }

  predicate IsTransferWrite(db: Db, event: Event) {
    event.Written? && event.call < |db.calls| && IsTransferCall(db.calls[event.call])
  }

  predicate WriteBelongs(db: Db, event: Event)
    requires Ready(db)
  {
    IsTransferWrite(db, event) ==>
      assert CallFits(db, db.calls[event.call]);
      Belongs(db.settlements[db.calls[event.call].settlement], db.calls[event.call])
  }

  // ---- Commits ----

  lemma AppendInOrder(posted: seq<TransferPosting>, added: TransferPosting)
    requires InOrder(posted) && added.Sent?
    ensures InOrder(posted + [added]) <==>
              forall k :: 0 <= k < |posted| && posted[k].Sent? && posted[k].settlement == added.settlement ==>
                posted[k].initiation < added.initiation
  {
    var all := posted + [added];
    if InOrder(all) {
      forall k | 0 <= k < |posted| && posted[k].Sent? && posted[k].settlement == added.settlement
        ensures posted[k].initiation < added.initiation
      {
        assert all[k] == posted[k] && all[|posted|] == added;
      }
    }
  }

  /** The rows after one of them gets the code of an initiation. */
  lemma CommitCodes(settlements: seq<Settlement>, posted: seq<TransferPosting>, added: TransferPosting)
    requires AllCodesAgree(settlements, posted) && added.Sent? && added.settlement < |settlements|
    ensures var s := added.settlement;
            var after := settlements[s := settlements[s].(transferCode := Some(added.code))];
            AllCodesAgree(after, posted + [added])
            <==> added.initiation == settlements[s].initiations || settlements[s].transferCode == Some(added.code)
  {
    var s := added.settlement;
    var after := settlements[s := settlements[s].(transferCode := Some(added.code))];
    forall q | 0 <= q < |settlements|
      ensures RowCodeAgrees(after, posted + [added], q)
         <==> q != s || added.initiation == settlements[s].initiations
              || settlements[s].transferCode == Some(added.code)
    {
      CodeOfAppend(posted, added, q, after[q].initiations);
      assert RowCodeAgrees(settlements, posted, q);
    }
    assert RowCodeAgrees(after, posted + [added], s) || !AllCodesAgree(after, posted + [added]);
  }

  lemma CommitAgreesExactlyWhenItBelongs(db: Db, call: Call, code: nat)
    requires TransfersAgree(db) && InitiationsKnown(db) && call.Attempting?
    requires KnownInitiation(db.settlements, call.settlement, call.initiation)
    ensures TransfersAgree(WriteTransfer(db, call, code)) <==> Belongs(db.settlements[call.settlement], call)
  {
    var s := call.settlement;
    var row := db.settlements[s];
    var r := WriteTransfer(db, call, code);
    var added := Sent(s, call.initiation, row.amount, code);
    assert r.posted == db.posted + [added];
    CommitCodes(db.settlements, db.posted, added);
    AppendInOrder(db.posted, added);
    CodeOfNone(db.posted, s, row.initiations);
    assert RowCodeAgrees(db.settlements, db.posted, s);
    if row.transferCode.Some? {
      var k :| 0 <= k < |db.posted| && IsSendingOf(db.posted[k], s, row.initiations);
      assert !InOrder(r.posted);
    }
  }

  // ---- New initiations, and the other writes ----

  lemma NoCodeYet(db: Db, s: nat)
    requires InitiationsKnown(db) && s < |db.settlements|
    ensures CodeOf(db.posted, s, db.settlements[s].initiations + 1).None?
  {
    CodeOfNone(db.posted, s, db.settlements[s].initiations + 1);
  }

  lemma NewInitiationAgrees(db: Db, call: Call, code: nat)
    requires TransfersAgree(db) && InitiationsKnown(db)
    requires (call.Queueing? || call.Retrying?) && call.settlement < |db.settlements|
    ensures TransfersAgree(WriteTransfer(db, call, code)) <==> Belongs(db.settlements[call.settlement], call)
  {
    var s := call.settlement;
    var r := WriteTransfer(db, call, code);
    NoCodeYet(db, s);
    assert r.posted == db.posted;
    assert forall q :: 0 <= q < |db.settlements| && q != s ==>
        (RowCodeAgrees(r.settlements, r.posted, q) <==> RowCodeAgrees(db.settlements, db.posted, q));
    assert RowCodeAgrees(r.settlements, r.posted, s) <==> Belongs(db.settlements[s], call);
  }

  lemma SameCodesAgree(before: seq<Settlement>, after: seq<Settlement>, posted: seq<TransferPosting>)
    requires |after| == |before|
    requires forall s :: 0 <= s < |before| ==>
               after[s].transferCode == before[s].transferCode && after[s].initiations == before[s].initiations
    ensures AllCodesAgree(after, posted) <==> AllCodesAgree(before, posted)
  {
    assert forall s :: 0 <= s < |before| ==> (RowCodeAgrees(after, posted, s) <==> RowCodeAgrees(before, posted, s));
  }

  lemma ReturnedCodes(settlements: seq<Settlement>, posted: seq<TransferPosting>, added: TransferPosting)
    requires added.Returned?
    ensures AllCodesAgree(settlements, posted + [added]) <==> AllCodesAgree(settlements, posted)
    ensures InOrder(posted + [added]) <==> InOrder(posted)
  {
    forall s | 0 <= s < |settlements|
      ensures RowCodeAgrees(settlements, posted + [added], s) <==> RowCodeAgrees(settlements, posted, s)
    {
      CodeOfAppend(posted, added, s, settlements[s].initiations);
    }
    var all := posted + [added];
    if InOrder(all) {
      forall j, k | 0 <= j < k < |posted| && posted[j].Sent? && posted[k].Sent?
                    && posted[j].settlement == posted[k].settlement
        ensures posted[j].initiation < posted[k].initiation
      {
        assert all[j] == posted[j] && all[k] == posted[k];
      }
    }
  }

  lemma NoticeAgrees(db: Db, call: Call, code: nat)
    requires TransfersAgree(db) && call.Handling? && call.settlement < |db.settlements|
    ensures TransfersAgree(WriteTransfer(db, call, code))
  {
    var r := WriteTransfer(db, call, code);
    SameCodesAgree(db.settlements, r.settlements, db.posted);
    if call.notice.Succeeded? {
      assert r.posted == db.posted;
    } else {
      ReturnedCodes(r.settlements, db.posted, Returned(call.settlement, db.settlements[call.settlement].amount));
    }
  }

  lemma TransferAgreesExactlyWhenItBelongs(db: Db, call: Call, code: nat)
    requires TransfersAgree(db) && InitiationsKnown(db) && IsTransferCall(call) && call.settlement < |db.settlements|
    requires call.Attempting? ==> KnownInitiation(db.settlements, call.settlement, call.initiation)
    ensures TransfersAgree(WriteTransfer(db, call, code)) <==> Belongs(db.settlements[call.settlement], call)
  {
    if call.Attempting? {
      CommitAgreesExactlyWhenItBelongs(db, call, code);
    } else if call.Handling? {
      NoticeAgrees(db, call, code);
    } else {
      NewInitiationAgrees(db, call, code);
    }
  }

  lemma GenerationKeepsTransfers(db: Db, company: string, lines: seq<SettlementLine>)
    requires TransfersAgree(db) && InitiationsKnown(db) && !LinesTaken(db.lines, lines)
    ensures TransfersAgree(WriteGeneration(db, company, lines))
  {
    var r := WriteGeneration(db, company, lines);
    CodeOfNone(db.posted, |db.settlements|, 0);
    forall s | 0 <= s < |r.settlements| ensures RowCodeAgrees(r.settlements, r.posted, s) {
      assert s < |db.settlements| ==> RowCodeAgrees(db.settlements, db.posted, s);
    }
  }

  lemma GenerationKeepsKnown(db: Db, company: string, lines: seq<SettlementLine>)
    requires InitiationsKnown(db)
    ensures InitiationsKnown(WriteGeneration(db, company, lines))
  {
    KnownStays(db.settlements, WriteGeneration(db, company, lines).settlements);
  }

  lemma KnownStays(before: seq<Settlement>, after: seq<Settlement>)
    requires |before| <= |after|
    requires forall s :: 0 <= s < |before| ==> before[s].initiations <= after[s].initiations
    ensures forall s: nat, initiation: nat ::
              KnownInitiation(before, s, initiation) ==> KnownInitiation(after, s, initiation)
  {
  }

  /** Settlements and their log are what only transfer calls, generation and two updates touch. */
  predicate TouchesSettlements(db: Db, event: Event)
    requires Ready(db)
  {
    || IsGeneration(db, event) || event.BankLinked? || event.GaveUp?
    || (IsTransferWrite(db, event))
  }

  lemma ContractEventLeavesSettlements(db: Db, event: Event)
    requires Linked(db) && IsContractEvent(event)
    ensures var r := StepContract(db, event);
            r.settlements == db.settlements && r.posted == db.posted && r.calls == db.calls
  {
  }

  lemma OthersLeaveSettlements(db: Db, event: Event)
    requires Ready(db) && !TouchesSettlements(db, event)
    ensures Step(db, event).settlements == db.settlements && Step(db, event).posted == db.posted
  {
    if IsContractEvent(event) {
      ContractEventLeavesSettlements(db, event);
    }
  }

  lemma AttemptsAreKnown(db: Db, event: Event)
    requires Ready(db) && InitiationsKnown(db) && !TouchesSettlements(db, event)
    ensures InitiationsKnown(Step(db, event))
  {
    OthersLeaveSettlements(db, event);
    if IsContractEvent(event) {
      ContractEventLeavesSettlements(db, event);
    }
  }

  lemma WrittenTransferStep(db: Db, k: nat, code: nat)
    requires Ready(db) && k < |db.calls| && IsTransferCall(db.calls[k])
    ensures db.calls[k].settlement < |db.settlements|
    ensures Step(db, Written(k, code)) == WriteTransfer(Advanced(db, k), db.calls[k], code)
  {
    assert CallFits(db, db.calls[k]);
  }

  lemma TransferKeepsKnown(db: Db, call: Call, code: nat)
    requires InitiationsKnown(db) && IsTransferCall(call) && call.settlement < |db.settlements|
    requires call.Attempting? ==> KnownInitiation(db.settlements, call.settlement, call.initiation)
    ensures InitiationsKnown(WriteTransfer(db, call, code))
  {
    KnownStays(db.settlements, WriteTransfer(db, call, code).settlements);
  }

  /** Under any events at all, initiations stay known. */
  lemma StepKeepsKnown(db: Db, event: Event)
    requires Ready(db) && InitiationsKnown(db)
    ensures InitiationsKnown(Step(db, event))
  {
    if IsGeneration(db, event) {
      GenerationStep(db, event);
      GenerationKeepsKnown(Advanced(db, event.call), db.calls[event.call].company, db.calls[event.call].lines);
    } else if IsTransferWrite(db, event) {
      WrittenTransferStep(db, event.call, event.code);
      TransferKeepsKnown(Advanced(db, event.call), db.calls[event.call], event.code);
    } else if event.BankLinked? || event.GaveUp? {
      KnownStays(db.settlements, Step(db, event).settlements);
    } else {
      AttemptsAreKnown(db, event);
    }
  }

  lemma {:induction false} KnownInEveryRun(events: seq<Event>)
    ensures InitiationsKnown(Run(EMPTY_DB, events))
  {
    if events != [] {
      var n := |events| - 1;
      KnownInEveryRun(events[..n]);
      StepKeepsKnown(Run(EMPTY_DB, events[..n]), events[n]);
    }
  }

  /**
   Of all events only the commit of an attempt and the queueing of a settlement can post an initiation twice or
   out of order, or leave a row with another initiation's code, and they do so exactly when the initiation is over
   or the row has a code.
   */
  lemma StepAgreesExactlyWhenItBelongs(db: Db, event: Event)
    requires Ready(db) && TransfersAgree(db) && InitiationsKnown(db)
    ensures TransfersAgree(Step(db, event)) <==> WriteBelongs(db, event)
  {
    if IsGeneration(db, event) {
      GenerationStep(db, event);
      GenerationKeepsTransfers(Advanced(db, event.call), db.calls[event.call].company, db.calls[event.call].lines);
    } else if IsTransferWrite(db, event) {
      WrittenTransferStep(db, event.call, event.code);
      TransferAgreesExactlyWhenItBelongs(Advanced(db, event.call), db.calls[event.call], event.code);
    } else if event.BankLinked? || event.GaveUp? {
      SameCodesAgree(db.settlements, Step(db, event).settlements, db.posted);
    } else {
      OthersLeaveSettlements(db, event);
    }
  }

  // ---- Attempts that do not overlap ----

  /** What another write on the settlement leaves of the standing of a call that waits. */
  predicate StandsAfter(stands: bool, call: Call, write: Call)
    requires IsTransferCall(write)
  {
    if call.Attempting? then stands && write.Handling?
    else if call.Queueing? then write.Retrying? || (stands && !write.Attempting?)
    else stands
  }

  /** What a step leaves of a call that waits. */
  predicate StandsAfterStep(db: Db, event: Event, c: nat, stands: bool)
    requires c < |db.calls|
  {
    if IsTransferWrite(db, event) && event.call != c && IsTransferCall(db.calls[c])
       && db.calls[event.call].settlement == db.calls[c].settlement
    then StandsAfter(stands, db.calls[c], db.calls[event.call])
    else stands
  }

  /**
   Call `c` still stands.  An attempt does while no other has committed and no new initiation has begun since it
   looked at its settlement, a queueing while no attempt has committed since, or a retry has forgotten the code.
   */
  predicate Undisturbed(db: Db, events: seq<Event>, c: nat)
    requires Sound(db)
  {
    if events == [] then true
    else
      var n := |events| - 1;
      var before := Run(db, events[..n]);
      |before.calls| <= c || StandsAfterStep(before, events[n], c, Undisturbed(db, events[..n], c))
  }

  /** Queueings and attempts of one settlement do not overlap, however many there are and however many never write. */
  predicate AttemptsApart(db: Db, events: seq<Event>)
    requires Sound(db)
  {
    if events == [] then true
    else
      var n := |events| - 1;
      AttemptsApart(db, events[..n])
      && (IsTransferWrite(Run(db, events[..n]), events[n]) && NeedsNoCode(Run(db, events[..n]).calls[events[n].call])
          ==> Undisturbed(db, events[..n], events[n].call))
  }

  predicate NeedsNoCode(call: Call) {
    call.Queueing? || call.Attempting?
  }

  /** A call that queues or attempts has just found the settlement without a code, and its initiation current. */
  lemma NewCallBelongs(db: Db, event: Event, c: nat)
    requires ContractRows(db) && InitiationsKnown(db)
    requires |db.calls| <= c < |Step(db, event).calls| && NeedsNoCode(Step(db, event).calls[c])
    ensures Ready(Step(db, event))
    ensures var r := Step(db, event);
            CallFits(r, r.calls[c]) && Belongs(r.settlements[r.calls[c].settlement], r.calls[c])
  {
    StepKeepsReady(db, event);
    CallsAfter(db, event);
    assert IsCheck(event) && c == |db.calls| && Step(db, event).calls[c] == Checked(db, event);
    assert CallFits(Step(db, event), Step(db, event).calls[c]);
    var s := Checked(db, event).settlement;
    assert RowKnown(db.settlements[s]);
  }

  lemma RowStillBelongs(row: Settlement, call: Call, write: Call, code: nat)
    requires NeedsNoCode(call) && IsTransferCall(write) && (call.Attempting? ==> call.initiation <= row.initiations)
    ensures Belongs(RowAfter(row, write, code), call) <==> StandsAfter(Belongs(row, call), call, write)
  {
  }

  /** The settlement of a waiting call, after a step that writes to a settlement. */
  lemma WaitingThroughWrite(db: Db, event: Event, c: nat)
    requires Ready(db) && InitiationsKnown(db) && IsTransferWrite(db, event)
    requires c < |db.calls| && c != event.call && NeedsNoCode(db.calls[c]) && CallFits(db, db.calls[c])
    ensures var s := db.calls[c].settlement;
            s < |Step(db, event).settlements|
            && (Belongs(Step(db, event).settlements[s], db.calls[c])
                <==> StandsAfterStep(db, event, c, Belongs(db.settlements[s], db.calls[c])))
  {
    var write := db.calls[event.call];
    WrittenTransferStep(db, event.call, event.code);
    if write.settlement == db.calls[c].settlement {
      RowStillBelongs(db.settlements[write.settlement], db.calls[c], write, event.code);
    }
  }

  /** Any other step leaves initiations and codes alone. */
  lemma WaitingThroughOther(db: Db, event: Event, s: nat)
    requires Ready(db) && !IsTransferWrite(db, event) && s < |db.settlements|
    ensures var r := Step(db, event);
            && s < |r.settlements|
            && r.settlements[s].initiations == db.settlements[s].initiations
            && r.settlements[s].transferCode == db.settlements[s].transferCode
  {
    if !TouchesSettlements(db, event) {
      OthersLeaveSettlements(db, event);
    }
  }

  lemma WaitingCall(db: Db, event: Event, c: nat)
    requires Ready(db) && InitiationsKnown(db) && c < |db.calls|
    requires c < |Step(db, event).calls| && NeedsNoCode(Step(db, event).calls[c])
    ensures Step(db, event).calls[c] == db.calls[c] && CallFits(db, db.calls[c])
    ensures var s := db.calls[c].settlement;
            s < |Step(db, event).settlements|
            && (Belongs(Step(db, event).settlements[s], db.calls[c])
                <==> StandsAfterStep(db, event, c, Belongs(db.settlements[s], db.calls[c])))
  {
    CallsAfter(db, event);
    assert CallFits(db, db.calls[c]);
    if IsTransferWrite(db, event) {
      WaitingThroughWrite(db, event, c);
    } else {
      WaitingThroughOther(db, event, db.calls[c].settlement);
    }
  }

  /** The checks hold over until the write exactly as long as the call stands: looking again would tell no more. */
  lemma {:induction false} BelongsExactlyWhenUndisturbed(events: seq<Event>, c: nat)
    requires c < |Run(EMPTY_DB, events).calls| && NeedsNoCode(Run(EMPTY_DB, events).calls[c])
    ensures var db := Run(EMPTY_DB, events);
            CallFits(db, db.calls[c])
            && (Belongs(db.settlements[db.calls[c].settlement], db.calls[c]) <==> Undisturbed(EMPTY_DB, events, c))
  {
    if events != [] {
      var n := |events| - 1;
      var before := Run(EMPTY_DB, events[..n]);
      KnownInEveryRun(events[..n]);
      if |before.calls| <= c {
        NewCallBelongs(before, events[n], c);
      } else {
        WaitingCall(before, events[n], c);
        BelongsExactlyWhenUndisturbed(events[..n], c);
      }
    }
  }

  predicate AgreesThroughout(db: Db, events: seq<Event>)
    requires Sound(db)
  {
    TransfersAgree(Run(db, events)) && (events == [] || AgreesThroughout(db, events[..|events| - 1]))
  }

  /**
   Whatever crashes, is retried or given up, and whatever webhooks arrive and when: initiations are posted in order
   and at most once, and the code is there exactly when the current one is posted, all along the run, if and only if
   every attempt and every queueing still stands when it is written.
   */
  lemma {:induction false} SettlementsPostAtMostOnce(events: seq<Event>)
    ensures AgreesThroughout(EMPTY_DB, events) <==> AttemptsApart(EMPTY_DB, events)
  {
    if events != [] {
      var n := |events| - 1;
      var before := Run(EMPTY_DB, events[..n]);
      SettlementsPostAtMostOnce(events[..n]);
      if AgreesThroughout(EMPTY_DB, events[..n]) {
        KnownInEveryRun(events[..n]);
        StepAgreesExactlyWhenItBelongs(before, events[n]);
        if IsTransferWrite(before, events[n]) && NeedsNoCode(before.calls[events[n].call]) {
          BelongsExactlyWhenUndisturbed(events[..n], events[n].call);
        }
      }
    }
  }

  // ---- The log is what the journal says ----

  function SentCount(posted: seq<TransferPosting>, s: nat): nat {
    if posted == [] then 0
    else
      var n := |posted| - 1;
      SentCount(posted[..n], s) + (if posted[n].Sent? && posted[n].settlement == s then 1 else 0)
  }

  lemma SentCountAppend(posted: seq<TransferPosting>, added: TransferPosting, s: nat)
    ensures SentCount(posted + [added], s)
         == SentCount(posted, s) + (if added.Sent? && added.settlement == s then 1 else 0)
  {
    assert (posted + [added])[..|posted|] == posted;
  }

  /** Two journal lines under SETTLEMENT_TRANSFER_INIT_s for every sending of s in the log. */
  ghost predicate LogIsJournal(db: Db) {
    && WellFormed(db.books)
    && forall s: nat ::
         LinesUnder(db.books.journal, db.books.transactions, Reference(SETTLEMENT_INIT, s))
         == 2 * SentCount(db.posted, s)
  }

  /** The lines a posting, if there is one, adds under the transfer reference of a settlement. */
  function LinesAdded(posting: Option<Posting>, s: nat): nat {
    if posting.Some? && Balanced(posting.value.entries) && posting.value.reference == Reference(SETTLEMENT_INIT, s)
    then |posting.value.entries| else 0
  }

  lemma TransferAddsLines(row: Settlement, call: Call, code: nat, posted: seq<TransferPosting>, s: nat)
    requires IsTransferCall(call)
    ensures 2 * SentCount(posted + TransferLog(row, call, code), s)
         == 2 * SentCount(posted, s) + LinesAdded(TransferPostingOf(row, call), s)
  {
    var entries := TransferLog(row, call, code);
    if call.Attempting? {
      PairBalances(SentPosting(call.settlement, row).entries, PAYABLE, PAYOUTS_IN_TRANSIT, row.amount, "");
      SentCountAppend(posted, entries[0], s);
    } else if call.Handling? && !call.notice.Succeeded? {
      SentCountAppend(posted, entries[0], s);
    } else {
      assert posted + entries == posted;
    }
  }

  lemma StepAddsLines(db: Db, event: Event, s: nat)
    requires ContractRows(db)
    ensures 2 * SentCount(Step(db, event).posted, s)
         == 2 * SentCount(db.posted, s) + LinesAdded(PostingOf(db, event), s)
  {
    StepBooks(db, event);
    if IsTransferWrite(db, event) {
      var call := db.calls[event.call];
      WrittenTransferStep(db, event.call, event.code);
      TransferAddsLines(db.settlements[call.settlement], call, event.code, db.posted, s);
    } else {
      assert db.posted + LogOf(db, event) == db.posted;
    }
  }

  lemma StepKeepsLog(db: Db, event: Event)
    requires ContractRows(db) && LogIsJournal(db)
    ensures LogIsJournal(Step(db, event))
  {
    var posting := PostingOf(db, event);
    StepBooks(db, event);
    if posting.Some? {
      PostKeepsDrift(db.books, posting.value);
    }
    var r := Step(db, event);
    forall s: nat
      ensures LinesUnder(r.books.journal, r.books.transactions, Reference(SETTLEMENT_INIT, s))
           == 2 * SentCount(r.posted, s)
    {
      StepAddsLines(db, event, s);
      if posting.Some? {
        PostLinesUnder(db.books, posting.value, Reference(SETTLEMENT_INIT, s));
      }
    }
  }

  /** In every run, whatever happens and however often, the log has exactly the transfer pairs of the journal. */
  lemma {:induction false} LogIsAlwaysJournal(events: seq<Event>)
    ensures LogIsJournal(Run(EMPTY_DB, events))
  {
    if events != [] {
      var n := |events| - 1;
      LogIsAlwaysJournal(events[..n]);
      StepKeepsLog(Run(EMPTY_DB, events[..n]), events[n]);
    }
  }

  lemma {:induction false} CountInOrder(posted: seq<TransferPosting>, s: nat, n: nat)
    requires InOrder(posted)
    requires forall k :: 0 <= k < |posted| && posted[k].Sent? && posted[k].settlement == s ==>
               1 <= posted[k].initiation <= n
    ensures SentCount(posted, s) <= n
  {
    if posted != [] {
      var last := posted[|posted| - 1];
      CountInOrder(posted[..|posted| - 1], s, if last.Sent? && last.settlement == s then last.initiation - 1 else n);
    }
  }

  /** In the journal itself: at most one transfer pair of a settlement per initiation of it. */
  lemma OnePairPerInitiation(db: Db, s: nat)
    requires TransfersAgree(db) && InitiationsKnown(db) && LogIsJournal(db) && s < |db.settlements|
    ensures LinesUnder(db.books.journal, db.books.transactions, Reference(SETTLEMENT_INIT, s))
         <= 2 * db.settlements[s].initiations
  {
    CountInOrder(db.posted, s, db.settlements[s].initiations);
  }

  // ---- What a failed or reversed transfer gives back ----

  lemma ReturnedPosition(db: Db, s: nat, notice: Notice, account: string, tenant: Tenant)
    requires s < |db.settlements| && !notice.Succeeded?
    ensures var row := db.settlements[s];
            Position(WriteTransfer(db, Handling(s, notice), 0).books, account, tenant)
            == Position(db.books, account, tenant)
               + (if tenant != TenantOf(Some(row.company)) then 0.0
                  else if notice.Failed? then PairPart(PAYOUTS_IN_TRANSIT, PAYABLE, row.amount, account)
                  else PairPart(BANK_SETTLED, PAYABLE, row.amount, account))
  {
    var call := Handling(s, notice);
    TransferMoves(db.settlements[s], call, account, tenant);
    PostIfAnyPosition(db.books, TransferPostingOf(db.settlements[s], call), account, tenant);
  }

  lemma HandledTwice(db: Db, s: nat, notice: Notice)
    requires Ready(db) && s < |db.settlements|
    ensures var r := WriteTransfer(db, Handling(s, notice), 0);
            Ready(r) && Step(r, NoticeChecked(s, notice)) == r
  {
    var r := WriteTransfer(db, Handling(s, notice), 0);
    forall k | 0 <= k < |r.calls| ensures CallFits(r, r.calls[k]) {
      CallStillFits(db, r, db.calls[k]);
    }
  }

  /**
   A notice of failure or reversal owes the merchant the settlement's amount again, to the cent and on its
   company alone, in the ledger and in the tables; a second delivery that looks after that changes nothing.
   */
  lemma ReturnOwesTheAmountAgain(db: Db, s: nat, notice: Notice, tenant: Tenant)
    requires Sound(db) && s < |db.settlements| && !notice.Succeeded?
    ensures var r := WriteTransfer(db, Handling(s, notice), 0);
            var row := db.settlements[s];
            var change := if tenant == TenantOf(Some(row.company)) then row.amount else 0.0;
            && Ready(r)
            && Position(r.books, PAYABLE, tenant) == Position(db.books, PAYABLE, tenant) - change
            && Position(r.books, if notice.Failed? then PAYOUTS_IN_TRANSIT else BANK_SETTLED, tenant)
               == Position(db.books, if notice.Failed? then PAYOUTS_IN_TRANSIT else BANK_SETTLED, tenant) + change
            && PayableDue(r, tenant) == PayableDue(db, tenant) + change
            && r.settlements == db.settlements[s := row.(status := NoticeStatus(notice))]
            && Step(r, NoticeChecked(s, notice)) == r
  {
    HandledTwice(db, s, notice);
    ReturnedPosition(db, s, notice, PAYABLE, tenant);
    ReturnedPosition(db, s, notice, if notice.Failed? then PAYOUTS_IN_TRANSIT else BANK_SETTLED, tenant);
    TransferMoves(db.settlements[s], Handling(s, notice), PAYABLE, tenant);
    TransferCallKeepsPayable(db, Handling(s, notice), 0, tenant);
  }

  // ---- Writes that come in time ----

  predicate InTransit(row: Settlement) {
    row.status.TransferInitiated? && row.transferCode.Some?
  }

  /** The money of the current initiation is on its way or has arrived. */
  predicate Holds(row: Settlement) {
    row.transferCode.Some? && (row.status.TransferInitiated? || row.status.TransferSuccess?)
  }

  /**
   The check behind a write still holds when it is made; webhooks report success and failure of a transfer
   under way, and the reversal of one that succeeded.
   */
  predicate CallTimely(row: Settlement, call: Call)
    requires IsTransferCall(call)
  {
    match call
    case Queueing(_) => row.status.Approved? && !row.everInitiated
    case Retrying(_) => Retryable(row)
    case Attempting(_, initiation) => Attemptable(row) && initiation == row.initiations
    case Handling(_, notice) => if notice.Reversed? then row.status.TransferSuccess? else InTransit(row)
  }

  predicate Timely(db: Db, event: Event)
    requires Ready(db)
  {
    match event
    case GaveUp(s) =>
      s < |db.settlements| ==> db.settlements[s].status.TransferInitiated? && db.settlements[s].transferCode.None?
    case Written(k, _) =>
      k < |db.calls| && IsTransferCall(db.calls[k]) ==>
        assert CallFits(db, db.calls[k]);
        CallTimely(db.settlements[db.calls[k].settlement], db.calls[k])
    case _ => true
  }

  predicate AllTimely(db: Db, events: seq<Event>)
    requires Sound(db)
  {
    events == [] ||
    (AllTimely(db, events[..|events| - 1]) && Timely(Run(db, events[..|events| - 1]), events[|events| - 1]))
  }

  lemma TimelyMore(db: Db, events: seq<Event>, event: Event)
    requires Sound(db) && AllTimely(db, events) && Timely(Run(db, events), event)
    ensures AllTimely(db, events + [event])
  {
    assert (events + [event])[..|events|] == events;
  }

  /** What was cleared of a settlement is all of it or nothing. */
  predicate ClearedWhole(settlements: seq<Settlement>, posted: seq<TransferPosting>, s: nat)
    requires s < |settlements|
  {
    var row := settlements[s];
    && (row.status.Generated? || row.status.Approved? ==> row.transferCode.None?)
    && (row.status.TransferSuccess? ==> row.transferCode.Some?)
    && Cleared(posted, s) == if Holds(row) then row.amount else 0.0
  }

  predicate AllClearedWhole(db: Db) {
    forall s :: 0 <= s < |db.settlements| ==> ClearedWhole(db.settlements, db.posted, s)
  }

  /** A timely write leaves the row it is about wholly cleared or not at all. */
  lemma TimelyRow(row: Settlement, call: Call, code: nat, cleared: Money)
    requires IsTransferCall(call) && CallTimely(row, call)
    requires row.status.Generated? || row.status.Approved? ==> row.transferCode.None?
    requires row.status.TransferSuccess? ==> row.transferCode.Some?
    requires cleared == if Holds(row) then row.amount else 0.0
    ensures var after := RowAfter(row, call, code);
            && (after.status.Generated? || after.status.Approved? ==> after.transferCode.None?)
            && (after.status.TransferSuccess? ==> after.transferCode.Some?)
            && cleared + ClearedChange(row, call) == if Holds(after) then after.amount else 0.0
  {
  }

  lemma TransferKeepsWhole(db: Db, call: Call, code: nat)
    requires AllClearedWhole(db) && IsTransferCall(call) && call.settlement < |db.settlements|
    requires CallTimely(db.settlements[call.settlement], call)
    ensures AllClearedWhole(WriteTransfer(db, call, code))
  {
    var s := call.settlement;
    var r := WriteTransfer(db, call, code);
    assert ClearedWhole(db.settlements, db.posted, s);
    TimelyRow(db.settlements[s], call, code, Cleared(db.posted, s));
    forall t | 0 <= t < |r.settlements| ensures ClearedWhole(r.settlements, r.posted, t) {
      assert ClearedWhole(db.settlements, db.posted, t);
      LogClears(db.posted, db.settlements[s], call, code, t);
    }
  }

  lemma GenerationKeepsWhole(db: Db, company: string, lines: seq<SettlementLine>)
    requires AllClearedWhole(db) && PostedRows(db) && !LinesTaken(db.lines, lines)
    ensures AllClearedWhole(WriteGeneration(db, company, lines))
  {
    NothingCleared(db.posted, |db.settlements|);
    var r := WriteGeneration(db, company, lines);
    forall t | 0 <= t < |r.settlements| ensures ClearedWhole(r.settlements, r.posted, t) {
      assert t < |db.settlements| ==> ClearedWhole(db.settlements, db.posted, t);
    }
  }

  lemma UpdateKeepsWhole(db: Db, s: nat, row: Settlement)
    requires AllClearedWhole(db) && s < |db.settlements| && row.amount == db.settlements[s].amount
    requires Holds(row) == Holds(db.settlements[s])
    requires row.status.Generated? || row.status.Approved? ==> row.transferCode.None?
    requires row.status.TransferSuccess? ==> row.transferCode.Some?
    ensures AllClearedWhole(Put(db, s, row))
  {
    var r := Put(db, s, row);
    assert ClearedWhole(db.settlements, db.posted, s);
    forall t | 0 <= t < |r.settlements| ensures ClearedWhole(r.settlements, r.posted, t) {
      assert ClearedWhole(db.settlements, db.posted, t);
    }
  }

  lemma StepKeepsWhole(db: Db, event: Event)
    requires Ready(db) && PostedRows(db) && AllClearedWhole(db) && Timely(db, event)
    ensures AllClearedWhole(Step(db, event))
  {
    if IsGeneration(db, event) {
      GenerationStep(db, event);
      GenerationKeepsWhole(Advanced(db, event.call), db.calls[event.call].company, db.calls[event.call].lines);
    } else if IsTransferWrite(db, event) {
      WrittenTransferStep(db, event.call, event.code);
      TransferKeepsWhole(Advanced(db, event.call), db.calls[event.call], event.code);
    } else if event.BankLinked? || event.GaveUp? {
      if event.settlement < |db.settlements| {
        assert ClearedWhole(db.settlements, db.posted, event.settlement);
        UpdateKeepsWhole(db, event.settlement, Step(db, event).settlements[event.settlement]);
      }
    } else {
      OthersLeaveSettlements(db, event);
    }
  }

  /** What comes in time belongs. */
  lemma TimelyWritesBelong(db: Db, event: Event)
    requires Ready(db) && InitiationsKnown(db) && Timely(db, event)
    ensures WriteBelongs(db, event)
  {
    if IsTransferWrite(db, event) {
      assert CallFits(db, db.calls[event.call]);
      assert RowKnown(db.settlements[db.calls[event.call].settlement]);
    }
  }

  /** In timely runs attempts do not overlap: initiations are posted in order, each at most once. */
  lemma {:induction false} TimelyRunsAgree(events: seq<Event>)
    requires AllTimely(EMPTY_DB, events)
    ensures TransfersAgree(Run(EMPTY_DB, events))
    ensures AgreesThroughout(EMPTY_DB, events) && AttemptsApart(EMPTY_DB, events)
  {
    if events != [] {
      var n := |events| - 1;
      var before := Run(EMPTY_DB, events[..n]);
      TimelyRunsAgree(events[..n]);
      KnownInEveryRun(events[..n]);
      TimelyWritesBelong(before, events[n]);
      StepAgreesExactlyWhenItBelongs(before, events[n]);
    }
    SettlementsPostAtMostOnce(events);
  }

  lemma {:induction false} PostedRowsInEveryRun(events: seq<Event>)
    ensures PostedRows(Run(EMPTY_DB, events))
  {
    if events != [] {
      var n := |events| - 1;
      PostedRowsInEveryRun(events[..n]);
      StepKeepsPostedRows(Run(EMPTY_DB, events[..n]), events[n]);
    }
  }

  lemma {:induction false} RunsClearWhole(events: seq<Event>)
    requires AllTimely(EMPTY_DB, events)
    ensures AllClearedWhole(Run(EMPTY_DB, events))
  {
    if events != [] {
      var n := |events| - 1;
      RunsClearWhole(events[..n]);
      PostedRowsInEveryRun(events[..n]);
      StepKeepsWhole(Run(EMPTY_DB, events[..n]), events[n]);
    }
  }

  /** The settlements of a tenant whose transfer is not currently posted. */
  function UnpaidColumn(settlements: seq<Settlement>, tenant: Tenant): (column: seq<Money>)
    ensures |column| == |settlements|
  {
    seq(|settlements|, s requires 0 <= s < |settlements| =>
      if TenantOf(Some(settlements[s].company)) == tenant && !Holds(settlements[s])
      then settlements[s].amount else 0.0)
  }

  lemma WholeIsUnpaid(db: Db, tenant: Tenant)
    requires AllClearedWhole(db)
    ensures OwedColumn(db, tenant) == UnpaidColumn(db.settlements, tenant)
  {
    forall s | 0 <= s < |db.settlements|
      ensures OwedColumn(db, tenant)[s] == UnpaidColumn(db.settlements, tenant)[s]
    {
      assert ClearedWhole(db.settlements, db.posted, s);
    }
  }

  lemma WholePayable(db: Db, tenant: Tenant)
    requires Kept(db) && AllClearedWhole(db)
    ensures StoredBalance(db.books, PAYABLE, tenant)
         == Sum(UnsettledColumn(db, tenant)) + Sum(UnpaidColumn(db.settlements, tenant))
  {
    KeptPayable(db, tenant);
    WholeIsUnpaid(db, tenant);
  }

  /**
   When writes are timely, MERCHANT_PAYABLE is the net of the paid but unsettled instalments plus the
   settlements whose transfer is not currently posted.
   */
  lemma PayableIsWhatIsNotYetTransferred(events: seq<Event>, tenant: Tenant) returns (db: Db)
    requires AllPayOnce(EMPTY_DB, events) && AllTimely(EMPTY_DB, events)
    ensures db == Run(EMPTY_DB, events)
    ensures StoredBalance(db.books, PAYABLE, tenant)
         == Sum(UnsettledColumn(db, tenant)) + Sum(UnpaidColumn(db.settlements, tenant))
  {
    db := Run(EMPTY_DB, events);
    KeptInEveryRun(events);
    RunsClearWhole(events);
    WholePayable(db, tenant);
  }

  // ---- The bank account of a settlement ----

  predicate NothingSent(db: Db) {
    && (forall s :: 0 <= s < |db.settlements| ==> !db.settlements[s].bankLinked && db.settlements[s].transferCode.None?)
    && (forall k :: 0 <= k < |db.posted| ==> db.posted[k].Returned?)
    && (forall k :: 0 <= k < |db.calls| ==> !db.calls[k].Attempting?)
  }

  lemma QuietStepSendsNothing(db: Db, event: Event)
    requires Ready(db) && NothingSent(db) && !TouchesSettlements(db, event)
    ensures NothingSent(Step(db, event))
  {
    OthersLeaveSettlements(db, event);
    if IsContractEvent(event) {
      ContractEventLeavesSettlements(db, event);
    }
  }

  lemma StepSendsNothing(db: Db, event: Event)
    requires Ready(db) && NothingSent(db) && !event.BankLinked?
    ensures NothingSent(Step(db, event))
  {
    if !TouchesSettlements(db, event) {
      QuietStepSendsNothing(db, event);
    } else if IsTransferWrite(db, event) {
      WrittenTransferStep(db, event.call, event.code);
    } else if IsGeneration(db, event) {
      GenerationStep(db, event);
    }
  }

  /**
   No code of the repository links a bank account to a settlement, and the worker refuses one without:
   unless something else links it, no settlement transfer is ever posted, whatever is queued or retried.
   */
  lemma {:induction false} UnlinkedSettlementsAreNeverSent(events: seq<Event>)
    requires forall k :: 0 <= k < |events| ==> !events[k].BankLinked?
    ensures NothingSent(Run(EMPTY_DB, events))
  {
    if events != [] {
      var n := |events| - 1;
      UnlinkedSettlementsAreNeverSent(events[..n]);
      StepSendsNothing(Run(EMPTY_DB, events[..n]), events[n]);
    }
  }
}
