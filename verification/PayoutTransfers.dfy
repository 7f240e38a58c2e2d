/** The transfer of a payout: which postings an event makes, and that no initiation is posted twice. */
module PayoutTransfers {
  import opened Common
  import opened Ledger
  import opened LedgerProofs
  import opened Payouts
  import opened PayoutPlans
  import opened PayoutProofs

  // ---- Every step posts once or not at all ----

  function PostingOfCall(t: Tables, call: Call): Option<Posting>
    requires CallFits(t, call)
  {
    match call
    case Attempting(p, _) => Some(InitiationPosting(p, t.payouts[p]))
    case Handling(p, notice, _) => Some(NoticePosting(notice, p, t.payouts[p]))
    case _ => None
  }

  function PostingOf(t: Tables, event: Event): Option<Posting>
    requires Ready(t)
  {
    if event.Written? && event.call < |t.calls| then PostingOfCall(t, t.calls[event.call]) else None
  }

  lemma RequestFrame(t: Tables, user: nat, amount: Money)
    requires MayRequest(t, user, amount)
    ensures var r := Request(t, user, amount);
            && r.payouts == WithPayout(t, user, amount).payouts
            && r.posted == t.posted && r.books == t.books && r.users == t.users && r.calls == t.calls
            && r.allocations == t.allocations
               + Reservations(|t.payouts|, Plan(t.commissions, EligibleIds(t.commissions, user), amount))
  {
    var plan := Plan(t.commissions, EligibleIds(t.commissions, user), amount);
    ReserveSharesFrame(WithPayout(t, user, amount), |t.payouts|, plan);
  }

  // ---- What a write does to the payout table ----

  predicate IsAboutRow(call: Call) {
    !call.Requesting? && !call.Finished?
  }

  function RowAfter(row: Payout, call: Call, code: nat): Payout
    requires IsAboutRow(call)
  {
    match call
    case AdminApproving(_, _) => row.(status := PendingCompanyApproval)
    case CompanyApproving(_, _) => row.(status := Approved)
    case Preparing(_, _) => row.(status := Approved)
    case Starting(_) => row.(status := TransferInitiated, transferCode := None, initiations := row.initiations + 1)
    case Attempting(_, _) => row.(transferCode := Some(code))
    case Handling(_, notice, _) => row.(status := NoticeStatus(notice))
  }

  /** A write changes the row it is about, or adds one. */
  lemma WriteRows(t: Tables, call: Call, code: nat)
    requires ValidAllocations(t) && CallFits(t, call)
    ensures var r := WriteCall(t, call, code);
            && r.users == t.users && r.calls == t.calls
            && r.posted == (if call.Attempting? then t.posted + [PostedTransfer(call.payout, call.initiation, code)]
                            else t.posted)
            && r.payouts == if IsAboutRow(call)
                            then t.payouts[call.payout := RowAfter(t.payouts[call.payout], call, code)]
                            else if call.Requesting? && MayRequest(t, call.user, call.amount)
                            then WithPayout(t, call.user, call.amount).payouts
                            else t.payouts
  {
    if call.Requesting? && MayRequest(t, call.user, call.amount) {
      RequestFrame(t, call.user, call.amount);
    }
  }

  lemma WritePosts(t: Tables, call: Call, code: nat)
    requires ValidAllocations(t) && CallFits(t, call)
    ensures WriteCall(t, call, code).books == PostIfAny(t.books, PostingOfCall(t, call))
  {
    if call.Requesting? && MayRequest(t, call.user, call.amount) {
      RequestFrame(t, call.user, call.amount);
    }
  }

  lemma StepPosts(t: Tables, event: Event)
    requires Structured(t)
    ensures Step(t, event).books == PostIfAny(t.books, PostingOf(t, event))
  {
    if event.Written? && event.call < |t.calls| {
      AdvancedKeepsStructured(t, event.call);
      WritePosts(Advanced(t, event.call), t.calls[event.call], event.code);
    }
  }

  // ---- The code and the current initiation ----

  /** The code with which the pair of an initiation was posted. */
  function CodeOf(posted: seq<PostedTransfer>, p: nat, initiation: nat): Option<nat> {
    if posted == [] then None
    else
      var n := |posted| - 1;
      if posted[n].payout == p && posted[n].initiation == initiation then Some(posted[n].code)
      else CodeOf(posted[..n], p, initiation)
  }

  lemma CodeOfAppend(posted: seq<PostedTransfer>, added: PostedTransfer, p: nat, initiation: nat)
    ensures CodeOf(posted + [added], p, initiation)
         == if added.payout == p && added.initiation == initiation then Some(added.code)
            else CodeOf(posted, p, initiation)
  {
    assert (posted + [added])[..|posted|] == posted;
  }

  predicate IsPostingOf(entry: PostedTransfer, p: nat, initiation: nat) {
    entry.payout == p && entry.initiation == initiation
  }

  lemma {:induction false} CodeOfNone(posted: seq<PostedTransfer>, p: nat, initiation: nat)
    ensures CodeOf(posted, p, initiation).None? <==>
              forall k :: 0 <= k < |posted| ==> !IsPostingOf(posted[k], p, initiation)
  {
    if posted != [] {
      var n := |posted| - 1;
      CodeOfNone(posted[..n], p, initiation);
      assert IsPostingOf(posted[n], p, initiation) <==> posted[n].payout == p && posted[n].initiation == initiation;
    }
  }

  predicate RowCodeAgrees(t: Tables, p: nat)
    requires p < |t.payouts|
  {
    t.payouts[p].transferCode == CodeOf(t.posted, p, t.payouts[p].initiations)
  }

  /** The postings of a payout are in the order of its initiations, each at most once. */
  predicate InOrder(posted: seq<PostedTransfer>) {
    forall j, k :: 0 <= j < k < |posted| && posted[j].payout == posted[k].payout ==>
      posted[j].initiation < posted[k].initiation
  }

  predicate KnownInitiation(t: Tables, p: nat, initiation: nat) {
    p < |t.payouts| && 1 <= initiation <= t.payouts[p].initiations
  }

  /** Postings and attempts are of initiations there have been. */
  predicate InitiationsKnown(t: Tables) {
    && (forall p :: 0 <= p < |t.payouts| && t.payouts[p].status.TransferInitiated? ==> t.payouts[p].initiations > 0)
    && (forall k :: 0 <= k < |t.posted| ==> KnownInitiation(t, t.posted[k].payout, t.posted[k].initiation))
    && (forall k :: 0 <= k < |t.calls| && t.calls[k].Attempting? ==>
          KnownInitiation(t, t.calls[k].payout, t.calls[k].initiation))
  }

  /** A row's code is the one posted with its current initiation, and initiations are posted in order, each once. */
  predicate TransfersAgree(t: Tables) {
    (forall p :: 0 <= p < |t.payouts| ==> RowCodeAgrees(t, p)) && InOrder(t.posted)
  }

  /** At its commit an attempt of this initiation finds it current, and the row still without a code. */
  predicate Belongs(row: Payout, initiation: nat) {
    initiation == row.initiations && row.transferCode.None?
  }

  predicate IsCommit(t: Tables, event: Event) {
    event.Written? && event.call < |t.calls| && t.calls[event.call].Attempting?
  }

  predicate CommitBelongs(t: Tables, event: Event)
    requires Ready(t)
  {
    IsCommit(t, event) ==> Belongs(t.payouts[t.calls[event.call].payout], t.calls[event.call].initiation)
  }

  lemma AppendInOrder(posted: seq<PostedTransfer>, added: PostedTransfer)
    requires InOrder(posted)
    ensures InOrder(posted + [added]) <==>
              forall k :: 0 <= k < |posted| && posted[k].payout == added.payout ==>
                posted[k].initiation < added.initiation
  {
    var all := posted + [added];
    if InOrder(all) {
      forall k | 0 <= k < |posted| && posted[k].payout == added.payout
        ensures posted[k].initiation < added.initiation
      {
        assert all[k] == posted[k] && all[|posted|] == added;
      }
    }
  }

  lemma CommitAgreesExactlyWhenItBelongs(t: Tables, p: nat, initiation: nat, code: nat)
    requires TransfersAgree(t) && InitiationsKnown(t) && KnownInitiation(t, p, initiation)
    ensures TransfersAgree(CommitAttempt(t, p, initiation, code)) <==> Belongs(t.payouts[p], initiation)
  {
    var r := CommitAttempt(t, p, initiation, code);
    var added := PostedTransfer(p, initiation, code);
    var current := t.payouts[p].initiations;
    assert r.posted == t.posted + [added];
    forall q | 0 <= q < |t.payouts|
      ensures RowCodeAgrees(r, q) <==> q != p || initiation == current || t.payouts[p].transferCode == Some(code)
    {
      CodeOfAppend(t.posted, added, q, r.payouts[q].initiations);
      assert RowCodeAgrees(t, q);
    }
    CodeOfNone(t.posted, p, current);
    AppendInOrder(t.posted, added);
    if !Belongs(t.payouts[p], initiation) && t.payouts[p].transferCode.Some? {
      assert RowCodeAgrees(t, p);
      var k :| 0 <= k < |t.posted| && IsPostingOf(t.posted[k], p, current);
      assert !InOrder(r.posted);
    } else {
      assert RowCodeAgrees(t, p) && (RowCodeAgrees(r, p) <==> initiation == current);
    }
  }

  lemma StartForgets(t: Tables, p: nat)
    requires TransfersAgree(t) && InitiationsKnown(t) && p < |t.payouts|
    ensures TransfersAgree(StartTransfer(t, p)) && InitiationsKnown(StartTransfer(t, p))
  {
    var r := StartTransfer(t, p);
    CodeOfNone(t.posted, p, t.payouts[p].initiations + 1);
    forall q | 0 <= q < |r.payouts| ensures RowCodeAgrees(r, q) {
      assert RowCodeAgrees(t, q);
    }
  }

  lemma SameColumnsAgreeOnTransfers(t: Tables, r: Tables)
    requires r.posted == t.posted && |r.payouts| == |t.payouts|
    requires forall p :: 0 <= p < |t.payouts| ==>
               && r.payouts[p].transferCode == t.payouts[p].transferCode
               && r.payouts[p].initiations == t.payouts[p].initiations
    ensures TransfersAgree(r) <==> TransfersAgree(t)
  {
    assert forall p :: 0 <= p < |t.payouts| ==> (RowCodeAgrees(r, p) <==> RowCodeAgrees(t, p));
  }

  lemma RequestAgreesOnTransfers(t: Tables, user: nat, amount: Money)
    requires TransfersAgree(t) && InitiationsKnown(t) && MayRequest(t, user, amount)
    ensures TransfersAgree(Request(t, user, amount)) && InitiationsKnown(Request(t, user, amount))
  {
    var r := Request(t, user, amount);
    RequestFrame(t, user, amount);
    CodeOfNone(t.posted, |t.payouts|, 0);
    forall q | 0 <= q < |r.payouts| ensures RowCodeAgrees(r, q) {
      assert q < |t.payouts| ==> RowCodeAgrees(t, q);
    }
  }

  lemma WriteAgreesExactlyWhenItBelongs(t: Tables, call: Call, code: nat)
    requires Structured(t) && CallFits(t, call) && TransfersAgree(t) && InitiationsKnown(t)
    requires call.Attempting? ==> KnownInitiation(t, call.payout, call.initiation)
    ensures TransfersAgree(WriteCall(t, call, code)) <==>
              (call.Attempting? ==> Belongs(t.payouts[call.payout], call.initiation))
  {
    if call.Requesting? {
      if MayRequest(t, call.user, call.amount) {
        RequestAgreesOnTransfers(t, call.user, call.amount);
      }
    } else if call.Attempting? {
      CommitAgreesExactlyWhenItBelongs(t, call.payout, call.initiation, code);
    } else if call.Starting? {
      StartForgets(t, call.payout);
    } else {
      SameColumnsAgreeOnTransfers(t, WriteCall(t, call, code));
    }
  }

  lemma WriteKeepsKnown(t: Tables, call: Call, code: nat)
    requires ValidAllocations(t) && CallFits(t, call) && InitiationsKnown(t)
    requires call.Attempting? ==> KnownInitiation(t, call.payout, call.initiation)
    ensures InitiationsKnown(WriteCall(t, call, code))
  {
    var r := WriteCall(t, call, code);
    WriteRows(t, call, code);
    StaysKnown(t, r, call, code);
  }

  lemma StaysKnown(t: Tables, r: Tables, call: Call, code: nat)
    requires CallFits(t, call) && InitiationsKnown(t)
    requires call.Attempting? ==> KnownInitiation(t, call.payout, call.initiation)
    requires r.calls == t.calls
    requires r.posted == t.posted
             || (call.Attempting? && r.posted == t.posted + [PostedTransfer(call.payout, call.initiation, code)])
    requires r.payouts == t.payouts
             || (IsAboutRow(call)
                 && r.payouts == t.payouts[call.payout := RowAfter(t.payouts[call.payout], call, code)])
             || (call.Requesting? && MayRequest(t, call.user, call.amount)
                 && r.payouts == WithPayout(t, call.user, call.amount).payouts)
    ensures InitiationsKnown(r)
  {
    assert forall p: nat, initiation: nat :: KnownInitiation(t, p, initiation) ==> KnownInitiation(r, p, initiation);
  }

  lemma AdvancedKeepsTransfers(t: Tables, k: nat)
    requires InitiationsKnown(t) && k < |t.calls|
    ensures InitiationsKnown(Advanced(t, k))
    ensures TransfersAgree(Advanced(t, k)) <==> TransfersAgree(t)
  {
    SameColumnsAgreeOnTransfers(t, Advanced(t, k));
  }

  /** Under any events at all, initiations stay known. */
  lemma StepKeepsKnown(t: Tables, event: Event)
    requires Structured(t) && InitiationsKnown(t)
    ensures InitiationsKnown(Step(t, event))
  {
    if event.Written? && event.call < |t.calls| {
      AdvancedKeepsStructured(t, event.call);
      AdvancedKeepsTransfers(t, event.call);
      WriteKeepsKnown(Advanced(t, event.call), t.calls[event.call], event.code);
    }
  }

  lemma {:induction false} KnownInEveryRun(users: seq<User>, events: seq<Event>)
    ensures InitiationsKnown(Run(Start(users), events))
  {
    if events != [] {
      KnownInEveryRun(users, events[..|events| - 1]);
      StepKeepsKnown(Run(Start(users), events[..|events| - 1]), events[|events| - 1]);
    }
  }

  /**
   Of all events only the commit of an attempt can post an initiation twice or out of order, or leave a row with
   another initiation's code, and it does so exactly when the initiation is over or the row has a code.
   */
  lemma StepAgreesExactlyWhenItBelongs(t: Tables, event: Event)
    requires Structured(t) && TransfersAgree(t) && InitiationsKnown(t)
    ensures TransfersAgree(Step(t, event)) <==> CommitBelongs(t, event)
  {
    if event.Written? {
      if event.call < |t.calls| {
        AdvancedKeepsStructured(t, event.call);
        AdvancedKeepsTransfers(t, event.call);
        WriteAgreesExactlyWhenItBelongs(Advanced(t, event.call), t.calls[event.call], event.code);
      }
    } else {
      SameColumnsAgreeOnTransfers(t, Step(t, event));
    }
  }

  // ---- Attempts that do not overlap ----

  /** Another attempt of the same payout commits, or a new initiation of it begins, while attempt `c` is under way. */
  predicate Disturbs(t: Tables, event: Event, c: nat) {
    && event.Written? && event.call != c && event.call < |t.calls| && c < |t.calls| && t.calls[c].Attempting?
    && (t.calls[event.call].Attempting? || t.calls[event.call].Starting?)
    && t.calls[event.call].payout == t.calls[c].payout
  }

  /** Nothing has disturbed call `c` since it looked at its payout. */
  predicate Undisturbed(t: Tables, events: seq<Event>, c: nat)
    requires Structured(t)
  {
    if events == [] then true
    else
      var n := |events| - 1;
      var before := Run(t, events[..n]);
      |before.calls| <= c || (Undisturbed(t, events[..n], c) && !Disturbs(before, events[n], c))
  }

  /** Attempts of one payout do not overlap, however many there are and however many never commit. */
  predicate AttemptsApart(t: Tables, events: seq<Event>)
    requires Structured(t)
  {
    if events == [] then true
    else
      var n := |events| - 1;
      AttemptsApart(t, events[..n])
      && (IsCommit(Run(t, events[..n]), events[n]) ==> Undisturbed(t, events[..n], events[n].call))
  }

  /** A call that attempts a transfer has just found the initiation current and without a code. */
  lemma NewAttemptBelongs(t: Tables, event: Event, c: nat)
    requires Structured(t) && |t.calls| <= c < |Step(t, event).calls| && Step(t, event).calls[c].Attempting?
    ensures Ready(Step(t, event))
    ensures var r := Step(t, event);
            Belongs(r.payouts[r.calls[c].payout], r.calls[c].initiation)
  {
    StepKeepsStructured(t, event);
    if event.Written? && event.call < |t.calls| {
      AdvancedKeepsStructured(t, event.call);
      WriteRows(Advanced(t, event.call), t.calls[event.call], event.code);
    }
  }

  /** A write while an attempt waits: the row is still the attempt's if it was, unless the write disturbs. */
  lemma RowStillBelongs(row: Payout, call: Call, code: nat, initiation: nat)
    requires IsAboutRow(call) && initiation <= row.initiations
    ensures Belongs(RowAfter(row, call, code), initiation)
       <==> Belongs(row, initiation) && !call.Attempting? && !call.Starting?
  {
  }

  lemma WaitingAttempt(t: Tables, event: Event, c: nat)
    requires Structured(t) && InitiationsKnown(t) && c < |t.calls|
    requires c < |Step(t, event).calls| && Step(t, event).calls[c].Attempting?
    ensures Ready(Step(t, event)) && Step(t, event).calls[c] == t.calls[c]
    ensures var p, initiation := t.calls[c].payout, t.calls[c].initiation;
            Belongs(Step(t, event).payouts[p], initiation)
            <==> Belongs(t.payouts[p], initiation) && !Disturbs(t, event, c)
  {
    StepKeepsStructured(t, event);
    if event.Written? && event.call < |t.calls| {
      var call := t.calls[event.call];
      AdvancedKeepsStructured(t, event.call);
      WriteRows(Advanced(t, event.call), call, event.code);
      if IsAboutRow(call) && call.payout == t.calls[c].payout {
        RowStillBelongs(t.payouts[call.payout], call, event.code, t.calls[c].initiation);
      }
    }
  }

  /**
   The worker's guards hold over until the commit exactly as long as nothing disturbs the attempt: no look at
   the row when it commits would tell more.
   */
  lemma {:induction false} BelongsExactlyWhenUndisturbed(users: seq<User>, events: seq<Event>, c: nat)
    requires c < |Run(Start(users), events).calls| && Run(Start(users), events).calls[c].Attempting?
    ensures var t := Run(Start(users), events);
            Belongs(t.payouts[t.calls[c].payout], t.calls[c].initiation) <==> Undisturbed(Start(users), events, c)
  {
    if events != [] {
      var n := |events| - 1;
      var before := Run(Start(users), events[..n]);
      if |before.calls| <= c {
        NewAttemptBelongs(before, events[n], c);
      } else {
        KnownInEveryRun(users, events[..n]);
        WaitingAttempt(before, events[n], c);
        BelongsExactlyWhenUndisturbed(users, events[..n], c);
      }
    }
  }

  predicate AgreesThroughout(t: Tables, events: seq<Event>)
    requires Structured(t)
  {
    TransfersAgree(Run(t, events)) && (events == [] || AgreesThroughout(t, events[..|events| - 1]))
  }

  /**
   From empty tables, whatever crashes, is retried or given up, and whatever webhooks arrive and when: initiations
   are posted in order and at most once, and the code is there exactly when the current one is posted, all along
   the run, if and only if no attempt commits after another attempt or a new initiation of its payout overtook it.
   */
  lemma {:induction false} TransfersPostAtMostOnce(users: seq<User>, events: seq<Event>)
    ensures AgreesThroughout(Start(users), events) <==> AttemptsApart(Start(users), events)
  {
    if events != [] {
      var n := |events| - 1;
      var before := Run(Start(users), events[..n]);
      TransfersPostAtMostOnce(users, events[..n]);
      if AgreesThroughout(Start(users), events[..n]) {
        KnownInEveryRun(users, events[..n]);
        StepAgreesExactlyWhenItBelongs(before, events[n]);
        if IsCommit(before, events[n]) {
          BelongsExactlyWhenUndisturbed(users, events[..n], events[n].call);
        }
      }
    }
  }

  // ---- The log is what the journal says ----

  function PostedCount(posted: seq<PostedTransfer>, p: nat): nat {
    if posted == [] then 0
    else PostedCount(posted[..|posted| - 1], p) + (if posted[|posted| - 1].payout == p then 1 else 0)
  }

  /** Two journal lines under TRANSFER_INIT_p for every entry of p in the log. */
  ghost predicate LogIsJournal(t: Tables) {
    && WellFormed(t.books)
    && forall p: nat ::
         LinesUnder(t.books.journal, t.books.transactions, Reference(TRANSFER_INIT, p)) == 2 * PostedCount(t.posted, p)
  }

  lemma WriteKeepsLog(t: Tables, call: Call, code: nat)
    requires ValidAllocations(t) && CallFits(t, call) && LogIsJournal(t)
    ensures LogIsJournal(WriteCall(t, call, code))
  {
    var r := WriteCall(t, call, code);
    var posting := PostingOfCall(t, call);
    WritePosts(t, call, code);
    WriteRows(t, call, code);
    if posting.Some? {
      PostKeepsDrift(t.books, posting.value);
      PairNet(posting.value.entries[0], posting.value.entries[1], "");
      assert posting.value.entries == [posting.value.entries[0], posting.value.entries[1]];
      forall p: nat
        ensures LinesUnder(r.books.journal, r.books.transactions, Reference(TRANSFER_INIT, p))
             == 2 * PostedCount(r.posted, p)
      {
        PostLinesUnder(t.books, posting.value, Reference(TRANSFER_INIT, p));
        if call.Attempting? {
          assert r.posted[..|t.posted|] == t.posted;
        }
      }
    }
  }

  lemma StepKeepsLog(t: Tables, event: Event)
    requires Structured(t) && LogIsJournal(t)
    ensures LogIsJournal(Step(t, event))
  {
    if event.Written? && event.call < |t.calls| {
      AdvancedKeepsStructured(t, event.call);
      assert LogIsJournal(Advanced(t, event.call));
      WriteKeepsLog(Advanced(t, event.call), t.calls[event.call], event.code);
    } else {
      StepPosts(t, event);
      assert Step(t, event).posted == t.posted;
    }
  }

  /** In every run, whatever happens and however often, the log has exactly the transfer pairs of the journal. */
  lemma {:induction false} LogIsAlwaysJournal(users: seq<User>, events: seq<Event>)
    ensures LogIsJournal(Run(Start(users), events))
  {
    if events != [] {
      LogIsAlwaysJournal(users, events[..|events| - 1]);
      StepKeepsLog(Run(Start(users), events[..|events| - 1]), events[|events| - 1]);
    }
  }

  lemma {:induction false} CountInOrder(posted: seq<PostedTransfer>, p: nat, n: nat)
    requires InOrder(posted)
    requires forall k :: 0 <= k < |posted| && posted[k].payout == p ==> 1 <= posted[k].initiation <= n
    ensures PostedCount(posted, p) <= n
  {
    if posted != [] {
      var last := posted[|posted| - 1];
      CountInOrder(posted[..|posted| - 1], p, if last.payout == p then last.initiation - 1 else n);
    }
  }

  /** In the journal itself: at most one transfer pair of a payout per initiation of it. */
  lemma OnePairPerInitiation(t: Tables, p: nat)
    requires TransfersAgree(t) && InitiationsKnown(t) && LogIsJournal(t) && p < |t.payouts|
    ensures LinesUnder(t.books.journal, t.books.transactions, Reference(TRANSFER_INIT, p))
         <= 2 * t.payouts[p].initiations
  {
    CountInOrder(t.posted, p, t.payouts[p].initiations);
  }
}
