/**
 The one ledger of the platform: payouts and the pipeline post to it in any order, and a payment accrues the
 commission that payouts are made from.  What each side says of an account adds up to what is on it.
 */
module SharedLedger {
  import opened Common
  import opened Ledger
  import opened LedgerProofs
  import PayoutBacking
  import PayoutProofs
  import PayoutTransfers
  import Payouts
  import Pipeline
  import PipelineCash
  import PipelineMoney
  import PipelinePostings
  import PipelineRows
  import PipelineRuns
  import PipelineTransfers

  /** Both sides name the same books. */
  datatype Platform = Platform(payouts: Payouts.Tables, pipeline: Pipeline.Db)

  datatype Event = OfPayouts(payoutEvent: Payouts.Event) | OfPipeline(pipelineEvent: Pipeline.Event)

  ghost predicate Fit(s: Platform) {
    && s.payouts.books == s.pipeline.books
    && PayoutProofs.Structured(s.payouts)
    && PipelineRows.Sound(s.pipeline)
  }

  function OnBooks(t: Payouts.Tables, books: Books): Payouts.Tables {
    t.(books := books)
  }

  /** The commission rows of a payment are what payouts are requested on. */
  function Accrue(t: Payouts.Tables, added: seq<Pipeline.CommissionRow>): Payouts.Tables {
    t.(commissions := t.commissions + seq(|added|, k requires 0 <= k < |added| =>
         Payouts.Commission(added[k].user, added[k].amount, 0.0, Payouts.Active)))
  }

  function Added(before: seq<Pipeline.CommissionRow>, after: seq<Pipeline.CommissionRow>)
      : seq<Pipeline.CommissionRow>
  {
    if |before| <= |after| then after[|before|..] else []
  }

  /** Commissions accrue with payments and in no other way. */
  function Step(s: Platform, event: Event): Platform
    requires Payouts.Ready(s.payouts) && Pipeline.Ready(s.pipeline)
  {
    match event
    case OfPayouts(e) =>
      if e.Accrued? then s
      else
        var t := Payouts.Step(s.payouts, e);
        Platform(t, s.pipeline.(books := t.books))
    case OfPipeline(e) =>
      var db := Pipeline.Step(s.pipeline, e);
      Platform(OnBooks(Accrue(s.payouts, Added(s.pipeline.commissions, db.commissions)), db.books), db)
  }

  // ---- Each side finds its tables as it needs them ----

  lemma OtherBooksStructured(t: Payouts.Tables, books: Books)
    requires PayoutProofs.Structured(t)
    ensures PayoutProofs.Structured(OnBooks(t, books))
  {
    var r := OnBooks(t, books);
    forall k | 0 <= k < |r.calls| ensures Payouts.CallFits(r, r.calls[k]) {
      PayoutProofs.CallStillFits(t, r, t.calls[k]);
    }
  }

  lemma AccrueKeepsStructured(t: Payouts.Tables, added: seq<Pipeline.CommissionRow>)
    requires PayoutProofs.Structured(t)
    ensures PayoutProofs.Structured(Accrue(t, added))
  {
    PayoutProofs.GrowingKeepsReady(t, Accrue(t, added));
  }

  lemma OtherBooksSound(db: Pipeline.Db, books: Books)
    requires PipelineRows.Sound(db)
    ensures PipelineRows.Sound(db.(books := books))
  {
    var r := db.(books := books);
    forall k | 0 <= k < |r.calls| ensures Pipeline.CallFits(r, r.calls[k]) {
      PipelineRows.CallStillFits(db, r, db.calls[k]);
    }
  }

  lemma StepKeepsFit(s: Platform, event: Event)
    requires Fit(s)
    ensures Fit(Step(s, event))
  {
    match event
    case OfPayouts(e) =>
      PayoutProofs.StepKeepsStructured(s.payouts, e);
      OtherBooksSound(s.pipeline, Payouts.Step(s.payouts, e).books);
    case OfPipeline(e) =>
      var db := Pipeline.Step(s.pipeline, e);
      var added := Added(s.pipeline.commissions, db.commissions);
      PipelineRows.StepKeepsSound(s.pipeline, e);
      AccrueKeepsStructured(s.payouts, added);
      OtherBooksStructured(Accrue(s.payouts, added), db.books);
  }

  /** Every run of the platform, whoever acts and posts in whatever order. */
  ghost function Run(s: Platform, events: seq<Event>): (r: Platform)
    requires Fit(s)
    ensures Fit(r)
  {
    if events == [] then s
    else
      StepKeepsFit(Run(s, events[..|events| - 1]), events[|events| - 1]);
      Step(Run(s, events[..|events| - 1]), events[|events| - 1])
  }

  function Start(users: seq<Payouts.User>): (s: Platform)
    ensures Fit(s)
  {
    Platform(PayoutProofs.Start(users), Pipeline.EMPTY_DB)
  }

  // ---- Every step posts once or not at all ----

  function PostingOf(s: Platform, event: Event): Option<Posting>
    requires Payouts.Ready(s.payouts) && Pipeline.Ready(s.pipeline)
  {
    match event
    case OfPayouts(e) => if e.Accrued? then None else PayoutTransfers.PostingOf(s.payouts, e)
    case OfPipeline(e) => PipelinePostings.PostingOf(s.pipeline, e)
  }

  function BooksOf(s: Platform): Books {
    s.pipeline.books
  }

  lemma StepPosts(s: Platform, event: Event)
    requires Fit(s)
    ensures BooksOf(Step(s, event)) == PostIfAny(BooksOf(s), PostingOf(s, event))
  {
    match event
    case OfPayouts(e) => PayoutTransfers.StepPosts(s.payouts, e);
    case OfPipeline(e) => PipelinePostings.StepBooks(s.pipeline, e);
  }

  lemma StepMoves(s: Platform, event: Event, name: string, tenant: Tenant)
    requires Fit(s)
    ensures Position(BooksOf(Step(s, event)), name, tenant)
         == Position(BooksOf(s), name, tenant) + NetOn(PostingOf(s, event), name, tenant)
  {
    StepPosts(s, event);
    PostIfAnyPosition(BooksOf(s), PostingOf(s, event), name, tenant);
  }

  ghost predicate BooksSound(books: Books) {
    JournalBalanced(books) && Reconciled(books)
  }

  lemma StepKeepsBooks(s: Platform, event: Event)
    requires Fit(s) && BooksSound(BooksOf(s))
    ensures BooksSound(BooksOf(Step(s, event)))
  {
    StepPosts(s, event);
    var posting := PostingOf(s, event);
    if posting.Some? {
      PostKeepsReconciled(BooksOf(s), posting.value);
      PostKeepsJournalBalanced(BooksOf(s), posting.value);
    }
  }

  /** In every run of the platform: stored balances are the fold of the journal, and every tenant balances. */
  lemma {:induction false} BooksInEveryRun(users: seq<Payouts.User>, events: seq<Event>)
    ensures BooksSound(BooksOf(Run(Start(users), events)))
    ensures forall tenant: Tenant :: TrialBalance(BooksOf(Run(Start(users), events)).accounts, tenant) == 0.0
  {
    if events != [] {
      var n := |events| - 1;
      BooksInEveryRun(users, events[..n]);
      StepKeepsBooks(Run(Start(users), events[..n]), events[n]);
    }
    var books := BooksOf(Run(Start(users), events));
    forall tenant: Tenant ensures TrialBalance(books.accounts, tenant) == 0.0 {
      ReconciledTrialBalance(books, tenant);
    }
  }

  // ---- The accounts of one side only ----

  /** Payouts post on three accounts. */
  lemma PayoutsMoveNothingElse(t: Payouts.Tables, e: Payouts.Event, name: string, tenant: Tenant)
    requires Payouts.Ready(t) && !PayoutBacking.IsTransferAccount(name)
    ensures NetOn(PayoutTransfers.PostingOf(t, e), name, tenant) == 0.0
  {
    var posting := PayoutTransfers.PostingOf(t, e);
    if posting.Some? {
      var entries := posting.value.entries;
      PairBalances(entries, entries[0].accountName, entries[1].accountName, entries[0].debit, name);
    }
  }

  lemma PayoutsDeclare(t: Payouts.Tables, e: Payouts.Event)
    requires Payouts.Ready(t)
    ensures var posting := PayoutTransfers.PostingOf(t, e);
            posting.Some? ==> DeclaresOnly(posting.value.entries, Pipeline.PAYABLE, Liability)
  {
  }

  lemma PayoutKeepsPosition(s: Platform, e: Payouts.Event, name: string, tenant: Tenant)
    requires Fit(s) && !PayoutBacking.IsTransferAccount(name)
    ensures Position(BooksOf(Step(s, OfPayouts(e))), name, tenant) == Position(BooksOf(s), name, tenant)
  {
    StepMoves(s, OfPayouts(e), name, tenant);
    if !e.Accrued? {
      PayoutsMoveNothingElse(s.payouts, e, name, tenant);
    }
  }

  /** A payout step is invisible to the agreement of MERCHANT_PAYABLE with the pipeline's tables. */
  lemma PayoutKeepsPayable(s: Platform, e: Payouts.Event)
    requires Fit(s) && PipelineMoney.PayableAgrees(s.pipeline)
    ensures PipelineMoney.PayableAgrees(Step(s, OfPayouts(e)).pipeline)
  {
    var r := Step(s, OfPayouts(e)).pipeline;
    StepPosts(s, OfPayouts(e));
    var posting := PostingOf(s, OfPayouts(e));
    if posting.Some? {
      PayoutsDeclare(s.payouts, e);
      PostStoredAs(BooksOf(s), posting.value, Pipeline.PAYABLE, Liability);
    }
    forall tenant: Tenant
      ensures Position(r.books, Pipeline.PAYABLE, tenant) == -PipelineMoney.PayableDue(r, tenant)
    {
      PayoutKeepsPosition(s, e, Pipeline.PAYABLE, tenant);
      SameDue(s.pipeline, r.books, tenant);
    }
  }

  lemma SameDue(db: Pipeline.Db, books: Books, tenant: Tenant)
    requires Pipeline.Linked(db)
    ensures PipelineMoney.PayableDue(db.(books := books), tenant) == PipelineMoney.PayableDue(db, tenant)
    ensures PipelineCash.PaidColumn(db.(books := books), tenant) == PipelineCash.PaidColumn(db, tenant)
    ensures PipelineCash.AccruedColumn(db.(books := books), tenant) == PipelineCash.AccruedColumn(db, tenant)
  {
    var r := db.(books := books);
    assert PipelineMoney.UnsettledColumn(r, tenant) == PipelineMoney.UnsettledColumn(db, tenant);
    assert PipelineMoney.OwedColumn(r, tenant) == PipelineMoney.OwedColumn(db, tenant);
  }

  lemma PayoutKeepsCash(s: Platform, e: Payouts.Event)
    requires Fit(s) && PipelineCash.CashAgrees(s.pipeline)
    ensures PipelineCash.CashAgrees(Step(s, OfPayouts(e)).pipeline)
  {
    var r := Step(s, OfPayouts(e)).pipeline;
    forall tenant: Tenant ensures PipelineCash.CashAgreesFor(r, tenant) {
      assert PipelineCash.CashAgreesFor(s.pipeline, tenant);
      PayoutKeepsPosition(s, e, Pipeline.CLEARING, tenant);
      PayoutKeepsPosition(s, e, Pipeline.PLATFORM_REVENUE, tenant);
      PayoutKeepsPosition(s, e, Pipeline.COMMISSION_COST, tenant);
      PayoutKeepsPosition(s, e, Pipeline.MERCHANT_COST, tenant);
      SameDue(s.pipeline, r.books, tenant);
    }
  }

  lemma PayoutKeepsLines(s: Platform, e: Payouts.Event)
    requires Fit(s) && PipelineMoney.LinesSound(s.pipeline) && PipelineMoney.PostedRows(s.pipeline)
    ensures PipelineMoney.LinesSound(Step(s, OfPayouts(e)).pipeline)
    ensures PipelineMoney.PostedRows(Step(s, OfPayouts(e)).pipeline)
  {
    var r := Step(s, OfPayouts(e)).pipeline;
    forall l | 0 <= l < |r.lines| ensures PipelineMoney.LineSound(r, r.lines[l]) {
      assert PipelineMoney.LineSound(s.pipeline, s.pipeline.lines[l]);
    }
  }

  /** What the pipeline keeps on its own ledger it keeps on the shared one. */
  ghost predicate PipelineKept(s: Platform)
    requires Fit(s)
  {
    PipelineRuns.Kept(s.pipeline) && PipelineCash.CashAgrees(s.pipeline)
  }

  predicate PaysOnce(s: Platform, event: Event)
    requires Pipeline.Ready(s.pipeline)
  {
    event.OfPipeline? ==> PipelineRuns.PaysOnce(s.pipeline, event.pipelineEvent)
  }

  lemma StepKeepsPipeline(s: Platform, event: Event)
    requires Fit(s) && PipelineKept(s) && PaysOnce(s, event)
    ensures Fit(Step(s, event)) && PipelineKept(Step(s, event))
  {
    StepKeepsFit(s, event);
    match event
    case OfPayouts(e) =>
      PayoutKeepsPayable(s, e);
      PayoutKeepsCash(s, e);
      PayoutKeepsLines(s, e);
    case OfPipeline(e) =>
      PipelineRuns.StepKeepsKept(s.pipeline, e);
      PipelineCash.StepKeepsCashExactlyWhenPaidOnce(s.pipeline, e);
  }

  ghost predicate AllPayOnce(s: Platform, events: seq<Event>)
    requires Fit(s)
  {
    events == [] ||
    (AllPayOnce(s, events[..|events| - 1]) && PaysOnce(Run(s, events[..|events| - 1]), events[|events| - 1]))
  }

  /**
   On the shared ledger, in every run whose payment jobs find their instalment unpaid: MERCHANT_PAYABLE and the cash
   accounts agree with the pipeline's tables, whatever payouts do.
   */
  lemma {:induction false} PipelineAgreesOnSharedLedger(users: seq<Payouts.User>, events: seq<Event>)
    requires AllPayOnce(Start(users), events)
    ensures PipelineKept(Run(Start(users), events))
  {
    if events != [] {
      var n := |events| - 1;
      PipelineAgreesOnSharedLedger(users, events[..n]);
      StepKeepsPipeline(Run(Start(users), events[..n]), events[n]);
    } else {
      PipelineRuns.EmptyIsKept();
      PipelineCash.NothingPaid();
    }
  }

  // ---- The accounts on which both sides post ----

  /** What both tables say should be on an account by now, as a net debit. */
  function Due(s: Platform, account: string, tenant: Tenant): Money
    requires Pipeline.Linked(s.pipeline)
  {
    PayoutBacking.TotalDue(s.payouts.payouts, account, tenant)
    + (if account == COMMISSION_PAYABLE then -Sum(PipelineCash.AccruedColumn(s.pipeline, tenant))
       else PipelineCash.TotalDue(s.pipeline.settlements, account, tenant))
  }

  predicate Timely(s: Platform, event: Event)
    requires Payouts.Ready(s.payouts) && Pipeline.Ready(s.pipeline)
  {
    match event
    case OfPayouts(e) => PayoutBacking.Timely(s.payouts, e)
    case OfPipeline(e) => PipelineRuns.PaysOnce(s.pipeline, e) && PipelineTransfers.Timely(s.pipeline, e)
  }

  ghost predicate DueAgrees(s: Platform)
    requires Fit(s)
  {
    && PipelineTransfers.AllClearedWhole(s.pipeline) && PipelineMoney.PostedRows(s.pipeline)
    && forall account: string, tenant: Tenant :: PayoutBacking.IsTransferAccount(account) ==>
         Position(BooksOf(s), account, tenant) == Due(s, account, tenant)
  }

  lemma PayoutStepIsDue(s: Platform, e: Payouts.Event, account: string, tenant: Tenant)
    requires Fit(s) && !e.Accrued? && PayoutBacking.Timely(s.payouts, e) && PayoutBacking.IsTransferAccount(account)
    ensures var r := Step(s, OfPayouts(e));
            && Pipeline.Linked(r.pipeline)
            && Due(r, account, tenant) - Due(s, account, tenant)
               == Position(BooksOf(r), account, tenant) - Position(BooksOf(s), account, tenant)
  {
    PayoutBacking.StepFollows(s.payouts, e, account, tenant);
    SameDue(s.pipeline, Payouts.Step(s.payouts, e).books, tenant);
  }

  lemma PipelineStepIsDue(s: Platform, e: Pipeline.Event, account: string, tenant: Tenant)
    requires Fit(s) && PipelineTransfers.AllClearedWhole(s.pipeline) && PayoutBacking.IsTransferAccount(account)
    requires PipelineRuns.PaysOnce(s.pipeline, e) && PipelineTransfers.Timely(s.pipeline, e)
    ensures var r := Step(s, OfPipeline(e));
            && Pipeline.Linked(r.pipeline)
            && Due(r, account, tenant) - Due(s, account, tenant)
               == Position(BooksOf(r), account, tenant) - Position(BooksOf(s), account, tenant)
  {
    StepMoves(s, OfPipeline(e), account, tenant);
    PipelineRows.StepGrows(s.pipeline, e);
    if account == COMMISSION_PAYABLE {
      PipelineCash.StepFollowsAccruals(s.pipeline, e, tenant);
    } else {
      PipelineCash.StepFollowsTransit(s.pipeline, e, account, tenant);
    }
  }

  lemma StepKeepsWhole(s: Platform, event: Event)
    requires Fit(s) && PipelineTransfers.AllClearedWhole(s.pipeline) && PipelineMoney.PostedRows(s.pipeline)
    requires Timely(s, event)
    ensures PipelineTransfers.AllClearedWhole(Step(s, event).pipeline)
    ensures PipelineMoney.PostedRows(Step(s, event).pipeline)
  {
    if event.OfPipeline? {
      PipelineTransfers.StepKeepsWhole(s.pipeline, event.pipelineEvent);
      PipelineRuns.StepKeepsPostedRows(s.pipeline, event.pipelineEvent);
    } else {
      var r := Step(s, event).pipeline;
      assert r.settlements == s.pipeline.settlements && r.posted == s.pipeline.posted;
    }
  }

  lemma StepKeepsDue(s: Platform, event: Event)
    requires Fit(s) && DueAgrees(s) && Timely(s, event)
    ensures Fit(Step(s, event)) && DueAgrees(Step(s, event))
  {
    var r := Step(s, event);
    StepKeepsFit(s, event);
    StepKeepsWhole(s, event);
    forall account: string, tenant: Tenant | PayoutBacking.IsTransferAccount(account)
      ensures Position(BooksOf(r), account, tenant) == Due(r, account, tenant)
    {
      if event.OfPipeline? {
        PipelineStepIsDue(s, event.pipelineEvent, account, tenant);
      } else if !event.payoutEvent.Accrued? {
        PayoutStepIsDue(s, event.payoutEvent, account, tenant);
      }
    }
  }

  ghost predicate AllTimely(s: Platform, events: seq<Event>)
    requires Fit(s)
  {
    events == [] ||
    (AllTimely(s, events[..|events| - 1]) && Timely(Run(s, events[..|events| - 1]), events[|events| - 1]))
  }

  lemma {:induction false} DueAgreesInEveryRun(users: seq<Payouts.User>, events: seq<Event>)
    requires AllTimely(Start(users), events)
    ensures DueAgrees(Run(Start(users), events))
  {
    if events != [] {
      var n := |events| - 1;
      DueAgreesInEveryRun(users, events[..n]);
      StepKeepsDue(Run(Start(users), events[..n]), events[n]);
    } else {
      NothingDue(users);
    }
  }

  lemma NothingDue(users: seq<Payouts.User>)
    ensures DueAgrees(Start(users))
  {
  }

  lemma DueOn(s: Platform, account: string, tenant: Tenant)
    requires Fit(s) && DueAgrees(s) && PayoutBacking.IsTransferAccount(account)
    ensures Position(BooksOf(s), account, tenant) == Due(s, account, tenant)
  {
  }

  /**
   On the shared ledger, in every run whose writes are timely, for every tenant: PAYOUTS_IN_TRANSIT carries exactly
   the payouts and the settlements under way, BANK_SETTLED exactly those that arrived, and COMMISSION_PAYABLE the
   commissions of the paid instalments less the payouts under way or paid out.
   */
  lemma TablesAgreeWithLedger(users: seq<Payouts.User>, events: seq<Event>, tenant: Tenant)
    requires AllTimely(Start(users), events)
    ensures var s := Run(Start(users), events);
            var payouts := s.payouts.payouts;
            && Position(BooksOf(s), PAYOUTS_IN_TRANSIT, tenant)
               == PayoutBacking.TotalDue(payouts, PAYOUTS_IN_TRANSIT, tenant)
                  + PipelineCash.TotalDue(s.pipeline.settlements, PAYOUTS_IN_TRANSIT, tenant)
            && Position(BooksOf(s), BANK_SETTLED, tenant)
               == PayoutBacking.TotalDue(payouts, BANK_SETTLED, tenant)
                  + PipelineCash.TotalDue(s.pipeline.settlements, BANK_SETTLED, tenant)
            && Position(BooksOf(s), COMMISSION_PAYABLE, tenant)
               == PayoutBacking.TotalDue(payouts, COMMISSION_PAYABLE, tenant)
                  - Sum(PipelineCash.AccruedColumn(s.pipeline, tenant))
  {
    DueAgreesInEveryRun(users, events);
    DueOn(Run(Start(users), events), PAYOUTS_IN_TRANSIT, tenant);
    DueOn(Run(Start(users), events), BANK_SETTLED, tenant);
    DueOn(Run(Start(users), events), COMMISSION_PAYABLE, tenant);
  }

  // ---- Commissions are the same on both sides ----

  predicate SameCommissions(s: Platform) {
    && |s.payouts.commissions| == |s.pipeline.commissions|
    && forall c :: 0 <= c < |s.payouts.commissions| ==>
         && s.payouts.commissions[c].owner == s.pipeline.commissions[c].user
         && s.payouts.commissions[c].amount == s.pipeline.commissions[c].amount
  }

  lemma CommissionsOnlyGrow(db: Pipeline.Db, e: Pipeline.Event)
    requires Pipeline.Ready(db)
    ensures db.commissions <= Pipeline.Step(db, e).commissions
  {
    if PipelineRows.IsPayment(db, e) {
      PipelineRows.PaymentStep(db, e);
    } else {
      PipelineRows.OthersPayNothing(db, e);
    }
  }

  lemma StepKeepsCommissions(s: Platform, event: Event)
    requires Fit(s) && SameCommissions(s)
    ensures SameCommissions(Step(s, event))
  {
    match event
    case OfPipeline(e) => CommissionsOnlyGrow(s.pipeline, e);
    case OfPayouts(e) =>
      if !e.Accrued? {
        PayoutProofs.StepGrows(s.payouts, e);
        PayoutAddsNoCommission(s.payouts, e);
        var r := Payouts.Step(s.payouts, e);
        forall c | 0 <= c < |r.commissions|
          ensures r.commissions[c].owner == s.pipeline.commissions[c].user
          ensures r.commissions[c].amount == s.pipeline.commissions[c].amount
        {
          assert Payouts.Now(s.payouts).commissions[c].owner == r.commissions[c].owner;
        }
      }
  }

  lemma PayoutAddsNoCommission(t: Payouts.Tables, e: Payouts.Event)
    requires PayoutProofs.Structured(t) && !e.Accrued?
    ensures |Payouts.Step(t, e).commissions| == |t.commissions|
  {
    if e.Written? && e.call < |t.calls| {
      PayoutProofs.AdvancedKeepsStructured(t, e.call);
    }
  }

  /** In every run, the commissions payouts draw on are those that payments accrued, row for row. */
  lemma {:induction false} CommissionsAreAccruals(users: seq<Payouts.User>, events: seq<Event>)
    ensures SameCommissions(Run(Start(users), events))
  {
    if events != [] {
      var n := |events| - 1;
      CommissionsAreAccruals(users, events[..n]);
      StepKeepsCommissions(Run(Start(users), events[..n]), events[n]);
    }
  }

  // ---- Both logs are what the one journal says ----

  ghost predicate LogsAreJournal(s: Platform) {
    PayoutTransfers.LogIsJournal(s.payouts) && PipelineTransfers.LogIsJournal(s.pipeline)
  }

  lemma PayoutReferences(t: Payouts.Tables, e: Payouts.Event, p: nat)
    requires Payouts.Ready(t)
    ensures var posting := PayoutTransfers.PostingOf(t, e);
            posting.Some? ==> posting.value.reference != Reference(Pipeline.SETTLEMENT_INIT, p)
  {
  }

  lemma PipelineReferences(db: Pipeline.Db, e: Pipeline.Event, p: nat)
    requires Pipeline.Ready(db)
    ensures var posting := PipelinePostings.PostingOf(db, e);
            posting.Some? ==> posting.value.reference != Reference(Payouts.TRANSFER_INIT, p)
  {
    if e.Written? && e.call < |db.calls| {
      assert Pipeline.CallFits(db, db.calls[e.call]);
    }
  }

  lemma PayoutKeepsSettlementLog(s: Platform, e: Payouts.Event)
    requires Fit(s) && PipelineTransfers.LogIsJournal(s.pipeline)
    ensures PipelineTransfers.LogIsJournal(Step(s, OfPayouts(e)).pipeline)
  {
    var books, posting := BooksOf(s), PostingOf(s, OfPayouts(e));
    var after := BooksOf(Step(s, OfPayouts(e)));
    StepPosts(s, OfPayouts(e));
    if posting.Some? {
      PostKeepsDrift(books, posting.value);
      forall p: nat
        ensures LinesUnder(after.journal, after.transactions, Reference(Pipeline.SETTLEMENT_INIT, p))
             == LinesUnder(books.journal, books.transactions, Reference(Pipeline.SETTLEMENT_INIT, p))
      {
        PayoutReferences(s.payouts, e, p);
        PostLinesUnder(books, posting.value, Reference(Pipeline.SETTLEMENT_INIT, p));
      }
    }
  }

  lemma PipelineKeepsPayoutLog(s: Platform, e: Pipeline.Event)
    requires Fit(s) && PayoutTransfers.LogIsJournal(s.payouts)
    ensures PayoutTransfers.LogIsJournal(Step(s, OfPipeline(e)).payouts)
  {
    var books, posting := BooksOf(s), PostingOf(s, OfPipeline(e));
    var after := BooksOf(Step(s, OfPipeline(e)));
    StepPosts(s, OfPipeline(e));
    if posting.Some? {
      PostKeepsDrift(books, posting.value);
      forall p: nat
        ensures LinesUnder(after.journal, after.transactions, Reference(Payouts.TRANSFER_INIT, p))
             == LinesUnder(books.journal, books.transactions, Reference(Payouts.TRANSFER_INIT, p))
      {
        PipelineReferences(s.pipeline, e, p);
        PostLinesUnder(books, posting.value, Reference(Payouts.TRANSFER_INIT, p));
      }
    }
  }

  lemma StepKeepsLogs(s: Platform, event: Event)
    requires Fit(s) && LogsAreJournal(s)
    ensures LogsAreJournal(Step(s, event))
  {
    match event
    case OfPayouts(e) =>
      PayoutKeepsSettlementLog(s, e);
      if !e.Accrued? {
        PayoutTransfers.StepKeepsLog(s.payouts, e);
      }
    case OfPipeline(e) =>
      PipelineKeepsPayoutLog(s, e);
      PipelineTransfers.StepKeepsLog(s.pipeline, e);
  }

  /** In every run the journal has exactly the transfer pairs of both logs: none is lost, none is another's. */
  lemma {:induction false} LogsAreAlwaysJournal(users: seq<Payouts.User>, events: seq<Event>)
    ensures LogsAreJournal(Run(Start(users), events))
  {
    if events != [] {
      var n := |events| - 1;
      LogsAreAlwaysJournal(users, events[..n]);
      StepKeepsLogs(Run(Start(users), events[..n]), events[n]);
    }
  }
}
