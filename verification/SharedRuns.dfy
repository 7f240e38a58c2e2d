/**
 A run of the platform is a run of payouts and a run of the pipeline that happen to post to one ledger: what
 either keeps in all its runs it keeps here.
 */
module SharedRuns {
  import opened Common
  import opened Ledger
  import PayoutBacking
  import PayoutProofs
  import PayoutTransfers
  import Payouts
  import Pipeline
  import PipelinePostings
  import PipelineRows
  import PipelineTransfers
  import opened SharedLedger

  // ---- A payout step does the same on any ledger ----

  lemma {:induction false} ReservesOnBooks(
      t: Payouts.Tables, loaded: seq<Payouts.Commission>, p: nat, plan: seq<Payouts.Share>, books: Books)
    requires |loaded| == |t.commissions| && forall k :: 0 <= k < |plan| ==> plan[k].commission < |loaded|
    ensures Payouts.ReserveShares(OnBooks(t, books), loaded, p, plan)
         == OnBooks(Payouts.ReserveShares(t, loaded, p, plan), books)
  {
    if plan != [] {
      ReservesOnBooks(t, loaded, p, plan[..|plan| - 1], books);
    }
  }

  lemma {:induction false} MovesOnBooks(
      t: Payouts.Tables, loaded: Payouts.Loaded, p: nat, move: Payouts.Move, n: nat, books: Books)
    requires Payouts.LoadedFits(t, loaded) && n <= |loaded.allocations|
    ensures Payouts.LoadedFits(OnBooks(t, books), loaded)
    ensures Payouts.MoveFirst(OnBooks(t, books), loaded, p, move, n)
         == OnBooks(Payouts.MoveFirst(t, loaded, p, move, n), books)
  {
    if n > 0 {
      MovesOnBooks(t, loaded, p, move, n - 1, books);
    }
  }

  lemma RequestOnBooks(t: Payouts.Tables, user: nat, amount: Money, books: Books)
    requires Payouts.MayRequest(t, user, amount)
    ensures Payouts.MayRequest(OnBooks(t, books), user, amount)
    ensures Payouts.Request(OnBooks(t, books), user, amount) == OnBooks(Payouts.Request(t, user, amount), books)
  {
    var plan := Payouts.Plan(t.commissions, Payouts.EligibleIds(t.commissions, user), amount);
    var row := Payouts.Payout(user, t.users[user].company.value, amount, Payouts.FirstStatus(t.users[user]), None, 0);
    ReservesOnBooks(t.(payouts := t.payouts + [row]), t.commissions, |t.payouts|, plan, books);
  }

  lemma PrepareOnBooks(t: Payouts.Tables, p: nat, status: Payouts.PayoutStatus, books: Books)
    requires p < |t.payouts| && Payouts.ValidAllocations(t)
    ensures Payouts.ValidAllocations(OnBooks(t, books))
    ensures Payouts.Prepare(OnBooks(t, books), p, status) == OnBooks(Payouts.Prepare(t, p, status), books)
  {
    MovesOnBooks(t, Payouts.Now(t), p, Payouts.ReReserve, |t.allocations|, books);
  }

  lemma NoticeOnBooks(t: Payouts.Tables, p: nat, notice: Payouts.Notice, loaded: Payouts.Loaded, books: Books)
    requires p < |t.payouts| && Payouts.LoadedFits(t, loaded)
    ensures Payouts.LoadedFits(OnBooks(t, books), loaded)
    ensures Payouts.WriteNotice(OnBooks(t, books), p, notice, loaded)
         == OnBooks(Payouts.WriteNotice(t, p, notice, loaded),
                    Post(books, Payouts.NoticePosting(notice, p, t.payouts[p])))
  {
    MovesOnBooks(t, loaded, p, Payouts.NoticeMove(notice), |loaded.allocations|, books);
  }

  lemma WriteOnBooks(t: Payouts.Tables, call: Payouts.Call, code: nat, books: Books)
    requires Payouts.ValidAllocations(t) && Payouts.CallFits(t, call)
    ensures Payouts.ValidAllocations(OnBooks(t, books)) && Payouts.CallFits(OnBooks(t, books), call)
    ensures Payouts.WriteCall(OnBooks(t, books), call, code)
         == OnBooks(Payouts.WriteCall(t, call, code), PostIfAny(books, PayoutTransfers.PostingOfCall(t, call)))
  {
    if call.Requesting? {
      if Payouts.MayRequest(t, call.user, call.amount) {
        RequestOnBooks(t, call.user, call.amount, books);
      }
    } else if call.Preparing? {
      PrepareOnBooks(t, call.payout, call.status, books);
    } else if call.Handling? {
      NoticeOnBooks(t, call.payout, call.notice, call.loaded, books);
    }
  }

  lemma CheckOnBooks(t: Payouts.Tables, e: Payouts.Event, books: Books)
    requires PayoutProofs.Structured(t) && PayoutProofs.IsCheck(e) && Payouts.Ready(OnBooks(t, books))
    ensures Payouts.Step(OnBooks(t, books), e) == OnBooks(Payouts.Step(t, e), books)
  {
  }

  lemma PayoutStepOnBooks(t: Payouts.Tables, e: Payouts.Event, books: Books)
    requires PayoutProofs.Structured(t)
    ensures PayoutProofs.Structured(OnBooks(t, books))
    ensures Payouts.Step(OnBooks(t, books), e)
         == OnBooks(Payouts.Step(t, e), PostIfAny(books, PayoutTransfers.PostingOf(t, e)))
  {
    OtherBooksStructured(t, books);
    if e.Written? {
      if e.call < |t.calls| {
        PayoutProofs.AdvancedKeepsStructured(t, e.call);
        WriteOnBooks(Payouts.Advanced(t, e.call), t.calls[e.call], e.code, books);
      }
    } else if PayoutProofs.IsCheck(e) {
      CheckOnBooks(t, e, books);
    }
  }

  // ---- The events of each side ----

  function Accruals(added: seq<Pipeline.CommissionRow>): (events: seq<Payouts.Event>)
    ensures |events| == |added|
  {
    seq(|added|, k requires 0 <= k < |added| => Payouts.Accrued(added[k].user, added[k].amount))
  }

  /** What payouts see of an event of the platform: their own, and the commissions of a payment. */
  function SeenByPayouts(s: Platform, event: Event): seq<Payouts.Event>
    requires Payouts.Ready(s.payouts) && Pipeline.Ready(s.pipeline)
  {
    match event
    case OfPayouts(e) => if e.Accrued? then [] else [e]
    case OfPipeline(e) => Accruals(Added(s.pipeline.commissions, Pipeline.Step(s.pipeline, e).commissions))
  }

  ghost function PayoutEvents(users: seq<Payouts.User>, events: seq<Event>): seq<Payouts.Event> {
    if events == [] then []
    else
      PayoutEvents(users, events[..|events| - 1])
      + SeenByPayouts(Run(Start(users), events[..|events| - 1]), events[|events| - 1])
  }

  function PipelineEvents(events: seq<Event>): seq<Pipeline.Event> {
    if events == [] then []
    else
      PipelineEvents(events[..|events| - 1])
      + (if events[|events| - 1].OfPipeline? then [events[|events| - 1].pipelineEvent] else [])
  }

  // ---- Each side of a run is a run of that side ----

  lemma {:induction false} PayoutRunTwice(t: Payouts.Tables, first: seq<Payouts.Event>, second: seq<Payouts.Event>)
    requires PayoutProofs.Structured(t)
    ensures PayoutProofs.Run(t, first + second) == PayoutProofs.Run(PayoutProofs.Run(t, first), second)
  {
    if second == [] {
      assert first + second == first;
    } else {
      var n := |second| - 1;
      assert first + second == (first + second[..n]) + [second[n]];
      PayoutRunTwice(t, first, second[..n]);
      PayoutProofs.RunMore(t, first + second[..n], second[n]);
    }
  }

  lemma {:induction false} AccrualsAccrue(t: Payouts.Tables, added: seq<Pipeline.CommissionRow>)
    requires PayoutProofs.Structured(t)
    ensures PayoutProofs.Run(t, Accruals(added)) == Accrue(t, added)
  {
    if added == [] {
      assert Accrue(t, added).commissions == t.commissions;
    } else {
      var n := |added| - 1;
      AccrualsAccrue(t, added[..n]);
      assert Accruals(added) == Accruals(added[..n]) + [Payouts.Accrued(added[n].user, added[n].amount)];
      PayoutProofs.RunMore(t, Accruals(added[..n]), Payouts.Accrued(added[n].user, added[n].amount));
      var last := Payouts.Commission(added[n].user, added[n].amount, 0.0, Payouts.Active);
      assert Accrue(t, added).commissions == Accrue(t, added[..n]).commissions + [last];
    }
  }

  lemma PayoutSide(s: Platform, t: Payouts.Tables, event: Event)
    requires Fit(s) && PayoutProofs.Structured(t) && s.payouts == OnBooks(t, BooksOf(s))
    ensures Step(s, event).payouts
         == OnBooks(PayoutProofs.Run(t, SeenByPayouts(s, event)), BooksOf(Step(s, event)))
  {
    match event
    case OfPayouts(e) =>
      if !e.Accrued? {
        PayoutStepOnBooks(t, e, BooksOf(s));
        PayoutProofs.RunMore(t, [], e);
        assert [] + [e] == [e];
      }
    case OfPipeline(e) =>
      var added := Added(s.pipeline.commissions, Pipeline.Step(s.pipeline, e).commissions);
      AccrualsAccrue(t, added);
      assert Accrue(s.payouts, added).commissions == Accrue(t, added).commissions;
  }

  lemma {:induction false} PayoutsRunOnThePlatform(users: seq<Payouts.User>, events: seq<Event>)
    ensures var s := Run(Start(users), events);
            s.payouts == OnBooks(PayoutProofs.Run(PayoutProofs.Start(users), PayoutEvents(users, events)), BooksOf(s))
  {
    if events != [] {
      var n := |events| - 1;
      var s := Run(Start(users), events[..n]);
      PayoutsRunOnThePlatform(users, events[..n]);
      var before := PayoutEvents(users, events[..n]);
      PayoutSide(s, PayoutProofs.Run(PayoutProofs.Start(users), before), events[n]);
      PayoutRunTwice(PayoutProofs.Start(users), before, SeenByPayouts(s, events[n]));
    }
  }

  lemma PipelineSide(s: Platform, db: Pipeline.Db, event: Event)
    requires Fit(s) && PipelineRows.Sound(db) && s.pipeline == PipelinePostings.On(db, BooksOf(s), db.posted)
    ensures var next := if event.OfPipeline? then Pipeline.Step(db, event.pipelineEvent) else db;
            Step(s, event).pipeline == PipelinePostings.On(next, BooksOf(Step(s, event)), next.posted)
  {
    if event.OfPipeline? {
      PipelinePostings.StepPosts(db, event.pipelineEvent, BooksOf(s), db.posted);
      PipelinePostings.StepBooks(db, event.pipelineEvent);
      PipelinePostings.SamePosting(db, event.pipelineEvent, BooksOf(s), db.posted);
      StepPosts(s, event);
    }
  }

  lemma {:induction false} PipelineRunsOnThePlatform(users: seq<Payouts.User>, events: seq<Event>)
    ensures var s := Run(Start(users), events);
            var db := PipelineRows.Run(Pipeline.EMPTY_DB, PipelineEvents(events));
            s.pipeline == PipelinePostings.On(db, BooksOf(s), db.posted)
  {
    if events != [] {
      var n := |events| - 1;
      PipelineRunsOnThePlatform(users, events[..n]);
      PipelineSide(Run(Start(users), events[..n]),
                   PipelineRows.Run(Pipeline.EMPTY_DB, PipelineEvents(events[..n])), events[n]);
      if events[n].OfPipeline? {
        PipelineRows.RunMore(Pipeline.EMPTY_DB, PipelineEvents(events[..n]), events[n].pipelineEvent);
      } else {
        assert PipelineEvents(events) == PipelineEvents(events[..n]);
      }
    }
  }

  // ---- Transfers on the platform ----

  /** On both sides initiations are posted in order and at most once, in the logs and in the one journal. */
  ghost predicate TransfersPostedOnce(s: Platform) {
    var books := BooksOf(s);
    && PayoutTransfers.TransfersAgree(s.payouts) && PipelineTransfers.TransfersAgree(s.pipeline)
    && (forall p :: 0 <= p < |s.payouts.payouts| ==>
          LinesUnder(books.journal, books.transactions, Reference(Payouts.TRANSFER_INIT, p))
          <= 2 * s.payouts.payouts[p].initiations)
    && (forall k :: 0 <= k < |s.pipeline.settlements| ==>
          LinesUnder(books.journal, books.transactions, Reference(Pipeline.SETTLEMENT_INIT, k))
          <= 2 * s.pipeline.settlements[k].initiations)
  }

  lemma PostedOnce(s: Platform)
    requires Fit(s) && LogsAreJournal(s)
    requires PayoutTransfers.TransfersAgree(s.payouts) && PayoutTransfers.InitiationsKnown(s.payouts)
    requires PipelineTransfers.TransfersAgree(s.pipeline) && PipelineTransfers.InitiationsKnown(s.pipeline)
    ensures TransfersPostedOnce(s)
  {
    var books := BooksOf(s);
    forall p | 0 <= p < |s.payouts.payouts|
      ensures LinesUnder(books.journal, books.transactions, Reference(Payouts.TRANSFER_INIT, p))
           <= 2 * s.payouts.payouts[p].initiations
    {
      PayoutTransfers.OnePairPerInitiation(s.payouts, p);
    }
    forall k | 0 <= k < |s.pipeline.settlements|
      ensures LinesUnder(books.journal, books.transactions, Reference(Pipeline.SETTLEMENT_INIT, k))
           <= 2 * s.pipeline.settlements[k].initiations
    {
      PipelineTransfers.OnePairPerInitiation(s.pipeline, k);
    }
  }

  lemma PayoutTransfersOnBooks(t: Payouts.Tables, books: Books)
    requires PayoutTransfers.TransfersAgree(t) && PayoutTransfers.InitiationsKnown(t)
    ensures PayoutTransfers.TransfersAgree(OnBooks(t, books)) && PayoutTransfers.InitiationsKnown(OnBooks(t, books))
  {
    var r := OnBooks(t, books);
    forall p | 0 <= p < |r.payouts| ensures PayoutTransfers.RowCodeAgrees(r, p) {
      assert PayoutTransfers.RowCodeAgrees(t, p);
    }
    assert forall p: nat, initiation: nat ::
        PayoutTransfers.KnownInitiation(t, p, initiation) ==> PayoutTransfers.KnownInitiation(r, p, initiation);
  }

  /** When neither side's attempts overlap, no initiation of either is posted twice, whoever posts in between. */
  lemma TransfersPostAtMostOnce(users: seq<Payouts.User>, events: seq<Event>)
    requires PayoutTransfers.AttemptsApart(PayoutProofs.Start(users), PayoutEvents(users, events))
    requires PipelineTransfers.AttemptsApart(Pipeline.EMPTY_DB, PipelineEvents(events))
    ensures TransfersPostedOnce(Run(Start(users), events))
  {
    var s := Run(Start(users), events);
    PayoutTransfers.TransfersPostAtMostOnce(users, PayoutEvents(users, events));
    PayoutTransfers.KnownInEveryRun(users, PayoutEvents(users, events));
    PayoutsRunOnThePlatform(users, events);
    PayoutTransfersOnBooks(PayoutProofs.Run(PayoutProofs.Start(users), PayoutEvents(users, events)), BooksOf(s));
    PipelineTransfers.SettlementsPostAtMostOnce(PipelineEvents(events));
    PipelineTransfers.KnownInEveryRun(PipelineEvents(events));
    PipelineRunsOnThePlatform(users, events);
    LogsAreAlwaysJournal(users, events);
    PostedOnce(s);
  }

  // ---- Timely runs ----

  lemma Joined(first: seq<Payouts.Event>, second: seq<Payouts.Event>, e: Payouts.Event)
    ensures first + (second + [e]) == first + second + [e]
  {
  }

  lemma OneMoreTimely(t: Payouts.Tables, first: seq<Payouts.Event>, second: seq<Payouts.Event>, e: Payouts.Event)
    requires PayoutProofs.Structured(t) && PayoutBacking.AllTimely(t, first + second)
    requires PayoutBacking.Timely(PayoutProofs.Run(PayoutProofs.Run(t, first), second), e)
    ensures PayoutBacking.AllTimely(t, first + (second + [e]))
  {
    PayoutRunTwice(t, first, second);
    PayoutBacking.TimelyMore(t, first + second, e);
    Joined(first, second, e);
  }

  lemma NothingMore(first: seq<Payouts.Event>, second: seq<Payouts.Event>)
    ensures second == [] ==> first + second == first
    ensures second != [] ==> second[..|second| - 1] + [second[|second| - 1]] == second
  {
  }

  lemma {:induction false} TimelyTwice(t: Payouts.Tables, first: seq<Payouts.Event>, second: seq<Payouts.Event>)
    requires PayoutProofs.Structured(t) && PayoutBacking.AllTimely(t, first)
    requires PayoutBacking.AllTimely(PayoutProofs.Run(t, first), second)
    ensures PayoutBacking.AllTimely(t, first + second)
  {
    NothingMore(first, second);
    if second != [] {
      var rest, last := second[..|second| - 1], second[|second| - 1];
      PayoutBacking.TimelyLess(PayoutProofs.Run(t, first), second);
      TimelyTwice(t, first, rest);
      OneMoreTimely(t, first, rest, last);
    }
  }

  lemma {:induction false} AccrualsAreTimely(t: Payouts.Tables, added: seq<Pipeline.CommissionRow>)
    requires PayoutProofs.Structured(t)
    ensures PayoutBacking.AllTimely(t, Accruals(added))
  {
    if added != [] {
      AccrualsAreTimely(t, added[..|added| - 1]);
      assert Accruals(added)[..|added| - 1] == Accruals(added[..|added| - 1]);
    }
  }

  lemma PayoutTimelyOnBooks(t: Payouts.Tables, books: Books, e: Payouts.Event)
    requires PayoutProofs.Structured(t) && Payouts.Ready(OnBooks(t, books))
    ensures PayoutBacking.Timely(OnBooks(t, books), e) <==> PayoutBacking.Timely(t, e)
  {
  }

  lemma SeenIsTimely(s: Platform, t: Payouts.Tables, event: Event)
    requires Fit(s) && PayoutProofs.Structured(t) && s.payouts == OnBooks(t, BooksOf(s)) && Timely(s, event)
    ensures PayoutBacking.AllTimely(t, SeenByPayouts(s, event))
  {
    match event
    case OfPayouts(e) =>
      if !e.Accrued? {
        PayoutTimelyOnBooks(t, BooksOf(s), e);
        assert [e][..0] == [];
        assert PayoutBacking.AllTimely(t, [e][..0]) && PayoutProofs.Run(t, [e][..0]) == t;
      }
    case OfPipeline(e) =>
      AccrualsAreTimely(t, Added(s.pipeline.commissions, Pipeline.Step(s.pipeline, e).commissions));
  }

  lemma {:induction false} PayoutSideIsTimely(users: seq<Payouts.User>, events: seq<Event>)
    requires AllTimely(Start(users), events)
    ensures PayoutBacking.AllTimely(PayoutProofs.Start(users), PayoutEvents(users, events))
  {
    if events != [] {
      var n := |events| - 1;
      var s := Run(Start(users), events[..n]);
      var before := PayoutEvents(users, events[..n]);
      PayoutSideIsTimely(users, events[..n]);
      PayoutsRunOnThePlatform(users, events[..n]);
      SeenIsTimely(s, PayoutProofs.Run(PayoutProofs.Start(users), before), events[n]);
      TimelyTwice(PayoutProofs.Start(users), before, SeenByPayouts(s, events[n]));
    }
  }

  lemma {:induction false} PipelineSideIsTimely(users: seq<Payouts.User>, events: seq<Event>)
    requires AllTimely(Start(users), events)
    ensures PipelineTransfers.AllTimely(Pipeline.EMPTY_DB, PipelineEvents(events))
  {
    if events != [] {
      var n := |events| - 1;
      PipelineSideIsTimely(users, events[..n]);
      PipelineRunsOnThePlatform(users, events[..n]);
      var before := PipelineEvents(events[..n]);
      if events[n].OfPipeline? {
        var e := events[n].pipelineEvent;
        var db := PipelineRows.Run(Pipeline.EMPTY_DB, before);
        PipelineTimelyOnBooks(db, BooksOf(Run(Start(users), events[..n])), e);
        PipelineTransfers.TimelyMore(Pipeline.EMPTY_DB, before, e);
      } else {
        assert PipelineEvents(events) == before;
      }
    }
  }

  lemma PipelineTimelyOnBooks(db: Pipeline.Db, books: Books, e: Pipeline.Event)
    requires Pipeline.Ready(db) && Pipeline.Ready(PipelinePostings.On(db, books, db.posted))
    ensures PipelineTransfers.Timely(PipelinePostings.On(db, books, db.posted), e) <==> PipelineTransfers.Timely(db, e)
  {
  }

  /** In timely runs of the platform neither side's attempts overlap, and no initiation is posted twice. */
  lemma TimelyTransfersPostAtMostOnce(users: seq<Payouts.User>, events: seq<Event>)
    requires AllTimely(Start(users), events)
    ensures PayoutTransfers.AttemptsApart(PayoutProofs.Start(users), PayoutEvents(users, events))
    ensures PipelineTransfers.AttemptsApart(Pipeline.EMPTY_DB, PipelineEvents(events))
    ensures TransfersPostedOnce(Run(Start(users), events))
  {
    PayoutSideIsTimely(users, events);
    PayoutBacking.TimelyRunsAgree(users, PayoutEvents(users, events));
    PipelineSideIsTimely(users, events);
    PipelineTransfers.TimelyRunsAgree(PipelineEvents(events));
    TransfersPostAtMostOnce(users, events);
  }
}
