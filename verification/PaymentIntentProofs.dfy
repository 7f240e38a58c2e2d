/** What holds of payment intents however reservers, webhooks, workers and sweeps interleave. */
module PaymentIntentProofs {
  import opened Common
  import opened PaymentIntents

  // ---- Reservation keys ----

  lemma SamePrefix(prefix: string, a: string, b: string)
    ensures prefix + a == prefix + b <==> a == b
  {
    assert (prefix + a)[|prefix|..] == a && (prefix + b)[|prefix|..] == b;
  }

  /** Two purposes share a key only when they are the same purpose. */
  lemma KeysTellPurposesApart(a: Purpose, b: Purpose)
    ensures ReservationKey(a) == ReservationKey(b) <==> a == b
  {
    match (a, b)
    case (ForInstallment(x), ForInstallment(y)) => SamePrefix("INSTALLMENT:", x, y);
    case (ForSubscription(x), ForSubscription(y)) => SamePrefix("SUBSCRIPTION:", x, y);
    case (ForOnboarding(x), ForOnboarding(y)) => SamePrefix("ONBOARDING:", x, y);
    case _ => assert ReservationKey(a)[0] != ReservationKey(b)[0];
  }

  // ---- The table ----

  /** Of the intents of one key, all but the newest are terminal. */
  ghost predicate OnlyNewestActive(table: seq<Intent>) {
    forall j, k :: 0 <= j < k < |table| && table[j].reservationKey == table[k].reservationKey ==>
      Terminal(table[j].status)
  }

  ghost predicate UniqueColumns(table: seq<Intent>) {
    forall j, k :: 0 <= j < k < |table| ==>
      && table[j].idempotencyKey != table[k].idempotencyKey
      && (table[j].reference.Some? ==> table[j].reference != table[k].reference)
  }

  /** Rows keep their keys, and a terminal row never changes again. */
  ghost predicate Follows(before: seq<Intent>, after: seq<Intent>) {
    && |before| <= |after|
    && forall i :: 0 <= i < |before| ==>
         && after[i].reservationKey == before[i].reservationKey
         && after[i].idempotencyKey == before[i].idempotencyKey
         && (Terminal(before[i].status) ==> after[i] == before[i])
  }

  ghost predicate TableSound(table: seq<Intent>) {
    OnlyNewestActive(table) && UniqueColumns(table)
  }

  lemma InsertKeepsTable(table: seq<Intent>, key: string, idempotencyKey: string, expiresAt: int)
    requires TableSound(table)
    requires FindActive(table, key) == |table| && FindByIdempotencyKey(table, idempotencyKey) == |table|
    ensures var r := table + [NewIntent(key, idempotencyKey, expiresAt)];
            TableSound(r) && Follows(table, r)
  {
    forall j | 0 <= j < |table| && table[j].reservationKey == key ensures Terminal(table[j].status) {
      assert !IsActiveFor(table[j], key);
    }
  }

  lemma TransitionKeepsTable(table: seq<Intent>, i: nat, change: Change)
    requires TableSound(table) && TransitionRefusal(table, i, change).None?
    ensures var r := table[i := Changed(table[i], change)];
            TableSound(r) && Follows(table, r)
  {
    var r := table[i := Changed(table[i], change)];
    forall j, k | 0 <= j < k < |r| && r[j].reservationKey == r[k].reservationKey ensures Terminal(r[j].status) {
      assert Terminal(table[j].status);
    }
    forall j, k | 0 <= j < k < |r|
      ensures r[j].idempotencyKey != r[k].idempotencyKey
      ensures r[j].reference.Some? ==> r[j].reference != r[k].reference
    {
      assert table[j].idempotencyKey != table[k].idempotencyKey;
      if change.reference.Some? {
        assert forall m :: 0 <= m < |table| && m != i ==> table[m].reference != change.reference;
      }
    }
  }

  lemma ExecuteKeepsTable(table: seq<Intent>, statement: Statement)
    requires TableSound(table)
    ensures TableSound(Execute(table, statement)) && Follows(table, Execute(table, statement))
  {
    match statement
    case Insert(key, idempotencyKey, expiresAt) =>
      if CreateOutcome(table, key, idempotencyKey, true).Created? {
        InsertKeepsTable(table, key, idempotencyKey, expiresAt);
      }
    case Transition(i, change) =>
      if TransitionRefusal(table, i, change).None? {
        TransitionKeepsTable(table, i, change);
      }
    case ExpireStale(now) =>
    case RecordFailure(i, message) =>
    case ClaimForRecovery(i) =>
  }

  lemma FollowsTransitive(a: seq<Intent>, b: seq<Intent>, c: seq<Intent>)
    requires Follows(a, b) && Follows(b, c)
    ensures Follows(a, c)
  {
  }

  // ---- Recovery ----

  /** The recovery worker claims the intent and its replay fails, once for every message. */
  function Recoveries(i: nat, messages: seq<string>): seq<Statement> {
    if messages == [] then []
    else
      Recoveries(i, messages[..|messages| - 1])
      + [ClaimForRecovery(i), RecordFailure(i, messages[|messages| - 1])]
  }

  lemma ExecuteTwoMore(table: seq<Intent>, done: seq<Statement>, first: Statement, second: Statement)
    ensures ExecuteAll(table, done + [first, second]) == Execute(Execute(ExecuteAll(table, done), first), second)
  {
    var all := done + [first, second];
    assert all[..|all| - 1] == done + [first];
    assert (done + [first])[..|done|] == done;
  }

  /**
   Failed recoveries never end an intent: it stays INITIALIZING and unclaimed for the next sweep, with every claim
   counted and the last message kept, cut to 2000 characters; no other intent is touched.
   */
  lemma {:induction false} FailedRecoveriesKeepTheIntent(table: seq<Intent>, i: nat, messages: seq<string>)
    requires i < |table| && table[i].status.Initializing? && messages != []
    ensures ExecuteAll(table, Recoveries(i, messages))
         == table[i := table[i].(
              claimed := false, recoveryAttempts := table[i].recoveryAttempts + |messages|,
              lastRecoveryError := Some(
                var last := messages[|messages| - 1];
                if |last| <= 2000 then last else last[..2000]))]
  {
    var n := |messages| - 1;
    ExecuteTwoMore(table, Recoveries(i, messages[..n]), ClaimForRecovery(i), RecordFailure(i, messages[n]));
    if n == 0 {
      assert Recoveries(i, messages[..0]) == [];
    } else {
      FailedRecoveriesKeepTheIntent(table, i, messages[..n]);
    }
    OneRecovery(ExecuteAll(table, Recoveries(i, messages[..n])), i, messages[n]);
  }

  lemma OneRecovery(table: seq<Intent>, i: nat, message: string)
    requires i < |table| && table[i].status.Initializing?
    ensures Execute(Execute(table, ClaimForRecovery(i)), RecordFailure(i, message))
         == table[i := table[i].(
              claimed := false, recoveryAttempts := table[i].recoveryAttempts + 1,
              lastRecoveryError := Some(if |message| <= 2000 then message else message[..2000]))]
  {
  }

  // ---- The calls ----

  /** How many creates a call has made by the time it stands where it stands. */
  ghost predicate CreatesFit(call: Call) {
    match call.stage
    case LookingUp(mayRetry) => call.creates == if mayRetry then 0 else 1
    case Creating(mayRetry) => call.creates == if mayRetry then 0 else 1
    case Finding(mayRetry) => call.creates == if mayRetry then 1 else 2
    case Finished(outcome) => call.creates <= 2 && (outcome.ReservationChanged? ==> call.creates == 2)
  }

  predicate IsNew(call: Call) {
    call.stage.Finished? && call.stage.outcome.New?
  }

  /** A result points at a row of the right key. */
  ghost predicate ResultFits(table: seq<Intent>, call: Call) {
    call.stage.Finished? ==>
      match call.stage.outcome
      case New(i) => i < |table| && table[i].reservationKey == call.key
      case ExistingByReservation(i) => i < |table| && table[i].reservationKey == call.key
      case ExistingByClientKey(i) => i < |table| && Some(table[i].idempotencyKey) == call.clientKey
      case _ => true
  }

  /** Results point at rows of the right key, and no row was new to two calls. */
  ghost predicate CallsSound(s: System) {
    && (forall c :: 0 <= c < |s.calls| ==> CreatesFit(s.calls[c]) && ResultFits(s.table, s.calls[c]))
    && (forall c, d :: 0 <= c < d < |s.calls| && IsNew(s.calls[c]) && IsNew(s.calls[d]) ==>
          s.calls[c].stage.outcome.intent != s.calls[d].stage.outcome.intent)
  }

  ghost predicate SystemSound(s: System) {
    TableSound(s.table) && CallsSound(s)
  }

  lemma OtherKeepsSystem(s: System, statement: Statement)
    requires SystemSound(s)
    ensures SystemSound(Step(s, Other(statement))) && Follows(s.table, Step(s, Other(statement)).table)
  {
    ExecuteKeepsTable(s.table, statement);
  }

  /** Calls as they were, but for one whose result, if it has one, is sound and not new. */
  lemma MovedCallIsSound(s: System, table: seq<Intent>, c: nat, call: Call)
    requires CallsSound(s) && Follows(s.table, table) && c < |s.calls|
    requires CreatesFit(call) && ResultFits(table, call)
    requires IsNew(call) ==> call.stage.outcome.intent >= |s.table|
    ensures CallsSound(System(table, s.calls[c := call]))
  {
    var r := System(table, s.calls[c := call]);
    forall d | 0 <= d < |r.calls| ensures CreatesFit(r.calls[d]) && ResultFits(table, r.calls[d]) {
      if d != c {
        assert CreatesFit(s.calls[d]) && ResultFits(s.table, s.calls[d]);
      }
    }
    forall d, e | 0 <= d < e < |r.calls| && IsNew(r.calls[d]) && IsNew(r.calls[e])
      ensures r.calls[d].stage.outcome.intent != r.calls[e].stage.outcome.intent
    {
      assert d != c ==> ResultFits(s.table, s.calls[d]);
      assert e != c ==> ResultFits(s.table, s.calls[e]);
    }
  }

  lemma CreateKeepsSystem(s: System, event: Event)
    requires SystemSound(s) && event.Advance? && event.call < |s.calls| && s.calls[event.call].stage.Creating?
    ensures SystemSound(Step(s, event)) && Follows(s.table, Step(s, event).table)
  {
    var call := s.calls[event.call];
    var key := KeyFor(call, event.uuid);
    var mayRetry := call.stage.mayRetry;
    var result := CreateOutcome(s.table, call.key, key, event.namesReservation);
    assert CreatesFit(call);
    if result.Created? {
      InsertKeepsTable(s.table, call.key, key, event.expiresAt);
    }
    MovedCallIsSound(s, Step(s, event).table, event.call, AfterCreate(s.table, call, mayRetry, result));
  }

  lemma BeginKeepsSystem(s: System, key: string, clientKey: Option<string>)
    requires SystemSound(s)
    ensures SystemSound(Step(s, Begin(key, clientKey)))
  {
  }

  /** Looking up and finding only move the call on. */
  lemma ReadKeepsSystem(s: System, event: Event)
    requires SystemSound(s) && event.Advance? && event.call < |s.calls| && !s.calls[event.call].stage.Creating?
    ensures SystemSound(Step(s, event)) && Step(s, event).table == s.table
  {
    assert CreatesFit(s.calls[event.call]);
    if !s.calls[event.call].stage.Finished? {
      MovedCallIsSound(s, s.table, event.call, Step(s, event).calls[event.call]);
    }
  }

  lemma StepKeepsSystem(s: System, event: Event)
    requires SystemSound(s)
    ensures SystemSound(Step(s, event)) && Follows(s.table, Step(s, event).table)
  {
    match event
    case Begin(key, clientKey) => BeginKeepsSystem(s, key, clientKey);
    case Other(statement) => OtherKeepsSystem(s, statement);
    case Advance(c, _, _, _) =>
      if c < |s.calls| {
        if s.calls[c].stage.Creating? {
          CreateKeepsSystem(s, event);
        } else {
          ReadKeepsSystem(s, event);
        }
      }
  }

  /** A run from a sound system is sound, and what was terminal before it is the same after it. */
  lemma {:induction false} RunsFollow(s: System, events: seq<Event>)
    requires SystemSound(s)
    ensures SystemSound(Run(s, events)) && Follows(s.table, Run(s, events).table)
  {
    if events != [] {
      var n := |events| - 1;
      RunsFollow(s, events[..n]);
      StepKeepsSystem(Run(s, events[..n]), events[n]);
      FollowsTransitive(s.table, Run(s, events[..n]).table, Run(s, events).table);
    }
  }

  /** At every moment of every run at most one intent per reservation key is active. */
  lemma {:induction false} AtMostOneActive(events: seq<Event>, j: nat, k: nat)
    ensures var table := Run(START, events).table;
            (j < |table| && k < |table| && table[j].reservationKey == table[k].reservationKey
             && table[j].status in {Initializing, Initialized, Pending, Processing}
             && table[k].status in {Initializing, Initialized, Pending, Processing}) ==> j == k
  {
    RunsFollow(START, events);
    var table := Run(START, events).table;
    if j < |table| && k < |table| && table[j].reservationKey == table[k].reservationKey && j != k {
      assert Terminal(table[if j < k then j else k].status);
    }
  }

  lemma {:induction false} RunConcat(s: System, first: seq<Event>, second: seq<Event>)
    ensures Run(s, first + second) == Run(Run(s, first), second)
  {
    if second == [] {
      assert first + second == first;
    } else {
      var n := |second| - 1;
      assert (first + second)[..|first| + n] == first + second[..n];
      RunConcat(s, first, second[..n]);
    }
  }

  /** Once terminal, an intent stays exactly as it is, whatever else happens. */
  lemma TerminalIsForever(events: seq<Event>, later: seq<Event>, i: nat)
    requires i < |Run(START, events).table|
    requires Run(START, events).table[i].status in {Success, Failed, Expired, Cancelled}
    ensures var after := Run(START, events + later).table;
            i < |after| && after[i] == Run(START, events).table[i]
  {
    RunsFollow(START, events);
    RunsFollow(Run(START, events), later);
    RunConcat(START, events, later);
  }

  /** Two calls that were both told "new" for one key: the intent of one of them has ended. */
  lemma NewResultsAreSeparated(events: seq<Event>, c: nat, d: nat)
    requires var calls := Run(START, events).calls;
             && c < |calls| && d < |calls| && c != d && calls[c].key == calls[d].key
             && IsNew(calls[c]) && IsNew(calls[d])
    ensures var s := Run(START, events);
            var i, j := s.calls[c].stage.outcome.intent, s.calls[d].stage.outcome.intent;
            && i < |s.table| && j < |s.table| && i != j
            && Terminal(s.table[if i < j then i else j].status)
  {
    RunsFollow(START, events);
  }

  /** No call ever attempts more than two creates, and it gives up only after two. */
  lemma AtMostTwoCreates(events: seq<Event>, c: nat)
    requires c < |Run(START, events).calls|
    ensures Run(START, events).calls[c].creates <= 2
    ensures Run(START, events).calls[c].stage == Finished(ReservationChanged) ==>
              Run(START, events).calls[c].creates == 2
  {
    RunsFollow(START, events);
    assert CreatesFit(Run(START, events).calls[c]);
  }

  ghost predicate FoundBy(s: System, c: nat, i: nat) {
    c < |s.calls| && s.calls[c].stage == Finished(ExistingByReservation(i))
  }

  lemma StepFinds(s: System, event: Event, c: nat, i: nat)
    requires FoundBy(Step(s, event), c, i) && !FoundBy(s, c, i)
    ensures && c < |s.calls| && s.calls[c].stage.Finding?
            && i < |s.table| && IsActiveFor(s.table[i], s.calls[c].key)
            && s.calls[c].key == Step(s, event).calls[c].key
  {
  }

  lemma StepKeepsKeys(s: System, event: Event, c: nat)
    requires c < |s.calls|
    ensures c < |Step(s, event).calls| && Step(s, event).calls[c].key == s.calls[c].key
  {
  }

  /**
   An intent handed out because of its reservation key was active at some moment while the call
   was running, even if it has ended since.
   */
  lemma {:induction false} FoundWasActive(events: seq<Event>, c: nat, i: nat) returns (n: nat)
    requires FoundBy(Run(START, events), c, i)
    ensures n < |events|
    ensures var s := Run(START, events[..n]);
            && c < |s.calls| && !s.calls[c].stage.Finished?
            && i < |s.table| && IsActiveFor(s.table[i], Run(START, events).calls[c].key)
  {
    var last := |events| - 1;
    var before := Run(START, events[..last]);
    if FoundBy(before, c, i) {
      n := FoundWasActive(events[..last], c, i);
      assert events[..last][..n] == events[..n];
      StepKeepsKeys(before, events[last], c);
    } else {
      n := last;
      StepFinds(before, events[last], c, i);
    }
  }

  /** A new intent is active the moment it is handed out, and every earlier one of its key has ended. */
  lemma NewIsTheOnlyActive(s: System, event: Event, c: nat)
    requires SystemSound(s) && c < |s.calls| && !s.calls[c].stage.Finished?
    requires c < |Step(s, event).calls| && IsNew(Step(s, event).calls[c])
    ensures var r := Step(s, event);
            var i := r.calls[c].stage.outcome.intent;
            && i == |s.table| && i < |r.table| && IsActiveFor(r.table[i], s.calls[c].key)
            && forall k :: 0 <= k < i && r.table[k].reservationKey == s.calls[c].key ==> Terminal(r.table[k].status)
  {
    StepKeepsSystem(s, event);
  }
}
