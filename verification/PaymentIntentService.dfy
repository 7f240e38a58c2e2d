/** The intent table as PaymentIntentService updates it, other processes acting between its accesses. */
module PaymentIntentService {
  import opened Common
  import opened PaymentIntents
  import opened PaymentIntentProofs
  import opened PaymentIntentLookups

  datatype CancelFailure = IntentNotFound | IntentAlreadyTerminal

  /** What happens around the three accesses of one attempt: others' statements, and what the database answers. */
  datatype Attempt = Attempt(
    beforeLookup: seq<Statement>, beforeCreate: seq<Statement>, beforeFind: seq<Statement>,
    uuid: string, expiresAt: int, namesReservation: bool)

  /** The protocol with one call in it. */
  function Alone(table: seq<Intent>, call: Call): System {
    System(table, [call])
  }

  function AccessOf(attempt: Attempt): Event {
    Advance(0, attempt.uuid, attempt.expiresAt, attempt.namesReservation)
  }

  lemma OneMore(s: System, trace: seq<Event>, event: Event)
    ensures Run(s, trace + [event]) == Step(Run(s, trace), event)
  {
    assert (trace + [event])[..|trace|] == trace;
  }

  /** A call from its beginning, on its own among other processes' statements. */
  lemma WholeCall(table: seq<Intent>, key: string, clientKey: Option<string>, rest: seq<Event>)
    requires TableSound(table)
    ensures var after := Run(Alone(table, Call(key, clientKey, LookingUp(true), 0)), rest);
            && Run(System(table, []), [Begin(key, clientKey)] + rest) == after
            && TableSound(after.table) && Follows(table, after.table)
  {
    var start := System(table, []);
    assert [] + [Begin(key, clientKey)] == [Begin(key, clientKey)];
    OneMore(start, [], Begin(key, clientKey));
    assert Run(start, []) == start;
    assert Run(start, [Begin(key, clientKey)]) == Alone(table, Call(key, clientKey, LookingUp(true), 0));
    RunConcat(start, [Begin(key, clientKey)], rest);
    RunsFollow(start, [Begin(key, clientKey)] + rest);
  }

  lemma NoOtherActive(table: seq<Intent>, key: string, i: nat)
    requires TableSound(table) && i < |table| && IsActiveFor(table[i], key)
    ensures forall k :: 0 <= k < |table| && IsActiveFor(table[k], key) ==> k == i
  {
    forall k | 0 <= k < |table| && k != i ensures !IsActiveFor(table[k], key) {
      if table[k].reservationKey == key {
        assert Terminal(table[if i < k then i else k].status);
      }
    }
  }

  function StaleIds(table: seq<Intent>, now: int): (ids: seq<nat>)
    ensures forall i: nat :: i in ids <==>
              i < |table| && table[i].status in {Initializing, Initialized} && table[i].expiresAt < now
  {
    if table == [] then []
    else
      var n := |table| - 1;
      StaleIds(table[..n], now) + (if Stale(table[n], now) then [n] else [])
  }

  predicate Increasing(ids: seq<nat>) {
    forall j, k :: 0 <= j < k < |ids| ==> ids[j] < ids[k]
  }

  /** The stale rows are listed once each, in order. */
  lemma {:induction false} StaleInOrder(table: seq<Intent>, now: int)
    ensures Increasing(StaleIds(table, now))
  {
    if table != [] {
      var n := |table| - 1;
      var before := StaleIds(table[..n], now);
      StaleInOrder(table[..n], now);
      forall j | 0 <= j < |before| ensures before[j] < n {
        assert before[j] in before;
      }
    }
  }

  /** The row one of the two attempts has created. */
  predicate IsNewFor(row: Intent, call: Call, attempt: Attempt, retry: Option<Attempt>) {
    || row == Intent(call.key, KeyFor(call, attempt.uuid), Initializing, attempt.expiresAt, None, None, false, 0, None)
    || (retry.Some?
        && row == Intent(call.key, KeyFor(call, retry.value.uuid), Initializing, retry.value.expiresAt,
                         None, None, false, 0, None))
  }

  /** A client key that is on an intent when it is looked up is answered with that intent, and nothing is written. */
  predicate AnsweredByKey(looked: seq<Intent>, clientKey: Option<string>, outcome: Outcome, table: seq<Intent>) {
    clientKey.Some? && clientKey.value != "" && HasKey(looked, clientKey.value) ==>
      && outcome.ExistingByClientKey? && outcome.intent < |looked|
      && looked[outcome.intent].idempotencyKey == clientKey.value
      && table == looked
  }

  class IntentStore {
    var table: seq<Intent>

    constructor ()
      ensures table == []
    {
      table := [];
    }

    /** transitionStatus: an update that a terminal row does not match. */
    method TransitionStatus(i: nat, change: Change) returns (r: Result<Intent, TransitionError>)
      modifies this
      ensures table == Execute(old(table), Transition(i, change))
      ensures RefusedAs(old(table), i, change.reference, r)
      ensures r.Err? ==> table == old(table)
      ensures r.Ok? ==>
                var row := old(table)[i];
                && r.value == row.(
                     status := change.to,
                     reference := if change.reference.Some? then change.reference else row.reference,
                     authorizationUrl :=
                       if change.authorizationUrl.Some? then change.authorizationUrl else row.authorizationUrl,
                     claimed := row.claimed && !change.releasesClaim,
                     lastRecoveryError := if change.error.Some? then change.error else row.lastRecoveryError)
                && table == old(table)[i := r.value]
    {
      var count := 0;
      if i < |table| && !Terminal(table[i].status) {
        if ReferenceUsed(table, i, change.reference) {
          return Err(ReferenceTaken);
        }
        table := table[i := Changed(table[i], change)];
        count := 1;
      }
      if count == 0 {
        if i >= |table| {
          return Err(NotFound);
        }
        return Err(AlreadyTerminal(table[i].status));
      }
      r := Ok(table[i]);
    }

    /** cancel: the two refusals become answers. */
    method Cancel(i: nat, reason: Option<string>) returns (failure: Option<CancelFailure>)
      modifies this
      ensures table == Execute(old(table), Transition(i, CancelledBecause(reason)))
      ensures failure == if i >= |old(table)| then Some(IntentNotFound)
                         else if old(table)[i].status in {Success, Failed, Expired, Cancelled}
                         then Some(IntentAlreadyTerminal)
                         else None
      ensures failure.Some? ==> table == old(table)
      ensures failure.None? ==>
                var row := old(table)[i];
                table == old(table)[i := row.(
                  status := Cancelled, claimed := false,
                  authorizationUrl := if reason.Some? then reason else row.authorizationUrl)]
    {
      var r := TransitionStatus(i, CancelledBecause(reason));
      if r.Ok? {
        return None;
      }
      failure := if r.error.NotFound? then Some(IntentNotFound) else Some(IntentAlreadyTerminal);
    }

    method MarkInitialized(i: nat, reference: string, url: string) returns (r: Result<Intent, TransitionError>)
      modifies this
      ensures table == Execute(old(table), Transition(i, InitializedAt(reference, url)))
      ensures RefusedAs(old(table), i, Some(reference), r)
      ensures r.Err? ==> table == old(table)
      ensures r.Ok? ==>
                && r.value == old(table)[i].(
                     status := Initialized, reference := Some(reference), authorizationUrl := Some(url),
                     claimed := false)
                && table == old(table)[i := r.value]
    {
      r := TransitionStatus(i, InitializedAt(reference, url));
    }

    method MarkPending(i: nat) returns (r: Result<Intent, TransitionError>)
      modifies this
      ensures table == Execute(old(table), Transition(i, MarkedPending()))
      ensures RefusedAs(old(table), i, None, r)
      ensures r.Err? ==> table == old(table)
      ensures r.Ok? ==>
                r.value == old(table)[i].(status := Pending) && table == old(table)[i := r.value]
    {
      r := TransitionStatus(i, MarkedPending());
    }

    method MarkProcessing(i: nat) returns (r: Result<Intent, TransitionError>)
      modifies this
      ensures table == Execute(old(table), Transition(i, MarkedProcessing()))
      ensures RefusedAs(old(table), i, None, r)
      ensures r.Err? ==> table == old(table)
      ensures r.Ok? ==>
                r.value == old(table)[i].(status := Processing) && table == old(table)[i := r.value]
    {
      r := TransitionStatus(i, MarkedProcessing());
    }

    method MarkSuccess(i: nat) returns (r: Result<Intent, TransitionError>)
      modifies this
      ensures table == Execute(old(table), Transition(i, MarkedSuccess()))
      ensures RefusedAs(old(table), i, None, r)
      ensures r.Err? ==> table == old(table)
      ensures r.Ok? ==>
                r.value == old(table)[i].(status := Success) && table == old(table)[i := r.value]
    {
      r := TransitionStatus(i, MarkedSuccess());
    }

    method MarkFailed(i: nat, reason: Option<string>) returns (r: Result<Intent, TransitionError>)
      modifies this
      ensures table == Execute(old(table), Transition(i, MarkedFailed(reason)))
      ensures RefusedAs(old(table), i, None, r)
      ensures r.Err? ==> table == old(table)
      ensures r.Ok? ==>
                && r.value == old(table)[i].(
                     status := Failed, claimed := false,
                     lastRecoveryError := if reason.Some? then reason else old(table)[i].lastRecoveryError)
                && table == old(table)[i := r.value]
    {
      r := TransitionStatus(i, MarkedFailed(reason));
    }

    method MarkExpired(i: nat) returns (r: Result<Intent, TransitionError>)
      modifies this
      ensures table == Execute(old(table), Transition(i, MarkedExpired()))
      ensures RefusedAs(old(table), i, None, r)
      ensures r.Err? ==> table == old(table)
      ensures r.Ok? ==>
                r.value == old(table)[i].(status := Expired, claimed := false) && table == old(table)[i := r.value]
    {
      r := TransitionStatus(i, MarkedExpired());
    }

    method RecordRecoveryFailure(i: nat, message: string)
      modifies this
      ensures table == Execute(old(table), RecordFailure(i, message))
      ensures i < |old(table)| && old(table)[i].status.Initializing? ==>
                table == old(table)[i := old(table)[i].(
                  claimed := false, lastRecoveryError := Some(if |message| <= 2000 then message else message[..2000]))]
      ensures !(i < |old(table)| && old(table)[i].status.Initializing?) ==> table == old(table)
    {
      if i < |table| && table[i].status.Initializing? {
        table := table[i := RecoveryFailed(table[i], message)];
      }
    }

    method FindStale(now: int) returns (listed: seq<nat>)
      ensures listed == StaleIds(table, now)
    {
      listed := [];
      for i := 0 to |table|
        invariant listed == StaleIds(table[..i], now)
      {
        assert table[..i + 1][..i] == table[..i];
        if Stale(table[i], now) {
          listed := listed + [i];
        }
      }
      assert table[..|table|] == table;
    }

    /** The conditional update of all stale rows, and the number of rows it matched. */
    method UpdateStale(now: int) returns (count: nat)
      modifies this
      ensures table == ExpireAll(old(table), now)
      ensures count == |StaleIds(old(table), now)|
    {
      count := 0;
      ghost var before := table;
      for i := 0 to |table|
        invariant |table| == |before|
        invariant forall k :: 0 <= k < i ==> table[k] == Expire(before[k], now)
        invariant forall k :: i <= k < |table| ==> table[k] == before[k]
        invariant count == |StaleIds(before[..i], now)|
      {
        assert before[..i + 1][..i] == before[..i];
        if Stale(table[i], now) {
          table := table[i := table[i].(status := Expired, claimed := false)];
          count := count + 1;
        }
      }
      assert before[..|before|] == before;
      assert table == ExpireAll(before, now);
    }

    method ExecuteOthers(others: seq<Statement>)
      modifies this
      ensures table == ExecuteAll(old(table), others)
    {
      ghost var before := table;
      for k := 0 to |others|
        invariant table == ExecuteAll(before, others[..k])
      {
        assert others[..k + 1][..k] == others[..k];
        table := Execute(table, others[k]);
      }
      assert others[..|others|] == others;
    }

    /** expireStale: its query, what others do, and its update; what it lists and what it counts may differ. */
    method ExpireStaleIntents(now: int, others: seq<Statement>) returns (count: nat, listed: seq<nat>)
      modifies this
      ensures listed == StaleIds(old(table), now)
      ensures var between := ExecuteAll(old(table), others);
              && count == |StaleIds(between, now)| && |table| == |between|
              && forall i :: 0 <= i < |table| ==>
                   table[i] == if between[i].status in {Initializing, Initialized} && between[i].expiresAt < now
                               then between[i].(status := Expired, claimed := false) else between[i]
      ensures table == Execute(ExecuteAll(old(table), others), ExpireStale(now))
    {
      listed := FindStale(now);
      ExecuteOthers(others);
      count := UpdateStale(now);
    }

    /** What other processes do before the next access of this one. */
    method Interleave(others: seq<Statement>, ghost start: System, ghost trace: seq<Event>, ghost call: Call)
        returns (ghost extended: seq<Event>)
      requires Run(start, trace) == Alone(table, call)
      modifies this
      ensures Run(start, extended) == Alone(table, call)
      ensures table == ExecuteAll(old(table), others)
    {
      extended := trace;
      ghost var before := table;
      for k := 0 to |others|
        invariant Run(start, extended) == Alone(table, call)
        invariant table == ExecuteAll(before, others[..k])
      {
        OneMore(start, extended, Other(others[k]));
        assert others[..k + 1][..k] == others[..k];
        table := Execute(table, others[k]);
        extended := extended + [Other(others[k])];
      }
      assert others[..|others|] == others;
    }

    method LookUp(call: Call, mayRetry: bool, attempt: Attempt, ghost start: System, ghost trace: seq<Event>)
        returns (next: Call, ghost extended: seq<Event>)
      requires Run(start, trace) == Alone(table, call) && call.stage == LookingUp(mayRetry)
      modifies this
      ensures Run(start, extended) == Alone(table, next)
      ensures table == ExecuteAll(old(table), attempt.beforeLookup)
      ensures next.key == call.key && next.clientKey == call.clientKey
      ensures if call.clientKey.Some? && call.clientKey.value != "" && HasKey(table, call.clientKey.value)
              then && next.stage.Finished? && next.stage.outcome.ExistingByClientKey?
                   && var i := next.stage.outcome.intent;
                      i < |table| && table[i].idempotencyKey == call.clientKey.value
              else next.stage == Creating(mayRetry)
    {
      extended := Interleave(attempt.beforeLookup, start, trace, call);
      ghost var event := AccessOf(attempt);
      OneMore(start, extended, event);
      extended := extended + [event];
      next := call.(stage := Creating(mayRetry));
      if call.clientKey.Some? && call.clientKey.value != "" {
        KeyIsFound(table, call.clientKey.value);
        var existing := FindByIdempotencyKey(table, call.clientKey.value);
        if existing < |table| {
          next := call.(stage := Finished(ExistingByClientKey(existing)));
        }
      }
    }

    /** The insert: a unique index may refuse it. */
    method TryCreate(call: Call, mayRetry: bool, attempt: Attempt, ghost start: System, ghost trace: seq<Event>)
        returns (next: Call, ghost extended: seq<Event>)
      requires Run(start, trace) == Alone(table, call) && call.stage == Creating(mayRetry)
      modifies this
      ensures Run(start, extended) == Alone(table, next)
      ensures next.key == call.key && next.clientKey == call.clientKey
      ensures match next.stage
              case Finding(may) => may == mayRetry
              case Finished(New(i)) =>
                i < |table| && table[i] == Intent(call.key, KeyFor(call, attempt.uuid), Initializing,
                                                  attempt.expiresAt, None, None, false, 0, None)
              case Finished(outcome) => outcome.Rejected? && HasKey(table, KeyFor(call, attempt.uuid))
              case _ => false
    {
      extended := Interleave(attempt.beforeCreate, start, trace, call);
      ghost var event := AccessOf(attempt);
      OneMore(start, extended, event);
      extended := extended + [event];
      var idempotencyKey := if call.clientKey.Some? then call.clientKey.value else attempt.uuid;
      KeyIsFound(table, idempotencyKey);
      var tried := call.(creates := call.creates + 1);
      match CreateOutcome(table, call.key, idempotencyKey, attempt.namesReservation)
      case Created =>
        next := tried.(stage := Finished(New(|table|)));
        table := table + [NewIntent(call.key, idempotencyKey, attempt.expiresAt)];
      case ReservationTaken =>
        next := tried.(stage := Finding(mayRetry));
      case KeyTaken =>
        next := tried.(stage := Finished(Rejected));
    }

    method FindRival(call: Call, mayRetry: bool, attempt: Attempt, ghost start: System, ghost trace: seq<Event>)
        returns (next: Call, ghost extended: seq<Event>)
      requires Run(start, trace) == Alone(table, call) && call.stage == Finding(mayRetry)
      modifies this
      ensures Run(start, extended) == Alone(table, next)
      ensures next == Find(table, call, mayRetry)
    {
      extended := Interleave(attempt.beforeFind, start, trace, call);
      ghost var event := AccessOf(attempt);
      OneMore(start, extended, event);
      extended := extended + [event];
      var existing := FindActive(table, call.key);
      if existing < |table| {
        next := call.(stage := Finished(ExistingByReservation(existing)));
      } else if mayRetry {
        next := call.(stage := LookingUp(false));
      } else {
        next := call.(stage := Finished(ReservationChanged));
      }
    }

    /**
     reserveInternal: `retry` is there when a retry is allowed.  Whatever others do in between, the
     call is a run of the protocol from where it stands to its end.
     */
    method ReserveInternal(call: Call, attempt: Attempt, retry: Option<Attempt>)
        returns (finished: Call, ghost trace: seq<Event>)
      requires call.stage == LookingUp(retry.Some?)
      modifies this
      ensures Run(Alone(old(table), call), trace) == Alone(table, finished)
      ensures finished.stage.Finished? && finished.key == call.key && finished.clientKey == call.clientKey
      ensures match finished.stage.outcome
              case New(i) => i < |table| && IsNewFor(table[i], call, attempt, retry)
              case ExistingByReservation(i) => i < |table| && IsActiveFor(table[i], call.key)
              case ExistingByClientKey(i) =>
                && i < |table| && Some(table[i].idempotencyKey) == call.clientKey && call.clientKey != Some("")
              case ReservationChanged => FindActive(table, call.key) == |table|
              case Rejected =>
                || HasKey(table, KeyFor(call, attempt.uuid))
                || (retry.Some? && HasKey(table, KeyFor(call, retry.value.uuid)))
      ensures AnsweredByKey(
                ExecuteAll(old(table), attempt.beforeLookup), call.clientKey, finished.stage.outcome, table)
      decreases if retry.Some? then 1 else 0
    {
      ghost var start := Alone(table, call);
      finished, trace := LookUp(call, retry.Some?, attempt, start, []);
      if finished.stage.Creating? {
        finished, trace := TryCreate(finished, retry.Some?, attempt, start, trace);
      }
      if finished.stage.Finding? {
        finished, trace := FindRival(finished, retry.Some?, attempt, start, trace);
      }
      if finished.stage.LookingUp? {
        ghost var rest;
        finished, rest := ReserveInternal(finished, retry.value, None);
        RunConcat(start, trace, rest);
        trace := trace + rest;
      }
    }

    /** reserve */
    method Reserve(purpose: Purpose, clientKey: Option<string>, attempt: Attempt, retry: Attempt)
        returns (outcome: Outcome, ghost trace: seq<Event>)
      requires TableSound(table)
      modifies this
      ensures TableSound(table) && Follows(old(table), table)
      ensures Run(old(System(table, [])), trace).table == table
      ensures outcome.New? || outcome.ExistingByReservation? ==>
                && outcome.intent < |table| && IsActiveFor(table[outcome.intent], ReservationKey(purpose))
                && (forall k :: 0 <= k < |table| && IsActiveFor(table[k], ReservationKey(purpose)) ==>
                      k == outcome.intent)
      ensures AnsweredByKey(ExecuteAll(old(table), attempt.beforeLookup), clientKey, outcome, table)
      ensures outcome.New? ==>
                && table[outcome.intent].status == Initializing && !table[outcome.intent].claimed
                && table[outcome.intent].reference == None
                && table[outcome.intent].reservationKey
                   == (match purpose
                       case ForInstallment(id) => "INSTALLMENT:" + id
                       case ForSubscription(id) => "SUBSCRIPTION:" + id
                       case ForOnboarding(id) => "ONBOARDING:" + id)
                && (clientKey.Some? ==> table[outcome.intent].idempotencyKey == clientKey.value)
      ensures outcome.Rejected? ==>
                if clientKey.Some? then HasKey(table, clientKey.value)
                else HasKey(table, attempt.uuid) || HasKey(table, retry.uuid)
    {
      var call := Call(ReservationKey(purpose), clientKey, LookingUp(true), 0);
      ghost var before := table;
      var finished, rest := ReserveInternal(call, attempt, Some(retry));
      WholeCall(before, call.key, clientKey, rest);
      trace := [Begin(call.key, clientKey)] + rest;
      outcome := finished.stage.outcome;
      if outcome.New? || outcome.ExistingByReservation? {
        NoOtherActive(table, call.key, outcome.intent);
      }
    }
  }
}
