/** What each access of a reservation answers, and which outcome a call has to come to, from what is in the table. */
module PaymentIntentLookups {
  import opened Common
  import opened PaymentIntents
  import opened PaymentIntentProofs

  /** An intent has this idempotency key. */
  predicate HasKey(table: seq<Intent>, key: string) {
    exists i :: 0 <= i < |table| && table[i].idempotencyKey == key
  }

  predicate HasEnded(intent: Intent) {
    match intent.status
    case Success | Failed | Expired | Cancelled => true
    case Initializing | Initialized | Pending | Processing => false
  }

  /** An intent of this reservation key has not ended. */
  predicate IsReserved(table: seq<Intent>, key: string) {
    exists i :: 0 <= i < |table| && table[i].reservationKey == key && !HasEnded(table[i])
  }

  lemma KeyIsFound(table: seq<Intent>, key: string)
    ensures HasKey(table, key) <==> FindByIdempotencyKey(table, key) < |table|
  {
    if HasKey(table, key) {
      var i :| 0 <= i < |table| && table[i].idempotencyKey == key;
      assert !(FindByIdempotencyKey(table, key) > i);
    }
  }

  lemma ReservationIsFound(table: seq<Intent>, key: string)
    ensures IsReserved(table, key) <==> FindActive(table, key) < |table|
  {
    if IsReserved(table, key) {
      var i :| 0 <= i < |table| && table[i].reservationKey == key && !HasEnded(table[i]);
      assert IsActiveFor(table[i], key);
    }
  }

  // ---- The three accesses ----

  /** A call that looks its client key up has one, and it is not empty. */
  predicate Names(call: Call, key: string) {
    call.clientKey == Some(key) && key != ""
  }

  /** The lookup: the intent of the client key if there is one, otherwise on to the create.  Nothing is written. */
  lemma LookupAnswers(s: System, event: Event)
    requires event.Advance? && event.call < |s.calls| && s.calls[event.call].stage.LookingUp?
    ensures var call := s.calls[event.call];
            var r := Step(s, event);
            && r.table == s.table && |r.calls| == |s.calls| && r.calls[event.call].creates == call.creates
            && if exists key :: Names(call, key) && HasKey(s.table, key)
               then && r.calls[event.call].stage.Finished? && r.calls[event.call].stage.outcome.ExistingByClientKey?
                    && var i := r.calls[event.call].stage.outcome.intent;
                       i < |s.table| && Some(s.table[i].idempotencyKey) == call.clientKey
               else r.calls[event.call].stage == Creating(call.stage.mayRetry)
  {
    var call := s.calls[event.call];
    if call.clientKey.Some? {
      KeyIsFound(s.table, call.clientKey.value);
      assert call.clientKey.value != "" ==> Names(call, call.clientKey.value);
    }
  }

  /**
   The create: a new intent, initialising, unclaimed and without a reference, exactly when no intent of the
   reservation key goes on and none has the idempotency key; otherwise the search for the rival, or the end,
   according to the index the database names.
   */
  lemma CreateAnswers(s: System, event: Event)
    requires event.Advance? && event.call < |s.calls| && s.calls[event.call].stage.Creating?
    ensures var call := s.calls[event.call];
            var key := if call.clientKey.Some? then call.clientKey.value else event.uuid;
            var r := Step(s, event);
            var reserved, used := IsReserved(s.table, call.key), HasKey(s.table, key);
            && |r.calls| == |s.calls| && r.calls[event.call].creates == call.creates + 1
            && r.table == (if reserved || used then s.table
                           else s.table + [Intent(call.key, key, Initializing, event.expiresAt, None, None,
                                                  false, 0, None)])
            && r.calls[event.call].stage
               == if !reserved && !used then Finished(New(|s.table|))
                  else if reserved && (!used || event.namesReservation) then Finding(call.stage.mayRetry)
                  else Finished(Rejected)
  {
    var call := s.calls[event.call];
    KeyIsFound(s.table, if call.clientKey.Some? then call.clientKey.value else event.uuid);
    ReservationIsFound(s.table, call.key);
  }

  /** The search for the rival: the intent of the reservation key that goes on, a second attempt, or giving up. */
  lemma FindAnswers(s: System, event: Event)
    requires event.Advance? && event.call < |s.calls| && s.calls[event.call].stage.Finding?
    ensures var call := s.calls[event.call];
            var r := Step(s, event);
            && r.table == s.table && |r.calls| == |s.calls| && r.calls[event.call].creates == call.creates
            && if IsReserved(s.table, call.key)
               then && r.calls[event.call].stage.Finished? && r.calls[event.call].stage.outcome.ExistingByReservation?
                    && var i := r.calls[event.call].stage.outcome.intent;
                       i < |s.table| && s.table[i].reservationKey == call.key && !HasEnded(s.table[i])
               else r.calls[event.call].stage
                    == if call.stage.mayRetry then LookingUp(false) else Finished(ReservationChanged)
  {
    ReservationIsFound(s.table, s.calls[event.call].key);
  }

  // ---- Every run ----

  lemma StepLeavesCall(s: System, event: Event, c: nat)
    requires c < |s.calls|
    requires s.calls[c].stage.Finished? || !(event.Advance? && event.call == c)
    ensures c < |Step(s, event).calls| && Step(s, event).calls[c] == s.calls[c]
  {
  }

  lemma {:induction false} FinishedStays(s: System, events: seq<Event>, c: nat)
    requires c < |s.calls| && s.calls[c].stage.Finished?
    ensures c < |Run(s, events).calls| && Run(s, events).calls[c] == s.calls[c]
  {
    if events != [] {
      FinishedStays(s, events[..|events| - 1], c);
      StepLeavesCall(Run(s, events[..|events| - 1]), events[|events| - 1], c);
    }
  }

  /**
   In every run, a call whose client key is on an intent when it looks it up ends with exactly that intent, whatever
   happens afterwards, and makes no further create.
   */
  lemma KnownKeyIsAnswered(done: seq<Event>, lookup: Event, later: seq<Event>, key: string, i: nat)
    requires var s := Run(START, done);
             && lookup.Advance? && lookup.call < |s.calls| && s.calls[lookup.call].stage.LookingUp?
             && s.calls[lookup.call].clientKey == Some(key) && key != ""
             && i < |s.table| && s.table[i].idempotencyKey == key
    ensures var calls := Run(START, done + [lookup] + later).calls;
            && lookup.call < |calls|
            && calls[lookup.call].stage == Finished(ExistingByClientKey(i))
            && calls[lookup.call].creates == Run(START, done).calls[lookup.call].creates
  {
    var s := Run(START, done);
    RunsFollow(START, done);
    assert Names(s.calls[lookup.call], key) && HasKey(s.table, key);
    LookupAnswers(s, lookup);
    assert (done + [lookup])[..|done|] == done;
    assert Run(START, done + [lookup]) == Step(s, lookup);
    RunConcat(START, done + [lookup], later);
    FinishedStays(Step(s, lookup), later, lookup.call);
    var found := Step(s, lookup).calls[lookup.call].stage.outcome.intent;
    assert s.table[found].idempotencyKey == s.table[i].idempotencyKey;
  }

  lemma PrefixesOfPrefix(events: seq<Event>, n: nat)
    requires n <= |events|
    ensures forall j :: 0 <= j <= n ==> events[..n][..j] == events[..j]
  {
  }

  /** The last moment at which a call that is about to create has looked its client key up, and not found it. */
  lemma {:induction false} LookedUpInVain(events: seq<Event>, c: nat, key: string) returns (m: nat)
    requires c < |Run(START, events).calls| && Run(START, events).calls[c].stage.Creating?
    requires Names(Run(START, events).calls[c], key)
    ensures m < |events| && events[m].Advance? && events[m].call == c
    ensures c < |Run(START, events[..m]).calls| && Run(START, events[..m]).calls[c].stage.LookingUp?
    ensures !HasKey(Run(START, events[..m]).table, key)
    ensures forall j :: m < j <= |events| ==>
              c < |Run(START, events[..j]).calls| && Run(START, events[..j]).calls[c].stage.Creating?
  {
    var last := |events| - 1;
    var before := Run(START, events[..last]);
    assert events[..|events|] == events;
    if c < |before.calls| && before.calls[c].stage.Creating? {
      CreatingStays(before, events[last], c);
      m := LookedUpInVain(events[..last], c, key);
      PrefixesOfPrefix(events, last);
    } else {
      CreatingFromLookup(before, events[last], c, key);
      m := last;
    }
  }

  lemma CreatingStays(s: System, event: Event, c: nat)
    requires c < |s.calls| && s.calls[c].stage.Creating?
    requires c < |Step(s, event).calls| && Step(s, event).calls[c].stage.Creating?
    ensures Step(s, event).calls[c] == s.calls[c]
  {
    if event.Advance? && event.call == c {
      CreateAnswers(s, event);
    }
  }

  lemma CreatingFromLookup(s: System, event: Event, c: nat, key: string)
    requires c < |Step(s, event).calls| && Step(s, event).calls[c].stage.Creating?
    requires !(c < |s.calls| && s.calls[c].stage.Creating?) && Names(Step(s, event).calls[c], key)
    ensures event.Advance? && event.call == c && c < |s.calls| && s.calls[c].stage.LookingUp?
    ensures !HasKey(s.table, key)
  {
    KeyIsFound(s.table, key);
  }

  /**
   In every run, a call is rejected only by a create whose key is on an intent already: the client's own key, which
   then got there after the call's last lookup, or an empty or a drawn one, which is never looked up.
   */
  lemma {:induction false} RejectedOnlyForItsKey(events: seq<Event>, c: nat) returns (n: nat, m: nat)
    requires c < |Run(START, events).calls| && Run(START, events).calls[c].stage == Finished(Rejected)
    ensures n < |events| && events[n].Advance? && events[n].call == c
    ensures c < |Run(START, events[..n]).calls| && Run(START, events[..n]).calls[c].stage.Creating?
    ensures var call := Run(START, events).calls[c];
            && HasKey(Run(START, events[..n]).table,
                      if call.clientKey.Some? then call.clientKey.value else events[n].uuid)
            && forall key :: Names(call, key) ==>
                 && m < n && events[m].Advance? && events[m].call == c
                 && c < |Run(START, events[..m]).calls| && Run(START, events[..m]).calls[c].stage.LookingUp?
                 && !HasKey(Run(START, events[..m]).table, key)
                 && forall j :: m < j <= n ==>
                      c < |Run(START, events[..j]).calls| && Run(START, events[..j]).calls[c].stage.Creating?
  {
    var last := |events| - 1;
    var before := Run(START, events[..last]);
    if c < |before.calls| && before.calls[c].stage == Finished(Rejected) {
      StepLeavesCall(before, events[last], c);
      n, m := RejectedOnlyForItsKey(events[..last], c);
      PrefixesOfPrefix(events, last);
    } else {
      RejectedByCreate(before, events[last], c);
      n, m := last, 0;
      var call := before.calls[c];
      if call.clientKey.Some? && call.clientKey.value != "" {
        m := LookedUpInVain(events[..last], c, call.clientKey.value);
        PrefixesOfPrefix(events, last);
      }
    }
  }

  lemma RejectedByCreate(s: System, event: Event, c: nat)
    requires c < |Step(s, event).calls| && Step(s, event).calls[c].stage == Finished(Rejected)
    requires !(c < |s.calls| && s.calls[c].stage == Finished(Rejected))
    ensures event.Advance? && event.call == c && c < |s.calls| && s.calls[c].stage.Creating?
    ensures Step(s, event).calls[c].clientKey == s.calls[c].clientKey
    ensures HasKey(s.table, if s.calls[c].clientKey.Some? then s.calls[c].clientKey.value else event.uuid)
  {
    assert event.Advance? && event.call == c && c < |s.calls|;
    if s.calls[c].stage.Creating? {
      CreateAnswers(s, event);
    }
  }
}
