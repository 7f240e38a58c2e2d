/** The sweeper's pass over expired sessions, others acting between its transactions. */
module KycSweep {
  import opened Common
  import opened Kyc
  import opened KycProofs

  lemma {:induction false} RunGrows(s: System, events: seq<Event>)
    requires Sound(s)
    ensures Grows(s, Run(s, events))
  {
    if events != [] {
      var n := |events| - 1;
      RunGrows(s, events[..n]);
      StepKeepsReads(Run(s, events[..n]), events[n]);
    }
  }

  lemma GrownKeepsRead(s: System, r: System, read: Read)
    requires Grows(s, r) && ReadValid(s, read)
    ensures ReadValid(r, read)
  {
  }

  predicate IsStale(session: Session, now: int) {
    (session.status.PendingKyc? || session.status.KycSubmitted?) && session.expiresAt < now
  }

  function StaleCount(cases: seq<Case>, now: int): nat {
    if cases == [] then 0
    else
      StaleCount(cases[..|cases| - 1], now) + (if IsStale(cases[|cases| - 1].session, now) then 1 else 0)
  }

  /** An order in which the database comes upon the rows: the query asks for none. */
  predicate ScanOrder(order: seq<nat>, n: nat) {
    && (forall k :: 0 <= k < |order| ==> order[k] < n)
    && (forall j, k :: 0 <= j < k < |order| ==> order[j] != order[k])
    && (forall c :: 0 <= c < n ==> c in order)
  }

  /** The EXPIRING sessions as they are come upon, and as the sweeper remembers them. */
  function Listed(cases: seq<Case>, order: seq<nat>): (listed: seq<Read>)
    requires forall k :: 0 <= k < |order| ==> order[k] < |cases|
    ensures forall k :: 0 <= k < |listed| ==>
              && listed[k].ListedRead? && listed[k].subject < |cases|
              && cases[listed[k].subject].session.status.Expiring?
              && listed[k].hadApplication == cases[listed[k].subject].application.Some?
  {
    if order == [] then []
    else
      var n := |order| - 1;
      var c := order[n];
      Listed(cases, order[..n])
      + (if cases[c].session.status.Expiring? then [ListedRead(c, cases[c].application.Some?)] else [])
  }

  lemma LastOrBefore(order: seq<nat>, c: nat)
    requires order != []
    ensures c in order <==> c == order[|order| - 1] || c in order[..|order| - 1]
  {
    assert order == order[..|order| - 1] + [order[|order| - 1]];
  }

  lemma MentionsAppend(listed: seq<Read>, added: Read, c: nat)
    ensures Mentions(listed + [added], c) <==> Mentions(listed, c) || added.subject == c
  {
    var all := listed + [added];
    if Mentions(listed, c) {
      var k :| 0 <= k < |listed| && listed[k].subject == c;
      assert all[k].subject == c;
    }
    if added.subject == c {
      assert all[|listed|].subject == c;
    }
  }

  /** The list mentions exactly the EXPIRING ones of the sessions come upon. */
  lemma {:induction false} ListedMentions(cases: seq<Case>, order: seq<nat>, c: nat)
    requires forall k :: 0 <= k < |order| ==> order[k] < |cases|
    requires c < |cases|
    ensures Mentions(Listed(cases, order), c) <==> c in order && cases[c].session.status.Expiring?
  {
    if order != [] {
      var n := |order| - 1;
      ListedMentions(cases, order[..n], c);
      LastOrBefore(order, c);
      if cases[order[n]].session.status.Expiring? {
        MentionsAppend(Listed(cases, order[..n]), ListedRead(order[n], cases[order[n]].application.Some?), c);
      } else {
        assert Listed(cases, order) == Listed(cases, order[..n]);
      }
    }
  }

  lemma {:induction false} ListedOnce(cases: seq<Case>, order: seq<nat>)
    requires forall k :: 0 <= k < |order| ==> order[k] < |cases|
    requires forall j, k :: 0 <= j < k < |order| ==> order[j] != order[k]
    ensures var listed := Listed(cases, order);
            forall j, k :: 0 <= j < k < |listed| ==> listed[j].subject != listed[k].subject
  {
    if order != [] {
      var n := |order| - 1;
      var before := Listed(cases, order[..n]);
      ListedOnce(cases, order[..n]);
      ListedMentions(cases, order[..n], order[n]);
      assert forall k :: 0 <= k < |before| ==> before[k].subject == order[n] ==> Mentions(before, order[n]);
    }
  }

  /** What the sweeper takes in one batch. */
  function Batch(listed: seq<Read>, size: nat): (batch: seq<Read>)
    ensures |batch| <= size && |batch| <= |listed| && (|batch| == size || |batch| == |listed|)
    ensures batch == listed[..|batch|]
  {
    if |listed| <= size then listed else listed[..size]
  }

  function OthersAt(others: seq<seq<Event>>, k: nat): seq<Event> {
    if k < |others| then others[k] else []
  }

  ghost predicate AllReadValid(s: System, listed: seq<Read>) {
    forall k :: 0 <= k < |listed| ==> ReadValid(s, listed[k])
  }

  /** One listed session's transaction, others acting before it. */
  function FinaliseTurn(s: System, read: Read, others: seq<Event>): (r: System)
    requires Sound(s) && ReadValid(s, read)
    ensures Sound(r) && Grows(s, r)
  {
    var between := Run(s, others);
    RunGrows(s, others);
    GrownKeepsRead(s, between, read);
    WriteKeepsSound(between, read, 0);
    WriteGrows(between, read, 0);
    WriteFrom(between, read, 0)
  }

  /** Before the transaction of listed session k, others do what they do. */
  function FinaliseEach(s: System, listed: seq<Read>, others: seq<seq<Event>>): (r: System)
    requires Sound(s) && AllReadValid(s, listed)
    ensures Sound(r) && Grows(s, r)
  {
    if listed == [] then s
    else
      var n := |listed| - 1;
      var before := FinaliseEach(s, listed[..n], others);
      GrownKeepsRead(s, before, listed[n]);
      FinaliseTurn(before, listed[n], OthersAt(others, n))
  }

  lemma FinaliseNext(s: System, listed: seq<Read>, others: seq<seq<Event>>, k: nat)
    requires Sound(s) && AllReadValid(s, listed) && k < |listed|
    ensures ReadValid(FinaliseEach(s, listed[..k], others), listed[k])
    ensures FinaliseEach(s, listed[..k + 1], others)
         == FinaliseTurn(FinaliseEach(s, listed[..k], others), listed[k], OthersAt(others, k))
  {
    GrownKeepsRead(s, FinaliseEach(s, listed[..k], others), listed[k]);
    assert listed[..k + 1][..k] == listed[..k];
  }

  function Claimed(s: System, now: int): (r: System)
    requires Sound(s)
    ensures Sound(r) && |r.cases| == |s.cases|
  {
    StepKeepsSound(s, ClaimStale(now));
    Step(s, ClaimStale(now))
  }

  lemma ListedAreValid(s: System, order: seq<nat>, size: nat)
    requires ScanOrder(order, |s.cases|)
    ensures AllReadValid(s, Batch(Listed(s.cases, order), size))
  {
  }

  /** What is listed after the claim is finalised, session by session. */
  function FinaliseBatch(s: System, order: seq<nat>, size: nat, others: seq<seq<Event>>): (r: System)
    requires Sound(s) && ScanOrder(order, |s.cases|)
    ensures Sound(r)
  {
    var listed := Batch(Listed(s.cases, order), size);
    ListedAreValid(s, order, size);
    FinaliseEach(s, listed, others)
  }

  /** expireStaleOnboardingSessions: without a claim nothing is listed. */
  function Sweep(s: System, now: int, order: seq<nat>, size: nat, others: seq<seq<Event>>): (r: System)
    requires Sound(s) && ScanOrder(order, |s.cases|)
    ensures Sound(r)
  {
    if StaleCount(s.cases, now) == 0 then Claimed(s, now) else FinaliseBatch(Claimed(s, now), order, size, others)
  }

  /** A listed session left alone ends expired, with its application rejected. */
  predicate Finalised(before: Case, after: Case) {
    && after.session == before.session.(status := SessionExpired)
    && (match before.application
        case Some(application) => after.application == Some(application.(status := Rejected))
        case None => after.application.None?)
  }

  /** Still as it was when it was listed. */
  predicate Accurate(cases: seq<Case>, read: Read) {
    && read.ListedRead? && read.subject < |cases|
    && cases[read.subject].session.status.Expiring?
    && read.hadApplication == cases[read.subject].application.Some?
  }

  predicate AccurateList(cases: seq<Case>, listed: seq<Read>) {
    && (forall k :: 0 <= k < |listed| ==> Accurate(cases, listed[k]))
    && (forall j, k :: 0 <= j < k < |listed| ==> listed[j].subject != listed[k].subject)
  }

  predicate Mentions(listed: seq<Read>, c: nat) {
    exists k :: 0 <= k < |listed| && listed[k].subject == c
  }

  function FinaliseCase(one: Case, hadApplication: bool): Case {
    if !one.session.status.Expiring? then one
    else
      Case(one.session.(status := SessionExpired),
           if hadApplication && one.application.Some?
           then Some(one.application.value.(status := Rejected)) else one.application)
  }

  /** The transactions of a pass that nothing comes between. */
  function FinaliseAlone(cases: seq<Case>, listed: seq<Read>): (r: seq<Case>)
    requires AccurateList(cases, listed)
    ensures |r| == |cases|
  {
    if listed == [] then cases
    else
      var n := |listed| - 1;
      var before := FinaliseAlone(cases, listed[..n]);
      var c := listed[n].subject;
      before[c := FinaliseCase(before[c], listed[n].hadApplication)]
  }

  lemma {:induction false} AloneFinalises(cases: seq<Case>, listed: seq<Read>, c: nat)
    requires AccurateList(cases, listed) && c < |cases|
    ensures var after := FinaliseAlone(cases, listed)[c];
            if Mentions(listed, c) then Finalised(cases[c], after) else after == cases[c]
  {
    if listed != [] {
      var n := |listed| - 1;
      AloneFinalises(cases, listed[..n], c);
      assert Accurate(cases, listed[n]);
      if c == listed[n].subject {
        assert !Mentions(listed[..n], c);
        assert Mentions(listed, c);
      } else {
        MentionsBefore(listed, c);
      }
    }
  }

  lemma MentionsBefore(listed: seq<Read>, c: nat)
    requires listed != [] && listed[|listed| - 1].subject != c
    ensures Mentions(listed, c) <==> Mentions(listed[..|listed| - 1], c)
  {
    if Mentions(listed, c) {
      var k :| 0 <= k < |listed| && listed[k].subject == c;
      assert listed[..|listed| - 1][k].subject == c;
    }
  }

  lemma ListedWrite(s: System, read: Read)
    requires Sound(s) && ReadValid(s, read) && read.ListedRead?
    ensures FinaliseTurn(s, read, [])
         == s.(cases := s.cases[read.subject := FinaliseCase(s.cases[read.subject], read.hadApplication)])
  {
  }

  /** With nothing in between, one transaction after the other. */
  lemma {:induction false} EachAloneIsAlone(s: System, listed: seq<Read>)
    requires Sound(s) && AllReadValid(s, listed) && AccurateList(s.cases, listed)
    ensures FinaliseEach(s, listed, []) == s.(cases := FinaliseAlone(s.cases, listed))
  {
    if listed != [] {
      var n := |listed| - 1;
      EachAloneIsAlone(s, listed[..n]);
      assert Accurate(s.cases, listed[n]);
      GrownKeepsRead(s, FinaliseEach(s, listed[..n], []), listed[n]);
      ListedWrite(FinaliseEach(s, listed[..n], []), listed[n]);
    }
  }

  lemma ListedIsAccurate(cases: seq<Case>, order: seq<nat>)
    requires ScanOrder(order, |cases|)
    ensures AccurateList(cases, Listed(cases, order))
    ensures forall c :: 0 <= c < |cases| ==>
              (Mentions(Listed(cases, order), c) <==> cases[c].session.status.Expiring?)
  {
    ListedOnce(cases, order);
    forall c | 0 <= c < |cases|
      ensures Mentions(Listed(cases, order), c) <==> cases[c].session.status.Expiring?
    {
      ListedMentions(cases, order, c);
    }
  }

  lemma BatchAlone(s: System, order: seq<nat>, size: nat)
    requires Sound(s) && ScanOrder(order, |s.cases|) && |Listed(s.cases, order)| <= size
    ensures var listed := Listed(s.cases, order);
            && AccurateList(s.cases, listed)
            && FinaliseBatch(s, order, size, []) == s.(cases := FinaliseAlone(s.cases, listed))
  {
    var listed := Listed(s.cases, order);
    ListedAreValid(s, order, size);
    ListedIsAccurate(s.cases, order);
    EachAloneIsAlone(s, listed);
  }

  lemma BatchSettles(s: System, order: seq<nat>, size: nat, c: nat)
    requires Sound(s) && ScanOrder(order, |s.cases|) && |Listed(s.cases, order)| <= size && c < |s.cases|
    ensures var r := FinaliseBatch(s, order, size, []);
            && |r.cases| == |s.cases| && r.users == s.users
            && if s.cases[c].session.status.Expiring?
               then Finalised(s.cases[c], r.cases[c]) else r.cases[c] == s.cases[c]
  {
    BatchAlone(s, order, size);
    ListedIsAccurate(s.cases, order);
    AloneFinalises(s.cases, Listed(s.cases, order), c);
  }

  /**
   After an undisturbed pass whose batch was large enough no session is stale or EXPIRING any more, in whatever
   order the rows were come upon.
   */
  lemma SweepLeavesNothingStale(s: System, now: int, order: seq<nat>, size: nat, c: nat)
    requires Sound(s) && StaleCount(s.cases, now) > 0 && c < |s.cases| && ScanOrder(order, |s.cases|)
    requires |Listed(ClaimAll(s.cases, now), order)| <= size
    ensures var r := Sweep(s, now, order, size, []);
            && |r.cases| == |s.cases| && r.users == s.users
            && if IsStale(s.cases[c].session, now) || s.cases[c].session.status.Expiring?
               then Finalised(ClaimAll(s.cases, now)[c], r.cases[c])
               else r.cases[c] == s.cases[c]
  {
    BatchSettles(Claimed(s, now), order, size, c);
  }
}
