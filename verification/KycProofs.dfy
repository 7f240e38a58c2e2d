/** At most one customer per session however reviews interleave, and when the sweeper's word is final. */
module KycProofs {
  import opened Common
  import opened Kyc

  // ---- Nothing is ever removed ----

  /** Cases keep what identifies them, and an application once there stays there. */
  ghost predicate Grows(s: System, r: System) {
    && |s.cases| <= |r.cases| && s.users <= r.users
    && forall c :: 0 <= c < |s.cases| ==>
         && r.cases[c].session.email == s.cases[c].session.email
         && r.cases[c].session.marketer == s.cases[c].session.marketer
         && (s.cases[c].application.Some? ==> r.cases[c].application.Some?)
  }

  lemma WriteGrows(s: System, read: Read, firstPaymentDate: int)
    requires ReadValid(s, read)
    ensures var r := WriteFrom(s, read, firstPaymentDate);
            Grows(s, r) && r.checks == s.checks
  {
  }

  lemma GrowingKeepsReads(s: System, r: System)
    requires ReadsValid(s) && Grows(s, r) && r.checks == s.checks
    ensures ReadsValid(r)
  {
    forall k | 0 <= k < |r.checks| ensures ReadValid(r, r.checks[k]) {
      assert ReadValid(s, s.checks[k]);
    }
  }

  lemma StepKeepsReads(s: System, event: Event)
    requires ReadsValid(s)
    ensures ReadsValid(Step(s, event)) && Grows(s, Step(s, event))
  {
    if event.Write? {
      if event.read < |s.checks| {
        WriteGrows(s, s.checks[event.read], event.firstPaymentDate);
        GrowingKeepsReads(s, Step(s, event));
      }
    } else if event.Registered? || event.Resumed? || event.OtherUser? || event.ClaimStale? {
      GrowingKeepsReads(s, Step(s, event));
    }
  }

  // ---- Users ----

  /** E-mail addresses are unique, and a customer has the address of its session. */
  ghost predicate UsersSound(s: System) {
    && (forall u, v :: 0 <= u < v < |s.users| ==> s.users[u].email != s.users[v].email)
    && (forall u :: 0 <= u < |s.users| && s.users[u].session.Some? ==>
          && s.users[u].session.value < |s.cases|
          && s.users[u].email == s.cases[s.users[u].session.value].session.email)
  }

  ghost predicate HasCustomer(users: seq<User>, c: nat) {
    exists u :: 0 <= u < |users| && users[u].session == Some(c)
  }

  /** The application knows its customer, who came with one schedule. */
  ghost predicate ApplicationSound(users: seq<User>, c: nat, application: Application) {
    match application.customer
    case Some(u) =>
      && u < |users| && users[u].session == Some(c)
      && application.months > 0 && |application.schedule| == application.months
    case None => !HasCustomer(users, c) && application.schedule == []
  }

  ghost predicate CaseSound(s: System, c: nat)
    requires c < |s.cases|
  {
    match s.cases[c].application
    case Some(application) => ApplicationSound(s.users, c, application)
    case None => !HasCustomer(s.users, c)
  }

  ghost predicate Sound(s: System) {
    ReadsValid(s) && UsersSound(s) && forall c :: 0 <= c < |s.cases| ==> CaseSound(s, c)
  }

  lemma CustomersAfter(users: seq<User>, added: User, c: nat)
    ensures HasCustomer(users + [added], c) <==> HasCustomer(users, c) || added.session == Some(c)
  {
    var all := users + [added];
    if HasCustomer(users, c) {
      var u :| 0 <= u < |users| && users[u].session == Some(c);
      assert all[u].session == Some(c);
    }
    if added.session == Some(c) {
      assert all[|users|].session == Some(c);
    }
  }

  lemma MaterialiseKeepsSound(s: System, c: nat, hasPassword: bool, firstPaymentDate: int)
    requires Sound(s) && c < |s.cases| && s.cases[c].application.Some? && CanMaterialise(s, c)
    ensures var r := Materialise(s, c, hasPassword, firstPaymentDate);
            UsersSound(r) && forall d :: 0 <= d < |r.cases| ==> CaseSound(r, d)
  {
    var r := Materialise(s, c, hasPassword, firstPaymentDate);
    assert CaseSound(s, c);
    assert !HasCustomer(s.users, c);
    forall d | 0 <= d < |r.cases| ensures CaseSound(r, d) {
      assert CaseSound(s, d);
      CustomersAfter(s.users, r.users[|s.users|], d);
    }
  }

  lemma SameApplicationKeepsSound(s: System, r: System)
    requires Sound(s) && r.users == s.users && |s.cases| <= |r.cases|
    requires forall c :: 0 <= c < |s.cases| ==> r.cases[c].session.email == s.cases[c].session.email
    requires forall c :: 0 <= c < |s.cases| ==> SameCustomer(s.cases[c].application, r.cases[c].application)
    requires forall c :: |s.cases| <= c < |r.cases| ==> r.cases[c].application.None?
    ensures UsersSound(r) && forall c :: 0 <= c < |r.cases| ==> CaseSound(r, c)
  {
    forall c | 0 <= c < |r.cases| ensures CaseSound(r, c) {
      assert c < |s.cases| ==> CaseSound(s, c);
      assert c < |s.cases| ==> SameCustomer(s.cases[c].application, r.cases[c].application);
    }
  }

  /** Same customer, months and schedule; or a new application without any. */
  predicate SameCustomer(before: Option<Application>, after: Option<Application>) {
    match (before, after)
    case (Some(a), Some(b)) => a.customer == b.customer && a.months == b.months && a.schedule == b.schedule
    case (None, Some(b)) => b.customer.None? && b.schedule == []
    case (Some(_), None) => false
    case (None, None) => true
  }

  lemma WriteKeepsSound(s: System, read: Read, firstPaymentDate: int)
    requires Sound(s) && ReadValid(s, read)
    ensures Sound(WriteFrom(s, read, firstPaymentDate))
  {
    var r := WriteFrom(s, read, firstPaymentDate);
    WriteGrows(s, read, firstPaymentDate);
    GrowingKeepsReads(s, r);
    if |r.users| > |s.users| {
      MaterialiseKeepsSound(s, read.subject, read.hasPassword, firstPaymentDate);
    } else {
      SameApplicationKeepsSound(s, r);
    }
  }

  lemma OtherUserKeepsSound(s: System, email: string)
    requires Sound(s)
    ensures Sound(Step(s, OtherUser(email)))
  {
    var r := Step(s, OtherUser(email));
    StepKeepsReads(s, OtherUser(email));
    forall c | 0 <= c < |r.cases| ensures CaseSound(r, c) {
      assert CaseSound(s, c);
      CustomersAfter(s.users, User(email, None, true), c);
    }
  }

  lemma StepKeepsSound(s: System, event: Event)
    requires Sound(s)
    ensures Sound(Step(s, event))
  {
    StepKeepsReads(s, event);
    if event.Write? {
      if event.read < |s.checks| {
        WriteKeepsSound(s, s.checks[event.read], event.firstPaymentDate);
      }
    } else if event.OtherUser? {
      OtherUserKeepsSound(s, event.email);
    } else {
      SameApplicationKeepsSound(s, Step(s, event));
    }
  }

  /** Every run from a sound system is sound. */
  function Run(s: System, events: seq<Event>): (r: System)
    requires Sound(s)
    ensures Sound(r)
  {
    if events == [] then s
    else
      StepKeepsSound(Run(s, events[..|events| - 1]), events[|events| - 1]);
      Step(Run(s, events[..|events| - 1]), events[|events| - 1])
  }

  /**
   In every run, stale checks or not: a session has at most one customer, and whoever has one has
   exactly the instalments of one schedule.
   */
  lemma OneCustomerOneSchedule(events: seq<Event>, c: nat)
    requires c < |Run(START, events).cases| && Run(START, events).cases[c].application.Some?
    ensures var s := Run(START, events);
            var application := s.cases[c].application.value;
            && (forall u, v | 0 <= u < |s.users| && 0 <= v < |s.users| ::
                  s.users[u].session == Some(c) && s.users[v].session == Some(c) ==> u == v)
            && (application.customer.Some? <==> HasCustomer(s.users, c))
            && |application.schedule| == if HasCustomer(s.users, c) then application.months else 0
  {
    var s := Run(START, events);
    assert CaseSound(s, c);
    forall u, v | 0 <= u < |s.users| && 0 <= v < |s.users|
                  && s.users[u].session == Some(c) && s.users[v].session == Some(c)
      ensures u == v
    {
      assert s.users[u].email == s.users[v].email;
      assert !(u < v) && !(v < u);
    }
  }

  // ---- Signatures ----

  /** Past the marketer's approval the marketer has signed; a customer is there only after both signatures. */
  predicate Signed(one: Case) {
    match one.application
    case Some(application) =>
      && (application.status.ApprovalProcessing? ==> application.marketerApproved)
      && (application.customer.Some? ==> application.adminApproved && application.marketerApproved)
    case None => true
  }

  predicate AllSigned(s: System) {
    forall c :: 0 <= c < |s.cases| ==> Signed(s.cases[c])
  }

  lemma StepKeepsSigned(s: System, event: Event)
    requires ReadsValid(s) && AllSigned(s)
    ensures AllSigned(Step(s, event))
  {
    var r := Step(s, event);
    forall c | 0 <= c < |r.cases| ensures Signed(r.cases[c]) {
      assert c < |s.cases| ==> Signed(s.cases[c]);
      if event.Write? && event.read < |s.checks| {
        OtherCasesUntouched(s, s.checks[event.read], event.firstPaymentDate);
      }
    }
  }

  /** In every run, stale reads or not, whoever is a customer was approved by the admin and the marketer, if any. */
  lemma {:induction false} BothSignaturesBeforeCustomer(events: seq<Event>)
    ensures AllSigned(Run(START, events))
  {
    if events != [] {
      BothSignaturesBeforeCustomer(events[..|events| - 1]);
      StepKeepsSigned(Run(START, events[..|events| - 1]), events[|events| - 1]);
    }
  }

  // ---- What session, application and customer say about each other ----

  /** Approved means a customer means a completed session; an expired session's application is rejected. */
  predicate CaseAgrees(one: Case) {
    match one.application
    case Some(application) =>
      && (application.status.Approved? <==> application.customer.Some?)
      && (one.session.status.SessionApproved? <==> application.customer.Some?)
      && (one.session.status.SessionExpired? ==> application.status.Rejected?)
    case None => !one.session.status.SessionApproved?
  }

  predicate Agrees(s: System) {
    forall c :: 0 <= c < |s.cases| ==> CaseAgrees(s.cases[c])
  }

  /**
   What the unconditional writes would have to check again: a marketer's approval that the application
   is not approved and its session not expired, a rejection that it is not approved, and the
   sweeper that no application was submitted behind its back.
   */
  predicate Harmless(s: System, read: Read)
    requires ReadValid(s, read)
  {
    var one := s.cases[read.subject];
    match read
    case MarketerRead(_) => !one.application.value.status.Approved? && !one.session.status.SessionExpired?
    case RejectionRead(_, _) => !one.application.value.status.Approved?
    case ListedRead(_, hadApplication) =>
      one.session.status.Expiring? && !hadApplication && one.application.Some? ==>
        one.application.value.status.Rejected?
    case _ => true
  }

  predicate HarmlessEvent(s: System, event: Event)
    requires ReadsValid(s)
  {
    event.Write? && event.read < |s.checks| ==> Harmless(s, s.checks[event.read])
  }

  lemma OtherCasesUntouched(s: System, read: Read, firstPaymentDate: int)
    requires ReadValid(s, read)
    ensures var r := WriteFrom(s, read, firstPaymentDate);
            |r.cases| == |s.cases| && forall c :: 0 <= c < |s.cases| && c != read.subject ==> r.cases[c] == s.cases[c]
  {
  }

  /** From a state in which everything agrees, a write keeps it that way exactly when it is harmless. */
  lemma WriteAgreesExactlyWhenHarmless(s: System, read: Read, firstPaymentDate: int)
    requires Sound(s) && Agrees(s) && ReadValid(s, read)
    ensures Agrees(WriteFrom(s, read, firstPaymentDate)) <==> Harmless(s, read)
  {
    var r := WriteFrom(s, read, firstPaymentDate);
    OtherCasesUntouched(s, read, firstPaymentDate);
    assert CaseAgrees(s.cases[read.subject]);
    assert CaseSound(s, read.subject);
    assert CaseAgrees(r.cases[read.subject]) <==> Harmless(s, read);
  }

  lemma StepAgreesExactlyWhenHarmless(s: System, event: Event)
    requires Sound(s) && Agrees(s)
    ensures Agrees(Step(s, event)) <==> HarmlessEvent(s, event)
  {
    if event.Write? {
      if event.read < |s.checks| {
        WriteAgreesExactlyWhenHarmless(s, s.checks[event.read], event.firstPaymentDate);
      }
    } else {
      var r := Step(s, event);
      forall c | 0 <= c < |r.cases| ensures CaseAgrees(r.cases[c]) {
        assert c < |s.cases| ==> CaseAgrees(s.cases[c]);
      }
    }
  }

  predicate AllHarmless(s: System, events: seq<Event>)
    requires Sound(s)
  {
    events == [] ||
    (AllHarmless(s, events[..|events| - 1]) && HarmlessEvent(Run(s, events[..|events| - 1]), events[|events| - 1]))
  }

  lemma {:induction false} HarmlessRunsAgree(s: System, events: seq<Event>)
    requires Sound(s) && Agrees(s) && AllHarmless(s, events)
    ensures Agrees(Run(s, events))
  {
    if events != [] {
      HarmlessRunsAgree(s, events[..|events| - 1]);
      StepAgreesExactlyWhenHarmless(Run(s, events[..|events| - 1]), events[|events| - 1]);
    }
  }

  // ---- Final states ----

  /** An expired session with an application never has a customer, whatever harmless events follow. */
  lemma {:induction false} ExpiredNeverYieldsACustomer(s: System, events: seq<Event>, c: nat)
    requires Sound(s) && Agrees(s) && AllHarmless(s, events)
    requires c < |s.cases| && s.cases[c].session.status.SessionExpired? && s.cases[c].application.Some?
    ensures var r := Run(s, events);
            && c < |r.cases| && r.cases[c].session.status.SessionExpired? && r.cases[c].application.Some?
            && r.cases[c].application.value.status.Rejected? && !HasCustomer(r.users, c)
  {
    if events != [] {
      var n := |events| - 1;
      var before := Run(s, events[..n]);
      ExpiredNeverYieldsACustomer(s, events[..n], c);
      HarmlessRunsAgree(s, events[..n]);
      ExpiredStaysExpired(before, events[n], c);
    }
    HarmlessRunsAgree(s, events);
    var r := Run(s, events);
    assert CaseAgrees(r.cases[c]) && CaseSound(r, c);
  }

  lemma ExpiredStaysExpired(s: System, event: Event, c: nat)
    requires Sound(s) && HarmlessEvent(s, event)
    requires c < |s.cases| && s.cases[c].session.status.SessionExpired? && s.cases[c].application.Some?
    requires s.cases[c].application.value.status.Rejected?
    ensures var r := Step(s, event);
            c < |r.cases| && r.cases[c].session.status.SessionExpired? && r.cases[c].application.Some?
  {
    if event.Write? && event.read < |s.checks| {
      OtherCasesUntouched(s, s.checks[event.read], event.firstPaymentDate);
    }
  }

  /** An approved application keeps its one customer, whatever harmless events follow. */
  lemma {:induction false} ApprovedIsForever(s: System, events: seq<Event>, c: nat)
    requires Sound(s) && Agrees(s) && AllHarmless(s, events)
    requires c < |s.cases| && s.cases[c].application.Some? && s.cases[c].application.value.status.Approved?
    ensures var r := Run(s, events);
            && c < |r.cases| && r.cases[c].application.Some?
            && r.cases[c].application.value.status.Approved?
            && r.cases[c].application.value.customer == s.cases[c].application.value.customer
  {
    if events != [] {
      var n := |events| - 1;
      ApprovedIsForever(s, events[..n], c);
      HarmlessRunsAgree(s, events[..n]);
      ApprovedStaysApproved(Run(s, events[..n]), events[n], c);
    }
  }

  lemma ApprovedStaysApproved(s: System, event: Event, c: nat)
    requires Sound(s) && Agrees(s) && HarmlessEvent(s, event)
    requires c < |s.cases| && s.cases[c].application.Some? && s.cases[c].application.value.status.Approved?
    ensures var r := Step(s, event);
            && c < |r.cases| && r.cases[c].application.Some?
            && r.cases[c].application.value.status.Approved?
            && r.cases[c].application.value.customer == s.cases[c].application.value.customer
  {
    assert CaseAgrees(s.cases[c]);
    if event.Write? && event.read < |s.checks| {
      OtherCasesUntouched(s, s.checks[event.read], event.firstPaymentDate);
    }
  }

  // ---- The race between final approvals ----

  predicate IsFinalWrite(s: System, event: Event, c: nat) {
    event.Write? && event.read < |s.checks| && s.checks[event.read].FinalRead? && s.checks[event.read].subject == c
  }

  lemma FirstFinalWrite(s: System, event: Event, c: nat)
    requires ReadsValid(s) && c < |s.cases| && s.cases[c].application.Some? && IsFinalWrite(s, event, c)
    requires s.cases[c].application.value.status == ExpectedStatus(s.cases[c].session) && CanMaterialise(s, c)
    ensures var r := Step(s, event);
            && |r.users| == |s.users| + 1 && r.users[|s.users|].session == Some(c)
            && c < |r.cases| && r.cases[c].application.Some? && r.cases[c].application.value.status.Approved?
            && r.checks == s.checks
  {
  }

  lemma LaterFinalWrite(s: System, event: Event, c: nat)
    requires ReadsValid(s) && c < |s.cases| && s.cases[c].application.Some? && IsFinalWrite(s, event, c)
    requires s.cases[c].application.value.status.Approved?
    ensures var r := Step(s, event);
            && r.users == s.users && r.checks == s.checks
            && c < |r.cases| && r.cases[c].application.Some? && r.cases[c].application.value.status.Approved?
  {
  }

  /**
   Any number of final approvals, all past their checks: exactly one creates the customer, and
   the others only add their signature.
   */
  lemma {:induction false} ExactlyOneApprovalWins(s: System, writes: seq<Event>, c: nat)
    requires Sound(s) && c < |s.cases| && s.cases[c].application.Some?
    requires s.cases[c].application.value.status == ExpectedStatus(s.cases[c].session) && CanMaterialise(s, c)
    requires |writes| > 0 && forall k :: 0 <= k < |writes| ==> IsFinalWrite(s, writes[k], c)
    ensures var r := Run(s, writes);
            && |r.users| == |s.users| + 1 && r.users[|s.users|].session == Some(c)
            && c < |r.cases| && r.cases[c].application.Some? && r.cases[c].application.value.status.Approved?
            && r.checks == s.checks
  {
    var n := |writes| - 1;
    assert IsFinalWrite(s, writes[n], c);
    if n == 0 {
      assert Run(s, writes[..0]) == s;
      FirstFinalWrite(s, writes[0], c);
    } else {
      ExactlyOneApprovalWins(s, writes[..n], c);
      LaterFinalWrite(Run(s, writes[..n]), writes[n], c);
    }
  }
}
