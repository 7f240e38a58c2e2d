/** Runs in which one stale write makes session, application and customer contradict each other. */
module KycExamples {
  import opened Common
  import opened Kyc
  import opened KycProofs

  const MARKETER := Reviewer(1, Marketer, None)
  const ADMIN := Reviewer(2, Admin, None)

  lemma Then(done: seq<Event>, event: Event) returns (more: seq<Event>, s: System)
    ensures more == done + [event] && s == Step(Run(START, done), event) && s == Run(START, more)
  {
    more := done + [event];
    assert more[..|done|] == done;
    s := Run(START, more);
  }

  /** A submitted application of 100 over 2 months; the session runs out at 10. */
  lemma Submitted(marketer: Option<nat>) returns (events: seq<Event>, s: System)
    ensures s == Run(START, events)
    ensures s.cases == [Case(Session("a@b.c", marketer, Some(2), None, true, KycSubmitted, 10),
                             Some(NewApplication(100.0, 2)))]
    ensures s.users == [] && s.checks == [SubmissionRead(0, 100.0, 2)]
  {
    assert Run(START, []) == START;
    events, s := Then([], Registered("a@b.c", marketer, Some(2), None, 10));
    events, s := Then(events, ReadForSubmission(0, 5, 100.0, 2));
    assert s.checks == [SubmissionRead(0, 100.0, 2)];
    events, s := Then(events, Write(0, 0));
  }

  lemma ExpiredAfterMarketerCheck() returns (events: seq<Event>, s: System)
    ensures s == Run(START, events) && s.users == []
    ensures s.cases == [Case(Session("a@b.c", Some(1), Some(2), None, false, SessionExpired, 10),
                             Some(NewApplication(100.0, 2).(status := ApplicationStatus.Rejected)))]
    ensures s.checks == [SubmissionRead(0, 100.0, 2), MarketerRead(0), ListedRead(0, true)]
  {
    events, s := Submitted(Some(1));
    events, s := Then(events, ReadForApproval(0, MARKETER));
    assert s.checks[1] == MarketerRead(0);
    events, s := Then(events, ClaimStale(11));
    events, s := Then(events, ReadListed(0));
    assert s.checks[2] == ListedRead(0, true);
    events, s := Then(events, Write(2, 0));
  }

  /**
   The marketer's check sees a pending application.  The sweeper expires the session and rejects the
   application; then the marketer's write revives it, and the admin's approval makes a customer of it.
   */
  lemma LateMarketerApprovalRevivesExpired() returns (expired: seq<Event>, events: seq<Event>)
    ensures expired <= events
    ensures var s := Run(START, expired);
            && |s.cases| == 1 && s.cases[0].session.status.SessionExpired?
            && s.cases[0].application.Some? && s.cases[0].application.value.status.Rejected?
    ensures HasCustomer(Run(START, events).users, 0)
  {
    var s;
    expired, s := ExpiredAfterMarketerCheck();
    events, s := Then(expired, Write(1, 0));
    assert s.cases[0].application.value.status.ApprovalProcessing?;
    events, s := Then(events, ReadForApproval(0, ADMIN));
    assert s.checks[3] == FinalRead(0, false);
    events, s := Then(events, Write(3, 14));
    assert s.users[0].session == Some(0);
  }

  /** A session swept before its application arrives: claimed and listed, its submission checked earlier. */
  lemma SweptBeforeSubmission() returns (events: seq<Event>, s: System)
    ensures s == Run(START, events) && s.users == []
    ensures s.cases == [Case(Session("a@b.c", None, Some(2), None, false, Expiring, 10), None)]
    ensures s.checks == [SubmissionRead(0, 100.0, 2), ListedRead(0, false)]
  {
    assert Run(START, []) == START;
    events, s := Then([], Registered("a@b.c", None, Some(2), None, 10));
    events, s := Then(events, ReadForSubmission(0, 5, 100.0, 2));
    events, s := Then(events, ClaimStale(11));
    events, s := Then(events, ReadListed(0));
  }

  lemma ExpiredButPending() returns (events: seq<Event>, s: System)
    ensures s == Run(START, events) && s.users == []
    ensures s.cases == [Case(Session("a@b.c", None, Some(2), None, false, SessionExpired, 10),
                             Some(NewApplication(100.0, 2)))]
    ensures s.checks == [SubmissionRead(0, 100.0, 2), ListedRead(0, false)]
  {
    events, s := SweptBeforeSubmission();
    events, s := Then(events, Write(0, 0));
    events, s := Then(events, ClaimStale(12));
    events, s := Then(events, Write(1, 0));
  }

  /**
   One sweeper lists a session that has no application yet; the application is submitted, and another sweeper
   claims the session again.  The first one expires it without rejecting the application, which then
   makes a customer whose password the claims have wiped.
   */
  lemma SweeperOverlooksLateSubmission() returns (expired: seq<Event>, events: seq<Event>)
    ensures expired <= events
    ensures var s := Run(START, expired);
            && |s.cases| == 1 && s.cases[0].session.status.SessionExpired?
            && s.cases[0].application.Some? && s.cases[0].application.value.status.Pending?
    ensures var s := Run(START, events);
            && |s.users| == 1 && s.users[0] == User("a@b.c", Some(0), false)
  {
    var s;
    expired, s := ExpiredButPending();
    events, s := Then(expired, ReadForApproval(0, ADMIN));
    assert s.checks[2] == FinalRead(0, false);
    events, s := Then(events, Write(2, 14));
  }

  /** A rejection whose check was made before the approval leaves a customer with a rejected application. */
  lemma LateRejectionContradictsCustomer() returns (events: seq<Event>)
    ensures var s := Run(START, events);
            && |s.cases| == 1 && s.cases[0].application.Some? && s.cases[0].application.value.status.Rejected?
            && HasCustomer(s.users, 0) && s.cases[0].session.status.SessionApproved?
  {
    var s;
    events, s := Submitted(None);
    events, s := Then(events, ReadForRejection(0, Reviewer(9, SuperAdmin, None)));
    assert s.checks[1] == RejectionRead(0, true);
    events, s := Then(events, ReadForApproval(0, ADMIN));
    assert s.checks[2] == FinalRead(0, true);
    events, s := Then(events, Write(2, 14));
    assert s.users[0].session == Some(0);
    events, s := Then(events, Write(1, 0));
  }
}
