/** Sessions, applications and users as KycService and OnboardingService update them, others acting in between. */
module KycService {
  import opened Common
  import opened Installments
  import opened Kyc
  import opened KycProofs
  import opened KycSweep

  datatype FinalOutcome = ClaimLost | CreationFailed | Won(customer: nat)

  class KycStore {
    var cases: seq<Case>
    var users: seq<User>
    /** The checks that callers in flight have behind them. */
    var checks: seq<Read>

    constructor ()
      ensures State() == START
    {
      cases, users, checks := [], [], [];
    }

    function State(): System
      reads this
    {
      System(cases, users, checks)
    }

    method Replace(s: System)
      modifies this
      ensures State() == s
    {
      cases, users, checks := s.cases, s.users, s.checks;
    }

    method Interleave(others: seq<Event>)
      requires Sound(State())
      modifies this
      ensures Sound(State()) && Grows(old(State()), State())
      ensures State() == Run(old(State()), others)
    {
      ghost var before := State();
      for k := 0 to |others|
        invariant Sound(State()) && State() == Run(before, others[..k])
      {
        assert others[..k + 1][..k] == others[..k];
        StepKeepsSound(State(), others[k]);
        Replace(Step(State(), others[k]));
      }
      assert others[..|others|] == others;
      RunGrows(before, others);
    }

    /** The claimed part of the final approval: user, application, session, schedule, activation. */
    method CreateCustomer(c: nat, hasPassword: bool, firstPaymentDate: int) returns (outcome: FinalOutcome)
      requires c < |cases| && cases[c].application.Some? && cases[c].application.value.status.Approved?
      modifies this`users, this`cases
      ensures var before := old(State());
              var application := before.cases[c].application.value;
              if EmailUsed(before.users, before.cases[c].session.email)
                 || application.months <= 0 || application.totalFinanced <= 0.0
              then outcome == CreationFailed
              else
                && outcome == Won(|before.users|)
                && users == before.users + [User(before.cases[c].session.email, Some(c), hasPassword)]
                && cases == before.cases[c := Case(
                     before.cases[c].session.(status := SessionApproved),
                     Some(application.(
                       customer := Some(|before.users|), contractStatus := Active,
                       schedule := application.schedule
                         + Schedule(c, Cents(application.totalFinanced), application.months, firstPaymentDate))))]
    {
      var session := cases[c].session;
      var application := cases[c].application.value;
      if EmailUsed(users, session.email) {
        return CreationFailed;
      }
      var customer := |users|;
      users := users + [User(session.email, Some(c), hasPassword)];
      application := application.(customer := Some(customer));
      session := session.(status := SessionApproved);
      var rows := GenerateInstallmentSchedule(c, application.totalFinanced, application.months, firstPaymentDate);
      if rows.Err? {
        return CreationFailed;
      }
      application := application.(schedule := application.schedule + rows.value, contractStatus := Active);
      cases := cases[c := Case(session, Some(application))];
      outcome := Won(customer);
    }

    /** The transaction of a final approval; when the creation fails all of it is rolled back. */
    method FinalTransaction(c: nat, hasPassword: bool, firstPaymentDate: int) returns (outcome: FinalOutcome)
      requires c < |cases| && cases[c].application.Some?
      modifies this`users, this`cases
      ensures State() == WriteFinal(old(State()), c, hasPassword, firstPaymentDate)
      ensures outcome.ClaimLost? <==>
                old(cases)[c].application.value.status != ExpectedStatus(old(cases)[c].session)
      ensures outcome.Won? <==> |users| == |old(users)| + 1
      ensures outcome.Won? ==> outcome.customer == |old(users)|
    {
      var savedCases, savedUsers := cases, users;
      var session := cases[c].session;
      var application := cases[c].application.value;
      application := application.(adminApproved := true);
      if session.marketer.None? {
        application := application.(marketerApproved := true);
      }
      cases := cases[c := Case(session, Some(application))];

      var expected :=
        if session.marketer.Some? then ApplicationStatus.ApprovalProcessing else ApplicationStatus.Pending;
      if application.status != expected {
        return ClaimLost;
      }
      cases := cases[c := Case(session, Some(application.(status := Approved)))];
      outcome := CreateCustomer(c, hasPassword, firstPaymentDate);
      if outcome.CreationFailed? {
        cases, users := savedCases, savedUsers;
      }
    }

    /** approveApplication: the checks, whatever others do meanwhile, then the transaction. */
    method ApproveApplication(c: nat, reviewer: Reviewer, others: seq<Event>, firstPaymentDate: int)
        returns (failure: Option<KycError>, outcome: Option<FinalOutcome>)
      requires Sound(State())
      modifies this
      ensures Sound(State())
      ensures var check := CheckApproval(old(State()), c, reviewer);
              if check.Err? then failure == Some(check.error) && State() == old(State())
              else
                var between := Run(old(State()), others);
                && failure.None?
                && ReadValid(between, check.value)
                && State() == WriteFrom(between, check.value, firstPaymentDate)
                && (outcome.Some? <==> check.value.FinalRead?)
    {
      ghost var before := State();
      var check := CheckApproval(State(), c, reviewer);
      if check.Err? {
        return Some(check.error), None;
      }
      Interleave(others);
      GrownKeepsRead(before, State(), check.value);
      WriteKeepsSound(State(), check.value, firstPaymentDate);
      failure, outcome := None, None;
      if check.value.FinalRead? {
        var r := FinalTransaction(c, check.value.hasPassword, firstPaymentDate);
        outcome := Some(r);
      } else {
        var application := cases[c].application.value;
        cases := cases[c := cases[c].(
          application := Some(application.(marketerApproved := true, status := ApprovalProcessing)))];
      }
    }

    /** rejectApplication, in the same way. */
    method RejectApplication(c: nat, reviewer: Reviewer, others: seq<Event>) returns (failure: Option<KycError>)
      requires Sound(State())
      modifies this
      ensures Sound(State())
      ensures var check := CheckRejection(old(State()), c, reviewer);
              if check.Err? then failure == Some(check.error) && State() == old(State())
              else
                var between := Run(old(State()), others);
                failure.None? && ReadValid(between, check.value) && State() == WriteFrom(between, check.value, 0)
    {
      ghost var before := State();
      var check := CheckRejection(State(), c, reviewer);
      if check.Err? {
        return Some(check.error);
      }
      Interleave(others);
      GrownKeepsRead(before, State(), check.value);
      WriteKeepsSound(State(), check.value, 0);
      var application := cases[c].application.value;
      cases := cases[c := cases[c].(
        application := Some(application.(status := Rejected, contractStatus := ContractRejected)))];
      failure := None;
    }

    /** The sweeper's bulk update, and how many rows it touched. */
    method ClaimStaleSessions(now: int) returns (count: nat)
      requires Sound(State())
      modifies this`cases
      ensures State() == Claimed(old(State()), now)
      ensures count == StaleCount(old(cases), now)
    {
      ghost var before := cases;
      count := 0;
      for c := 0 to |cases|
        invariant |cases| == |before|
        invariant forall d :: 0 <= d < c ==> cases[d] == ClaimAll(before, now)[d]
        invariant forall d :: c <= d < |cases| ==> cases[d] == before[d]
        invariant count == StaleCount(before[..c], now)
      {
        assert before[..c + 1][..c] == before[..c];
        var session := cases[c].session;
        if (session.status.PendingKyc? || session.status.KycSubmitted?) && session.expiresAt < now {
          cases := cases[c := cases[c].(session := session.(status := Expiring, hasPassword := false))];
          count := count + 1;
        }
      }
      assert before[..|before|] == before;
      assert cases == ClaimAll(before, now);
    }

    method ListExpiring(order: seq<nat>, size: nat) returns (listed: seq<Read>)
      requires ScanOrder(order, |cases|)
      ensures listed == Batch(Listed(cases, order), size)
    {
      listed := [];
      for k := 0 to |order|
        invariant listed == Listed(cases, order[..k])
      {
        assert order[..k + 1][..k] == order[..k];
        var c := order[k];
        if cases[c].session.status.Expiring? {
          listed := listed + [ListedRead(c, cases[c].application.Some?)];
        }
      }
      assert order[..|order|] == order;
      if |listed| > size {
        listed := listed[..size];
      }
    }

    /** One session's transaction: a session that is not EXPIRING any more is left alone. */
    method FinaliseSession(c: nat, hadApplication: bool)
      requires c < |cases| && (hadApplication ==> cases[c].application.Some?)
      modifies this`cases
      ensures State() == WriteFinalised(old(State()), c, hadApplication)
    {
      if !cases[c].session.status.Expiring? {
        return;
      }
      cases := cases[c := cases[c].(session := cases[c].session.(status := SessionExpired))];
      if hadApplication {
        cases := cases[c := cases[c].(application := Some(cases[c].application.value.(status := Rejected)))];
      }
    }

    method TakeTurn(read: Read, others: seq<Event>)
      requires Sound(State()) && ReadValid(State(), read) && read.ListedRead?
      modifies this
      ensures State() == FinaliseTurn(old(State()), read, others)
    {
      ghost var before := State();
      RunGrows(before, others);
      Interleave(others);
      GrownKeepsRead(before, State(), read);
      FinaliseSession(read.subject, read.hadApplication);
    }

    method FinaliseListed(listed: seq<Read>, others: seq<seq<Event>>)
      requires Sound(State()) && AllReadValid(State(), listed)
      requires forall k :: 0 <= k < |listed| ==> listed[k].ListedRead?
      modifies this
      ensures State() == FinaliseEach(old(State()), listed, others)
    {
      ghost var before := State();
      for k := 0 to |listed|
        invariant State() == FinaliseEach(before, listed[..k], others)
      {
        FinaliseNext(before, listed, others, k);
        TakeTurn(listed[k], OthersAt(others, k));
      }
      assert listed[..|listed|] == listed;
    }

    /**
     expireStaleOnboardingSessions; the result is the number of sessions listed, finalised here or not.  `order` is
     the one in which the database comes upon the rows.
     */
    method ExpireStaleSessions(now: int, order: seq<nat>, size: nat, others: seq<seq<Event>>) returns (processed: nat)
      requires Sound(State()) && ScanOrder(order, |cases|)
      modifies this
      ensures Sound(State())
      ensures State() == Sweep(old(State()), now, order, size, others)
    {
      var count := ClaimStaleSessions(now);
      if count == 0 {
        return 0;
      }
      var listed := ListExpiring(order, size);
      ListedAreValid(State(), order, size);
      FinaliseListed(listed, others);
      processed := |listed|;
    }
  }
}
