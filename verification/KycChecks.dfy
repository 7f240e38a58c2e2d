/** Who may submit, approve and reject, who is told what, and what each write makes of a case. */
module KycChecks {
  import opened Common
  import opened Calendar
  import opened Installments
  import opened Kyc

  /** The final approval waits for the marketer's signature where there is a marketer, and for the status after it. */
  function FinalObjection(session: Session, application: Application): Option<KycError> {
    if session.marketer.Some? && !application.marketerApproved then Some(MarketerFirst)
    else if session.marketer.Some? && application.status != ApprovalProcessing then Some(WrongStatus)
    else if session.marketer.None? && application.status != ApplicationStatus.Pending then Some(WrongStatus)
    else None
  }

  /**
   The session's own marketer signs a pending application.  Owners of its company, and admins who created its marketer
   (any admin when it has none), decide in the end.  Nobody else does anything.
   */
  lemma ApprovalsOpen(s: System, c: nat, reviewer: Reviewer)
    requires c < |s.cases| && s.cases[c].application.Some?
    ensures var session := s.cases[c].session;
            var application := s.cases[c].application.value;
            var check := CheckApproval(s, c, reviewer);
            match reviewer.role
            case Marketer =>
              check == if session.marketer != Some(reviewer.id) then Err(Unauthorized)
                       else if application.status != ApplicationStatus.Pending then Err(WrongStatus)
                       else Ok(MarketerRead(c))
            case CompanyOwner =>
              if session.company != reviewer.company then check == Err(Unauthorized)
              else if FinalObjection(session, application).Some?
              then check == Err(FinalObjection(session, application).value)
              else check == Ok(FinalRead(c, session.hasPassword))
            case Admin =>
              if session.marketer.Some? && session.marketerCreator != Some(reviewer.id) then check == Err(Unauthorized)
              else if FinalObjection(session, application).Some?
              then check == Err(FinalObjection(session, application).value)
              else check == Ok(FinalRead(c, session.hasPassword))
            case SuperAdmin | OtherRole => check == Err(Unauthorized)
  {
  }

  /**
   Only admins and super admins reject, an admin only an application whose marketer they created or that has none, and
   only one that is still pending or in processing.
   */
  lemma RejectionsOpen(s: System, c: nat, reviewer: Reviewer)
    ensures CheckRejection(s, c, reviewer)
         == if reviewer.role !in {Admin, SuperAdmin} then Err(Unauthorized)
            else if |s.cases| <= c || s.cases[c].application == None then Err(NotFound)
            else if s.cases[c].application.value.status !in {ApplicationStatus.Pending, ApprovalProcessing}
            then Err(NotFound)
            else if reviewer.role == Admin && s.cases[c].session.marketer.Some?
                    && s.cases[c].session.marketerCreator != Some(reviewer.id)
            then Err(Unauthorized)
            else Ok(RejectionRead(c, true))
  {
  }

  /** An application is accepted until the session has run out, unless it is approved. */
  lemma SubmissionsOpen(s: System, c: nat, now: int, totalFinanced: Money, months: int)
    requires ReadsValid(s)
    ensures Step(s, ReadForSubmission(c, now, totalFinanced, months)).checks
         == if c < |s.cases| && now <= s.cases[c].session.expiresAt && s.cases[c].session.status != SessionApproved
            then s.checks + [SubmissionRead(c, totalFinanced, months)] else s.checks
  {
  }

  /** The retention job rejects applications that are still pending, leaving their contracts alone. */
  lemma RetentionOpens(s: System, c: nat)
    requires ReadsValid(s)
    ensures Step(s, ReadForRetention(c)).checks
         == if c < |s.cases| && s.cases[c].application.Some?
               && s.cases[c].application.value.status == ApplicationStatus.Pending
            then s.checks + [RejectionRead(c, false)] else s.checks
  {
  }

  /** The sweeper lists sessions that are EXPIRING, and whether they have an application. */
  lemma ListingsOpen(s: System, c: nat)
    requires ReadsValid(s)
    ensures Step(s, ReadListed(c)).checks
         == if c < |s.cases| && s.cases[c].session.status == Expiring
            then s.checks + [ListedRead(c, s.cases[c].application != None)] else s.checks
  {
  }

  /** The sweeper claims the open sessions that have run out, and takes their passwords. */
  lemma ClaimsTake(s: System, now: int, c: nat)
    requires ReadsValid(s) && c < |s.cases|
    ensures var session := s.cases[c].session;
            var r := Step(s, ClaimStale(now));
            && |r.cases| == |s.cases|
            && r.cases[c]
               == s.cases[c].(session :=
                    if session.status in {PendingKyc, KycSubmitted} && session.expiresAt < now
                    then session.(status := Expiring, hasPassword := false) else session)
  {
  }

  /** A first application is pending, signed by nobody, on a contract that is not active; a second one is refused. */
  lemma SubmissionWrites(s: System, c: nat, totalFinanced: Money, months: int)
    requires c < |s.cases|
    ensures var one := s.cases[c];
            WriteSubmission(s, c, totalFinanced, months)
            == if one.application.Some? then s
               else s.(cases := s.cases[c := Case(
                        one.session.(status := KycSubmitted),
                        Some(Application(ApplicationStatus.Pending, false, false, None, totalFinanced, months,
                                         PendingActivation, [])))])
  {
  }

  /** The marketer's signature puts the application in processing; a rejection takes application and contract. */
  lemma DecisionsWrite(s: System, c: nat, withContract: bool)
    requires c < |s.cases| && s.cases[c].application.Some?
    ensures var one := s.cases[c];
            var application := one.application.value;
            && WriteMarketer(s, c)
               == s.(cases := s.cases[c := one.(application := Some(application.(
                       marketerApproved := true, status := ApprovalProcessing)))])
            && WriteRejection(s, c, withContract)
               == s.(cases := s.cases[c := one.(application := Some(application.(
                       status := Rejected,
                       contractStatus := if withContract then ContractRejected else application.contractStatus)))])
  {
  }

  /** The rows of a contract's schedule, in whole cents, one a month from the first payment date. */
  ghost predicate IsScheduleOf(rows: seq<NewInstallment>, c: nat, totalFinanced: Money, months: int, first: int) {
    var cents := (totalFinanced * 100.0 + 0.5).Floor;
    && months > 0 && |rows| == months
    && forall i :: 0 <= i < months ==>
         && rows[i].contract == c && rows[i].sequence == i + 1 && rows[i].status == InstallmentStatus.Pending
         && (i < months - 1 ==> rows[i].amount == (cents / months) as real / 100.0)
         && (i == months - 1 ==> rows[i].amount == (cents - (months - 1) * (cents / months)) as real / 100.0)
         && MonthOf(rows[i].dueDate) == MonthOf(first) + i
  }

  /**
   The final write claims a case in the status it waits for.  If the e-mail address is free, the amount positive and
   there are months to pay in, it makes the customer, with the password that was read, and the schedule, activates the
   contract, and approves application and session; if not, nothing at all is written.  A case that has moved on gets
   the admin's signature and nothing else.
   */
  lemma FinalWrites(s: System, c: nat, hasPassword: bool, firstPaymentDate: int)
    requires c < |s.cases| && s.cases[c].application.Some?
    ensures var session := s.cases[c].session;
            var application := s.cases[c].application.value;
            var signed := application.(
              adminApproved := true, marketerApproved := application.marketerApproved || session.marketer == None);
            var waits := application.status
                         == if session.marketer == None then ApplicationStatus.Pending else ApprovalProcessing;
            var possible := application.months > 0 && application.totalFinanced > 0.0
                            && forall u :: 0 <= u < |s.users| ==> s.users[u].email != session.email;
            var r := WriteFinal(s, c, hasPassword, firstPaymentDate);
            if !waits then r == s.(cases := s.cases[c := s.cases[c].(application := Some(signed))])
            else if !possible then r == s
            else && r.checks == s.checks
                 && r.users == s.users + [User(session.email, Some(c), hasPassword)]
                 && r.cases == s.cases[c := r.cases[c]]
                 && r.cases[c].session == session.(status := SessionApproved)
                 && r.cases[c].application.Some?
                 && var after := r.cases[c].application.value;
                    && after == signed.(status := Approved, customer := Some(|s.users|), contractStatus := Active,
                                        schedule := after.schedule)
                    && |application.schedule| <= |after.schedule|
                    && after.schedule[..|application.schedule|] == application.schedule
                    && IsScheduleOf(after.schedule[|application.schedule|..], c, application.totalFinanced,
                                    application.months, firstPaymentDate)
  {
    var application := s.cases[c].application.value;
    if application.months > 0 {
      var rows := Schedule(c, Cents(application.totalFinanced), application.months, firstPaymentDate);
      ScheduleInCents(c, Cents(application.totalFinanced), application.months, firstPaymentDate);
      assert (application.schedule + rows)[|application.schedule|..] == rows;
      assert IsScheduleOf(rows, c, application.totalFinanced, application.months, firstPaymentDate);
    }
  }

  /** A listed session that is still EXPIRING expires, its application rejected if it had one when it was listed. */
  lemma FinalisationWrites(s: System, c: nat, hadApplication: bool)
    requires c < |s.cases| && (hadApplication ==> s.cases[c].application.Some?)
    ensures var one := s.cases[c];
            WriteFinalised(s, c, hadApplication)
            == if one.session.status != Expiring then s
               else s.(cases := s.cases[c := Case(
                        one.session.(status := SessionExpired),
                        if hadApplication then Some(one.application.value.(status := Rejected))
                        else one.application)])
  {
  }
}
