/**
 Registration sessions, their applications and the customers made of them.  Reviews read first
 and write later; every event below is one read, or one atomic write that relies on an earlier read.
 */
module Kyc {
  import opened Common
  import opened Installments

  datatype SessionStatus = PendingKyc | KycSubmitted | Expiring | SessionExpired | SessionApproved

  /** `marketerCreator` is the admin who created the marketer. */
  datatype Session = Session(
    email: string, marketer: Option<nat>, marketerCreator: Option<nat>, company: Option<string>,
    hasPassword: bool, status: SessionStatus, expiresAt: int)

  datatype ApplicationStatus = Pending | ApprovalProcessing | Approved | Rejected

  datatype ContractStatus = PendingActivation | Active | ContractRejected

  /** An application with the financing contract created along with it. */
  datatype Application = Application(
    status: ApplicationStatus, marketerApproved: bool, adminApproved: bool, customer: Option<nat>,
    totalFinanced: Money, months: int, contractStatus: ContractStatus, schedule: seq<NewInstallment>)

  datatype Case = Case(session: Session, application: Option<Application>)

  /** `session` tells whose customer it is, for users made by an approval. */
  datatype User = User(email: string, session: Option<nat>, hasPassword: bool)

  datatype ReviewerRole = Marketer | CompanyOwner | Admin | SuperAdmin | OtherRole

  datatype Reviewer = Reviewer(id: nat, role: ReviewerRole, company: Option<string>)

  /** What a caller remembers from its checks when it comes to write. */
  datatype Read =
    | SubmissionRead(subject: nat, totalFinanced: Money, months: int)
    | MarketerRead(subject: nat)
    | FinalRead(subject: nat, hasPassword: bool)
    | RejectionRead(subject: nat, withContract: bool)
    | ListedRead(subject: nat, hadApplication: bool)

  datatype System = System(cases: seq<Case>, users: seq<User>, checks: seq<Read>)

  const START := System([], [], [])

  // ---- Checks ----

  datatype KycError = NotFound | Unauthorized | MarketerFirst | WrongStatus

  /** submitApplication: the session has not run out and is not completed. */
  predicate MaySubmit(s: System, c: nat, now: int) {
    c < |s.cases| && s.cases[c].session.expiresAt >= now && !s.cases[c].session.status.SessionApproved?
  }

  function ExpectedStatus(session: Session): ApplicationStatus {
    if session.marketer.Some? then ApprovalProcessing else ApplicationStatus.Pending
  }

  function CheckFinal(c: nat, session: Session, application: Application): Result<Read, KycError> {
    if session.marketer.Some? && !application.marketerApproved then Err(MarketerFirst)
    else if application.status != ExpectedStatus(session) then Err(WrongStatus)
    else Ok(FinalRead(c, session.hasPassword))
  }

  /** The checks of approveApplication, up to its transaction. */
  function CheckApproval(s: System, c: nat, reviewer: Reviewer): Result<Read, KycError> {
    if c >= |s.cases| || s.cases[c].application.None? then Err(NotFound)
    else
      var session := s.cases[c].session;
      var application := s.cases[c].application.value;
      match reviewer.role
      case Marketer =>
        if session.marketer != Some(reviewer.id) then Err(Unauthorized)
        else if !application.status.Pending? then Err(WrongStatus)
        else Ok(MarketerRead(c))
      case CompanyOwner =>
        if session.company != reviewer.company then Err(Unauthorized) else CheckFinal(c, session, application)
      case Admin =>
        if session.marketer.Some? && session.marketerCreator != Some(reviewer.id) then Err(Unauthorized)
        else CheckFinal(c, session, application)
      case _ => Err(Unauthorized)
  }

  /** The checks of rejectApplication. */
  function CheckRejection(s: System, c: nat, reviewer: Reviewer): Result<Read, KycError> {
    if !reviewer.role.Admin? && !reviewer.role.SuperAdmin? then Err(Unauthorized)
    else if c >= |s.cases| || s.cases[c].application.None? then Err(NotFound)
    else if !s.cases[c].application.value.status.Pending?
            && !s.cases[c].application.value.status.ApprovalProcessing? then Err(NotFound)
    else if s.cases[c].session.marketer.Some? && s.cases[c].session.marketerCreator != Some(reviewer.id)
            && !reviewer.role.SuperAdmin? then Err(Unauthorized)
    else Ok(RejectionRead(c, true))
  }

  // ---- Writes ----

  predicate EmailUsed(users: seq<User>, email: string) {
    exists u :: 0 <= u < |users| && users[u].email == email
  }

  /** Creating the customer fails on a used e-mail address, creating the schedule on a contract that has none. */
  predicate CanMaterialise(s: System, c: nat)
    requires c < |s.cases| && s.cases[c].application.Some?
  {
    && !EmailUsed(s.users, s.cases[c].session.email)
    && s.cases[c].application.value.months > 0 && s.cases[c].application.value.totalFinanced > 0.0
  }

  function SetApplication(s: System, c: nat, application: Application): System
    requires c < |s.cases|
  {
    s.(cases := s.cases[c := s.cases[c].(application := Some(application))])
  }

  function SignedByAdmin(session: Session, application: Application): Application {
    application.(adminApproved := true, marketerApproved := application.marketerApproved || session.marketer.None?)
  }

  /** The claim is won: the user, the schedule, the activation, and the end of the session. */
  function Materialise(s: System, c: nat, hasPassword: bool, firstPaymentDate: int): System
    requires c < |s.cases| && s.cases[c].application.Some? && CanMaterialise(s, c)
  {
    var session := s.cases[c].session;
    var signed := SignedByAdmin(session, s.cases[c].application.value);
    var rows := Schedule(c, Cents(signed.totalFinanced), signed.months, firstPaymentDate);
    s.(users := s.users + [User(session.email, Some(c), hasPassword)],
       cases := s.cases[c := Case(
         session.(status := SessionApproved),
         Some(signed.(status := Approved, customer := Some(|s.users|), contractStatus := Active,
                      schedule := signed.schedule + rows)))])
  }

  /** The final approval's transaction: sign, claim by status, materialise; a failure undoes all of it. */
  function WriteFinal(s: System, c: nat, hasPassword: bool, firstPaymentDate: int): System
    requires c < |s.cases| && s.cases[c].application.Some?
  {
    var session := s.cases[c].session;
    var application := s.cases[c].application.value;
    if application.status != ExpectedStatus(session) then SetApplication(s, c, SignedByAdmin(session, application))
    else if !CanMaterialise(s, c) then s
    else Materialise(s, c, hasPassword, firstPaymentDate)
  }

  function WriteMarketer(s: System, c: nat): System
    requires c < |s.cases| && s.cases[c].application.Some?
  {
    SetApplication(s, c, s.cases[c].application.value.(marketerApproved := true, status := ApprovalProcessing))
  }

  function WriteRejection(s: System, c: nat, withContract: bool): System
    requires c < |s.cases| && s.cases[c].application.Some?
  {
    var application := s.cases[c].application.value;
    SetApplication(s, c, application.(
      status := Rejected, contractStatus := if withContract then ContractRejected else application.contractStatus))
  }

  function NewApplication(totalFinanced: Money, months: int): Application {
    Application(ApplicationStatus.Pending, false, false, None, totalFinanced, months, PendingActivation, [])
  }

  /** A session has at most one application; the unique key refuses another one. */
  function WriteSubmission(s: System, c: nat, totalFinanced: Money, months: int): System
    requires c < |s.cases|
  {
    if s.cases[c].application.Some? then s
    else
      s.(cases := s.cases[c := Case(
        s.cases[c].session.(status := KycSubmitted),
        Some(NewApplication(totalFinanced, months)))])
  }

  /** The sweeper's transaction for one listed session: only a session still EXPIRING is finalised. */
  function WriteFinalised(s: System, c: nat, hadApplication: bool): System
    requires c < |s.cases| && (hadApplication ==> s.cases[c].application.Some?)
  {
    if !s.cases[c].session.status.Expiring? then s
    else
      var application := s.cases[c].application;
      s.(cases := s.cases[c := Case(
        s.cases[c].session.(status := SessionExpired),
        if hadApplication then Some(application.value.(status := Rejected)) else application)])
  }

  function WriteFrom(s: System, read: Read, firstPaymentDate: int): System
    requires ReadValid(s, read)
  {
    match read
    case SubmissionRead(c, totalFinanced, months) => WriteSubmission(s, c, totalFinanced, months)
    case MarketerRead(c) => WriteMarketer(s, c)
    case FinalRead(c, hasPassword) => WriteFinal(s, c, hasPassword, firstPaymentDate)
    case RejectionRead(c, withContract) => WriteRejection(s, c, withContract)
    case ListedRead(c, hadApplication) => WriteFinalised(s, c, hadApplication)
  }

  /** The sweeper's claim: EXPIRING, and no password any more. */
  function Claim(session: Session, now: int): Session {
    if (session.status.PendingKyc? || session.status.KycSubmitted?) && session.expiresAt < now
    then session.(status := Expiring, hasPassword := false) else session
  }

  function ClaimAll(cases: seq<Case>, now: int): seq<Case> {
    seq(|cases|, c requires 0 <= c < |cases| => cases[c].(session := Claim(cases[c].session, now)))
  }

  // ---- Runs ----

  datatype Event =
    | Registered(email: string, marketer: Option<nat>, marketerCreator: Option<nat>, company: Option<string>,
                 expiresAt: int)
    | Resumed(subject: nat, expiresAt: int)
    | OtherUser(email: string)
    | ReadForSubmission(subject: nat, now: int, totalFinanced: Money, months: int)
    | ReadForApproval(subject: nat, reviewer: Reviewer)
    | ReadForRejection(subject: nat, reviewer: Reviewer)
    | ReadForRetention(subject: nat)
    | ClaimStale(now: int)
    | ReadListed(subject: nat)
    | Write(read: nat, firstPaymentDate: int)

  /** What a read refers to exists: applications are never removed. */
  predicate ReadValid(s: System, read: Read) {
    && read.subject < |s.cases|
    && (match read
        case SubmissionRead(_, _, _) => true
        case ListedRead(c, hadApplication) => hadApplication ==> s.cases[c].application.Some?
        case _ => s.cases[read.subject].application.Some?)
  }

  predicate ReadsValid(s: System) {
    forall r :: 0 <= r < |s.checks| ==> ReadValid(s, s.checks[r])
  }

  function Remember(s: System, read: Read): System {
    s.(checks := s.checks + [read])
  }

  function Step(s: System, event: Event): System
    requires ReadsValid(s)
  {
    match event
    case Registered(email, marketer, creator, company, expiresAt) =>
      s.(cases := s.cases + [Case(Session(email, marketer, creator, company, true, PendingKyc, expiresAt), None)])
    case Resumed(c, expiresAt) =>
      if c < |s.cases|
      then s.(cases := s.cases[c := s.cases[c].(session := s.cases[c].session.(expiresAt := expiresAt))])
      else s
    case OtherUser(email) => if EmailUsed(s.users, email) then s else s.(users := s.users + [User(email, None, true)])
    case ReadForSubmission(c, now, totalFinanced, months) =>
      if MaySubmit(s, c, now) then Remember(s, SubmissionRead(c, totalFinanced, months)) else s
    case ReadForApproval(c, reviewer) =>
      var check := CheckApproval(s, c, reviewer);
      if check.Ok? then Remember(s, check.value) else s
    case ReadForRejection(c, reviewer) =>
      var check := CheckRejection(s, c, reviewer);
      if check.Ok? then Remember(s, check.value) else s
    case ReadForRetention(c) =>
      if c < |s.cases| && s.cases[c].application.Some? && s.cases[c].application.value.status.Pending?
      then Remember(s, RejectionRead(c, false)) else s
    case ClaimStale(now) => s.(cases := ClaimAll(s.cases, now))
    case ReadListed(c) =>
      if c < |s.cases| && s.cases[c].session.status.Expiring?
      then Remember(s, ListedRead(c, s.cases[c].application.Some?)) else s
    case Write(r, firstPaymentDate) => if r < |s.checks| then WriteFrom(s, s.checks[r], firstPaymentDate) else s
  }
}
