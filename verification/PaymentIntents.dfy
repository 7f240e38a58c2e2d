/**
 Payment intents: the conditional updates on one table, and the reservation protocol that any
 number of callers run against it at the same time.
 */
module PaymentIntents {
  import opened Common

  datatype Status = Initializing | Initialized | Pending | Processing | Success | Failed | Expired | Cancelled

  predicate Terminal(status: Status) {
    status.Success? || status.Failed? || status.Expired? || status.Cancelled?
  }

  /** What the intent is for; one intent at a time may be active for it. */
  datatype Purpose =
    | ForInstallment(installmentId: string)
    | ForSubscription(companyId: string)
    | ForOnboarding(onboardingId: string)

  function ReservationKey(purpose: Purpose): string {
    match purpose
    case ForInstallment(id) => "INSTALLMENT:" + id
    case ForSubscription(id) => "SUBSCRIPTION:" + id
    case ForOnboarding(id) => "ONBOARDING:" + id
  }

  datatype Intent = Intent(
    reservationKey: string, idempotencyKey: string, status: Status, expiresAt: int,
    reference: Option<string>, authorizationUrl: Option<string>,
    claimed: bool, recoveryAttempts: nat, lastRecoveryError: Option<string>)

  // ---- Creating ----

  predicate IsActiveFor(intent: Intent, key: string) {
    intent.reservationKey == key && !Terminal(intent.status)
  }

  /** The row of an idempotency key, or the number of rows. */
  function FindByIdempotencyKey(table: seq<Intent>, key: string): (id: nat)
    ensures id <= |table|
    ensures id < |table| ==> table[id].idempotencyKey == key
    ensures forall k :: 0 <= k < id ==> table[k].idempotencyKey != key
  {
    if table == [] then 0
    else
      var n := |table| - 1;
      var before := FindByIdempotencyKey(table[..n], key);
      if before < n then before else if table[n].idempotencyKey == key then n else n + 1
  }

  /** The active row of a reservation key, or the number of rows. */
  function FindActive(table: seq<Intent>, key: string): (id: nat)
    ensures id <= |table|
    ensures id < |table| ==> IsActiveFor(table[id], key)
    ensures forall k :: 0 <= k < id ==> !IsActiveFor(table[k], key)
  {
    if table == [] then 0
    else
      var n := |table| - 1;
      var before := FindActive(table[..n], key);
      if before < n then before else if IsActiveFor(table[n], key) then n else n + 1
  }

  function NewIntent(key: string, idempotencyKey: string, expiresAt: int): Intent {
    Intent(key, idempotencyKey, Initializing, expiresAt, None, None, false, 0, None)
  }

  datatype CreateResult = Created | ReservationTaken | KeyTaken

  /** When both unique indexes refuse a row the database names one of them; `namesReservation` says which. */
  function CreateOutcome(table: seq<Intent>, key: string, idempotencyKey: string, namesReservation: bool)
      : CreateResult
  {
    var reserved := FindActive(table, key) < |table|;
    var used := FindByIdempotencyKey(table, idempotencyKey) < |table|;
    if !reserved && !used then Created
    else if reserved && (!used || namesReservation) then ReservationTaken
    else KeyTaken
  }

  // ---- Updating ----

  /** The status and the extra data of one update. */
  datatype Change = Change(
    to: Status, reference: Option<string>, authorizationUrl: Option<string>, releasesClaim: bool, error: Option<string>)

  function CancelledBecause(reason: Option<string>): Change { Change(Cancelled, None, reason, true, None) }
  function InitializedAt(reference: string, url: string): Change {
    Change(Initialized, Some(reference), Some(url), true, None)
  }
  function MarkedPending(): Change { Change(Pending, None, None, false, None) }
  function MarkedProcessing(): Change { Change(Processing, None, None, false, None) }
  function MarkedSuccess(): Change { Change(Success, None, None, false, None) }
  function MarkedFailed(reason: Option<string>): Change { Change(Failed, None, None, true, reason) }
  function MarkedExpired(): Change { Change(Expired, None, None, true, None) }

  function OrElse<T>(update: Option<T>, current: Option<T>): Option<T> {
    if update.Some? then update else current
  }

  function Changed(row: Intent, change: Change): Intent {
    row.(status := change.to,
         reference := OrElse(change.reference, row.reference),
         authorizationUrl := OrElse(change.authorizationUrl, row.authorizationUrl),
         claimed := row.claimed && !change.releasesClaim,
         lastRecoveryError := OrElse(change.error, row.lastRecoveryError))
  }

  datatype TransitionError = NotFound | AlreadyTerminal(status: Status) | ReferenceTaken

  predicate ReferenceUsed(table: seq<Intent>, i: nat, reference: Option<string>) {
    reference.Some? && exists k :: 0 <= k < |table| && k != i && table[k].reference == reference
  }

  function TransitionRefusal(table: seq<Intent>, i: nat, change: Change): Option<TransitionError> {
    if i >= |table| then Some(NotFound)
    else if Terminal(table[i].status) then Some(AlreadyTerminal(table[i].status))
    else if ReferenceUsed(table, i, change.reference) then Some(ReferenceTaken)
    else None
  }

  /** The three ways in which a transition is refused, in the order in which they show. */
  predicate RefusedAs(table: seq<Intent>, i: nat, reference: Option<string>, r: Result<Intent, TransitionError>) {
    if i >= |table| then r == Err(NotFound)
    else
      match table[i].status
      case Success | Failed | Expired | Cancelled => r == Err(AlreadyTerminal(table[i].status))
      case Initializing | Initialized | Pending | Processing =>
        if ReferenceUsed(table, i, reference) then r == Err(ReferenceTaken) else r.Ok?
  }

  predicate Stale(row: Intent, now: int) {
    (row.status.Initializing? || row.status.Initialized?) && row.expiresAt < now
  }

  function Expire(row: Intent, now: int): Intent {
    if Stale(row, now) then row.(status := Expired, claimed := false) else row
  }

  function ExpireAll(table: seq<Intent>, now: int): seq<Intent> {
    seq(|table|, i requires 0 <= i < |table| => Expire(table[i], now))
  }

  function TakeFirst(text: string, n: nat): string {
    if |text| <= n then text else text[..n]
  }

  function RecoveryFailed(row: Intent, message: string): Intent {
    row.(claimed := false, lastRecoveryError := Some(TakeFirst(message, 2000)))
  }

  function RecoveryClaimed(row: Intent): Intent {
    row.(claimed := true, recoveryAttempts := row.recoveryAttempts + 1)
  }

  /** One atomic statement on the table. */
  datatype Statement =
    | Insert(key: string, idempotencyKey: string, expiresAt: int)
    | Transition(intent: nat, change: Change)
    | ExpireStale(now: int)
    | RecordFailure(intent: nat, message: string)
    | ClaimForRecovery(intent: nat)

  function Execute(table: seq<Intent>, statement: Statement): seq<Intent> {
    match statement
    case Insert(key, idempotencyKey, expiresAt) =>
      if CreateOutcome(table, key, idempotencyKey, true).Created?
      then table + [NewIntent(key, idempotencyKey, expiresAt)] else table
    case Transition(i, change) =>
      if TransitionRefusal(table, i, change).None? then table[i := Changed(table[i], change)] else table
    case ExpireStale(now) => ExpireAll(table, now)
    case RecordFailure(i, message) =>
      if i < |table| && table[i].status.Initializing? then table[i := RecoveryFailed(table[i], message)] else table
    case ClaimForRecovery(i) =>
      if i < |table| && table[i].status.Initializing? then table[i := RecoveryClaimed(table[i])] else table
  }

  function ExecuteAll(table: seq<Intent>, statements: seq<Statement>): seq<Intent> {
    if statements == [] then table
    else Execute(ExecuteAll(table, statements[..|statements| - 1]), statements[|statements| - 1])
  }

  // ---- The reservation protocol ----

  datatype Outcome =
    | New(intent: nat)
    | ExistingByClientKey(intent: nat)
    | ExistingByReservation(intent: nat)
    | ReservationChanged
    | Rejected

  /** Where a call stands between two accesses of the database. */
  datatype Stage =
    | LookingUp(mayRetry: bool)
    | Creating(mayRetry: bool)
    | Finding(mayRetry: bool)
    | Finished(outcome: Outcome)

  datatype Call = Call(key: string, clientKey: Option<string>, stage: Stage, creates: nat)

  datatype System = System(table: seq<Intent>, calls: seq<Call>)

  const START := System([], [])

  datatype Event =
    | Begin(key: string, clientKey: Option<string>)
    /** The call makes its next access; `uuid` is the key it would draw. */
    | Advance(call: nat, uuid: string, expiresAt: int, namesReservation: bool)
    | Other(statement: Statement)

  /** An empty client key is not looked up, although it is used as the idempotency key. */
  function Lookup(table: seq<Intent>, call: Call, mayRetry: bool): Call {
    if call.clientKey.Some? && call.clientKey.value != ""
       && FindByIdempotencyKey(table, call.clientKey.value) < |table|
    then call.(stage := Finished(ExistingByClientKey(FindByIdempotencyKey(table, call.clientKey.value))))
    else call.(stage := Creating(mayRetry))
  }

  function KeyFor(call: Call, uuid: string): string {
    if call.clientKey.Some? then call.clientKey.value else uuid
  }

  function AfterCreate(table: seq<Intent>, call: Call, mayRetry: bool, result: CreateResult): Call {
    var tried := call.(creates := call.creates + 1);
    match result
    case Created => tried.(stage := Finished(New(|table|)))
    case ReservationTaken => tried.(stage := Finding(mayRetry))
    case KeyTaken => tried.(stage := Finished(Rejected))
  }

  function Find(table: seq<Intent>, call: Call, mayRetry: bool): Call {
    var existing := FindActive(table, call.key);
    if existing < |table| then call.(stage := Finished(ExistingByReservation(existing)))
    else if mayRetry then call.(stage := LookingUp(false))
    else call.(stage := Finished(ReservationChanged))
  }

  function Step(s: System, event: Event): System {
    match event
    case Begin(key, clientKey) => s.(calls := s.calls + [Call(key, clientKey, LookingUp(true), 0)])
    case Other(statement) => s.(table := Execute(s.table, statement))
    case Advance(c, uuid, expiresAt, namesReservation) =>
      if c >= |s.calls| then s
      else
        var call := s.calls[c];
        match call.stage
        case LookingUp(mayRetry) => s.(calls := s.calls[c := Lookup(s.table, call, mayRetry)])
        case Creating(mayRetry) =>
          var result := CreateOutcome(s.table, call.key, KeyFor(call, uuid), namesReservation);
          System(if result.Created? then s.table + [NewIntent(call.key, KeyFor(call, uuid), expiresAt)] else s.table,
                 s.calls[c := AfterCreate(s.table, call, mayRetry, result)])
        case Finding(mayRetry) => s.(calls := s.calls[c := Find(s.table, call, mayRetry)])
        case Finished(_) => s
  }

  function Run(s: System, events: seq<Event>): System {
    if events == [] then s else Step(Run(s, events[..|events| - 1]), events[|events| - 1])
  }
}
