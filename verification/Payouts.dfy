/**
 Commissions, their allocations to payout requests, and the transfer of a payout.  Rows are in
 creation order and a row's id is its position.  A call reads and checks first and writes later;
 every event below is one read, or one atomic write: the body of one $transaction, or one update.
 */
module Payouts {
  import opened Common
  import opened Ledger

  datatype Role = SuperAdmin | Admin | CompanyOwner | Marketer | Customer

  datatype User = User(role: Role, company: Option<string>, creatorRole: Option<Role>)

  datatype CommissionStatus = Active | PartiallyReserved | FullyReserved | FullyPaid | Frozen

  datatype Commission = Commission(owner: nat, amount: Money, reserved: Money, status: CommissionStatus)

  datatype AllocationStatus = Reserved | Paid | Released

  datatype Allocation = Allocation(payout: nat, commission: nat, amount: Money, status: AllocationStatus)

  datatype PayoutStatus =
    | PendingAdminApproval
    | PendingCompanyApproval
    | Approved
    | Rejected
    | TransferInitiated
    | PaidOut
    | TransferFailed
    | TransferReversed

  /** `initiations` counts the initiations so far, each with its own queued job. */
  datatype Payout = Payout(
    user: nat, company: string, amount: Money, status: PayoutStatus, transferCode: Option<nat>, initiations: nat)

  /** The transfer pair of one initiation was posted, along with the provider's code. */
  datatype PostedTransfer = PostedTransfer(payout: nat, initiation: nat, code: nat)

  /** What a webhook handler has in hand when its transaction begins. */
  datatype Loaded = Loaded(commissions: seq<Commission>, allocations: seq<Allocation>)

  /** transfer.success, transfer.failed, transfer.reversed */
  datatype Notice = Succeeded | Failed | Reversed

  /** A call that is past its reads and checks and has a write still to make. */
  datatype Call =
    | Requesting(user: nat, amount: Money)
    | AdminApproving(payout: nat, actor: nat)
    | CompanyApproving(payout: nat, actor: nat)
    | Preparing(payout: nat, status: PayoutStatus)
    | Starting(payout: nat)
    | Attempting(payout: nat, initiation: nat)
    | Handling(payout: nat, notice: Notice, loaded: Loaded)
    | Finished

  datatype Tables = Tables(
    users: seq<User>, commissions: seq<Commission>, allocations: seq<Allocation>, payouts: seq<Payout>,
    posted: seq<PostedTransfer>, books: Books, calls: seq<Call>)

  datatype PayoutError =
    | UserNotFound
    | NoCompany
    | AmountNotPositive
    | PayoutInProgress
    | NoCreator
    | InsufficientBalance
    | Forbidden
    | PayoutNotFound
    | WrongStatus
    | NoBankAccount

  // ---- Statuses that follow from amounts ----

  /** deriveReservationStatus */
  function ReservationStatus(reserved: Money, amount: Money): CommissionStatus {
    if reserved == 0.0 then Active else if reserved < amount then PartiallyReserved else FullyReserved
  }

  /** derivePostPaymentStatus */
  function PostPaymentStatus(amount: Money, reserved: Money, paid: Money): CommissionStatus {
    if paid >= amount then FullyPaid
    else if reserved == 0.0 then Active
    else if reserved < amount - paid then PartiallyReserved
    else FullyReserved
  }

  /** The allocations of one commission in one status come to this. */
  function Held(allocations: seq<Allocation>, commission: nat, status: AllocationStatus): Money {
    if allocations == [] then 0.0
    else
      var n := |allocations| - 1;
      Held(allocations[..n], commission, status)
      + (if allocations[n].commission == commission && allocations[n].status == status
         then allocations[n].amount else 0.0)
  }

  /** The allocations of one payout in one status come to this. */
  function Backing(allocations: seq<Allocation>, payout: nat, status: AllocationStatus): Money {
    if allocations == [] then 0.0
    else
      var n := |allocations| - 1;
      Backing(allocations[..n], payout, status)
      + (if allocations[n].payout == payout && allocations[n].status == status then allocations[n].amount else 0.0)
  }

  /** Everything ever allocated to a payout, whatever became of it. */
  function Allocated(allocations: seq<Allocation>, payout: nat): Money {
    if allocations == [] then 0.0
    else
      var n := |allocations| - 1;
      Allocated(allocations[..n], payout) + (if allocations[n].payout == payout then allocations[n].amount else 0.0)
  }

  // ---- requestPayout ----

  function Available(commission: Commission): Money {
    commission.amount - commission.reserved
  }

  /** The WHERE clause of the locking query. */
  predicate Eligible(commission: Commission, user: nat) {
    && commission.owner == user
    && !commission.status.FullyPaid? && !commission.status.Frozen?
    && commission.reserved < commission.amount
  }

  function EligibleIds(commissions: seq<Commission>, user: nat): (ids: seq<nat>)
    ensures forall k :: 0 <= k < |ids| ==> ids[k] < |commissions| && Eligible(commissions[ids[k]], user)
    ensures forall j, k :: 0 <= j < k < |ids| ==> ids[j] < ids[k]
    ensures forall c :: 0 <= c < |commissions| && Eligible(commissions[c], user) ==> c in ids
  {
    if commissions == [] then []
    else
      var n := |commissions| - 1;
      EligibleIds(commissions[..n], user) + (if Eligible(commissions[n], user) then [n] else [])
  }

  predicate ValidIds(commissions: seq<Commission>, ids: seq<nat>) {
    forall k :: 0 <= k < |ids| ==> ids[k] < |commissions|
  }

  function TotalAvailable(commissions: seq<Commission>, ids: seq<nat>): Money
    requires ValidIds(commissions, ids)
  {
    if ids == [] then 0.0
    else TotalAvailable(commissions, ids[..|ids| - 1]) + Available(commissions[ids[|ids| - 1]])
  }

  datatype Share = Share(commission: nat, amount: Money)

  /** The greedy loop, oldest commission first. */
  function Plan(commissions: seq<Commission>, ids: seq<nat>, remaining: Money): (plan: seq<Share>)
    requires ValidIds(commissions, ids)
    ensures forall k :: 0 <= k < |plan| ==> plan[k].commission < |commissions|
  {
    if ids == [] || remaining <= 0.0 then []
    else if Available(commissions[ids[0]]) <= 0.0 then Plan(commissions, ids[1..], remaining)
    else
      var share := Min(remaining, Available(commissions[ids[0]]));
      [Share(ids[0], share)] + Plan(commissions, ids[1..], remaining - share)
  }

  predicate InProgress(status: PayoutStatus) {
    status.PendingAdminApproval? || status.PendingCompanyApproval? || status.Approved? || status.TransferInitiated?
  }

  predicate HasPayoutInProgress(t: Tables, user: nat) {
    exists p :: 0 <= p < |t.payouts| && t.payouts[p].user == user && InProgress(t.payouts[p].status)
  }

  /** The guards before the transaction, in the order in which they are checked. */
  function CheckRequest(t: Tables, user: nat, amount: Money): Option<PayoutError> {
    if user >= |t.users| then Some(UserNotFound)
    else if t.users[user].company.None? then Some(NoCompany)
    else if amount <= 0.0 then Some(AmountNotPositive)
    else if HasPayoutInProgress(t, user) then Some(PayoutInProgress)
    else if t.users[user].creatorRole.None? then Some(NoCreator)
    else None
  }

  /** What the transaction finds out on the locked rows, for a user whose standing was checked before. */
  predicate MayRequest(t: Tables, user: nat, amount: Money) {
    && user < |t.users| && t.users[user].company.Some? && t.users[user].creatorRole.Some?
    && 0.0 < amount <= TotalAvailable(t.commissions, EligibleIds(t.commissions, user))
  }

  function ReserveShare(t: Tables, loaded: seq<Commission>, payout: nat, share: Share): Tables
    requires |loaded| == |t.commissions| && share.commission < |loaded|
  {
    var c := share.commission;
    var reserved := loaded[c].reserved + share.amount;
    t.(allocations := t.allocations + [Allocation(payout, c, share.amount, Reserved)],
       commissions := t.commissions[c := t.commissions[c].(
         reserved := reserved, status := ReservationStatus(reserved, loaded[c].amount))])
  }

  /** The write loop; `loaded` is the snapshot the shares were planned on. */
  function ReserveShares(t: Tables, loaded: seq<Commission>, payout: nat, plan: seq<Share>): (r: Tables)
    requires |loaded| == |t.commissions|
    requires forall k :: 0 <= k < |plan| ==> plan[k].commission < |loaded|
    ensures |r.commissions| == |t.commissions|
  {
    if plan == [] then t
    else
      var n := |plan| - 1;
      ReserveShare(ReserveShares(t, loaded, payout, plan[..n]), loaded, payout, plan[n])
  }

  function FirstStatus(user: User): PayoutStatus {
    if user.creatorRole == Some(CompanyOwner) || user.role.Admin? then PendingCompanyApproval
    else PendingAdminApproval
  }

  function Request(t: Tables, user: nat, amount: Money): Tables
    requires MayRequest(t, user, amount)
  {
    var plan := Plan(t.commissions, EligibleIds(t.commissions, user), amount);
    var row := Payout(user, t.users[user].company.value, amount, FirstStatus(t.users[user]), None, 0);
    ReserveShares(t.(payouts := t.payouts + [row]), t.commissions, |t.payouts|, plan)
  }

  // ---- The loops over the allocations of a payout ----

  /** A webhook settles, releases or restores reservations; the retry of a failed transfer reserves again. */
  datatype Move = Settle | Release | Restore | ReReserve {
    function From(): AllocationStatus {
      match this
      case Settle | Release => Reserved
      case Restore => Paid
      case ReReserve => Released
    }

    function To(): AllocationStatus {
      match this
      case Settle => Paid
      case Release => Released
      case Restore | ReReserve => Reserved
    }

    function Change(amount: Money): Money {
      if Settle? || Release? then -amount else amount
    }
  }

  predicate Selected(allocation: Allocation, payout: nat, move: Move) {
    allocation.payout == payout && allocation.status == move.From()
  }

  predicate ValidAllocations(t: Tables) {
    forall k :: 0 <= k < |t.allocations| ==>
      t.allocations[k].commission < |t.commissions| && t.allocations[k].payout < |t.payouts|
  }

  /** Rows only get added: what was loaded is still there, with at most its status and reserved amount changed. */
  predicate LoadedFits(t: Tables, loaded: Loaded) {
    && |loaded.commissions| <= |t.commissions|
    && |loaded.allocations| <= |t.allocations|
    && (forall c :: 0 <= c < |loaded.commissions| ==>
          && loaded.commissions[c].owner == t.commissions[c].owner
          && loaded.commissions[c].amount == t.commissions[c].amount)
    && (forall k :: 0 <= k < |loaded.allocations| ==>
          && loaded.allocations[k].commission < |loaded.commissions|
          && loaded.allocations[k] == t.allocations[k].(status := loaded.allocations[k].status))
  }

  /** The tables as a transaction that reads for itself finds them. */
  function Now(t: Tables): (loaded: Loaded)
    ensures ValidAllocations(t) ==> LoadedFits(t, loaded)
  {
    Loaded(t.commissions, t.allocations)
  }

  /** One round of the loop: amounts are computed from what was loaded, and written over what is there. */
  function MoveOne(t: Tables, loaded: Loaded, k: nat, move: Move): Tables
    requires k < |t.allocations| && t.allocations[k].commission < |loaded.commissions| <= |t.commissions|
  {
    var allocation := t.allocations[k];
    var c := allocation.commission;
    var allocations := t.allocations[k := allocation.(status := move.To())];
    var reserved := loaded.commissions[c].reserved + move.Change(allocation.amount);
    var amount := loaded.commissions[c].amount;
    var status := if move.Settle? then PostPaymentStatus(amount, reserved, Held(allocations, c, Paid))
                  else ReservationStatus(reserved, amount);
    t.(allocations := allocations,
       commissions := t.commissions[c := t.commissions[c].(reserved := reserved, status := status)])
  }

  function MoveFirst(t: Tables, loaded: Loaded, payout: nat, move: Move, n: nat): (r: Tables)
    requires LoadedFits(t, loaded) && n <= |loaded.allocations|
    ensures |r.commissions| == |t.commissions| && |r.allocations| == |t.allocations|
    ensures forall k :: 0 <= k < |t.allocations| ==>
              && r.allocations[k] == t.allocations[k].(status := r.allocations[k].status)
              && (k >= n ==> r.allocations[k] == t.allocations[k])
    ensures r == t.(allocations := r.allocations, commissions := r.commissions)
  {
    if n == 0 then t
    else
      var before := MoveFirst(t, loaded, payout, move, n - 1);
      if Selected(loaded.allocations[n - 1], payout, move) then MoveOne(before, loaded, n - 1, move) else before
  }

  function MoveAll(t: Tables, loaded: Loaded, payout: nat, move: Move): Tables
    requires LoadedFits(t, loaded)
  {
    MoveFirst(t, loaded, payout, move, |loaded.allocations|)
  }

  // ---- Checks of a payout ----

  function CheckAdminApproval(t: Tables, payout: nat, actor: nat): Option<PayoutError> {
    if actor >= |t.users| || !t.users[actor].role.Admin? then Some(Forbidden)
    else if payout >= |t.payouts| || !t.payouts[payout].status.PendingAdminApproval? then Some(PayoutNotFound)
    else if Some(t.payouts[payout].company) != t.users[actor].company then Some(Forbidden)
    else None
  }

  function CheckCompanyApproval(t: Tables, payout: nat, actor: nat): Option<PayoutError> {
    if actor >= |t.users| || !t.users[actor].role.CompanyOwner? then Some(Forbidden)
    else if payout >= |t.payouts| then Some(PayoutNotFound)
    else if Some(t.payouts[payout].company) != t.users[actor].company then Some(Forbidden)
    else if !t.payouts[payout].status.PendingCompanyApproval? then Some(WrongStatus)
    else None
  }

  predicate Initiatable(status: PayoutStatus) {
    status.Approved? || status.TransferFailed? || status.TransferReversed?
  }

  function CheckInitiation(t: Tables, payout: nat, actor: nat, hasBank: bool): Option<PayoutError> {
    if actor >= |t.users| || !t.users[actor].role.CompanyOwner? then Some(Forbidden)
    else if payout >= |t.payouts| then Some(PayoutNotFound)
    else if Some(t.payouts[payout].company) != t.users[actor].company then Some(Forbidden)
    else if !Initiatable(t.payouts[payout].status) then Some(WrongStatus)
    else if !hasBank then Some(NoBankAccount)
    else None
  }

  /** An approved payout can be started at once; a failed or reversed one is made approved again first. */
  function FirstInitiationCall(payout: nat, status: PayoutStatus): Call {
    if status.Approved? then Starting(payout) else Preparing(payout, status)
  }

  /** The worker's guards: the status, and a code that is already there. */
  predicate Attemptable(row: Payout) {
    row.status.TransferInitiated? && row.transferCode.None?
  }

  function NoticeStatus(notice: Notice): PayoutStatus {
    match notice
    case Succeeded => PaidOut
    case Failed => TransferFailed
    case Reversed => TransferReversed
  }

  function NoticeMove(notice: Notice): Move {
    match notice
    case Succeeded => Settle
    case Failed => Release
    case Reversed => Restore
  }

  // ---- Writes ----

  function PutPayout(t: Tables, payout: nat, row: Payout): Tables
    requires payout < |t.payouts|
  {
    t.(payouts := t.payouts[payout := row])
  }

  function SetStatus(t: Tables, payout: nat, status: PayoutStatus): Tables
    requires payout < |t.payouts|
  {
    PutPayout(t, payout, t.payouts[payout].(status := status))
  }

  /** The transaction before a retry, or the update before the repetition of a reversed transfer. */
  function Prepare(t: Tables, payout: nat, status: PayoutStatus): Tables
    requires payout < |t.payouts| && ValidAllocations(t)
  {
    SetStatus(if status.TransferFailed? then MoveAll(t, Now(t), payout, ReReserve) else t, payout, Approved)
  }

  /** The last update of initiateTransfer: a new initiation that forgets the old code. */
  function StartTransfer(t: Tables, payout: nat): Tables
    requires payout < |t.payouts|
  {
    var row := t.payouts[payout];
    PutPayout(t, payout, row.(status := TransferInitiated, transferCode := None, initiations := row.initiations + 1))
  }

  /** initiateTransfer with nothing between its writes. */
  function Initiate(t: Tables, payout: nat): Tables
    requires payout < |t.payouts| && ValidAllocations(t)
  {
    var status := t.payouts[payout].status;
    StartTransfer(if status.Approved? then t else Prepare(t, payout, status), payout)
  }

  function Pair(prefix: string, payout: nat, company: string, debit: Entry, credit: Entry): Posting {
    Posting(Reference(prefix, payout), prefix, Some(company), [debit, credit])
  }

  const TRANSFER_INIT := "TRANSFER_INIT_"

  function InitiationPosting(payout: nat, row: Payout): Posting {
    Pair(TRANSFER_INIT, payout, row.company,
         Debit(COMMISSION_PAYABLE, Liability, row.amount), Credit(PAYOUTS_IN_TRANSIT, Asset, row.amount))
  }

  function NoticePosting(notice: Notice, payout: nat, row: Payout): Posting {
    match notice
    case Succeeded =>
      Pair("TRANSFER_SUCCESS_", payout, row.company,
           Debit(PAYOUTS_IN_TRANSIT, Asset, row.amount), Credit(BANK_SETTLED, Asset, row.amount))
    case Failed =>
      Pair("TRANSFER_FAILED_", payout, row.company,
           Debit(PAYOUTS_IN_TRANSIT, Asset, row.amount), Credit(COMMISSION_PAYABLE, Liability, row.amount))
    case Reversed =>
      Pair("TRANSFER_REVERSED_", payout, row.company,
           Debit(BANK_SETTLED, Asset, row.amount), Credit(COMMISSION_PAYABLE, Liability, row.amount))
  }

  /** The transaction of an attempt that has reached the provider: the code and the pair. */
  function CommitAttempt(t: Tables, payout: nat, initiation: nat, code: nat): Tables
    requires payout < |t.payouts|
  {
    var row := t.payouts[payout];
    PutPayout(t, payout, row.(transferCode := Some(code)))
      .(posted := t.posted + [PostedTransfer(payout, initiation, code)],
        books := Post(t.books, InitiationPosting(payout, row)))
  }

  /** The transaction of a webhook handler. */
  function WriteNotice(t: Tables, payout: nat, notice: Notice, loaded: Loaded): Tables
    requires payout < |t.payouts| && LoadedFits(t, loaded)
  {
    SetStatus(MoveAll(t, loaded, payout, NoticeMove(notice)), payout, NoticeStatus(notice))
      .(books := Post(t.books, NoticePosting(notice, payout, t.payouts[payout])))
  }

  // ---- Runs ----

  predicate CallFits(t: Tables, call: Call) {
    match call
    case Requesting(_, _) => true
    case Finished => true
    case Preparing(p, status) => p < |t.payouts| && (status.TransferFailed? || status.TransferReversed?)
    case Handling(p, _, loaded) => p < |t.payouts| && LoadedFits(t, loaded)
    case _ => call.payout < |t.payouts|
  }

  /** Foreign keys exist, for the rows and for what calls remember of them. */
  predicate Ready(t: Tables) {
    ValidAllocations(t) && forall k :: 0 <= k < |t.calls| ==> CallFits(t, t.calls[k])
  }

  datatype Event =
    | Accrued(owner: nat, accrued: Money)
    | RequestChecked(user: nat, amount: Money)
    | AdminApprovalChecked(payout: nat, actor: nat)
    | CompanyApprovalChecked(payout: nat, actor: nat)
    | InitiationChecked(payout: nat, actor: nat, hasBank: bool)
    | AttemptChecked(payout: nat)
    | NoticeLoaded(payout: nat, notice: Notice)
    /** The call makes its next write; `code` is the provider's answer to an attempt. */
    | Written(call: nat, code: nat)
    /** The failed handler of the job queue, once the attempts are used up. */
    | GivenUp(payout: nat)

  function Remember(t: Tables, call: Call): Tables {
    t.(calls := t.calls + [call])
  }

  function NextCall(call: Call): Call {
    if call.Preparing? then Starting(call.payout) else Finished
  }

  function WriteCall(t: Tables, call: Call, code: nat): Tables
    requires ValidAllocations(t) && CallFits(t, call)
  {
    match call
    case Requesting(user, amount) => if MayRequest(t, user, amount) then Request(t, user, amount) else t
    case AdminApproving(p, _) => SetStatus(t, p, PendingCompanyApproval)
    case CompanyApproving(p, _) => SetStatus(t, p, Approved)
    case Preparing(p, status) => Prepare(t, p, status)
    case Starting(p) => StartTransfer(t, p)
    case Attempting(p, initiation) => CommitAttempt(t, p, initiation, code)
    case Handling(p, notice, loaded) => WriteNotice(t, p, notice, loaded)
    case Finished => t
  }

  /** The tables as a call's next write finds them, the call itself having moved on. */
  function Advanced(t: Tables, k: nat): Tables
    requires k < |t.calls|
  {
    t.(calls := t.calls[k := NextCall(t.calls[k])])
  }

  /** A refused call, a notice that was already handled, or one for an unknown payout changes nothing. */
  function Step(t: Tables, event: Event): Tables
    requires Ready(t)
  {
    match event
    case Accrued(owner, accrued) => t.(commissions := t.commissions + [Commission(owner, accrued, 0.0, Active)])
    case RequestChecked(user, amount) =>
      if CheckRequest(t, user, amount).None? then Remember(t, Requesting(user, amount)) else t
    case AdminApprovalChecked(p, actor) =>
      if CheckAdminApproval(t, p, actor).None? then Remember(t, AdminApproving(p, actor)) else t
    case CompanyApprovalChecked(p, actor) =>
      if CheckCompanyApproval(t, p, actor).None? then Remember(t, CompanyApproving(p, actor)) else t
    case InitiationChecked(p, actor, hasBank) =>
      if CheckInitiation(t, p, actor, hasBank).None?
      then Remember(t, FirstInitiationCall(p, t.payouts[p].status)) else t
    case AttemptChecked(p) =>
      if p < |t.payouts| && Attemptable(t.payouts[p]) then Remember(t, Attempting(p, t.payouts[p].initiations)) else t
    case NoticeLoaded(p, notice) =>
      if p < |t.payouts| && t.payouts[p].status != NoticeStatus(notice)
      then Remember(t, Handling(p, notice, Now(t))) else t
    case Written(k, code) => if k < |t.calls| then WriteCall(Advanced(t, k), t.calls[k], code) else t
    case GivenUp(p) => if p < |t.payouts| then SetStatus(t, p, TransferFailed) else t
  }
}
