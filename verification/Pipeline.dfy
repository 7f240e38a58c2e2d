/**
 From an instalment being paid to the merchant being paid: the payment job, settlement
 generation and the settlement transfer, over the tables they share.  Row ids are positions.
 A call reads and checks first and writes later: every event is one read, or one atomic write, the
 body of one $transaction or one update.
 */
module Pipeline {
  import opened Common
  import opened Ledger
  import opened Installments
  import opened Eligibility

  datatype FinancingStatus =
    | PendingActivation | Active | Completed | InDefault | Cancelled | Rejected | Restructured | WrittenOff

  /** The customer's company, the referrer and the product's commission rate, as the payment job joins them. */
  datatype Contract = Contract(
    company: Option<string>, referrer: Option<nat>, referrerEligible: bool, commissionRate: Money,
    totalFinanced: Money, status: FinancingStatus)

  datatype PaymentStatus = PaymentPending | PaymentSuccess | PaymentFailed

  datatype Payment = Payment(installment: nat, amount: Money, status: PaymentStatus, key: nat)

  datatype CommissionRow = CommissionRow(user: nat, payment: nat, amount: Money)

  datatype SettlementStatus =
    | Generated | Approved | TransferInitiated | TransferSuccess | TransferFailed | TransferReversed

  datatype Settlement = Settlement(
    company: string, amount: Money, status: SettlementStatus, transferCode: Option<nat>,
    everInitiated: bool, initiations: nat, bankLinked: bool)

  datatype SettlementLine = SettlementLine(
    settlement: nat, installment: nat, gross: Money, commission: Money, net: Money)

  /** A transfer pair, or its opposite, of one settlement in the ledger; a pair goes with the provider's code. */
  datatype TransferPosting =
    | Sent(settlement: nat, initiation: nat, amount: Money, code: nat)
    | Returned(settlement: nat, amount: Money)

  /** transfer.success, transfer.failed, transfer.reversed */
  datatype Notice = Succeeded | Failed | Reversed

  /** A call that is past its reads and checks and has its write still to make. */
  datatype Call =
    | Paying(installment: nat, key: nat, contract: Contract)
    | Generating(company: string, lines: seq<SettlementLine>)
    | Queueing(settlement: nat)
    | Retrying(settlement: nat)
    | Attempting(settlement: nat, initiation: nat)
    | Handling(settlement: nat, notice: Notice)
    | Finished

  /** `targets` are the instalments that ever passed the payability check: any may be paid for any time later. */
  datatype Db = Db(
    contracts: seq<Contract>, installments: seq<Installment>, targets: set<nat>, payments: seq<Payment>,
    commissions: seq<CommissionRow>, settlements: seq<Settlement>, lines: seq<SettlementLine>,
    posted: seq<TransferPosting>, books: Books, calls: seq<Call>)

  predicate Linked(db: Db) {
    forall i :: 0 <= i < |db.installments| ==>
      db.installments[i].id == i && db.installments[i].contract < |db.contracts|
  }

  // ---- The schedule of an activated contract ----

  function Insert(table: seq<Installment>, rows: seq<NewInstallment>): seq<Installment> {
    table + seq(|rows|, k requires 0 <= k < |rows| =>
      Installment(|table| + k, rows[k].contract, rows[k].sequence, rows[k].amount, rows[k].status, rows[k].dueDate))
  }

  function Activate(db: Db, contract: Contract, months: nat, firstPaymentDate: int): Db
    requires months > 0
  {
    db.(contracts := db.contracts + [contract.(status := Active)],
        installments := Insert(db.installments,
                               Schedule(|db.contracts|, Cents(contract.totalFinanced), months, firstPaymentDate)))
  }

  // ---- initializeInstallmentPayment, up to the reservation of an intent ----

  predicate MayInitialize(db: Db, i: nat, today: int)
    requires Linked(db)
  {
    && i < |db.installments|
    && db.installments[i].status != Paid
    && (db.contracts[db.installments[i].contract].status.Active?
        || db.contracts[db.installments[i].contract].status.InDefault?)
    && SingleEligibility(db.installments, db.installments[i], today).canPay
  }

  // ---- The payment job ----

  /** Only a contract with an eligible referrer and a rate accrues a commission. */
  predicate EarnsCommission(contract: Contract) {
    contract.referrer.Some? && contract.referrerEligible && contract.commissionRate > 0.0
  }

  function CommissionAmount(contract: Contract, amount: Money): Money {
    if EarnsCommission(contract) then amount * (contract.commissionRate / 100.0) else 0.0
  }

  const CLEARING := "PAYSTACK_CLEARING"
  const RECEIVABLE := "CUSTOMER_RECEIVABLE"
  const COMMISSION_COST := "COMMISSION_EXPENSE"
  const MERCHANT_COST := "MERCHANT_SETTLEMENT_EXPENSE"
  const PAYABLE := "MERCHANT_PAYABLE"
  const PLATFORM_REVENUE := "PLATFORM_REVENUE"
  const BAD_DEBT := "BAD_DEBT_EXPENSE"

  function CashEntries(amount: Money): seq<Entry> {
    [Debit(CLEARING, Asset, amount), Credit(RECEIVABLE, Asset, amount)]
  }

  function CommissionEntries(commission: Money): seq<Entry> {
    if commission > 0.0
    then [Debit(COMMISSION_COST, Expense, commission), Credit(COMMISSION_PAYABLE, Liability, commission)]
    else []
  }

  function MerchantEntries(net: Money): seq<Entry> {
    if net > 0.0 then [Debit(MERCHANT_COST, Expense, net), Credit(PAYABLE, Liability, net)] else []
  }

  function PaymentPosting(contract: Contract, amount: Money, key: nat): Posting {
    var commission := CommissionAmount(contract, amount);
    Posting(Reference("", key), "Installment payment", contract.company,
            CashEntries(amount) + CommissionEntries(commission) + MerchantEntries(amount - commission))
  }

  /** The subscription of a company, paid when it is onboarded or renewed. */
  function SubscriptionPosting(company: string, price: Money, key: nat): Posting {
    Posting(Reference("", key), "Subscription", Some(company),
            [Debit(CLEARING, Asset, price), Credit(PLATFORM_REVENUE, Revenue, price)])
  }

  /** The pending row of this instalment and key, or the number of rows. */
  function FindPending(payments: seq<Payment>, installment: nat, key: nat): (id: nat)
    ensures id <= |payments|
    ensures id < |payments| ==> payments[id] == Payment(installment, payments[id].amount, PaymentPending, key)
  {
    if payments == [] then 0
    else
      var n := |payments| - 1;
      var before := FindPending(payments[..n], installment, key);
      if before < n then before
      else if payments[n].installment == installment && payments[n].key == key && payments[n].status.PaymentPending?
      then n
      else n + 1
  }

  predicate KeyUsed(payments: seq<Payment>, key: nat) {
    exists k :: 0 <= k < |payments| && payments[k].key == key
  }

  function RecordPayment(payments: seq<Payment>, installment: nat, amount: Money, key: nat): seq<Payment> {
    var id := FindPending(payments, installment, key);
    if id < |payments| then payments[id := payments[id].(status := PaymentSuccess)]
    else payments + [Payment(installment, amount, PaymentSuccess, key)]
  }

  predicate HasPending(installments: seq<Installment>, contract: nat) {
    exists i :: 0 <= i < |installments| && installments[i].contract == contract && installments[i].status == Pending
  }

  /** The job reads the instalment with its contract, and goes on with one that is unpaid and has an intent. */
  predicate JobStarts(db: Db, i: nat) {
    i < |db.installments| && db.installments[i].status != Paid && i in db.targets
  }

  /** A payment row with this key that is not the pending one makes the transaction fail. */
  predicate JobCommits(db: Db, i: nat, key: nat) {
    FindPending(db.payments, i, key) < |db.payments| || !KeyUsed(db.payments, key)
  }

  /** The transaction; commission and company are those of the contract as it was read. */
  function Pay(db: Db, i: nat, key: nat, contract: Contract): Db
    requires Linked(db) && i < |db.installments|
  {
    var row := db.installments[i];
    var installments := db.installments[i := row.(status := Paid)];
    var accrued := CommissionRow(if contract.referrer.Some? then contract.referrer.value else 0,
                                 FindPending(db.payments, i, key), CommissionAmount(contract, row.amount));
    db.(payments := RecordPayment(db.payments, i, row.amount, key),
        installments := installments,
        commissions := if EarnsCommission(contract) then db.commissions + [accrued] else db.commissions,
        books := Post(db.books, PaymentPosting(contract, row.amount, key)),
        contracts := if HasPending(installments, row.contract) then db.contracts
                     else db.contracts[row.contract := db.contracts[row.contract].(status := Completed)])
  }

  // ---- Writing a contract off ----

  function WriteOffPosting(id: nat, contract: Contract, outstanding: Money): Posting {
    Posting(Reference("WRITEOFF-", id), "Contract written off", contract.company,
            [Debit(BAD_DEBT, Expense, outstanding), Credit(RECEIVABLE, Asset, outstanding)])
  }

  function Void(row: Installment): Installment {
    if row.status.Paid? || row.status.Voided? then row else row.(status := Voided)
  }

  function VoidContract(installments: seq<Installment>, contract: nat): seq<Installment> {
    seq(|installments|, i requires 0 <= i < |installments| =>
      if installments[i].contract == contract then Void(installments[i]) else installments[i])
  }

  /** The amounts of the paid rows of a contract. */
  function PaidAmount(installments: seq<Installment>, contract: nat): Money {
    if installments == [] then 0.0
    else
      var n := |installments| - 1;
      PaidAmount(installments[..n], contract)
      + (if installments[n].contract == contract && installments[n].status == Paid then installments[n].amount else 0.0)
  }

  function WriteOff(db: Db, c: nat): Db
    requires c < |db.contracts|
  {
    var contract := db.contracts[c];
    var outstanding := contract.totalFinanced - PaidAmount(db.installments, c);
    db.(contracts := db.contracts[c := contract.(status := WrittenOff)],
        installments := VoidContract(db.installments, c),
        books := Post(db.books, WriteOffPosting(c, contract, outstanding)))
  }

  // ---- Settlement generation ----

  /** The newest successful payment of an instalment. */
  function LatestSuccess(payments: seq<Payment>, installment: nat): (id: Option<nat>)
    ensures id.Some? ==>
              id.value < |payments| && payments[id.value].installment == installment
              && payments[id.value].status.PaymentSuccess?
    ensures id.None? ==>
              forall k :: 0 <= k < |payments| ==>
                !(payments[k].installment == installment && payments[k].status.PaymentSuccess?)
  {
    if payments == [] then None
    else
      var n := |payments| - 1;
      if payments[n].installment == installment && payments[n].status.PaymentSuccess? then Some(n)
      else LatestSuccess(payments[..n], installment)
  }

  function CommissionTotal(commissions: seq<CommissionRow>, payment: nat): Money {
    if commissions == [] then 0.0
    else
      var n := |commissions| - 1;
      CommissionTotal(commissions[..n], payment)
      + (if commissions[n].payment == payment then commissions[n].amount else 0.0)
  }

  function Deducted(db: Db, i: nat): Money {
    var payment := LatestSuccess(db.payments, i);
    if payment.None? then 0.0 else CommissionTotal(db.commissions, payment.value)
  }

  function Net(db: Db, i: nat): Money
    requires i < |db.installments|
  {
    db.installments[i].amount - Deducted(db, i)
  }

  predicate Settled(lines: seq<SettlementLine>, i: nat) {
    exists l :: 0 <= l < |lines| && lines[l].installment == i
  }

  predicate Unsettled(db: Db, i: nat)
    requires i < |db.installments|
  {
    db.installments[i].status == Paid && !Settled(db.lines, i)
  }

  /** The WHERE clause of settlement generation. */
  predicate ToSettle(db: Db, company: string, i: nat)
    requires Linked(db) && i < |db.installments|
  {
    Unsettled(db, i) && db.contracts[db.installments[i].contract].company == Some(company)
  }

  /** The paid instalments of a company without a settlement line, among the first `n` rows. */
  function EligibleBelow(db: Db, company: string, n: nat): (ids: seq<nat>)
    requires Linked(db) && n <= |db.installments|
    ensures forall k :: 0 <= k < |ids| ==> ids[k] < n && ToSettle(db, company, ids[k])
    ensures forall j, k :: 0 <= j < k < |ids| ==> ids[j] < ids[k]
    ensures forall i :: 0 <= i < n && ToSettle(db, company, i) ==> i in ids
  {
    if n == 0 then []
    else
      EligibleBelow(db, company, n - 1)
      + (if ToSettle(db, company, n - 1) then [n - 1] else [])
  }

  function EligibleIds(db: Db, company: string): (ids: seq<nat>)
    requires Linked(db)
    ensures forall k :: 0 <= k < |ids| ==> ids[k] < |db.installments|
  {
    EligibleBelow(db, company, |db.installments|)
  }

  function LineFor(db: Db, settlement: nat, i: nat): SettlementLine
    requires i < |db.installments|
  {
    SettlementLine(settlement, i, db.installments[i].amount, Deducted(db, i), Net(db, i))
  }

  function LinesFor(db: Db, settlement: nat, ids: seq<nat>): (lines: seq<SettlementLine>)
    requires forall k :: 0 <= k < |ids| ==> ids[k] < |db.installments|
    ensures |lines| == |ids|
  {
    seq(|ids|, k requires 0 <= k < |ids| => LineFor(db, settlement, ids[k]))
  }

  function NetOf(lines: seq<SettlementLine>): Money {
    if lines == [] then 0.0 else NetOf(lines[..|lines| - 1]) + lines[|lines| - 1].net
  }

  function EligibleTotal(db: Db, company: string): Money
    requires Linked(db)
  {
    NetOf(LinesFor(db, |db.settlements|, EligibleIds(db, company)))
  }

  /** The lines as they were computed, with the id their settlement got. */
  function Numbered(lines: seq<SettlementLine>, settlement: nat): (r: seq<SettlementLine>)
    ensures |r| == |lines|
  {
    seq(|lines|, k requires 0 <= k < |lines| => lines[k].(settlement := settlement))
  }

  /** One of the instalments has got a line: the unique key refuses them all. */
  predicate LinesTaken(lines: seq<SettlementLine>, added: seq<SettlementLine>) {
    exists k :: 0 <= k < |added| && Settled(lines, added[k].installment)
  }

  /** The transaction of generateForCompany, with the lines computed from what was read before. */
  function WriteGeneration(db: Db, company: string, lines: seq<SettlementLine>): Db {
    if LinesTaken(db.lines, lines) then db
    else
      db.(settlements := db.settlements + [Settlement(company, NetOf(lines), Approved, None, false, 0, false)],
          lines := db.lines + Numbered(lines, |db.settlements|))
  }

  predicate WorthSettling(db: Db, company: string)
    requires Linked(db)
  {
    EligibleIds(db, company) != [] && EligibleTotal(db, company) > 0.0
  }

  /** generateForCompany with nothing between its reads and its transaction. */
  function Generate(db: Db, company: string): Db
    requires Linked(db)
  {
    if WorthSettling(db, company)
    then WriteGeneration(db, company, LinesFor(db, |db.settlements|, EligibleIds(db, company)))
    else db
  }

  // ---- The settlement transfer ----

  /** queueEligibleTransfers, one settlement: approved and never initiated. */
  predicate Queueable(row: Settlement, verifiedBank: bool) {
    row.status.Approved? && !row.everInitiated && verifiedBank
  }

  predicate Retryable(row: Settlement) {
    row.status.TransferFailed? || row.status.TransferReversed?
  }

  /** The worker's guards: the status, the linked bank account, and a code that is already there. */
  predicate Attemptable(row: Settlement) {
    row.status.TransferInitiated? && row.bankLinked && row.transferCode.None?
  }

  function NoticeStatus(notice: Notice): SettlementStatus {
    match notice
    case Succeeded => TransferSuccess
    case Failed => TransferFailed
    case Reversed => TransferReversed
  }

  predicate IsTransferCall(call: Call) {
    !call.Paying? && !call.Generating? && !call.Finished?
  }

  /** Queueing and retrying start a new initiation; only a retry forgets the old code. */
  function RowAfter(row: Settlement, call: Call, code: nat): Settlement
    requires IsTransferCall(call)
  {
    match call
    case Queueing(_) => row.(status := TransferInitiated, everInitiated := true, initiations := row.initiations + 1)
    case Retrying(_) => row.(status := TransferInitiated, transferCode := None, initiations := row.initiations + 1)
    case Attempting(_, _) => row.(transferCode := Some(code))
    case Handling(_, notice) => row.(status := NoticeStatus(notice))
  }

  function Pair(prefix: string, s: nat, row: Settlement, debit: Entry, credit: Entry): Posting {
    Posting(Reference(prefix, s), prefix, Some(row.company), [debit, credit])
  }

  const SETTLEMENT_INIT := "SETTLEMENT_TRANSFER_INIT_"

  function SentPosting(s: nat, row: Settlement): Posting {
    Pair(SETTLEMENT_INIT, s, row,
         Debit(PAYABLE, Liability, row.amount), Credit(PAYOUTS_IN_TRANSIT, Asset, row.amount))
  }

  function NoticePosting(notice: Notice, s: nat, row: Settlement): Posting {
    match notice
    case Succeeded =>
      Pair("SETTLEMENT_TRANSFER_SUCCESS_", s, row,
           Debit(PAYOUTS_IN_TRANSIT, Asset, row.amount), Credit(BANK_SETTLED, Asset, row.amount))
    case Failed =>
      Pair("SETTLEMENT_TRANSFER_FAILED_", s, row,
           Debit(PAYOUTS_IN_TRANSIT, Asset, row.amount), Credit(PAYABLE, Liability, row.amount))
    case Reversed =>
      Pair("SETTLEMENT_TRANSFER_REVERSED_", s, row,
           Debit(BANK_SETTLED, Asset, row.amount), Credit(PAYABLE, Liability, row.amount))
  }

  /** What the write of a call posts with the change of its settlement. */
  function TransferPostingOf(row: Settlement, call: Call): Option<Posting>
    requires IsTransferCall(call)
  {
    match call
    case Attempting(s, _) => Some(SentPosting(s, row))
    case Handling(s, notice) => Some(NoticePosting(notice, s, row))
    case _ => None
  }

  function TransferLog(row: Settlement, call: Call, code: nat): seq<TransferPosting>
    requires IsTransferCall(call)
  {
    if call.Attempting? then [Sent(call.settlement, call.initiation, row.amount, code)]
    else if call.Handling? && !call.notice.Succeeded? then [Returned(call.settlement, row.amount)]
    else []
  }

  /** The transaction of a transfer call: its settlement, and the ledger. */
  function WriteTransfer(db: Db, call: Call, code: nat): Db
    requires IsTransferCall(call) && call.settlement < |db.settlements|
  {
    var row := db.settlements[call.settlement];
    db.(settlements := db.settlements[call.settlement := RowAfter(row, call, code)],
        posted := db.posted + TransferLog(row, call, code),
        books := PostIfAny(db.books, TransferPostingOf(row, call)))
  }

  // ---- Runs ----

  predicate LineFits(db: Db, company: string, line: SettlementLine)
    requires Linked(db)
  {
    && line.installment < |db.installments|
    && db.installments[line.installment].status == Paid
    && db.contracts[db.installments[line.installment].contract].company == Some(company)
    && line.gross == db.installments[line.installment].amount
    && line.gross == line.commission + line.net
  }

  /** What a generation has read of its instalments and cannot change: their company, amounts and being paid. */
  predicate LinesFit(db: Db, company: string, lines: seq<SettlementLine>)
    requires Linked(db)
  {
    && NetOf(lines) > 0.0
    && (forall k :: 0 <= k < |lines| ==> LineFits(db, company, lines[k]))
    && (forall j, k :: 0 <= j < k < |lines| ==> lines[j].installment != lines[k].installment)
  }

  /** The row a call is about exists, and what it remembers of a contract is still the case. */
  predicate CallFits(db: Db, call: Call)
    requires Linked(db)
  {
    match call
    case Paying(i, _, contract) =>
      && i < |db.installments| && ValidRate(contract.commissionRate)
      && contract.company == db.contracts[db.installments[i].contract].company
    case Generating(company, lines) => LinesFit(db, company, lines)
    case Finished => true
    case _ => call.settlement < |db.settlements|
  }

  predicate Ready(db: Db) {
    Linked(db) && forall k :: 0 <= k < |db.calls| ==> CallFits(db, db.calls[k])
  }

  datatype Event =
    | Activated(contract: Contract, months: nat, firstPaymentDate: int)
    | ReferralSet(contractId: nat, referrer: Option<nat>, eligible: bool, rate: Money)
    | StatusSet(contractId: nat, status: FinancingStatus)
    | Reminded(installment: nat)
    | CheckedPayable(installment: nat, today: int)
    | WroteOff(contractId: nat)
    | SubscriptionPaid(company: string, price: Money, key: nat)
    | GenerationChecked(company: string)
    | PaymentChecked(installment: nat, key: nat)
    | QueueChecked(settlement: nat, verifiedBank: bool)
    | RetryChecked(settlement: nat)
    | AttemptChecked(settlement: nat)
    | NoticeChecked(settlement: nat, notice: Notice)
    /** The call makes its write; `code` is the provider's answer to an attempt. */
    | Written(call: nat, code: nat)
    | BankLinked(settlement: nat)
    /** The failed handler of the job queue, once the attempts are used up. */
    | GaveUp(settlement: nat)

  /** The schedule is generated in the transaction that activates the contract: it has to be possible. */
  predicate MayActivate(contract: Contract, months: nat) {
    months > 0 && contract.totalFinanced > 0.0 && ValidRate(contract.commissionRate)
  }

  predicate ValidRate(rate: Money) {
    0.0 <= rate <= 100.0
  }

  /** The daily status scan: PENDING becomes DUE, DUE becomes OVERDUE. */
  function Remind(row: Installment): Installment {
    row.(status := match row.status
                   case Pending => Due
                   case Due => Overdue
                   case other => other)
  }

  // ---- Events by the tables they touch ----

  /** Scans, checks and changes of a contract. */
  predicate IsContractEvent(event: Event) {
    event.ReferralSet? || event.StatusSet? || event.Reminded? || event.CheckedPayable? || event.WroteOff?
  }

  predicate IsCheck(event: Event) {
    || event.GenerationChecked? || event.PaymentChecked? || event.QueueChecked? || event.RetryChecked?
    || event.AttemptChecked? || event.NoticeChecked?
  }

  function StepContract(db: Db, event: Event): Db
    requires Linked(db) && IsContractEvent(event)
  {
    match event
    case ReferralSet(c, referrer, eligible, rate) =>
      if c < |db.contracts| && ValidRate(rate)
      then db.(contracts := db.contracts[c := db.contracts[c].(
                 referrer := referrer, referrerEligible := eligible, commissionRate := rate)])
      else db
    case StatusSet(c, status) =>
      if c < |db.contracts| then db.(contracts := db.contracts[c := db.contracts[c].(status := status)]) else db
    case Reminded(i) =>
      if i < |db.installments| then db.(installments := db.installments[i := Remind(db.installments[i])]) else db
    case CheckedPayable(i, today) => if MayInitialize(db, i, today) then db.(targets := db.targets + {i}) else db
    case WroteOff(c) => if c < |db.contracts| then WriteOff(db, c) else db
  }

  /** The call that is under way after a check; FINISHED when the check does not pass. */
  function Checked(db: Db, event: Event): Call
    requires Linked(db) && IsCheck(event)
  {
    match event
    case GenerationChecked(company) =>
      if WorthSettling(db, company)
      then Generating(company, LinesFor(db, |db.settlements|, EligibleIds(db, company))) else Finished
    case PaymentChecked(i, key) =>
      if JobStarts(db, i) then Paying(i, key, db.contracts[db.installments[i].contract]) else Finished
    case QueueChecked(s, verifiedBank) =>
      if s < |db.settlements| && Queueable(db.settlements[s], verifiedBank) then Queueing(s) else Finished
    case RetryChecked(s) =>
      if s < |db.settlements| && Retryable(db.settlements[s]) then Retrying(s) else Finished
    case AttemptChecked(s) =>
      if s < |db.settlements| && Attemptable(db.settlements[s])
      then Attempting(s, db.settlements[s].initiations) else Finished
    case NoticeChecked(s, notice) =>
      if s < |db.settlements| && db.settlements[s].status != NoticeStatus(notice)
      then Handling(s, notice) else Finished
  }

  function Remember(db: Db, call: Call): Db {
    if call.Finished? then db else db.(calls := db.calls + [call])
  }

  function WriteCall(db: Db, call: Call, code: nat): Db
    requires Linked(db) && CallFits(db, call)
  {
    match call
    case Paying(i, key, contract) => if JobCommits(db, i, key) then Pay(db, i, key, contract) else db
    case Generating(company, lines) => WriteGeneration(db, company, lines)
    case Finished => db
    case _ => WriteTransfer(db, call, code)
  }

  /** The tables as a call's write finds them, the call itself having ended. */
  function Advanced(db: Db, k: nat): Db
    requires k < |db.calls|
  {
    db.(calls := db.calls[k := Finished])
  }

  /** An update of one settlement outside any call. */
  function Put(db: Db, s: nat, row: Settlement): Db
    requires s < |db.settlements|
  {
    db.(settlements := db.settlements[s := row])
  }

  function Step(db: Db, event: Event): Db
    requires Ready(db)
  {
    if IsContractEvent(event) then StepContract(db, event)
    else if IsCheck(event) then Remember(db, Checked(db, event))
    else
      match event
      case Activated(contract, months, firstPaymentDate) =>
        if MayActivate(contract, months) then Activate(db, contract, months, firstPaymentDate) else db
      case SubscriptionPaid(company, price, key) =>
        db.(books := Post(db.books, SubscriptionPosting(company, price, key)))
      case Written(k, code) => if k < |db.calls| then WriteCall(Advanced(db, k), db.calls[k], code) else db
      case BankLinked(s) =>
        if s < |db.settlements| then Put(db, s, db.settlements[s].(bankLinked := true)) else db
      case GaveUp(s) =>
        if s < |db.settlements| then Put(db, s, db.settlements[s].(status := TransferFailed)) else db
  }

  const EMPTY_DB := Db([], [], {}, [], [], [], [], [], EMPTY_BOOKS, [])
}
