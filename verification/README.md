# InstalFlow: the money core, modelled and proved

A Dafny model of the parts of the backend that move money, and proofs of what they promise.

| component | files |
|---|---|
| double-entry ledger and its daily reconciliation | `Ledger`, `LedgerProofs`, `LedgerSides`, `LedgerService`, `Reconciliation` |
| commissions: FIFO reservation, payout, transfer, webhooks | `Payouts`, `PayoutPlans`, `PayoutLoops`, `PayoutProofs`, `PayoutStatuses`, `PayoutChecks`, `PayoutLimits`, `PayoutTransfers`, `PayoutBacking`, `PayoutApprovals`, `PayoutBulk`, `PayoutExamples`, `PayoutService` |
| instalments: calendar, schedule, payment order | `Calendar`, `Installments`, `Eligibility` |
| from a paid instalment to a paid merchant | `Pipeline`, `PipelineRows`, `PipelinePostings`, `PipelineMoney`, `PipelineRuns`, `PipelineTransfers`, `PipelineCash`, `PipelineCommissions`, `PipelineChecks`, `PipelineGeneration`, `PipelineExamples`, `PipelineService` |
| payouts and the pipeline on their one ledger | `SharedLedger`, `SharedAccounts`, `SharedRuns` |
| restructuring and writing off | `Financing` |
| payment intents under interleaving | `PaymentIntents`, `PaymentIntentProofs`, `PaymentIntentLookups`, `PaymentIntentService` |
| KYC approval against the session sweeper | `Kyc`, `KycChecks`, `KycProofs`, `KycSweep`, `KycExamples`, `KycService` |

Each component comes in three layers.  A datatype holds its tables, and functions on it are the atomic steps
(`Post`, `Pay`, `Generate`, `WriteNotice`, `Execute`, `WriteFinal`, ...).  Lemmas say what those steps keep, step by step and
then for every sequence of steps.  A class holds the same tables as fields, updates them in place with the loops of
the source, and every method is proved equal to its steps with whatever others do in between.  `Common` has money, sums
and result types.  What the steps themselves answer and write (sides of accounts, shares, statuses, cents, guards, the
outcome of a reservation) is stated in terms of the rows alone in `LedgerSides`, `SharedAccounts`, `PayoutStatuses`,
`PayoutChecks`, `PipelineCommissions`, `PipelineChecks`, `Installments`, `Calendar`, `Eligibility`, `Financing`,
`PaymentIntentLookups` and `KycChecks`.

## Assumptions

* Money is exact (`real`); no column rounds it.  `Number(decimal)` is exact too.
* The body of one `$transaction`, and one conditional update, is one atomic step.  What a call reads before that is a step
  of its own, and any other call may read or write in between: payout requests, approvals, initiations, transfer attempts,
  webhooks, payment jobs, generation, queueing and retrying of settlements, reconciliation, reservations, KYC decisions and
  sweeps.
  A call past its reads is a row of `calls`, with what it remembers.
* Still one step each: activating a contract, the payability check of an instalment, writing off, restructuring, and the claim
  of a sweep.
* A customer's company never changes, nor does a contract's; referrer, eligibility and rate may change at any time.
* Row ids are positions, rows are in creation order, and no row is deleted.
* The unique keys of `prisma/schema.prisma` and its migrations hold: account (name, tenant), transaction reference, payment key,
  instalment (contract, sequence), one settlement line per instalment, one application per session, user e-mail, and the
  partial index on active reservation keys (`prisma/migrations/20260705000001_payment_intent_partial_indexes/migration.sql:7-9`).
* Dates are day numbers of the local calendar; the clock, the provider's answers, drawn UUIDs and verified bank accounts are
  parameters.
* Webhooks may arrive in any order and any number of times, and any write may come late or never, unless a lemma asks for one
  of these.  `AllCurrent`: what is reserved beside its payout is as a webhook loaded it.  `AttemptsApart`: between an attempt's
  look at its row and its commit no other attempt of that row commits and no new initiation of it begins (and a settlement is
  queued while no attempt has committed since it was listed).  `AllPayOnce`: a payment is written to an instalment still unpaid.
  `AllTimely`: the check behind a write still holds when it is made; success and failure are reported of a transfer under way, a
  reversal of one that succeeded; a job is given up before its code is stored.  For the first three, lemmas on single steps say
  exactly when a step breaks what they keep, and runs from empty tables that do are exhibited; for `AttemptsApart` the runs that
  keep it are exactly those whose transfers agree all along (`PayoutTransfers.TransfersPostAtMostOnce`,
  `PipelineTransfers.SettlementsPostAtMostOnce`).  Timely runs are current and their attempts apart (`PayoutBacking.TimelyRunsAgree`,
  `PipelineTransfers.TimelyRunsAgree`).

## What the code does not promise

Each of these is proved, with the condition under which the promise does hold where there is one.

* A ledger reference is not idempotent, although `docs/ARCHITECTURE.md:316` says so: the lines are appended again
  (`LedgerProofs.RepostingIsIdempotentOnlyIfNetIsZero`, `LedgerProofs.RepostingDoubles`).
* The reconciliation worker takes no transaction, so a posting between its read and a write can leave a corrected account wrong
  (`Reconciliation.InterleavedPassRepairsExactlyUnmoved`, `Reconciliation.LatePostingIsOverwritten`).
* Payout webhooks write amounts they loaded before their transaction, without looking again: two that overlap lose an update
  (`PayoutExamples.OverlappingNoticesLoseAnUpdate`; exactly when, `PayoutProofs.StepKeepsConsistentExactlyWhenCurrent`), and two
  deliveries of one success post twice (`PayoutExamples.OverlappingDeliveriesPostTwice`; exactly when,
  `PayoutBacking.NoticeIsDueExactlyInTime`, and `PipelineCash.NoticeIsDueExactlyInTime` for settlements).
* A transfer worker commits without looking again: a late commit marks a newer initiation with an old code
  (`PayoutExamples.LateCommitMarksTheWrongInitiation`), and two attempts post one initiation twice
  (`PipelineExamples.TwoAttemptsPostTwice`); exactly when attempts overlap, `BelongsExactlyWhenUndisturbed` of `PayoutTransfers` and
  `PipelineTransfers`.
* The payment job looks for PAID outside its transaction: two overlapping jobs with different references pay one instalment
  twice (`PipelineExamples.OverlappingJobsPayTwice`, `PipelineRuns.StepKeepsPayableExactlyWhenHarmless`).
* Settlement generation computes its lines before its transaction.  The unique key on lines refuses it when another generation
  got there first (`PipelineRuns.OverlappingGenerationIsRefused`), which ends the whole pass (`PipelineGeneration.RefusedStays`);
  it does not notice that an instalment was paid again meanwhile, and then settles what it had read
  (`PipelineExamples.LateGenerationSettlesTooLittle`, `PipelineMoney.GenerationKeepsPayableExactlyWhenHarmless`).
* Commission availability is `amount - reservedAmount`, which forgets what has been paid: the same money can be promised twice
  (`PayoutExamples.SameMoneyPromisedTwice`, `PayoutLimits.RequestsKeepCoverExactlyWhenNothingPaid`).
* A retry of a failed transfer and a reversal reserve again without asking whether the money is still free
  (`PayoutExamples.RetryExceedsCommission`, `PayoutLimits.StepFitsExactlyWhenFree`).
* COMPLETED is decided by looking for PENDING instalments only (`PipelineRows.CompletionMeansPaidUnlessOverdue`,
  `PipelineExamples.CompletedWithAnInstallmentUnpaid`).
* Clearing is not all earmarked for referrer and merchant: subscriptions are collected on the same account of the company
  (`PipelineCash.AllCashIsEarmarked` sets them apart).
* Nothing in the repository links a bank account to a settlement, and the settlement worker refuses one without
  (`PipelineTransfers.UnlinkedSettlementsAreNeverSent`).
* A restructure inserts instalments numbered from 1 beside the old ones, which the unique key refuses
  (`Financing.RestructureNeverCommits`).
* A late marketer approval, a late rejection, or a sweeper that listed a session before its application arrived can make the session,
  the application and the customer contradict each other (`KycExamples`); `KycProofs.StepAgreesExactlyWhenHarmless` says exactly when.

## Model

Rows that begin with "what the call means" follow from one body; they say it in the caller's terms and support the others.

| member | source | states |
|---|---|---|
| LedgerProofs.EveryRunKeepsTheBooks | src/core/services/ledger.service.ts:29-122 | after any sequence of postings every stored balance is the fold of its journal lines, every financial transaction nets to zero however often its reference is reused, and every tenant's trial balance (the null tenant's too) is zero |
| LedgerSides.EveryRunStandsOnItsSides | src/core/services/ledger.service.ts:92-122 | after every run of postings an ASSET or EXPENSE account stores the debits less the credits of its lines, a LIABILITY, EQUITY or REVENUE account the credits less the debits, and per tenant the two kinds store the same |
| LedgerSides.ComputedOnItsSide | src/job-workers/ledger-reconciliation.worker.ts:17-44 | so does what the reconciliation computes, whatever is stored |
| LedgerSides.PostWrites | src/core/services/ledger.service.ts:46-89 | a balanced posting continues the journal by one line per entry, with its debit, credit and account, on the books of its company (the null tenant for none or an empty one), under the one transaction of its reference, which has its description; no other transaction changes |
| LedgerSides.UnbalancedWritesNothing | src/core/services/ledger.service.ts:29-42 | what the call means: a posting whose debits and credits differ writes nothing |
| LedgerProofs.PostKeepsDrift | src/core/services/ledger.service.ts:60-122 | a posting changes no account's difference between stored and computed balance, whatever types its entries declare; an account it creates starts without any |
| LedgerProofs.PostKeepsJournalBalanced | src/core/services/ledger.service.ts:46-89 | a balanced posting keeps every transaction and every tenant of the journal balanced, a reused reference included |
| LedgerProofs.ReconciledTrialBalance | src/core/services/ledger.service.ts:92-122 | a tenant's stored balances on their normal sides sum to zero whenever balances follow the journal |
| LedgerProofs.PostPosition | src/core/services/ledger.service.ts:60-122 | a posting moves a named account of its tenant by exactly its net entries, and that name in no other tenant |
| LedgerProofs.RepostingIsIdempotentOnlyIfNetIsZero | src/core/services/ledger.service.ts:46-89 | posting the same thing twice leaves an account where it was if and only if its entries there cancel out |
| LedgerProofs.RepostingDoubles | src/core/services/ledger.service.ts:46-89 | from an empty ledger, a deposit posted twice under one reference leaves twice the amount |
| LedgerProofs.PostLinesUnder | src/core/services/ledger.service.ts:46-89 | a posting adds its entries to the lines under its reference and none under any other |
| LedgerProofs.PostStoredAs | src/core/services/ledger.service.ts:61-76 | an account always declared with one type is stored with that type |
| LedgerService.LedgerStore.RecordTransaction | src/core/services/ledger.service.ts:14-131 | refuses exactly the unbalanced posting and then changes nothing; otherwise the tables become those of the ledger step |
| LedgerService.LedgerStore.WriteEntry | src/core/services/ledger.service.ts:60-122 | the account is found or created, the line appended, the balance incremented by the sign of the stored type |
| LedgerService.LedgerStore.Totals | src/core/services/ledger.service.ts:29-36 | the two totals of the balance check |
| LedgerService.LedgerStore.Reconcile | src/job-workers/ledger-reconciliation.worker.ts:48-125 | a pass that loads all accounts and writes them one by one, others posting before each write; it counts exactly those that differed when loaded |
| Reconciliation.RepairRestoresBooks | src/job-workers/ledger-reconciliation.worker.ts:57-98 | from arbitrarily corrupted balances one pass restores the balances postings had built, transactions and tenants balance, and a second pass finds nothing |
| Reconciliation.NothingToCorrect | src/job-workers/ledger-reconciliation.worker.ts:68-98 | on a ledger only postings touched, the pass changes nothing but the time stamp |
| Reconciliation.InterleavedPassRepairsExactlyUnmoved | src/job-workers/ledger-reconciliation.worker.ts:48-98 | with postings between the read and each write, an account ends on its journal exactly when it was not drifting when loaded or its computed balance had not moved by its own write |
| Reconciliation.UninterruptedPassRepairs | src/job-workers/ledger-reconciliation.worker.ts:57-98 | with nothing in between, writing account by account is the repair of all |
| Reconciliation.LatePostingIsOverwritten | src/job-workers/ledger-reconciliation.worker.ts:57-92 | a pass over one deposit with a corrupted balance during which a second deposit arrives leaves the account short of it |
| Payouts.EligibleIds | src/core/services/commission.service.ts:493-501 | the locking query selects exactly the owner's open commissions with something available, each once, oldest first |
| PayoutPlans.PlanIsFifo | src/core/services/commission.service.ts:528-545 | the greedy loop allocates exactly the requested amount over the oldest commissions, each share positive and available, all but the last exhausted |
| PayoutPlans.FifoIsUnique | src/core/services/commission.service.ts:528-545 | that description leaves no choice: the plan is the only allocation that meets it |
| PayoutPlans.RequestPlan | src/core/services/commission.service.ts:492-545 | the plan of every accepted request is first in, first out over what the query selects |
| PayoutPlans.RequestKeepsReservations | src/core/services/commission.service.ts:555-595 | a request keeps every reserved amount equal to the sum of its RESERVED allocations and every status derived from them |
| PayoutProofs.RequestKeepsRows | src/core/services/commission.service.ts:555-595 | a request keeps one allocation per payout and commission, all positive, and allocations summing to their payouts |
| PayoutLoops.MoveAgreesExactlyWhenCurrent | src/core/services/webhook-processor.service.ts:213-279 | the loop of a webhook, on amounts loaded before, keeps reserved amounts in agreement if and only if, on every commission it writes, what is reserved beside its payout is as it was loaded |
| PayoutProofs.StepKeepsConsistentExactlyWhenCurrent | src/core/services/webhook-processor.service.ts:200-548 | of all reads and writes of requests, approvals, initiations, attempts and webhooks, only a webhook's write can part reserved amounts from reservations, and exactly when what is reserved beside its payout has moved since its load |
| PayoutProofs.Run | src/core/services/commission.service.ts:448-863 | every run, however reads and writes of the calls interleave, keeps foreign keys, one allocation per payout and commission, and payouts that are the sum of their allocations |
| PayoutProofs.CurrentRunsAreConsistent | src/core/services/webhook-processor.service.ts:200-548 | from empty tables, every run whose webhooks write on current loads keeps reserved amounts the sum of reservations and statuses derived |
| PayoutStatuses.SuccessShowsWhatIsPaid | src/core/services/webhook-processor.service.ts:246-279 | a success on a current load leaves each commission it settles FULLY_PAID if and only if its PAID allocations come to at least its amount, and otherwise ACTIVE, PARTIALLY_RESERVED or FULLY_RESERVED as nothing, less than the unpaid rest, or all of it is reserved; what is fully paid is offered to no request |
| PayoutStatuses.MoveShowsReservation | src/shared/utils/helpers/commission-helper.ts:4-12 | a failure, a reversal and a retry leave each commission they touch with the status of what is reserved then, whatever was paid |
| PayoutStatuses.LoopsOfCalls | src/core/services/webhook-processor.service.ts:246-490 | success makes RESERVED allocations of the payout PAID, failure RELEASED, reversal makes PAID ones RESERVED and a retry RELEASED ones, as they were loaded, and no others |
| PayoutStatuses.RequestShowsReservation | src/core/services/commission.service.ts:573-595 | a request leaves each commission it reserves with the status of what is reserved now, and the others alone |
| PayoutStatuses.CurrentRunsShowStatuses | src/shared/utils/helpers/commission-helper.ts:4-24 | in every run whose webhooks write on current loads, each status says what it should of reserved and paid amounts |
| PayoutStatuses.OfferedExactly | src/core/services/commission.service.ts:493-501 | the locking query offers exactly the owner's ACTIVE, PARTIALLY_RESERVED and FULLY_RESERVED commissions with something left |
| PayoutChecks.RequestObjections | src/core/services/commission.service.ts:448-490 | the first of the five objections that applies is the answer; a request in progress is one that waits for an approval, is approved or has its transfer initiated |
| PayoutChecks.RequestOpensPayout | src/core/services/commission.service.ts:492-571 | a request goes through exactly when its amount is positive and no more than is left on the offered commissions; the new payout waits for the owner when an admin asks or the owner created who asks, and for an admin otherwise |
| PayoutChecks.OneRequestAtATime | src/core/services/commission.service.ts:466-484 | once a request is written the same user is refused another, whatever is left |
| PayoutChecks.ApprovalObjections | src/core/services/commission.service.ts:625-710 | which objection an approver is told |
| PayoutChecks.InitiationObjections | src/core/services/commission.service.ts:731-780 | only owners of the company initiate, to a bank account, what is approved, failed or reversed; the latter two are prepared first |
| PayoutChecks.AttemptsOpen | src/job-workers/transfer.worker.ts:49-92 | the worker goes on exactly with payouts whose transfer is initiated and that have no code |
| PayoutChecks.NoticesOpen | src/core/services/webhook-processor.service.ts:213-244 | a notice is taken up unless the payout has the status it reports, which is the one it then gets |
| PayoutChecks.TransfersShift | src/core/services/webhook-processor.service.ts:281-541 | of all accounts of all tenants, a commit, a success, a failure and a reversal move just their two of the payout's company, by its amount, in their direction |
| PayoutChecks.TransfersAreReferenced | src/core/services/webhook-processor.service.ts:281-541 | each adds two journal lines under its own reference to the payout |
| PayoutProofs.ReservedNotNegative | src/core/services/commission.service.ts:573-595 | reserved amounts are never negative, and until something is paid the status is the one derived from them |
| PayoutLimits.RequestReserves | src/core/services/commission.service.ts:573-595 | each commission's reservation grows by exactly its share, which is positive and available if planned and zero otherwise |
| PayoutLimits.BringingBackFitsExactlyWhenFree | src/core/services/commission.service.ts:782-809 | re-reserving keeps reservations within their commissions if and only if each allocation brought back is still available |
| PayoutLimits.StepFitsExactlyWhenFree | src/core/services/commission.service.ts:782-819 | of all events, exactly those that bring back money no longer free (or accrue a negative amount) break the bound |
| PayoutLimits.RunsKeepReservedWithinAmount | src/core/services/commission.service.ts:448-863 | in every run whose retries and reversals find the money free, no commission is over-reserved |
| PayoutExamples.RetryExceedsCommission | src/core/services/commission.service.ts:789-808 | a run from empty tables, through a failed transfer, a second request and a retry, that ends with 120 reserved on a commission of 100 |
| PayoutLimits.RequestsKeepCoverExactlyWhenNothingPaid | src/core/services/commission.service.ts:493-512 | every acceptable request leaves paid plus reserved within the commission if and only if nothing has been paid on what the query offers |
| PayoutExamples.SameMoneyPromisedTwice | src/core/services/commission.service.ts:493-519 | a run from empty tables that ends with 140 paid or reserved on a commission of 100 |
| PayoutExamples.OverlappingNoticesLoseAnUpdate | src/core/services/webhook-processor.service.ts:347-400 | a run from empty tables in which two failure webhooks overlap and 40 stay reserved with nothing reserved behind them |
| PayoutExamples.OverlappingDeliveriesPostTwice | src/core/services/webhook-processor.service.ts:213-320 | a run from empty tables in which two deliveries of one success take 80 from the bank account for a payout of 40 |
| PayoutExamples.LateCommitMarksTheWrongInitiation | src/job-workers/transfer.worker.ts:49-130 | a run from empty tables in which the code of a first initiation ends on the second |
| PayoutTransfers.StepAgreesExactlyWhenItBelongs | src/job-workers/transfer.worker.ts:49-130 | of all events only the commit of an attempt can post an initiation twice or out of order, or leave a row with another initiation's code, and exactly when its initiation is over or the row has a code already |
| PayoutTransfers.BelongsExactlyWhenUndisturbed | src/job-workers/transfer.worker.ts:49-130 | from empty tables, in every run: an attempt that passed the worker's guards still finds its initiation current and without a code if and only if, since then, no other attempt of the payout committed and no new initiation of it began |
| PayoutTransfers.TransfersPostAtMostOnce | src/job-workers/transfer.worker.ts:49-130 | from empty tables, whatever crashes, retries and webhooks: initiations are posted in order, each at most once, and the row has a code exactly when its current initiation is posted, namely that one, all along a run, if and only if its attempts do not overlap |
| PayoutTransfers.LogIsAlwaysJournal | src/job-workers/transfer.worker.ts:103-130 | in every run the journal has two lines under TRANSFER_INIT_p for every entry of payout p in the log those statements are about |
| PayoutTransfers.OnePairPerInitiation | src/job-workers/transfer.worker.ts:103-130 | in the journal itself there is then at most one transfer pair of a payout per initiation |
| PayoutBacking.TimelyRunsAgree | src/core/services/webhook-processor.service.ts:200-548 | in every run of timely writes webhooks write on current loads and attempts do not overlap, so reserved amounts are the sum of reservations and initiations are posted at most once |
| PayoutBacking.PayoutsAreBacked | src/core/services/webhook-processor.service.ts:200-441 | in every run of timely writes, what is in transit is reserved to the last cent and what is paid was taken from commissions, no more and no less |
| PayoutBacking.StepFollows | src/core/services/webhook-processor.service.ts:200-548 | on a ledger that holds whatever else, every timely step moves COMMISSION_PAYABLE, PAYOUTS_IN_TRANSIT and BANK_SETTLED of every tenant by what the payout table is newly due there |
| PayoutBacking.NoticeIsDueExactlyInTime | src/core/services/webhook-processor.service.ts:281-541 | a notice posts what its change of the payout is due if and only if it is written in time: success or failure of a transfer under way, reversal of one paid; a second delivery never |
| PayoutBacking.ReleaseThenReReserve | src/core/services/commission.service.ts:782-818 | releasing a payout's reservations and taking them again restores every allocation and every reserved amount |
| PayoutApprovals.WorkflowStep | src/core/services/commission.service.ts:625-863 | at every step a payout keeps requester, company and amount, and its row changes only as the one call in flight about it says, or when its job is given up |
| PayoutApprovals.CallsBeginRightly | src/core/services/commission.service.ts:448-815 | such a call begins only with its own check passed: by an admin or an owner of the payout's company, on the status that waits for it |
| PayoutApprovals.AdminApprovalPassesOn | src/core/services/commission.service.ts:625-678 | what the call means: exactly the admins of the payout's company may approve, while it waits for one; afterwards no admin may again, exactly the owners may go on, and nothing else has moved |
| PayoutApprovals.CompanyApprovalOpensTransfer | src/core/services/commission.service.ts:680-729 | what the call means: exactly the owners of the payout's company may approve, while it waits for one; afterwards none may again, exactly the owners may initiate the transfer, and nothing else has moved |
| PayoutApprovals.NoTransferWithoutApprovals | src/core/services/commission.service.ts:547-769 | in every run whose webhooks are about initiated payouts, an initiated payout was approved before by an owner of its company, and by an admin of it if the requester needs one |
| PayoutBulk.EachInitiatedOnce | src/core/services/commission.service.ts:946-965 | undisturbed, a bulk initiation initiates each distinct payout named exactly once, and no other |
| PayoutBulk.UninterruptedBulk | src/core/services/commission.service.ts:940-976 | with nothing in between, no payout that was validated is refused when its turn comes, and the loop is that of the undisturbed initiations |
| PayoutBulk.BulkOpens | src/core/services/commission.service.ts:865-942 | a bulk goes on exactly when it names something and everything it names may be initiated by this owner |
| PayoutBulk.DistinctInOrder | src/core/services/commission.service.ts:873 | each payout named is taken once, in the order in which they are named first |
| PayoutBulk.EachHasItsAnswer | src/core/services/commission.service.ts:951-966 | whatever others do, each payout gets the answer of its own checks at its turn, whether or not earlier ones were refused |
| PayoutService.PayoutStore.RequestPayout | src/core/services/commission.service.ts:448-598 | refuses with the first guard that fails and changes nothing; otherwise, on what others have made of the tables meanwhile, the planned reservation if the locked rows still cover the amount |
| PayoutService.PayoutStore.SumAvailable | src/core/services/commission.service.ts:509-512 | the reduce computes what is available on the locked rows |
| PayoutService.PayoutStore.PlanAllocation | src/core/services/commission.service.ts:528-545 | the greedy loop computes the plan |
| PayoutService.PayoutStore.MoveAllocations | src/core/services/webhook-processor.service.ts:246-279 | the in-place loops of webhooks and retry move every allocation selected in the load and overwrite its commission from the load |
| PayoutService.PayoutStore.InitiateTransfer | src/core/services/commission.service.ts:731-863 | refuses by its guards, or makes its two writes, others acting before each: the re-reserve transaction or update, then the new initiation without a code |
| PayoutService.PayoutStore.InitiateBulk | src/core/services/commission.service.ts:865-976 | nothing at all when any payout is invalid; otherwise each distinct one is checked anew and initiated or reported as refused, others acting before its checks and before each of its writes |
| PayoutService.PayoutStore.AttemptTransfer | src/job-workers/transfer.worker.ts:49-135 | an attempt commits if and only if it passed the guards and reached the provider, on whatever others have made of the tables since the guards |
| PayoutService.PayoutStore.HandleNotice | src/core/services/webhook-processor.service.ts:200-548 | a notice is handled exactly when the payout exists and has not its status yet; its loop, status and posting land on whatever others have made of the tables since its load |
| Calendar.MakeDayReadsBack | src/core/services/installment.service.ts:135-149 | a date within its month reads back as that month and that date |
| Calendar.JanuaryIsDayFromYear | src/core/services/installment.service.ts:135-149 | counting months is the leap-year arithmetic of ECMA-262, section 21.4.1.3, for every year |
| Calendar.MonthsBegin | src/core/services/installment.service.ts:135-149 | the first of every month is where DayFromYear and the days before each month (ECMA-262, sections 21.4.1.3 and 21.4.1.4) put it |
| Calendar.AddMonthsClamped | src/core/services/installment.service.ts:135-149 | the result lies exactly the given number of months later, on the original date or the month's last |
| Calendar.ConsecutiveDates | src/core/services/installment.service.ts:118-149 | dates a month apart strictly increase, by 28 to 31 days |
| Installments.GenerateInstallmentSchedule | src/core/services/installment.service.ts:99-133 | refuses months and totals that are not positive; otherwise the loop builds the schedule |
| Installments.ScheduleInCents | src/core/services/installment.service.ts:112-126 | every amount is a whole number of cents: before the last the total in cents divided by the months and rounded down, the last one the rest |
| Installments.ScheduleSums | src/core/services/installment.service.ts:112-130 | the amounts sum to the total in cents, nothing lost or invented |
| Installments.ScheduleAmounts | src/core/services/installment.service.ts:105-132 | sequences 1..n, all amounts but the last equal, the last larger by less than n cents, the sum within half a cent of the total |
| Installments.ScheduleDates | src/core/services/installment.service.ts:118-149 | due dates never drift: i calendar months after the first, clamped from the first date, 28 to 31 days apart |
| Eligibility.FirstUnpaidMeaning | src/core/services/installment.service.ts:157-164 | the single query finds the unpaid instalment of lowest sequence, or shows there is none |
| Eligibility.PayableExactlyWhenNextAndDue | src/core/services/installment-eligibility.helper.ts:67-137 | an instalment is payable if and only if it is the lowest unpaid one and due within three days or overdue; each other state names the condition that fails |
| Eligibility.EligibilityTells | src/core/services/installment-eligibility.helper.ts:67-137 | days, labels and reasons: a label says paid, overdue, due today or upcoming as the dates do, and a reason names the instalment to settle first or that it is too early |
| Eligibility.NextPayableIsTheLowestUnpaid | src/core/services/installment-eligibility.helper.ts:167-192 | getNextPayableInstallment reports the lowest unpaid instalment with its own eligibility, or that all are paid |
| Eligibility.PageAgreesWithSingle | src/core/services/installment.service.ts:246-305 | every instalment on any page gets the eligibility its own query gives |
| Eligibility.ContractAgreesWithSingle | src/core/services/installment-eligibility.helper.ts:139-165 | so does the whole-contract computation, for exactly the contract's instalments |
| Eligibility.OrderDoesNotMatter | src/core/services/installment-eligibility.helper.ts:139-165 | its result does not depend on the order of its input |
| Eligibility.AtMostOnePayable | src/core/services/installment-eligibility.helper.ts:67-192 | at most one instalment of a contract is payable: the lowest unpaid one, within its window, as getNextPayableInstallment reports |
| Eligibility.ComputeContractEligibility | src/core/services/installment-eligibility.helper.ts:139-165 | the loop that fills the map computes the whole-contract result |
| PipelineRows.CheckedIsLowestUnpaid | src/core/services/installment.service.ts:543-558 | whatever passes the guards of a payment is the lowest unpaid instalment of its contract |
| PipelineChecks.PaymentsOpen | src/core/services/installment.service.ts:511-558 | an instalment becomes a target exactly when it is the lowest unpaid one of a contract that is active or in default, and due in three days at most or overdue |
| PipelineChecks.JobsOpen | src/job-workers/payment.worker.ts:60-101 | what the call means: the job begins on unpaid targets alone, with the contract as it is then |
| PipelineChecks.JobsCommitOnNewKeys | src/job-workers/payment.worker.ts:112-151 | the job commits exactly when no payment has its key; a refused one writes nothing |
| PipelineChecks.PaymentCompletes | src/job-workers/payment.worker.ts:276-338 | the contract is completed exactly when no PENDING instalment is left to it |
| PipelineChecks.RemindersAdvance | src/shared/job-workers/payment-reminder.worker.ts:115-140 | what the call means: an instalment the scan takes up becomes due if it is pending and overdue if it is due, and nothing else changes |
| PipelineChecks.ActivationsOpen | src/core/services/kyc.service.ts:832-856 | a positive amount, at least one month and a rate of 0 to 100 make an active contract with its numbered pending instalments; anything else makes nothing |
| PipelineRows.PaidInstallmentsFormAPrefix | src/job-workers/payment.worker.ts:67-151 | in every run the paid instalments of a contract are its first ones, however late an initiated payment arrives and however its jobs overlap |
| PipelineRows.Run | src/job-workers/payment.worker.ts:112-151 | every run keeps keys unique, commissions attached to successful payments, and successful payments to paid instalments |
| PipelineRows.CompletionMeansPaidUnlessOverdue | src/job-workers/payment.worker.ts:294-322 | a completed contract is fully paid exactly when none of its other instalments was DUE, OVERDUE, DEFAULTED or VOIDED |
| PipelineExamples.CompletedWithAnInstallmentUnpaid | src/job-workers/payment.worker.ts:294-322 | a run from empty tables that completes a contract whose second instalment is due and unpaid |
| PipelineExamples.OverlappingJobsPayTwice | src/job-workers/payment.worker.ts:67-151 | a run from empty tables in which two overlapping jobs collect 200 for one instalment of 100 |
| PipelineExamples.TwoAttemptsPostTwice | src/job-workers/merchant-settlement-transfer.worker.ts:46-140 | a run from empty tables in which two overlapping attempts post one initiation twice |
| PipelinePostings.CommissionWithinAmount | src/job-workers/payment.worker.ts:164-176 | what the call means: at rates of 0 to 100 the commission is between nothing and the amount |
| PipelineCommissions.PaymentDivides | src/job-workers/payment.worker.ts:156-263 | a committing payment adds, for an eligible referrer at a positive rate and for nobody else, one commission of which a hundred are the rate times the instalment; on the books of the contract's company alone, COMMISSION_PAYABLE grows by it, MERCHANT_PAYABLE by the rest, and clearing, receivable and expenses accordingly |
| PipelineCommissions.EveryRunDivides | src/job-workers/payment.worker.ts:156-263 | in every run, however often instalments are paid, a hundred times COMMISSION_PAYABLE is the sum over payments of the rate read times the instalment, and the merchant's accounts (with what was sent put back) and clearing are the rest and the whole |
| PipelinePostings.PaymentMoves | src/job-workers/payment.worker.ts:201-263 | the three pairs of a payment balance, and move on any account exactly its cash, commission and merchant parts, whichever of them are written |
| PipelinePostings.StepPosts | src/job-workers/payment.worker.ts:156-263 | whatever ledger the tables stand on, a step does the same to them and posts the same, once or not at all |
| PipelineMoney.DeductedAfterPay | src/core/services/merchant-settlement.service.ts:55-60 | what a settlement will deduct from the instalment is the commission of this payment, and no other instalment's deduction moves |
| PipelineMoney.PayKeepsPayableExactlyWhenHarmless | src/job-workers/payment.worker.ts:112-263 | a payment adds the same net to MERCHANT_PAYABLE and to the tables if and only if its instalment did not count for anything yet (or, with a line, the payment leaves the merchant nothing) |
| PipelineMoney.GenerationKeepsPayableExactlyWhenHarmless | src/core/services/merchant-settlement.service.ts:34-138 | a generation, on lines it computed before its transaction, keeps MERCHANT_PAYABLE in agreement if and only if its instalments still come to what it read of them |
| PipelineMoney.GenerationKeepsLines | src/core/services/merchant-settlement.service.ts:55-107 | lines are of paid instalments of the settlement's own company, gross is commission plus net, no instalment has two, and each settlement is the sum of its lines |
| PipelineRuns.StepKeepsPayableExactlyWhenHarmless | src/job-workers/payment.worker.ts:67-263 | of all events only a payment of an instalment paid already and a generation on nets that have moved can part MERCHANT_PAYABLE from the tables: the one exactly when that instalment counts for something already, the other exactly when its instalments come to something else now |
| PipelineRuns.EachSettledOnceInEveryRun | src/core/services/merchant-settlement.service.ts:90-102 | in every run, however generations overlap and payments repeat, no instalment gets a second settlement line |
| PipelineChecks.SettledAreThePaid | src/core/services/merchant-settlement.service.ts:35-42 | to be settled are exactly the paid instalments of the company without a line |
| PipelineChecks.GenerationAdds | src/core/services/merchant-settlement.service.ts:81-138 | one approved settlement that was never initiated, of the positive sum of the nets of its lines, and those lines |
| PipelineRuns.OverlappingGenerationIsRefused | src/core/services/merchant-settlement.service.ts:35-138 | of two generations that have read one instalment, once the one has written, the other changes nothing whenever its transaction comes |
| PipelineExamples.LateGenerationSettlesTooLittle | src/core/services/merchant-settlement.service.ts:35-138 | a run from empty tables in which an instalment is paid again after a generation has read it, and the generation then parts MERCHANT_PAYABLE from the tables |
| PipelineRuns.KeptInEveryRun | src/job-workers/payment.worker.ts:112-263 | in every run whose payments find their instalment unpaid, rows, lines, log and payable agree |
| PipelineRuns.PayableAgreesInEveryRun | src/job-workers/payment.worker.ts:156-263 | in every such run, whatever webhooks arrive and when, each tenant's MERCHANT_PAYABLE is its unsettled nets plus what is not cleared of its settlements |
| PipelineRuns.TransferCallKeepsPayable | src/core/services/webhook-processor.service.ts:555-845 | sending, confirming, failing and reversing a settlement transfer move the payable and what is cleared of the settlement alike |
| PipelineTransfers.StepAgreesExactlyWhenItBelongs | src/job-workers/merchant-settlement-transfer.worker.ts:46-140 | of all events only a commit and a queueing can post an initiation twice or out of order, or leave a row with another initiation's code, and exactly when the row has a code already or the commit's initiation is over |
| PipelineTransfers.BelongsExactlyWhenUndisturbed | src/job-workers/merchant-settlement-transfer.worker.ts:46-140 | in every run: an attempt that passed the worker's guards still finds its initiation current and without a code if and only if, since then, no other attempt of the settlement committed and no new initiation of it began; a listed settlement is still without a code unless an attempt has committed since |
| PipelineTransfers.SettlementsPostAtMostOnce | src/job-workers/merchant-settlement-transfer.worker.ts:46-140 | whatever crashes, retries and webhooks: initiations are posted in order, each at most once, and the row has a code exactly when its current initiation is posted, all along a run, if and only if its queueings and attempts do not overlap |
| PipelineTransfers.TimelyRunsAgree | src/job-workers/merchant-settlement-transfer.worker.ts:46-140 | in every run of timely writes attempts do not overlap, so initiations are posted in order, each at most once |
| PipelineTransfers.LogIsAlwaysJournal | src/job-workers/merchant-settlement-transfer.worker.ts:98-135 | in every run the journal has two lines under SETTLEMENT_TRANSFER_INIT_s for every sending of settlement s in the log |
| PipelineChecks.QueueingsOpen | src/core/services/merchant-settlement.service.ts:191-200 | what the call means: queued are approved settlements never initiated, of companies with a verified account |
| PipelineChecks.RetriesOpen | src/core/services/merchant-settlement.service.ts:355-380 | what the call means: retried are failed and reversed ones |
| PipelineChecks.AttemptsOpen | src/job-workers/merchant-settlement-transfer.worker.ts:46-97 | what the call means: attempted are initiated ones with a bank account and without a code |
| PipelineChecks.NoticesOpen | src/core/services/webhook-processor.service.ts:555-600 | what the call means: a notice is taken up unless the settlement has the status it reports |
| PipelineChecks.TransfersWrite | src/core/services/webhook-processor.service.ts:555-845 | what each write makes of its settlement, and of no other |
| PipelineChecks.TransfersShift | src/core/services/webhook-processor.service.ts:591-841 | of all accounts of all tenants, each write moves just its two of the settlement's company, by its amount, in its direction; queueing and retrying none |
| PipelineChecks.TransfersAreReferenced | src/core/services/webhook-processor.service.ts:591-841 | each adds two journal lines under its own reference to the settlement |
| PipelineTransfers.OnePairPerInitiation | src/job-workers/merchant-settlement-transfer.worker.ts:98-135 | in the journal itself there is then at most one transfer pair of a settlement per initiation |
| PipelineTransfers.ReturnOwesTheAmountAgain | src/core/services/webhook-processor.service.ts:673-845 | a failed or reversed transfer owes the merchant exactly the amount again, in the ledger on its company alone and in the tables, and takes it from transit or bank; a second delivery that looks afterwards changes nothing |
| PipelineTransfers.PayableIsWhatIsNotYetTransferred | src/job-workers/merchant-settlement-transfer.worker.ts:98-135 | in every run of timely writes that pays once, MERCHANT_PAYABLE is the unsettled nets plus the settlements whose transfer is not currently posted |
| PipelineTransfers.UnlinkedSettlementsAreNeverSent | src/job-workers/merchant-settlement-transfer.worker.ts:54-61 | unless a bank account is linked from outside, no settlement transfer is ever posted |
| PipelineCash.AllCashIsEarmarked | src/job-workers/payment.worker.ts:201-263 | in every run that pays once, per tenant, PAYSTACK_CLEARING holds exactly the paid instalments beside the subscriptions credited to PLATFORM_REVENUE, and the two expense accounts together have earmarked exactly the paid instalments |
| PipelineCash.StepKeepsCashExactlyWhenPaidOnce | src/job-workers/payment.worker.ts:67-263 | of all events only a second payment of an instalment worth something parts clearing and expenses from the paid instalments |
| PipelineCash.SubscriptionCash | src/job-workers/onboarding.worker.ts:104-122 | a subscription brings clearing cash that is the platform's: it moves clearing and PLATFORM_REVENUE of its company alike |
| PipelineChecks.SubscriptionShifts | src/job-workers/onboarding.worker.ts:104-122 | a subscription moves clearing and PLATFORM_REVENUE of the company, and nothing else |
| PipelineCash.StepFollowsAccruals | src/job-workers/payment.worker.ts:164-240 | COMMISSION_PAYABLE is credited with the commissions of the paid instalments, as they are paid, and with nothing else |
| PipelineCash.StepFollowsTransit | src/core/services/webhook-processor.service.ts:555-845 | every timely step moves PAYOUTS_IN_TRANSIT and BANK_SETTLED by what the settlements are newly due there |
| PipelineCash.NoticeIsDueExactlyInTime | src/core/services/webhook-processor.service.ts:591-841 | the same for settlements, on transit and bank |
| SharedLedger.BooksInEveryRun | src/core/services/ledger.service.ts:29-122 | on the one ledger, however payouts and the pipeline post, stored balances are the fold of the journal and every tenant balances |
| SharedAccounts.EveryAccountIsInTheChart | src/job-workers/payment.worker.ts:201-263 | in every run of the platform there are only the ten accounts of the chart, of its types |
| SharedAccounts.PlatformStandsOnItsSides | src/core/services/ledger.service.ts:92-122 | in every run of the platform the payables and PLATFORM_REVENUE store credits less debits, the other accounts debits less credits, and per tenant both sides store the same |
| SharedLedger.PipelineAgreesOnSharedLedger | src/job-workers/payment.worker.ts:156-263 | whatever payouts post there, MERCHANT_PAYABLE, clearing and expenses agree with the pipeline's tables in every run that pays once |
| SharedLedger.TablesAgreeWithLedger | src/core/services/webhook-processor.service.ts:200-845 | in every run of timely writes, per tenant, PAYOUTS_IN_TRANSIT is the payouts plus the settlements under way, BANK_SETTLED those that arrived, and COMMISSION_PAYABLE the commissions of paid instalments less the payouts under way or paid |
| SharedLedger.CommissionsAreAccruals | src/job-workers/payment.worker.ts:164-195 | in every run the commissions payouts draw on are row for row those that payments accrued |
| SharedLedger.LogsAreAlwaysJournal | src/job-workers/transfer.worker.ts:103-130 | in every run the one journal has exactly the transfer pairs of both logs |
| SharedRuns.PayoutsRunOnThePlatform | src/core/services/commission.service.ts:448-863 | the payout tables of every run of the platform are those of a run of payouts alone, so whatever payouts keep on their own they keep here |
| SharedRuns.PipelineRunsOnThePlatform | src/job-workers/payment.worker.ts:67-338 | and so for the pipeline |
| SharedRuns.TransfersPostAtMostOnce | src/job-workers/transfer.worker.ts:103-130 | on the one ledger, whoever posts in between: when neither side's attempts overlap, both logs have each initiation at most once and the journal at most one transfer pair per initiation, of payouts and of settlements |
| SharedRuns.TimelyTransfersPostAtMostOnce | src/job-workers/merchant-settlement-transfer.worker.ts:98-135 | in every run of timely writes of the platform that is so |
| PipelineGeneration.PassSettlesEveryCompany | src/core/services/merchant-settlement.service.ts:141-168 | after an undisturbed pass no company has an eligible total above zero |
| PipelineGeneration.SecondPassCreatesNothing | src/core/services/merchant-settlement.service.ts:141-168 | an immediate second pass changes nothing |
| PipelineGeneration.PassLeavesOnlyNothing | src/core/services/merchant-settlement.service.ts:74-76 | in every run, whatever an undisturbed pass leaves without a line has a net of zero |
| PipelineGeneration.GenerateLeavesOthers | src/core/services/merchant-settlement.service.ts:34-48 | settling one company changes neither the eligible instalments nor the total of another |
| PipelineGeneration.ListedCompanies | src/core/services/merchant-settlement.service.ts:142-158 | listed are, once each, exactly the companies with a name that have a paid instalment without a line |
| PipelineGeneration.UninterruptedPass | src/core/services/merchant-settlement.service.ts:141-168 | with nothing in between, the pass generates for every company in order, refuses none and numbers its settlements consecutively |
| PipelineGeneration.PassAmidKeepsKept | src/core/services/merchant-settlement.service.ts:34-168 | however a pass is interleaved with payments (of instalments unpaid then), other passes and transfers, the payable agrees with the tables after it and lines are what they are for |
| PipelineGeneration.RefusedStays | src/core/services/merchant-settlement.service.ts:163-166 | once a transaction was refused, no further company is looked at |
| PipelineGeneration.RefusalEndsThePass | src/core/services/merchant-settlement.service.ts:141-168 | a company whose transaction finds one of its instalments with a line by then gets nothing and ends the pass, with the settlements created before it |
| PipelineService.PipelineStore.ActivateContract | src/core/services/kyc.service.ts:832-856 | a contract is activated together with its schedule, or, when none can be generated, not at all |
| PipelineService.PipelineStore.ProcessPayment | src/job-workers/payment.worker.ts:67-338 | the job goes on exactly when the instalment is unpaid and has an intent; its transaction lands on whatever others have made of the tables since, unless its key is taken |
| PipelineService.PipelineStore.InitializePayment | src/core/services/installment.service.ts:511-558 | an instalment becomes a target exactly when the guards accept it |
| PipelineService.PipelineStore.GenerateForCompany | src/core/services/merchant-settlement.service.ts:34-138 | nothing when there is nothing to settle; otherwise the lines computed from its reads are written, with one approved settlement, to what others have made of the tables since, unless an instalment has got a line |
| PipelineService.PipelineStore.GeneratePendingSettlements | src/core/services/merchant-settlement.service.ts:141-168 | one pass over the distinct companies, others acting before each one's reads and transaction; reports the settlements it created, in order, and ends at a refused transaction |
| PipelineService.PipelineStore.QueueEligibleTransfers | src/core/services/merchant-settlement.service.ts:191-233 | lists exactly the approved, never initiated settlements of verified companies and queues them in order, others acting before each transaction |
| PipelineService.UninterruptedQueue | src/core/services/merchant-settlement.service.ts:205-230 | with nothing in between it is the plain loop |
| PipelineService.QueuesEachOnce | src/core/services/merchant-settlement.service.ts:205-230 | the plain loop starts one initiation of each settlement listed, touches no other and posts nothing |
| PipelineService.QueueingIsARun | src/core/services/merchant-settlement.service.ts:191-230 | listing and queueing is a run: all the checks of the query, then the writes one by one |
| PipelineService.PipelineStore.AttemptTransfer | src/job-workers/merchant-settlement-transfer.worker.ts:46-140 | an attempt sends if and only if status, bank account and missing code allowed it and it commits, on whatever others have made of the tables since |
| PipelineService.PipelineStore.RetryTransfer | src/core/services/merchant-settlement.service.ts:355-412 | only a failed or reversed settlement is retried; its write lands on whatever others have made of it since and starts a new initiation without a code |
| PipelineService.PipelineStore.WriteOffContract | src/core/services/financing.service.ts:194-290 | acts exactly on DEFAULTED and RESTRUCTURED contracts |
| PipelineService.PipelineStore.RestructureContract | src/core/services/financing.service.ts:24-138 | fails with the first guard, schedule or key that refuses and then leaves every table as it was |
| Financing.RestructuredSchedule | src/core/services/financing.service.ts:66-112 | the new instalments sum to remaining principal plus interest within half a cent, the old unpaid ones are voided, the paid ones untouched |
| Financing.RestructureBalances | src/core/services/financing.service.ts:114-138 | the posting of a restructure always balances |
| Financing.RestructureObjections | src/core/services/financing.service.ts:24-112 | the first of six objections that applies is the answer, terms of 0 to 100 per cent and 1 to 120 instalments being valid, and admins and owners of the company, or without one, being let through |
| Financing.RestructureFinances | src/core/services/financing.service.ts:57-138 | what remains is financed anew with that percentage as interest, owed by the customer, the one recovered and the other earned, on the books of the company |
| Financing.RestructureKeepsKeysExactlyWithoutClash | src/core/services/financing.service.ts:102-112 | the insert meets the unique key if and only if no number from 1 to n is taken on the contract |
| Financing.RestructureNeverCommits | src/core/services/financing.service.ts:24-112 | in every run, for every caller and all terms, restructureContract fails |
| Financing.WriteOffIsTheUnpaidAmount | src/core/services/financing.service.ts:228-280 | in every run the amount written off is the unpaid instalments within half a cent, and exactly those are voided |
| PipelineChecks.WriteOffShifts | src/core/services/financing.service.ts:228-280 | writing off moves just BAD_DEBT_EXPENSE and CUSTOMER_RECEIVABLE of the contract's company, by what was financed and not paid |
| PaymentIntentProofs.KeysTellPurposesApart | src/core/services/payment-intent.service.ts:153-162 | two purposes share a reservation key only when they are the same |
| PaymentIntentProofs.AtMostOneActive | src/core/services/payment-intent.service.ts:92-150 | with any number of reservers, transitions and sweeps interleaved, at most one intent per key is active at any moment |
| PaymentIntentProofs.TerminalIsForever | src/core/services/payment-intent.service.ts:177-306 | an intent in a terminal status stays exactly as it is, whatever follows |
| PaymentIntentProofs.NewResultsAreSeparated | src/core/services/payment-intent.service.ts:92-122 | two calls told "new" for one key got different intents, and the older one has ended |
| PaymentIntentProofs.NewIsTheOnlyActive | src/core/services/payment-intent.service.ts:92-122 | what the call means: a new intent is active when it is handed out and every earlier one of its key has ended |
| PaymentIntentProofs.FoundWasActive | src/core/services/payment-intent.service.ts:125-141 | an intent found by its reservation key was active at some moment during the call |
| PaymentIntentProofs.AtMostTwoCreates | src/core/services/payment-intent.service.ts:143-150 | a call attempts at most two creates, and gives up only after two |
| PaymentIntentLookups.KnownKeyIsAnswered | src/core/services/payment-intent.service.ts:79-91 | in every run, a call whose non-empty client key is on an intent when it looks it up ends with exactly that intent and makes no further create |
| PaymentIntentLookups.RejectedOnlyForItsKey | src/core/services/payment-intent.service.ts:92-141 | in every run, a call is rejected only for a key that got onto an intent after its last lookup, or an empty or drawn one that is used already |
| PaymentIntentLookups.LookupAnswers | src/core/services/payment-intent.service.ts:79-91 | the lookup ends the call exactly when a non-empty client key is on an intent |
| PaymentIntentLookups.CreateAnswers | src/core/services/payment-intent.service.ts:92-124 | the create adds an initialising, unclaimed intent exactly when none of the reservation key goes on and none has the idempotency key; otherwise the search for the rival or the end, as the database names the index |
| PaymentIntentLookups.FindAnswers | src/core/services/payment-intent.service.ts:125-150 | the search finds an intent of the key that goes on, or makes one second attempt, or gives up |
| PaymentIntentProofs.RunsFollow | src/core/services/payment-intent.service.ts:177-306 | every run keeps idempotency keys and references unique and all but the newest intent of a key terminal |
| PaymentIntentService.IntentStore.TransitionStatus | src/core/services/payment-intent.service.ts:177-207 | the update and its three refusals, told apart as the code tells them |
| PaymentIntentService.IntentStore.Cancel | src/core/services/payment-intent.service.ts:210-228 | a missing or ended intent is an answer, not an error; any other is cancelled |
| PaymentIntentService.IntentStore.MarkInitialized | src/core/services/payment-intent.service.ts:228-237 | refused as missing, ended or with a reference in use, in that order and told apart; otherwise the intent gets its reference and loses its recovery claim |
| PaymentIntentService.IntentStore.MarkSuccess | src/core/services/payment-intent.service.ts:247-249 | refused exactly when the intent is missing or has ended, and told which; otherwise it has succeeded |
| PaymentIntentService.IntentStore.MarkFailed | src/core/services/payment-intent.service.ts:251-256 | refused exactly when the intent is missing or has ended, and told which; otherwise it has failed and its claim is released |
| PaymentIntentService.IntentStore.ExpireStaleIntents | src/core/services/payment-intent.service.ts:282-306 | lists the rows past their time, and expires and counts those that are so after whatever others did since |
| PaymentIntentProofs.FailedRecoveriesKeepTheIntent | src/core/services/payment-intent.service.ts:262-280 | however often recovery claims an intent and fails, the intent stays INITIALIZING and unclaimed, its attempts counted and the last message kept to 2000 characters, and no other intent is touched |
| PaymentIntentService.IntentStore.ReserveInternal | src/core/services/payment-intent.service.ts:69-151 | whatever others do between its accesses, the call is a run of the reservation protocol from its beginning to its end |
| PaymentIntentService.IntentStore.Reserve | src/core/services/payment-intent.service.ts:56-67 | a new intent, or one found by its reservation key, is at the end the only active one of its purpose |
| KycProofs.OneCustomerOneSchedule | src/core/services/kyc.service.ts:745-864 | in every run, stale checks or not, a session has at most one customer and exactly one schedule's instalments if it has one |
| KycChecks.ApprovalsOpen | src/core/services/kyc.service.ts:617-700 | what the call means: the session's own marketer signs, owners of its company and admins who created its marketer (any when it has none) decide, in their order; nobody else |
| KycChecks.RejectionsOpen | src/core/services/kyc.service.ts:896-955 | what the call means: only admins and super admins reject, an admin only with such a tie, and only what is pending or in processing |
| KycChecks.RetentionOpens | src/shared/job-workers/kyc-retention.worker.ts:76-90 | what the call means: retention takes up applications that are still pending |
| KycChecks.FinalWrites | src/core/services/kyc.service.ts:745-864 | the final write makes customer, schedule in whole cents, active contract and completed session, or nothing at all when the address is used or no schedule is possible; a case that moved on gets a signature and nothing else |
| KycChecks.DecisionsWrite | src/core/services/kyc.service.ts:684-722 | what the call means: a marketer's signature puts an application in processing, a rejection takes application and contract |
| KycChecks.SubmissionsOpen | src/core/services/kyc.service.ts:347-370 | what the call means: an application is accepted until the session has run out, unless it is approved |
| KycChecks.SubmissionWrites | src/core/services/kyc.service.ts:509-571 | what the call means: a first application is pending and unsigned; a second is refused |
| KycChecks.ClaimsTake | src/core/services/onboarding.service.ts:38-49 | what the call means: the sweeper claims the open sessions that have run out, and takes their passwords |
| KycProofs.BothSignaturesBeforeCustomer | src/core/services/kyc.service.ts:724-771 | in every run, stale checks or not, whoever is a customer has both signatures, and processing starts with the marketer's |
| KycProofs.ExactlyOneApprovalWins | src/core/services/kyc.service.ts:773-786 | of any number of final approvals past their checks, exactly one creates the customer |
| KycProofs.StepAgreesExactlyWhenHarmless | src/core/services/kyc.service.ts:684-722 | approved, customer and completed session stay equivalent, and expired sessions rejected, if and only if no unconditional write overtakes a decision |
| KycProofs.HarmlessRunsAgree | src/core/services/onboarding.service.ts:68-93 | that equivalence holds throughout every run without such a write |
| KycProofs.ExpiredNeverYieldsACustomer | src/core/services/onboarding.service.ts:68-93 | a session the sweeper expired with its application never has a customer, whatever harmless events follow |
| KycProofs.ApprovedIsForever | src/core/services/kyc.service.ts:773-834 | an approved application keeps its one customer |
| KycExamples.LateMarketerApprovalRevivesExpired | src/core/services/kyc.service.ts:684-700 | a run in which a late marketer approval makes a customer of an expired session |
| KycExamples.SweeperOverlooksLateSubmission | src/core/services/onboarding.service.ts:38-93 | a run in which a session expires with a pending application, which then makes a customer without a password |
| KycExamples.LateRejectionContradictsCustomer | src/core/services/kyc.service.ts:958-975 | a run in which a customer's application ends rejected |
| KycSweep.SweepLeavesNothingStale | src/core/services/onboarding.service.ts:32-93 | after an undisturbed pass whose batch was large enough, in whatever order the rows were come upon, exactly the stale and EXPIRING sessions are expired, their applications rejected, and everything else untouched |
| KycService.KycStore.ApproveApplication | src/core/services/kyc.service.ts:617-890 | refuses by its checks, or writes on whatever others have made of the tables meanwhile |
| KycService.KycStore.FinalTransaction | src/core/services/kyc.service.ts:745-864 | tells a lost claim, a failed creation (rolled back) and the new customer apart |
| KycService.KycStore.RejectApplication | src/core/services/kyc.service.ts:896-990 | refuses by its checks, or rejects application and contract |
| KycService.KycStore.ExpireStaleSessions | src/core/services/onboarding.service.ts:32-139 | the claim, a batch of the EXPIRING rows in whatever order the database comes upon them, and one transaction per listed session, others acting before each |

## Left out

- PipelineChecks.RemindersAdvance: which instalments the scan takes up, by due date and contract, is not modelled; it may take up any at any time.
- Kyc.WriteFinal: the stock of the product, the referral row, documents and the audit trail are not modelled.
- Provider calls, queues, notifications, mail, storage and audit trails: their results are parameters or they are left out.
- The interval between a provider accepting a transfer and the commit of its code: a crash there is an attempt that posts nothing, and a second provider call is not counted.
- Manual ledger corrections: they can post to any account, so no agreement with operational tables could survive them.
- Restructuring in runs of the pipeline: it never commits.
- Subscriptions beyond the posting of their payment: plans, grace periods and renewal are not modelled.
- Who may call what beyond role, company and ownership as listed; authentication and validation schemas other than that of a restructure.
- Decimal column rounding, currency formatting and percentages shown to users.
- Analytics, catalogue, bank-account maintenance and the charge webhook: reading, wiring or easy.
