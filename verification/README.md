# Verified model of the finance API

A model of the server side of a personal-finance application: connectors deliver raw events, a model
extracts proposals from notes, reconciliation merges events into transactions or creates new ones, and the
owner reviews what is left open. Around that ledger stand a durable job queue with its worker, recurring
payments, receivables and payables, a category hierarchy, cursor pagination and period analytics.

Each database transaction is one step. Steps of different callers interleave freely, and everything a
caller, clock, model or lock can choose is an argument of the step. An error is a `Failure`: the transaction
rolls back. Tables are maps keyed by their unique constraints. Money is a whole number of ten-thousandths,
scores are exact rationals. Code that changes things in place is modelled by classes whose methods work
statement by statement and are proved to commit exactly what a function specifies; theorems about runs are
lemmas about those functions and so hold of the objects.

## Layout

| files | contents |
|---|---|
| `Wrappers`, `Sums`, `Sorting`, `Domain` | options and results, sums and sizes of sets, stable sorting, shared values |
| `Scoring`, `ScoringLaws`, `Candidates` | duplicate scoring, what makes up a score, and the bounded candidate lookup |
| `Rows`, `Ledger` | tables and statements; every transaction as a function; runs |
| `Books`, `Lockstep`, `Provenance`, `EarlyReview`, `SourceHistory` | the invariant, its preservation, theorems over all runs, and one run |
| `Effects`, `Progress` | exactly when each transaction commits, what it writes to every table, and which way states move |
| `LedgerService` | the services as an object over mutable tables |
| `CrashRecovery`, `Delivery` | connector synchronisation, stopped anywhere and run again, and what it delivers |
| `Jobs`, `JobRuns`, `JobHistory`, `JobOutcomes`, `JobRepository` | the queue: steps, invariant, histories, what each step commits, and the repository object |
| `ManualNotes`, `Worker`, `WorkerRuns`, `JobWorker`, `Attempts` | the worker over queue and ledger, end to end, and how one attempt ends |
| `Recurrence` | expected dates and recorded occurrences |
| `Texts`, `Base64`, `Cursor`, `Keyset`, `Pagination` | the cursor codec and walks over pages |
| `Amounts`, `Obligations`, `Categories`, `Analytics` | the money guard, settlement and totals, the hierarchy trigger, insights |

`dafny verify dfyconfig.toml` checks everything.

## What is assumed

- A connector that supplies extraction text normalizes it to an unknown event
  (`apps/api/app/connectors/manual_note.py:56-66`, `apps/api/app/connectors/gmail.py:221-234`,
  `apps/api/app/connectors/google_keep_takeout.py:72-86`): a payload is either a note or a record.
- The texts of an event are in display form, as the event contract leaves them
  (`apps/api/app/ingestion/contracts.py:50-63`): the ledger's own normalization of them changes nothing.
- Hashes are injective on the contents considered, and fresh ids and tokens are really fresh.
- Ids of transactions and proposals come from a fixed supply, in the order in which the rows are created. The code
  draws them at random, and ties between candidates go by id: equality of tables, as in
  `CrashRecovery.CrashEquivalence`, is for runs that draw the same ids in the same order.
- A job's id is used as the request id of a manual note by that job's workers alone.
- The order in which the candidate queries visit transactions is arbitrary, except in three places. For crash
  equivalence it is a function of the ledger tables. `Candidates.IdentifierAlwaysMerges` and
  `Provenance.SharedIdentifierAddsNoTransaction` assume that the identifier query visits the transaction they
  speak of (`x in scan.exact`), as a query without a missing row does. `Candidates.NearestSurvive` and
  `Candidates.IdentifiersComeFirst` assume `InOrder`: nothing is visited twice, and the time query visits the
  nearest first, as its ORDER BY says.
- Locks and `SELECT ... FOR UPDATE` make the code between them atomic; `SKIP LOCKED` may skip anything locked.
- A row-level trigger sees the rows its own statement has already written, as PostgreSQL documents.

## Where the code and its description differ

- A matching payment identifier does not always win: a tie at 1.0000 goes to the smaller id. The decision is
  always to merge, and its own transaction wins exactly if no candidate with a smaller id also scores 1.0000
  (`Scoring.IdentifierForcesMerge`, `Scoring.IdentifierOwnerWinsIff`, `Scoring.IdentifierOwnerCanLoseTheTie`).
- Twelve monthly recurrences are not always one yearly recurrence (`Recurrence.MonthsAreYears` says when, for
  any number of years).
- The insight texts say 25 percent and half, the code fires from 24.5 and 49.5 percent
  (`Analytics.SpendingFiresFrom`, `Analytics.ConcentrationFiresFrom`).
- The category trigger keeps single-row changes and all updates acyclic but not every multi-row insert
  (`Categories.StatementKeepsForestIff` says exactly which, `Categories.TwoRowsCanMakeACycle`).
- The category trigger checks the owner of a row's parent but not the rows below: an accepted change keeps
  every parent visible exactly if the rows that name the changed one still see it
  (`Categories.RowKeepsVisibilityIff`, `Categories.OwnerChangeHidesParent`).
- The money guard checks an amount after rounding it to 28 digits, so a longer one with more decimals can pass
  (`Amounts.AcceptedIsExactIff`, `Amounts.LongAmountIsAccepted`).
- Cursor decoding accepts more than one text per cursor (`Cursor.EveryCursorHasAnotherText`).

## Model

| member | source | states |
|---|---|---|
| Provenance.CaseLockstep | apps/api/app/reconciliation/service.py:82-156 | in every reachable state each case satisfies its row constraints, evidence exists exactly when the case is not pending and points at its resulting transaction, and that transaction agrees with the event in owner, amount, currency and type |
| Provenance.SourceLockstep | apps/api/app/reconciliation/service.py:321-353 | in every reachable state a raw event is never left NORMALIZED, is PROCESSED exactly when its evidence (or its obligation) exists, its proposal waits for reconciliation exactly while the case is pending, and an approved proposal points where the evidence points |
| Provenance.MergeSucceedsIff | apps/api/app/reconciliation/service.py:182-319 | for reachable states: merging and keeping separate succeed exactly for the owner's pending case whose source waits for review, unmerging exactly for the owner's merged case |
| Provenance.PendingSource | apps/api/app/reconciliation/service.py:321-353 | the source of a pending case waits for review, unless it is a note whose proposal was approved before the note was processed |
| Provenance.ProcessingMakesResolvable | apps/api/app/ingestion/service.py:285-341 | processing the source makes any pending case mergeable and separable and changes neither cases nor transactions |
| EarlyReview.EarlyApprovalWaits | apps/api/app/ai/proposal_service.py:237-314 | that exception is reachable: four transactions lead to a pending case that cannot be resolved either way until its note is processed, and can be then |
| Provenance.ConstraintsNeverRefuse | apps/api/app/models/reconciliation.py:82-100 | no unique, foreign-key or check constraint ever refuses a transaction of a reachable state; the service guards come first |
| Provenance.NextEvolves | apps/api/app/reconciliation/repository.py:197-256 | every transaction only adds: rows stay, audit logs are extended at their end, a case that created a transaction is never changed again |
| Provenance.OneCreator | apps/api/app/reconciliation/service.py:131-156 | every ingested transaction was created by exactly one case, kept separate or unmerged, whose evidence points at it |
| Provenance.CreatedMirrorsEvent | apps/api/app/reconciliation/service.py:356-410 | in every reachable state a transaction that a case created is posted for the event's owner with the event's amount, currency, type, date, description and merchant |
| Provenance.CreatorIsFinal | apps/api/app/reconciliation/service.py:275-319 | over every later run that case keeps its status and its evidence keeps pointing at the transaction, so no unmerge orphans it |
| Provenance.IngestedTotalIsConserved | apps/api/app/reconciliation/service.py:131-319 | per currency, the ingested total is the sum of the event amounts over exactly the creating cases, in every reachable state |
| Provenance.ReplayIsChain | apps/api/app/reconciliation/repository.py:236-256 | a log accepted by the lifecycle automaton opens from nothing and every action starts at the target the one before it left |
| Provenance.AuditRefinesState | apps/api/app/reconciliation/service.py:94-318 | folding any case's log gives its current status and target, today's log extends yesterday's, and it has at most three actions |
| Provenance.OneTransactionPerRawEvent | apps/api/app/ingestion/service.py:285-341 | a raw event creates at most one transaction, whatever was delivered or decided |
| Provenance.OneCasePerRawEvent | apps/api/app/ingestion/service.py:285-341 | a raw event has at most one case and at most one row of evidence |
| Provenance.ConcurrentDeliveriesAreOne | apps/api/app/ingestion/service.py:173-200 | any interleaving of the transactions of any number of deliveries of one new event leaves what one delivery leaves; rejected content is stored once and marked failed, whatever interleaves, and touches no other table |
| Provenance.RedeliveriesChangeNothing | apps/api/app/ingestion/service.py:227-246 | once an event is terminal, redeliveries change no table at all |
| Provenance.RejectedAgain | apps/api/app/ingestion/service.py:248-283 | redelivering stored content that its connector rejects only marks it failed and counts the tries |
| Provenance.ProcessedIsTerminal | apps/api/app/ingestion/service.py:285-435 | processing an acceptable event of a reachable state always commits and ends in PROCESSED or NEEDS_REVIEW |
| Provenance.ExactlyOnce | apps/api/app/ingestion/service.py:173-200 | one complete delivery followed by any interleaving of more deliveries equals the one delivery; for rejected content the attempts alone go up, by exactly the number of tries |
| Provenance.SharedIdentifierAddsNoTransaction | apps/api/app/reconciliation/scoring.py:69-89 | a delivery with an identifier that evidence already attached to a posted transaction of the same owner, money and type adds no transaction |
| Lockstep.ProcessKeepsInv | apps/api/app/ingestion/service.py:285-435 | the processing transaction keeps the whole invariant of books and sources |
| Lockstep.ApproveKeepsInv | apps/api/app/ai/proposal_service.py:237-376 | approving a proposal keeps the whole invariant |
| Lockstep.MergeKeepsInv | apps/api/app/reconciliation/service.py:182-226 | merging a case keeps the whole invariant |
| Lockstep.KeepSeparateKeepsInv | apps/api/app/reconciliation/service.py:228-273 | keeping a case separate keeps the whole invariant |
| Lockstep.UnmergeKeepsInv | apps/api/app/reconciliation/service.py:275-319 | unmerging keeps the whole invariant |
| Lockstep.RunKeepsInv | apps/api/app/ingestion/service.py:67-435 | every run of ingest, extraction, approval, rejection, merge, keep, unmerge and manual entry keeps the invariant |
| Books.ReconcileKeepsBooks | apps/api/app/reconciliation/service.py:59-156 | the first handoff of an event never fails and leaves a case, evidence and transaction that agree |
| Books.MergeKeepsBooks | apps/api/app/reconciliation/service.py:182-226 | attaching a pending case to its candidate keeps the books |
| Books.KeepSeparateKeepsBooks | apps/api/app/reconciliation/service.py:228-273 | resolving a pending case with its own transaction keeps the books |
| Books.UnmergeKeepsBooks | apps/api/app/reconciliation/service.py:275-319 | repointing merged evidence at a new transaction keeps the books |
| Effects.StoreCommits | apps/api/app/ingestion/repository.py:94-163 | storing succeeds exactly for storable content that does not contradict what is stored under the identity, and only the first time adds the rows |
| Effects.SameIdentityIff | apps/api/app/ingestion/identity.py:50-58 | two deliveries on a connection are one event exactly if they share the provider's id or, without one, the content |
| Effects.ProcessCommits | apps/api/app/ingestion/service.py:285-435 | processing acceptable content for the first time always commits: an event without an amount, currency, time or transaction type waits with REVIEW_REQUIRED, one that the ledger would refuse with LEDGER_VALIDATION_REVIEW, and every other one gets the case, evidence and transaction that scoring decides on; every table is given |
| Effects.NoteIsNeverPosted | apps/api/app/connectors/manual_note.py:56-66 | a note is stored under its text, cut to 200 characters, and its time, and always waits for its owner |
| Effects.RejectedCommits | apps/api/app/ingestion/service.py:248-283 | content that its connector rejects is marked failed and counted, and nothing else happens |
| Effects.ProcessedIsDone | apps/api/app/ingestion/service.py:227-246 | processing what is in review or processed changes nothing |
| Effects.OutcomeIgnoresSources | apps/api/app/reconciliation/service.py:59-80 | what scoring decides for an event depends on transactions and evidence alone, not on states, attempts or proposals |
| Effects.ExtractCommits | apps/api/app/ai/proposal_service.py:148-205 | extraction succeeds exactly for a stored note with some text; the first one is kept as a new proposal, later ones only clear the error |
| Effects.StrangersAreRefused | apps/api/app/ai/proposal_repository.py:203-218 | another user's proposal or case is not found, whatever is asked of it |
| Effects.RejectSucceedsIff | apps/api/app/ai/proposal_service.py:217-235 | rejecting succeeds exactly for the owner's proposal that waits for review, and writes only its status and the source's code |
| Effects.ApproveSucceedsIff | apps/api/app/ai/proposal_service.py:237-376 | approving succeeds exactly for the owner's proposal that waits for review, if its event is a transaction the ledger takes and the source is in review or a possible duplicate is found, or an obligation that is accepted while the source is in review; what was not classified is never approved |
| Effects.ApproveCommits | apps/api/app/ai/proposal_service.py:237-376 | an approval stores the event without identifiers, hands it off as scoring decides and moves proposal and source to match, or sets the obligation's id; every table is given |
| Effects.MergeCommits | apps/api/app/reconciliation/service.py:182-226 | a merge puts the evidence on the candidate, appends its action, points a waiting proposal there and closes the source; no transaction changes |
| Effects.KeepSeparateCommits | apps/api/app/reconciliation/service.py:228-273 | keeping separate adds one transaction with every column of the event, moves evidence, case and proposal to it and closes the source |
| Effects.UnmergeCommits | apps/api/app/reconciliation/service.py:275-319 | unmerging adds one transaction with every column of the event, moves evidence, case and proposal there and leaves the source processed |
| Progress.RunMovesForward | apps/api/app/ingestion/state.py:6-28 | over every run a processed event stays processed, a rejected one failed and one in review can only be processed; a rejected or approved proposal stays so |
| SourceHistory.NextGrowsSources | apps/api/app/ai/proposal_repository.py:86-147 | no transaction changes a stored raw event or a proposal's id and event; only storing and extracting add one, under the key they name |
| Candidates.FindCandidates | apps/api/app/reconciliation/repository.py:55-175 | at most max_candidates ids, no id twice, all eligible |
| Candidates.NearestSurvive | apps/api/app/reconciliation/repository.py:67-93 | a transaction in the window is left out only of a full list, and then every one listed shares an identifier or is nearer, ties by id |
| Candidates.IdentifiersComeFirst | apps/api/app/reconciliation/repository.py:95-133 | a transaction that shares an identifier is left out only of a list full of such transactions |
| Candidates.ListedIff | apps/api/app/reconciliation/repository.py:55-175 | a list that is not full holds exactly the visited posted transactions of the owner with the event's money and type that share an identifier or lie in the window, ends included |
| Candidates.IdentifierOwnerWinsIff | apps/api/app/reconciliation/scoring.py:29-50 | a listed transaction that shares an identifier receives the evidence exactly if no listed one with a smaller id also scores 1.0000 |
| Candidates.FlaggedIsEligible | apps/api/app/reconciliation/repository.py:55-175 | whatever a merge or review decision names passes the candidate guard |
| Candidates.IdentifierAlwaysMerges | apps/api/app/reconciliation/repository.py:95-130 | neither bounds nor scan order ever cut off an exact identifier: if one exists the decision is to merge |
| Scoring.Score | apps/api/app/reconciliation/scoring.py:53-136 | the branching scorer with its growing list of reasons computes the specified outcome |
| Scoring.TextSimilarityUnit | apps/api/app/reconciliation/scoring.py:139-160 | text similarity lies in [0, 1] |
| Scoring.ScoreWithinUnit | apps/api/app/reconciliation/scoring.py:53-136 | for every valid policy every score lies in [0, 1] |
| Scoring.FurtherNeverScoresHigher | apps/api/app/reconciliation/scoring.py:91-112 | the score never grows with the distance in time |
| Scoring.DecisionMonotone | apps/api/app/reconciliation/scoring.py:124-131 | a higher score never leads to a more separating decision |
| Scoring.OnlyMatchingMoneyIsFlagged | apps/api/app/reconciliation/scoring.py:59-73 | a candidate of other money or type is never merged or flagged |
| Scoring.IdentifierForcesMerge | apps/api/app/reconciliation/scoring.py:29-50 | if some candidate of the same money shares an identifier the winning decision is to merge |
| Scoring.IdentifierOwnerWinsIff | apps/api/app/reconciliation/scoring.py:29-50 | for candidates with distinct ids: the one that shares the identifier is chosen exactly if no candidate with a smaller id scores 1.0000, by an identifier or by its weights |
| Scoring.IdentifierOwnerCanLoseTheTie | apps/api/app/reconciliation/scoring.py:43-50 | the other case happens: two concrete candidates, both at 1.0000, where the smaller id without the identifier is chosen |
| Scoring.OrderIrrelevant | apps/api/app/reconciliation/scoring.py:29-50 | the chosen result is the same for every permutation of candidates with distinct ids |
| ScoringLaws.QuantizeIsNearest | apps/api/app/reconciliation/scoring.py:110-112 | rounding goes to the nearest ten-thousandth, up from the middle |
| ScoringLaws.TokensAreWords | apps/api/app/reconciliation/scoring.py:148-149 | the tokens compared are exactly the words between spaces |
| ScoringLaws.TextSimilarityEnds | apps/api/app/reconciliation/scoring.py:139-146 | a missing or blank text has similarity 0, texts that fold alike 1 |
| ScoringLaws.LargerRatioCounts | apps/api/app/reconciliation/scoring.py:147-160 | otherwise the similarity is the larger of the two rounded ratios |
| ScoringLaws.TextSimilarityMonotone | apps/api/app/reconciliation/scoring.py:147-160 | texts closer by both ratios are not less similar |
| ScoringLaws.TimeSimilarityIsLinear | apps/api/app/reconciliation/scoring.py:91-98 | the share of time falls evenly from one to nothing at the end of the window and stays there |
| ScoringLaws.WeightsAddUp | apps/api/app/reconciliation/scoring.py:107-112 | with every likeness whole or absent the score is the rounded sum of the weights of those that hold |
| ScoringLaws.LikerNeverScoresLess | apps/api/app/reconciliation/scoring.py:99-112 | more likeness in merchant or description never lowers the score |
| ScoringLaws.DecisionIff | apps/api/app/reconciliation/scoring.py:124-131 | both thresholds are inclusive, and other money or type is always a new transaction at score 0 |
| ScoringLaws.ReasonsIff | apps/api/app/reconciliation/scoring.py:114-131 | each reason is given exactly when what it says holds; the time is close within a twentieth of the window |
| ScoringLaws.WinnerIsHighest | apps/api/app/reconciliation/scoring.py:43-50 | the chosen candidate has the highest score and among those the smallest id |
| LedgerService.Store.ReconcileTransaction | apps/api/app/reconciliation/service.py:59-156 | statement by statement, reaches the specified tables and target or the specified error |
| LedgerService.Store.StoreRawEvent | apps/api/app/ingestion/repository.py:94-163 | insert-or-select on the delivery identity; other content under it is refused and nothing changes |
| LedgerService.Store.ProcessEvent | apps/api/app/ingestion/service.py:248-435 | marks failed, or processes under the lock; an error rolls every table back |
| LedgerService.Store.ExtractRawEvent | apps/api/app/ai/proposal_service.py:190-205 | the first extraction to commit is kept, later ones only clear the error |
| LedgerService.Store.Reject | apps/api/app/ai/proposal_service.py:217-235 | rejects a pending proposal and records it on the source |
| LedgerService.Store.Approve | apps/api/app/ai/proposal_service.py:237-376 | commits the specified approval or rolls back |
| LedgerService.Store.CompleteSource | apps/api/app/reconciliation/service.py:321-353 | closes the source and approves the waiting proposal, or the specified error |
| LedgerService.Store.MergeCase | apps/api/app/reconciliation/service.py:182-226 | commits the specified merge or rolls back |
| LedgerService.Store.KeepSeparate | apps/api/app/reconciliation/service.py:228-273 | commits the specified separate transaction or rolls back |
| LedgerService.Store.Unmerge | apps/api/app/reconciliation/service.py:275-319 | commits the specified unmerge or rolls back |
| LedgerService.Store.Execute | apps/api/app/ingestion/service.py:67-435 | any sequence of calls is a run of the specification and keeps the invariant of the object |
| CrashRecovery.SyncService.SyncConnector | apps/api/app/ingestion/service.py:80-118 | the loop over the page and the cursor update compute the specified synchronisation |
| CrashRecovery.SyncService.IngestForConnection | apps/api/app/ingestion/service.py:173-200 | store, terminal check and process of one event compute the specified progress |
| CrashRecovery.IngestAllAlike | apps/api/app/ingestion/service.py:80-118 | from tables that differ only in the attempt counts of rejected content, ingestion ends in tables that differ only there, with the same error |
| CrashRecovery.SkipAbsorbed | apps/api/app/ingestion/service.py:227-283 | redelivering finished events, failed ones included, changes nothing but the attempt counts of rejected content |
| CrashRecovery.OneCrash | apps/api/app/connectors/mock_receipt.py:41-52 | a synchronisation stopped after any committed transaction and run again from its persisted offset ends where it would have ended; only attempt counts of rejected content may differ |
| CrashRecovery.CrashEquivalence | apps/api/app/ingestion/service.py:80-118 | the same for any number of stops: same ledger, cases, evidence, cursor and error, and the same attempt counts but for rejected content |
| Delivery.SyncDelivers | apps/api/app/connectors/mock_receipt.py:41-52 | a synchronisation without error has stored every event of the feed from the cursor on, with its content, and left it processed, in review or rejected; no other raw event changes, and the cursor is the end of the feed |
| Delivery.SyncSucceedsIff | apps/api/app/ingestion/service.py:80-118 | it ends without error exactly if those events can be stored and no identity among them or among what is stored has two contents; otherwise the cursor stays |
| JobRuns.FinishKeepsInv | apps/api/app/jobs/repository.py:156-194 | finish keeps every row constraint and bound although it takes no admission lock |
| JobRuns.TakeKeepsInv | apps/api/app/jobs/repository.py:87-154 | recovery and lease keep every row constraint and bound although finish and cancel slipped in since the count |
| JobRuns.RunKeepsInv | apps/api/app/models/job.py:16-34 | the table's check constraints, token uniqueness, the key index and all bounds hold over every interleaving |
| JobHistory.StaleFinishChangesNothing | apps/api/app/jobs/repository.py:156-178 | a finish whose lease was finished, recovered or has expired changes nothing in any later state |
| JobHistory.TokenCompletesOnce | apps/api/app/jobs/repository.py:156-194 | over any run at most one finish with a given token goes through, whatever jobs, owners and reports the finishes name |
| JobHistory.LeaseEndSpendsToken | apps/api/app/jobs/repository.py:156-194 | a successful finish and the passing of the expiry each spend the token |
| JobHistory.LeaseIsExclusive | apps/api/app/jobs/repository.py:136-154 | a fresh token is live on exactly one unlocked job until it expires |
| JobHistory.EveryChangeLowers | apps/api/app/jobs/repository.py:87-227 | every change of a job lowers the triple (review retries left, attempts left, status rank), and no job disappears |
| JobHistory.ChangesAreBounded | apps/api/app/jobs/repository.py:87-227 | so one job changes at most 71 times in any run |
| JobHistory.ClaimsAreBounded | apps/api/app/jobs/repository.py:149-154 | a job is leased at most max_attempts * (1 + review_retries) times, never more than 20 |
| JobHistory.QueueStaysBounded | apps/api/app/jobs/repository.py:50-62 | running jobs never exceed concurrency, active jobs never exceed max_pending nor the owner's limit |
| JobHistory.FinalForever | apps/api/app/jobs/repository.py:182-227 | a succeeded or cancelled job never changes again |
| JobHistory.KeyNamesOneJob | apps/api/app/jobs/repository.py:64-85 | an owner's idempotency key names one job forever: replayed for the same payload, a conflict for another |
| JobHistory.WaitingJobsAreClaimable | apps/api/app/jobs/repository.py:134-154 | every queued or waiting job has attempts left and is leased once it is first, unlocked and a slot is free |
| JobHistory.BackoffsAgree | apps/api/app/jobs/worker.py:61-66 | for every attempt a job can make the worker's capped backoff is the database's uncapped one, at least half the base and below the maximum |
| JobHistory.RecoveredJobWaits | apps/api/app/jobs/repository.py:103-130 | a recovered job with attempts left waits at least half the base backoff and less than the maximum, so the claim that recovers it does not lease it |
| JobOutcomes.FinishCommits | apps/api/app/jobs/repository.py:156-194 | under a held lease: succeeded with the result, waiting for the delay exactly if the failure is retryable and attempts are left, dead-lettered otherwise; the error is the report's and the lease is gone; without the lease nothing changes |
| JobOutcomes.OnlyUsedUpJobsAreGivenUp | apps/api/app/jobs/repository.py:182-194 | over every run without a final failure of the job it is dead-lettered only with all attempts used |
| JobOutcomes.ClaimCommits | apps/api/app/jobs/repository.py:136-154 | the leased job comes before every other unlocked waiting one by availability, age and id; its row is given, and every other row is as recovery leaves it |
| JobOutcomes.OneChoice | apps/api/app/jobs/repository.py:136-148 | there is always exactly one job, or none, for a claim to choose |
| JobOutcomes.BeginClaimCommits | apps/api/app/jobs/repository.py:132-135 | a claim goes on exactly if fewer unexpired leases than slots are running |
| JobOutcomes.RecoverCommits | apps/api/app/jobs/repository.py:91-130 | recovery changes expired leases alone: waiting with attempts left, dead-lettered without |
| JobOutcomes.Ceilings | apps/api/app/jobs/worker.py:61-66 | the backoff doubles from the base up to the maximum |
| JobOutcomes.AdmitIff | apps/api/app/jobs/repository.py:50-85 | an enqueue answers with the key's job, conflicts for another payload, and is admitted exactly with a new key below both limits |
| JobOutcomes.RetryIff | apps/api/app/jobs/repository.py:196-212 | review requeues exactly the owner's dead-lettered jobs, three times at most and below both limits, with all attempts back |
| JobOutcomes.CancelCommits | apps/api/app/jobs/repository.py:214-227 | cancelling takes exactly the owner's queued, waiting or cancelled jobs, and writes that row alone |
| JobRepository.Repository.Enqueue | apps/api/app/jobs/repository.py:64-85 | replays, conflicts, refuses at capacity or inserts, exactly as specified |
| JobRepository.Repository.RecoverExpired | apps/api/app/jobs/repository.py:91-130 | the two bulk updates together end every expired lease as specified |
| JobRepository.Repository.SelectReady | apps/api/app/jobs/repository.py:136-148 | finds the first ready unlocked job by available_at, created_at and id, or that there is none |
| JobRepository.Repository.Claim | apps/api/app/jobs/repository.py:87-154 | recovery, count and lease take the specified steps |
| JobRepository.Repository.Finish | apps/api/app/jobs/repository.py:156-194 | true exactly when the lease holds, and then the specified row |
| JobRepository.Repository.ReviewRetry | apps/api/app/jobs/repository.py:196-212 | requeues a dead-lettered job at most three times within capacity |
| JobRepository.Repository.Cancel | apps/api/app/jobs/repository.py:214-227 | cancels what is not running, again without effect |
| ManualNotes.MinimizeLabels | apps/api/app/connectors/manual_note.py:94-110 | the loop computes the specified labels: at most twelve, none blank or over-long, no two alike when folded |
| ManualNotes.LabelsAreComplete | apps/api/app/connectors/manual_note.py:94-110 | what is kept comes from the note's labels, and unless twelve are kept every label that is not blank is kept under some spelling |
| WorkerRuns.ReplayNeverConflicts | apps/api/app/jobs/worker.py:105-115 | a replay of a job never meets other content under its identity |
| WorkerRuns.RunKeepsInv | apps/api/app/jobs/worker.py:99-149 | queue and ledger keep their invariants together over every interleaving of workers, clients and owners |
| WorkerRuns.JobIsIdempotent | apps/api/app/jobs/worker.py:99-149 | over any leases, crashes and model outputs one job adds at most one raw event and one proposal, and a succeeded job's result is that proposal, the same one every attempt got |
| WorkerRuns.ResultsAreDistinct | apps/api/app/jobs/worker.py:116-116 | two jobs never succeed with the same proposal |
| WorkerRuns.StaleWorkerCompletesNothing | apps/api/app/jobs/worker.py:141-149 | a worker whose lease is over completes nothing |
| JobWorker.AttemptIsRun | apps/api/app/jobs/worker.py:99-149 | one attempt is a run of the system, so the run theorems hold of it |
| JobWorker.Runner.SubmitManualNote | apps/api/app/ai/proposal_service.py:104-205 | deliver, process, then reuse or extract: the specified acts |
| JobWorker.Runner.Execute | apps/api/app/jobs/worker.py:99-149 | one lease from submission to the fenced finish: the specified system, and whether the finish counted |
| Attempts.AttemptSucceeds | apps/api/app/jobs/worker.py:99-149 | an attempt at a storable note with an earlier proposal or a new extraction leaves the note stored as submitted and processed, one proposal under its key, and, if the lease held, the job succeeded with that proposal |
| Attempts.AttemptFails | apps/api/app/jobs/worker.py:117-149 | any other attempt adds no proposal and reports its one failure: provider, timeout and database errors for another try, a disabled provider and everything else final; the job waits or is given up accordingly |
| Attempts.FreshProposalIsApprovable | apps/api/app/ai/proposal_service.py:104-126 | the proposal an attempt extracts can be approved by its owner at once, if the ledger takes its event |
| Attempts.LeaseIsFresh | apps/api/app/jobs/repository.py:149-154 | a lease starts with its job's own note and holds until it expires |
| Recurrence.WeekIsSevenDays | apps/api/app/ledger/recurring_service.py:193-194 | the carried date is seven day numbers on, over months, leap days and years, and fails only past the calendar |
| Recurrence.AdvanceMovesMonths | apps/api/app/ledger/recurring_service.py:195-208 | one advance moves the month index by the rule's months, and fails only past the year 9999 |
| Recurrence.OrbitClosedForm | apps/api/app/ledger/recurring_service.py:191-208 | n advances move the month index by n*k; the day is the original until the first month no longer than it, then the month's end |
| Recurrence.EarlyDaysNeverMove | apps/api/app/ledger/recurring_service.py:203-207 | up to the 27th the day never moves |
| Recurrence.MonthEndPersists | apps/api/app/ledger/recurring_service.py:203-207 | once at a month's end, always at a month's end |
| Recurrence.WeeklyOrbit | apps/api/app/ledger/recurring_service.py:193-194 | n weekly advances are 7*n day numbers |
| Recurrence.OrbitIncreases | apps/api/app/ledger/recurring_service.py:191-208 | the dates strictly increase |
| Recurrence.MonthsDrift | apps/api/app/ledger/recurring_service.py:203-208 | 28 January 2023 goes by 28 February to 31 March, so twelve months are not one year there |
| Recurrence.MonthsAreYears | apps/api/app/ledger/recurring_service.py:195-208 | for any number of years, twelve times as many monthly advances reach the same date exactly for month ends, days up to 27, the 28th of February, and over a single year the 28th before a leap February |
| Recurrence.QuartersAreYears | apps/api/app/ledger/recurring_service.py:195-208 | four times as many quarterly advances reach the same date as the yearly ones exactly for those days and, on a way that meets no February, for every day up to the 29th |
| Recurrence.RecurringPayment.RecordDuePayment | apps/api/app/ledger/recurring_service.py:125-166 | records the expected occurrence and advances, or refuses in the order of the guards; what is recorded stays a gapless prefix of the orbit |
| Recurrence.RecurringPayment.TransitionStatus | apps/api/app/ledger/recurring_service.py:102-123 | moves between active and paused and from both to ended, and refuses everything else |
| Recurrence.ReachableIff | apps/api/app/ledger/recurring_service.py:26-41 | over any series of requests active and paused payments reach each other and the end; nothing else ever moves |
| Recurrence.RecurringPayment.RecordedOnce | apps/api/app/ledger/recurring_service.py:141-160 | no occurrence is recorded twice and the next one is later than all |
| Base64.RoundTrip | apps/api/app/ledger/pagination.py:50-62 | restoring the stripped padding and decoding gives back the bytes, for every length modulo three |
| Base64.DecodeIsNotInjective | apps/api/app/ledger/pagination.py:57-62 | the unused bits of the last symbol are not checked: another text of the same length decodes to the same bytes |
| Base64.KnownPaddedTexts | apps/api/app/ledger/pagination.py:50-51 | the padded texts of section 10 of RFC 4648, with the two symbols of its section 5 |
| Texts.ParseFormat | apps/api/app/ledger/pagination.py:46-47 | fixed-width fields parse back to their numbers |
| Texts.StringMember | apps/api/app/ledger/pagination.py:50-63 | a JSON string member parses back to its name and text |
| Cursor.IsoRoundTrip | apps/api/app/ledger/pagination.py:46-73 | every UTC timestamp, with or without microseconds, parses back from its ISO text |
| Cursor.IdRoundTrip | apps/api/app/ledger/pagination.py:47-74 | every id parses back from its dashed hexadecimal text |
| Cursor.CursorRoundTrip | apps/api/app/ledger/pagination.py:38-87 | decode(encode(c)) is c for every UTC timestamp and id |
| Cursor.ToUtcKeepsMoment | apps/api/app/ledger/pagination.py:46-46 | conversion to UTC keeps the moment over midnights, leap days and years, and fails exactly for moments outside the calendar |
| Cursor.AwareRoundTrip | apps/api/app/ledger/pagination.py:38-87 | for a timestamp of any zone, what is decoded is the same moment, in UTC, with the same id |
| Cursor.SameCursorIff | apps/api/app/ledger/pagination.py:38-51 | two positions have the same cursor exactly if they are the same moment and id, whatever their zones |
| Cursor.EncodeIsInjective | apps/api/app/ledger/pagination.py:38-51 | different positions have different cursors |
| Cursor.EveryCursorHasAnotherText | apps/api/app/ledger/pagination.py:54-87 | decoding is not injective: every cursor has another text of the same length |
| Cursor.SerializedText | apps/api/app/ledger/pagination.py:45-50 | what is encoded is the object of timestamp, id and version, sorted and without spaces |
| Pagination.TimelineIsWalk | apps/api/app/ledger/service.py:150-187 | following cursor texts is following keys |
| Pagination.TimelineNeverRepeats | apps/api/app/ledger/service.py:150-187 | whatever is inserted or deleted between requests, the rows listed descend, none twice, each seen by some request |
| Pagination.TimelineNeverSkips | apps/api/app/ledger/repository.py:144-176 | a finished walk lists every row that was there at each request |
| Pagination.TimelineIsComplete | apps/api/app/ledger/service.py:150-187 | with nothing changing the walk ends within the number of pages and lists every row once, newest first |
| Pagination.NewerIff | apps/api/app/ledger/repository.py:144-176 | one row is listed before another exactly if its moment is later, or the same with the greater id |
| Pagination.PageSucceedsIff | apps/api/app/ledger/pagination.py:27-87 | a request is refused exactly for a page size outside 1 to 100 or a cursor that does not decode |
| Pagination.PageIsNewest | apps/api/app/ledger/service.py:150-187 | a page holds the newest rows after the cursor's, as many as fit, newest first, and says whether any is left |
| Keyset.FetchIsHead | apps/api/app/ledger/service.py:163-171 | fetching one row more than the page tells whether there are more |
| Keyset.RestOfListing | apps/api/app/ledger/repository.py:151-171 | what follows a row by the keyset predicate is the rest of the ordered listing |
| Obligations.PrincipalIsConserved | apps/api/app/ledger/obligation_service.py:330-378 | over every run the settled sum never exceeds the principal, and PAID holds exactly when they are equal |
| Obligations.ClosedForever | apps/api/app/ledger/obligation_service.py:343-352 | a paid or cancelled obligation keeps its status and settled amount over every later run |
| Obligations.OverdueIff | apps/api/app/ledger/obligation_repository.py:509-527 | in every reachable book what is shown as overdue is exactly what is not closed and past its due day, and every other status is shown as stored |
| Obligations.CancelIsIdempotent | apps/api/app/ledger/obligation_service.py:371-378 | cancelling is refused for fully settled obligations alone, and repeating it changes nothing |
| Obligations.SettleSucceedsIff | apps/api/app/ledger/obligation_service.py:329-369 | a settlement goes through exactly if it is the owner's, in the currency, and a positive amount within what is outstanding on what is not cancelled; it pays exactly if nothing is left |
| Obligations.WholeSettlementPays | apps/api/app/ledger/obligation_service.py:359-369 | settling the whole outstanding amount always goes through and makes it PAID |
| Obligations.SettlementLowersTotal | apps/api/app/ledger/obligation_repository.py:454-482 | a settlement lowers the owner's total of its kind and currency by its amount and moves no other total |
| Obligations.CancellationWritesOff | apps/api/app/ledger/obligation_repository.py:454-482 | cancelling takes exactly the outstanding amount off the total |
| Obligations.Service.SettleObligation | apps/api/app/ledger/obligation_service.py:137-197 | settles or refuses exactly as specified, in the order of the guards |
| Obligations.Service.CancelObligation | apps/api/app/ledger/obligation_service.py:199-233 | cancels or refuses exactly as specified |
| Obligations.Service.SettledByObligation | apps/api/app/ledger/obligation_repository.py:485-506 | one pass groups the settlements by obligation |
| Obligations.Service.OutstandingTotals | apps/api/app/ledger/obligation_repository.py:432-482 | the grouped totals are, per currency, the sums of the outstanding amounts the obligations show one by one |
| Amounts.ShortAmountsAreExact | apps/api/app/domain/money.py:21-42 | up to 28 significant digits exactly the positive amounts below ten to the fifteenth with at most four decimals are accepted |
| Amounts.AcceptedIsExactIff | apps/api/app/domain/money.py:33-42 | an accepted amount has at most four decimals exactly if its digits past the 28th are all zero |
| Amounts.LongAmountIsAccepted | apps/api/app/domain/money.py:33-42 | one and one unit in any decimal from the 29th on is accepted and is not exact |
| Categories.Ancestors | apps/api/migrations/versions/20260724_0002_phase1_ledger.py:784-793 | the recursive query ends on every table, cyclic ones included, with exactly the ancestors |
| Categories.Enforce | apps/api/migrations/versions/20260724_0002_phase1_ledger.py:756-811 | raises exactly the specified refusal |
| Categories.Hierarchy.Run | apps/api/migrations/versions/20260724_0002_phase1_ledger.py:815-823 | a statement of any number of rows commits as specified or leaves the table as it was |
| Categories.StatementKeepsForestIff | apps/api/migrations/versions/20260724_0002_phase1_ledger.py:773-806 | whatever rows one accepted statement inserts and updates, the hierarchy stays acyclic exactly if no row, at its turn, is already named by its parent or an ancestor of it over rows that the statement does not write again |
| Categories.UpdatesKeepForest | apps/api/migrations/versions/20260724_0002_phase1_ledger.py:784-806 | an accepted update of any number of rows always keeps the hierarchy acyclic |
| Categories.OneRowKeepsForest | apps/api/migrations/versions/20260724_0002_phase1_ledger.py:784-806 | every accepted insert or update of one row keeps the hierarchy acyclic |
| Categories.OneRowAcceptedIff | apps/api/migrations/versions/20260724_0002_phase1_ledger.py:765-811 | a change of one row is accepted exactly if its id is new to an insert and its parent is none, or a row that its owner sees and that neither is it nor lies below it |
| Categories.TwoRowsCanMakeACycle | apps/api/migrations/versions/20260724_0002_phase1_ledger.py:773-775 | one statement inserting two rows, each the other's parent, is accepted and makes a cycle |
| Categories.WrittenRowSeesParent | apps/api/migrations/versions/20260724_0002_phase1_ledger.py:777-783 | an accepted row's parent is a system category or of the same owner |
| Categories.RowKeepsVisibilityIff | apps/api/migrations/versions/20260724_0002_phase1_ledger.py:777-783 | an accepted row keeps every parent visible exactly if each row that names it as parent sees it |
| Categories.OneRowKeepsVisibilityIff | apps/api/migrations/versions/20260724_0002_phase1_ledger.py:815-823 | one insert never hides a parent, and one update does exactly if a child's owner can no longer see the row |
| Categories.StatementKeepsVisibilityIff | apps/api/migrations/versions/20260724_0002_phase1_ledger.py:773-783 | whatever rows one accepted statement inserts and updates, every row goes on seeing its parent exactly if no row, at its turn, hides itself from a child, with neither of them written again |
| Categories.OwnerChangeHidesParent | apps/api/migrations/versions/20260724_0002_phase1_ledger.py:815-823 | it happens: changing a parent's owner is accepted and hides it from its child |
| Analytics.GroupByCategory | apps/api/app/analytics/calculations.py:39-43 | the two passes group both periods by category |
| Analytics.CategoryContributions | apps/api/app/analytics/calculations.py:35-54 | the sorted contributions are those of the categories that occur, each once, largest change first, and they add up to the period's spending and to the total change |
| Analytics.ContributionsAddUp | apps/api/app/analytics/service.py:76-86 | current amounts add up to what was spent and changes to the report's total change |
| Analytics.SpentIsNet | apps/api/app/analytics/calculations.py:22-33 | what was spent is everything else less the refunds |
| Analytics.SpendingFiresFrom | apps/api/app/analytics/calculations.py:67-71 | the spending insight fires exactly from an increase of 24.5 percent |
| Analytics.SpendingTextCanBeFalse | apps/api/app/analytics/calculations.py:71-76 | from 25 percent on it always fires, and one firing below contradicts its text |
| Analytics.ConcentrationFiresFrom | apps/api/app/analytics/calculations.py:119-127 | the concentration insight fires exactly from a share of 49.5 percent |
| Analytics.LargeTransactions | apps/api/app/analytics/calculations.py:84-106 | reports exactly the expenses and shared expenses of at least twice the median, at most half of them, and none below three |
| Analytics.MedianIsMean | apps/api/app/analytics/calculations.py:90-90 | the median is the mean of the amounts at the two middle places: at most that many are less, and more are no more |
| Analytics.MedianSplits | apps/api/app/analytics/calculations.py:90-90 | at most half of the amounts lie below the median and at most half above |
| Analytics.AtMostHalfAreLarge | apps/api/app/analytics/calculations.py:90-91 | at most half of positive amounts are at least twice their median |
| Analytics.MerchantConcentration | apps/api/app/analytics/calculations.py:108-133 | the reported amount is the sum of its supporting rows, no merchant has more, and without a report no merchant is concentrated |

## Left out

- Naive timestamps in cursors, which encoding refuses, and the overflow error of a decoded timestamp that leaves the calendar in UTC: the model answers it as an invalid cursor.
- Fairness: that workers keep claiming. What a claim does when it comes is `JobHistory.WaitingJobsAreClaimable`.
- Cursor decoding of texts it did not produce: ISO forms other than the extended date and time with a whole-minute offset, JSON escapes, nested values and non-integer numbers, and ids with braces, prefixes or underscores are rejected by the model.
- Unicode normalization, case folding, white space beyond space, tab and line ends, `SequenceMatcher` and SHA-256 are abstract functions.
- Decimal arithmetic on stored amounts is exact: rounding of intermediate quotients at 28 digits is modelled in the money guard alone, and the average size of a period is not modelled.
- Effects.NoteIsNeverPosted: the white space that display normalization strips off the end of a description cut at 200 characters is kept in the model.
- Evidence locators and excerpts, score columns of cases, telemetry of proposals, confidence and category assignment of transactions.
- Creation of receivables, payables and recurring payments when a proposal is approved: its outcome is an argument of the step.
- One extraction prompt version is modelled, so a raw event has at most one proposal; further versions would be further keys.
- A connection being inactive or unhealthy, missing profiles, and the size checks of configuration values.
- Read-committed races between two category statements of different sessions: statements are atomic here.
- The possible-recurring and forgotten-debt insights, monthly and merchant breakdowns and their percentages: single folds over rows.
- Gmail and Takeout fetching, HTTP, GraphQL, authentication, timezones, month boundaries, settings and seed data.
