# A verified model of the supply chain hub

The hub receives inventory files from suppliers, keeps the raw bytes, and processes each file as a durable
job: web requests submit jobs, a broker delivers them to workers that may be duplicated, late or crash, and
periodic sweeps redispatch queued jobs and recover expired leases. A completed job turns partner records into
hub quantities through versioned mappings, logs them as snapshots, and overwrites inventory positions. Beside
this the hub classifies stockout risk, reconciles stock with two dataframe engines, and follows shipments.

| file | content |
|---|---|
| `Domain`, `Ledger`, `Adapters`, `Jobs` | data, and every operation as a function from state to state |
| `InventoryLedger`, `ImportJob`, `Worker`, `SubmissionDesk`, `Delivery`, `Shipments` | classes and sweeps that update state in place, each method proved against those functions |
| `Hub` | the transition system: clock, jobs, object store, ledger, workers between claim and completion |
| `LedgerLaws` | import as a filter, lineage, positions as last writes, over whole histories |
| `JobLaws`, `HubLaws`, `SubmissionLaws` | what holds in every run as coded |
| `Sound`, `Refinement` | one job at a time: as long as its result is not spoiled it is final, accounted for and applied exactly once; exactly these runs refine the simple machine |
| `HistoryRows`, `Timely` | complete attempt histories, and rows that are final when no worker is late |
| `Work` | how much work the messages of one job can cause |
| `Lateness`, `SecondCompletion` | what late workers, early failures and failures after the completion do as coded |
| `Dispatch` | how fast repeated sweeps drain a backlog |
| `Permutations`, `Risk`, `Reconciliation` | analytics over exact numbers |

Runs come in several strengths. A *run as coded* (`Hub.Run`) is any sequence of operations: a worker may complete
or fail after its lease was recovered and someone else claimed, it may fail after its own completion was
committed, a failure before the claim may be recorded on a job in any status, a receipt may land on a job that
has moved on. The other strengths are stated for one job; other jobs may do anything. A run is *sound* for a job
(`Sound.SoundFor`) if it does not spoil its result: complete it though it is terminal, record a failure on it
though it completed, or a retryable failure though it failed with attempts left. It is *steady*
(`Timely.SteadyFor`) if besides each completion is that of the newest attempt while the job is PROCESSING. It is
*timely* (`Hub.TimelyFor`) if failures too come from the newest attempt of a PROCESSING job, or before the claim
of a QUEUED one. Timely implies steady, and steady implies sound. Each operation is one committed transaction.

Some consequences of the code are worth knowing:

- Neither failure recording nor completion looks at the job's status, so terminal states are not final as
  coded. A retryable failure reopens a completed job that has attempts left; a permanent one, or any on the
  last attempt, turns it into a FAILED job whose applied payload can be replayed; a late completion turns a
  FAILED job into a completed one (`Lateness.TerminalStatusExactly`, and a run for each).
- This takes no second delivery: when the answer to the commit of a completion, or the refresh of the row after
  it, is lost, the worker records a failure on the job that it has just completed
  (`Lateness.OwnFailureUndoes`, `Delivery.UninterruptedDelivery`).
- The number of retries scheduled is not bounded unless one attempt is all there is: a failure before the claim
  uses an attempt only when there is no attempt row yet (`Lateness.RetriesUnboundedExactly`). The claims are
  bounded (`HubLaws.ClaimsAreBounded`), and so is all other work, by exactly four per attempt
  (`Work.EveryRunBoundsWork`, `Work.WorkBoundIsReached`).
- The session keeps objects across commits, so a late completion writes only the counters that differ from
  those loaded at its claim (`Jobs.WriteBack`), and closes its own attempt row; a failure closes the newest. A
  second completion can leave a total that is not the sum of its parts
  (`SecondCompletion.SecondCompletionSkewsCounters`, `JobLaws.SecondCompletionExactly`).
- Late workers can spoil a job row, but not the ledger: one snapshot per source key, lineage and the position
  table hold in every run (`HubLaws.LedgerOfEveryRun`).
- A position holds what was applied last, not what was observed last (`LedgerLaws.LaterRecordWins`).
- A shipment can be delivered without a ship time (`Shipments.DelayedThenDelivered`, `Shipments.DeliveredWithoutShipTime`).
- The two engines need distinct record indices to agree (`Reconciliation.AgreementExactly`, `Reconciliation.TiedRows`).

## Model

| member | source | states |
|---|---|---|
| Refinement.ExactlyOnce | src/supply_chain_hub/application/integration_services.py:309-529 | main theorem of the protocol, for each job by itself: in every run from an empty hub that does not spoil its result, whatever late workers do to it and whatever is spoiled elsewhere, its payload was applied exactly once if it completed and never otherwise, and if it did not complete it shows no snapshots, errors or counts |
| Refinement.SoundForIsExact | src/supply_chain_hub/application/integration_services.py:309-529 | a job takes its intended part in every transaction of a run if and only if the run does not spoil its result: it is then applied or given up at most once, atomically, and only while pending |
| Refinement.StepRefinesFor | src/supply_chain_hub/application/integration_services.py:316-529 | for one job, a transaction as coded is its intended move if and only if it does not spoil that job's result: a completion though it is terminal, a failure recorded though it completed, or a retryable failure though it failed with attempts left |
| Refinement.MovesByParts | src/supply_chain_hub/application/integration_services.py:309-529 | a move of the machine that applies payloads in one step is its part on the ledger and its part on every job, taken together |
| Refinement.SoundIsExact | src/supply_chain_hub/application/integration_services.py:309-529 | for the whole hub: the runs whose every transaction is its intended move of that machine are exactly those that spoil no result |
| Refinement.SoundRunReaches | src/supply_chain_hub/application/integration_services.py:309-529 | a run that spoils no result ends in the state that the machine reaches from its empty state by the intended moves |
| Refinement.StepRefines | src/supply_chain_hub/application/integration_services.py:316-529 | for the whole hub: a transaction as coded is its intended move if and only if it spoils no result |
| Refinement.AppliedAtMostOnce | src/supply_chain_hub/application/integration_services.py:398-409 | in the machine, a job that starts pending is applied once if it ends applied, never otherwise |
| Work.WorkIsBounded | src/supply_chain_hub/application/integration_services.py:328-343 | when no worker is late on a job, its claims, completions, failures of workers that claimed, and lease recoveries use up a budget of 2 * max_attempts, however many messages are delivered |
| Work.EveryRunBoundsWork | src/supply_chain_hub/worker/tasks.py:27-44 | in every run as coded, late workers included, claims, completions, recoveries, and failures that workers record before or after their own completion number at most 4 * max_attempts for one job |
| Work.WorkBoundIsReached | src/supply_chain_hub/worker/tasks.py:27-44 | that bound is exact for all settings: a run in which every attempt is claimed, abandoned, completed late, and failed after that |
| Lateness.TerminalStatusExactly | src/supply_chain_hub/application/integration_services.py:444-526 | as coded, what one transaction makes of the status of a terminal job, and exactly when it changes: a failure record makes it QUEUED or FAILED, a completion makes it COMPLETED or COMPLETED_WITH_ERRORS, nothing else touches it; it is reopened iff a retryable failure is recorded on it while attempts are left |
| Lateness.LateFailureReopens | src/supply_chain_hub/application/integration_services.py:444-486 | a run as coded: submission, claim, completion, then a transient failure of a second delivery takes the COMPLETED job back to QUEUED |
| Lateness.LateFailureRelabels | src/supply_chain_hub/application/integration_services.py:505-509 | the same with a permanent failure: the COMPLETED job becomes FAILED, and a replay of its applied payload is accepted |
| Lateness.OwnFailureUndoes | src/supply_chain_hub/application/integration_services.py:439-441 | a run as coded with one delivery and no late worker: the error comes after the commit of the completion, and recording it takes the COMPLETED job to QUEUED or FAILED |
| Lateness.LateCompletionRevives | src/supply_chain_hub/application/integration_services.py:398-409 | a run as coded in which a FAILED job becomes COMPLETED through the worker that was still busy with it |
| JobLaws.SecondCompletionExactly | src/supply_chain_hub/application/integration_services.py:795-801 | after a second completion total is still accepted + rejected if and only if it counted nothing, or counted something again wherever the first one did: only counters that differ from the loaded zeros are written |
| SecondCompletion.SecondCompletionSkewsCounters | src/supply_chain_hub/application/integration_services.py:795-801 | such a run: a job of one good row, claimed twice and completed by both workers, ends with total, accepted and rejected all 1 |
| Lateness.RetriesUnboundedExactly | src/supply_chain_hub/application/integration_services.py:461-487 | the number of retries scheduled for one job is unbounded, even without late workers, if and only if more than one attempt is allowed |
| Lateness.UnreachableRunRetries | src/supply_chain_hub/application/integration_services.py:461-487 | for every n, a submission followed by n deliveries that fail before the claim is a timely run that schedules n retries |
| HubLaws.EveryRunKeepsProtocol | src/supply_chain_hub/application/integration_services.py:316-524 | in every run, late workers included: attempt rows are exactly 1..attempt_count, attempt_count <= max_attempts, QUEUED leaves an attempt free, only the newest attempt can be RUNNING and it is when PROCESSING, a lease is set iff PROCESSING, and no stored instant lies beyond the configured delays |
| HubLaws.RecoveryNeverFails | src/supply_chain_hub/application/integration_services.py:594-596 | in no run does the recovery sweep meet an expired lease whose job has no durable current attempt |
| HubLaws.NoJobIsStuck | src/supply_chain_hub/application/integration_services.py:557-593 | in every reachable state, a non-terminal job that is left alone satisfies the dispatch query or the recovery query at every instant later than the longest of lease, retry cap and redispatch window |
| HubLaws.ClaimsAreBounded | src/supply_chain_hub/application/integration_services.py:324-343 | in every run a job is claimed at most max_attempts times |
| JobLaws.NotStuck | src/supply_chain_hub/application/integration_services.py:557-593 | the per-row form: QUEUED becomes due for dispatch, PROCESSING becomes an expired lease |
| JobLaws.DispatchedIsClaimable | src/supply_chain_hub/application/integration_services.py:324-327 | what the dispatch query selects, the claim guard accepts then and at any later time while the job is unchanged |
| JobLaws.FailureExactly | src/supply_chain_hub/application/integration_services.py:453-543 | of failure recording: the job is queued again if and only if the error is a lost database, a transient import error, a timeout or a lost connection and the attempt it hits is below max_attempts, and has failed otherwise; row and attempt carry each error's own code; all other fields |
| JobLaws.ClaimExactly | src/supply_chain_hub/application/integration_services.py:324-343 | of the claim: it succeeds if and only if the job is QUEUED and its retry time has come; all fields of the row and of the new attempt |
| JobLaws.CompletionExactly | src/supply_chain_hub/application/integration_services.py:398-409 | of the completion: all fields, each counter either written or left as stored because it equals the loaded one |
| JobLaws.RecoveryExactly | src/supply_chain_hub/application/integration_services.py:594-616 | of the recovery: all fields, with the retryable lease failure on row and attempt, and an error if and only if there is no current attempt |
| JobLaws.ReceiptExactly | src/supply_chain_hub/application/integration_services.py:287-289 | of the receipt: dispatched_at is written if and only if the job is read as QUEUED, and nothing else is |
| JobLaws.WaitingTimes | src/supply_chain_hub/application/integration_services.py:326-333 | counted from the clock reading of the transaction that sets it: a lease expires exactly after its length, a retry is claimable and due exactly after its delay, a recovered job at once, and a dispatched job is due again exactly after the redispatch window; a recorded failure ends the job only when permanent or out of attempts |
| JobLaws.FailureKeeps | src/supply_chain_hub/application/integration_services.py:461-509 | recording any failure on any reachable row keeps the row invariant, terminal rows included |
| JobLaws.CompleteKeeps | src/supply_chain_hub/application/integration_services.py:399-409 | a completion that writes on whatever the row has become, closing its own attempt, keeps the row invariant |
| Jobs.RetryDelayDoubles | src/supply_chain_hub/application/integration_services.py:546-554 | the backoff is at least one second and at most the cap, starts at the base, and doubles until the cap |
| Sound.SoundJobKeeps | src/supply_chain_hub/application/integration_services.py:398-409 | as long as a job's result is not spoiled: without completion it shows no errors or counts, with one total = accepted + rejected and COMPLETED iff there are no errors, and accepted_records equals its snapshot count, whatever happens to other jobs |
| Sound.TimelyIsSound | src/supply_chain_hub/application/integration_services.py:324-343 | a worker that is not late, and does not fail after its completion, never spoils a result |
| Sound.ResultsAreFinal | src/supply_chain_hub/application/integration_services.py:398-409 | from any reachable state a terminal job keeps its status, errors and counters as long as that job is not spoiled, and a completed row then changes in nothing but its dispatch time |
| Timely.SteadyRunKeeps | src/supply_chain_hub/application/integration_services.py:328-343 | as long as a job is not spoiled and each completion is the newest attempt's, late failures included: completed_at iff terminal, next_retry_at only when QUEUED, older attempts are RETRY_SCHEDULED or ABANDONED, the newest is SUCCEEDED iff the job completed, and every attempt row carries its end and the failure that ended it |
| Timely.TimelyIsSteady | src/supply_chain_hub/application/integration_services.py:324-343 | a run without late workers keeps completions current and spoils nothing |
| Timely.HistoriesExactly | src/supply_chain_hub/application/integration_services.py:398-409 | a transaction that does not spoil a job keeps this history if and only if a completion it makes is that of the newest attempt of a PROCESSING job |
| Timely.TerminalIsFinal | src/supply_chain_hub/application/integration_services.py:398-409 | as long as no worker is late on it, a COMPLETED, COMPLETED_WITH_ERRORS or FAILED row never changes again in any field but dispatched_at |
| Timely.StepFreezesTerminal | src/supply_chain_hub/application/integration_services.py:287-289 | without late workers the only transaction that still changes a terminal row is a dispatch receipt that was checked against an older reading |
| Timely.FailedForAReason | src/supply_chain_hub/application/integration_services.py:461-509 | in every such run, FAILED means that the newest attempt and the job record the same failure and end, and that it was not retryable or every attempt 1..max_attempts was used up |
| Sound.CompletionAccounts | src/supply_chain_hub/application/integration_services.py:398-403 | the first completion of a job, however late its worker and whatever is spoiled elsewhere, accounts for its payload: total is the number of items or data rows (1 for a rejected file), total = accepted + rejected, accepted is the job's snapshot count, COMPLETED iff there are no errors |
| Sound.ReplayedJobsStayFailed | src/supply_chain_hub/application/integration_services.py:620-628 | in a sound run every replay points to an older job that is FAILED and stays so |
| ImportJobs.ImportJob.ClaimFor | src/supply_chain_hub/application/integration_services.py:324-343 | the claim transaction, field by field: a queued job whose retry time has come starts a new RUNNING attempt under a lease; any other delivery changes nothing |
| ImportJobs.ImportJob.CompleteImport | src/supply_chain_hub/application/integration_services.py:398-409 | the completion transaction over job and ledger together; only counters that differ from those loaded at the claim are written back, and the attempt closed is the worker's own |
| ImportJobs.ImportJob.RecordImportFailure | src/supply_chain_hub/application/integration_services.py:460-529 | failure recording, field by field, with its disposition: a retry is reported iff the job went back to QUEUED, with the delay of its attempt |
| ImportJobs.ImportJob.RecoverLease | src/supply_chain_hub/application/integration_services.py:595-616 | one round of the recovery sweep, with the error for a job without a durable current attempt |
| ImportJobs.ImportJob.MarkDispatched | src/supply_chain_hub/application/integration_services.py:287-289 | the dispatch receipt is written only on a job read as QUEUED |
| Delivery.ProcessImportJobTask | src/supply_chain_hub/worker/tasks.py:19-61 | one delivery from claim to completion or recorded failure is a run of the hub, and its outcome reports the state in which it left the job; an error before the claim is recorded whatever the job's status, one that rolls the completion back leaves the ledger alone, one after the commit is recorded on the completed job |
| Delivery.UnreachableStore | src/supply_chain_hub/application/integration_services.py:746-758 | a delivery that cannot reach the store leaves the ledger alone and schedules a retry after the backoff while attempts are left, with the transient import code on row and attempt; after the last one the job has failed |
| Delivery.UninterruptedDelivery | src/supply_chain_hub/application/integration_services.py:309-441 | a delivery that claims in any reachable state and runs alone: its payload is applied iff the completion is committed, the job ends completed iff no error comes even after that and otherwise QUEUED or FAILED, no worker stays behind, and the run is timely except when the error comes after the commit |
| Worker.DispatchQueuedImports | src/supply_chain_hub/worker/tasks.py:65-77 | the dispatch sweep: exactly the oldest hundred due jobs whose message the broker took get a receipt, no other row changes, and the two counters it returns |
| Worker.RecoverStaleImports | src/supply_chain_hub/application/integration_services.py:584-617 | the recovery sweep: every unlocked expired lease is recovered, nothing else changes, the result lists exactly the requeued jobs, and one job without an attempt row undoes the whole sweep |
| Worker.RecoverySweepExactly | src/supply_chain_hub/application/integration_services.py:584-617 | the sweep takes exactly the PROCESSING jobs whose lease has run out and whose row is not locked, recovers them all or, if one has no current attempt, none, and requeues those with attempts left |
| Worker.DueBelowIsDue | src/supply_chain_hub/application/integration_services.py:557-581 | the dispatch query lists exactly the due jobs, oldest first, none twice |
| Worker.ReceiptsAreAfterDispatch | src/supply_chain_hub/worker/tasks.py:67-77 | receipts written one by one, each on the row as it then is, add up to one simultaneous sweep |
| Dispatch.SweepExactly | src/supply_chain_hub/application/integration_services.py:557-581 | a sweep writes a receipt on a row if and only if the job is due, fewer than a hundred older jobs are, and the broker takes its message |
| Dispatch.ReportsExactly | src/supply_chain_hub/worker/tasks.py:64-77 | the two numbers of a sweep: the due jobs, at most a hundred, and the rows that got a receipt |
| Dispatch.DrainBound | src/supply_chain_hub/application/integration_services.py:557-581 | a due job with r older due jobs is published by sweep floor(r/100)+1 when every publish succeeds, no older job becomes due meanwhile, and each sweep is within the redispatch window of the one before |
| Dispatch.SweepDrainsHundred | src/supply_chain_hub/application/integration_services.py:579-581 | a sweep that does not reach a due job leaves at least a hundred fewer older due jobs |
| Dispatch.NotPublishedTwice | src/supply_chain_hub/worker/tasks.py:70-76 | a job published by a sweep and otherwise untouched is not selected again within the redispatch window |
| SubmissionDesks.SubmissionDesk.SubmitInventoryImport | src/supply_chain_hub/application/integration_services.py:178-226 | submission: lookup by request key, put of the payload, new job; an unconfirmed put leaves the object but no job |
| SubmissionDesks.SubmissionDesk.ReplayFailedImport | src/supply_chain_hub/application/integration_services.py:620-650 | replay of a failed job: its own payload, checksum and adapter version under a new request key |
| SubmissionLaws.ObjectKeyDeterminesDigest | src/supply_chain_hub/application/integration_services.py:730-743 | two equal object keys have the same digest and source type, whatever the dates |
| SubmissionLaws.KeyLayout | src/supply_chain_hub/application/integration_services.py:730-743 | the object key to the letter, for both source types |
| SubmissionLaws.FreshRequestExactly | src/supply_chain_hub/application/integration_services.py:178-226 | the answer to a request under a new key: unknown supplier, refused put, unconfirmed put that leaves the object alone behind, or a new job with exactly the request's fields |
| SubmissionLaws.PayloadExactly | src/supply_chain_hub/application/integration_services.py:718-766 | loading succeeds if and only if the store is reachable and holds bytes of the recorded checksum; the class of each failure, and the adapter each source type goes to |
| SubmissionLaws.ReplayExactly | src/supply_chain_hub/application/integration_services.py:626-650 | a replay is refused for an unknown job, one not FAILED, an unreachable store, a lost or spoiled payload, in this order; otherwise it is a request of the same supplier, type, version, content and checksum, marked as its replay |
| SubmissionLaws.EveryRunKeepsSubmissions | src/supply_chain_hub/application/integration_services.py:178-226 | in every run: each job's object is retained under its checksum, request keys are unique, and replay links lead to older jobs with the same supplier, source type, adapter version and checksum |
| SubmissionLaws.ChecksumNeverFails | src/supply_chain_hub/application/integration_services.py:746-766 | in every run, a reachable store returns bytes that pass the checksum test for every job; no collision resistance is assumed |
| SubmissionLaws.ResubmissionIsIdempotent | src/supply_chain_hub/application/integration_services.py:179-191 | once a request key was accepted, from a partner or by a replay, then after any run the same content returns the same job and different content is refused, and neither changes any state |
| SubmissionLaws.ChainsShareContent | src/supply_chain_hub/application/integration_services.py:638-650 | following replay links ends at an original submission with the same content |
| InventoryLedgers.InventoryLedger.ApplyInventoryResult | src/supply_chain_hub/application/integration_services.py:769-801 | the import loop with its growing set of seen keys, error list and counters, on positions and snapshots updated in place |
| InventoryLedgers.InventoryLedger.ValidateAndApplyRecord | src/supply_chain_hub/application/integration_services.py:804-927 | one record: duplicate test, mapping checks in order, conversion, position write, snapshot |
| InventoryLedgers.InventoryLedger.SetInventory | src/supply_chain_hub/application/services.py:134-168 | the manual set: unknown warehouse or product, then negative quantities, are refused with nothing written; otherwise the position is inserted with version 1 or overwritten with its version counted up |
| InventoryLedgers.InventoryLedger.UpsertProductMapping | src/supply_chain_hub/application/integration_services.py:56-94 | the upsert in place, returning the stored mapping |
| InventoryLedgers.InventoryLedger.UpsertWarehouseMapping | src/supply_chain_hub/application/integration_services.py:97-130 | the upsert in place, returning the stored mapping |
| LedgerLaws.ImportIsFilter | src/supply_chain_hub/application/integration_services.py:780-792 | the loop is a filter by the ledger before the import and the file alone: it accepts exactly the first occurrences of their key, even when that first one then fails, that are not in the log and pass the checks; the snapshots, the errors and the count follow in file order |
| LedgerLaws.AcceptedExactly | src/supply_chain_hub/application/integration_services.py:812-883 | a record is accepted if and only if no earlier record of the file and no snapshot of the supplier has its reference, article and place, both its names have active mappings, its unit is the mapping's, and a factor, if it states one, is the mapping's |
| LedgerLaws.RefusedExactly | src/supply_chain_hub/application/integration_services.py:817-883 | a refused record is answered with its row and the code and field of the first of these conditions that it fails, in the order of the source |
| LedgerLaws.ImportDecides | src/supply_chain_hub/application/integration_services.py:769-801 | an import leaves each accepted record's conversion at its place among the new snapshots, each refusal at its place after the earlier and the adapter's errors, and counts the accepted ones |
| LedgerLaws.SnapshotProvenance | src/supply_chain_hub/application/integration_services.py:885-925 | snapshots are the conversions of the accepted records, one each and in file order: product, warehouse, unit, factor and versions of the active mappings, each quantity times the factor |
| LedgerLaws.WholeHistory | src/supply_chain_hub/application/integration_services.py:804-927 | after any history of upserts, manual sets and imports: one snapshot per source key; equal mapping versions mean equal product, unit, factor and warehouse; each position holds its last write and its version counts its writes |
| LedgerLaws.ReimportChangesNothing | src/supply_chain_hub/application/integration_services.py:817-829 | importing a file again, after anything else that let none of its failing records pass, accepts nothing and leaves the ledger as it is |
| LedgerLaws.HoldsAfterWrite | src/supply_chain_hub/application/integration_services.py:887-904 | one position write keeps the table equal to the last writes of the log, with versions counting them |
| LedgerLaws.LaterRecordWins | src/supply_chain_hub/application/integration_services.py:887-904 | of two records for one article and place the one applied last decides the position, whichever was observed later |
| LedgerLaws.SetExactly | src/supply_chain_hub/application/services.py:134-168 | a manual set is refused for an unknown warehouse or product, then for a negative quantity, and for nothing else; it then holds exactly its quantities, and its version is 1 or one more |
| LedgerLaws.MappingVersionsIdentify | src/supply_chain_hub/application/integration_services.py:56-130 | over any history no mapping is forgotten, versions never fall, and the same version is the same mapping |
| LedgerLaws.UpsertsAreIdempotent | src/supply_chain_hub/application/integration_services.py:56-130 | an upsert stores what was asked, touches no other mapping, adds one to the version iff something changes, and asked again changes nothing |
| HubLaws.LedgerIsReplay | src/supply_chain_hub/application/integration_services.py:365-441 | the ledger of every run is the replay of its history: each completion, late or not, is one import with the mappings in force at that point |
| HubLaws.LedgerOfEveryRun | src/supply_chain_hub/application/integration_services.py:769-927 | even with late workers: at most one snapshot per source key, lineage, and positions as their last write |
| Adapters.SupplierAInventoryAdapter | src/supply_chain_hub/integrations/supplier_a.py:51-69 | one record per item, numbered from 1 |
| Adapters.SupplierBInventoryAdapter | src/supply_chain_hub/integrations/supplier_b.py:41-104 | a file-level error, or per data row, numbered from 2, one record or all its field errors |
| Adapters.SupplierAFields | src/supply_chain_hub/integrations/supplier_a.py:54-69 | every item becomes one record in order, field by field: snapshot id, row from 1, item number, location, capture time, unit, on hand, allocated as reserved, no factor; there are no errors |
| Adapters.SupplierAImported | src/supply_chain_hub/integrations/supplier_a.py:63-64 | an accepted item ends in a snapshot of its on hand and allocated quantities, each times the factor of its mapping |
| Adapters.SupplierBFields | src/supply_chain_hub/integrations/supplier_b.py:69-103 | every valid row becomes one record in order, field by field, counted in cases with nothing reserved and its own units per case; every invalid one an error per field, with its row and the field's name |
| Adapters.SupplierBFiles | src/supply_chain_hub/integrations/supplier_b.py:43-67 | a file that cannot be decoded or lacks headers becomes one error of its own code without row or field |
| Adapters.SupplierBImported | src/supply_chain_hub/integrations/supplier_b.py:98-100 | an accepted row ends in a snapshot of its cases times its units per case |
| Adapters.SupplierBRowsAccounted | src/supply_chain_hub/integrations/supplier_b.py:69-104 | every data row becomes a record or errors on its own row, never both; rows ascend and together make up the file |
| Adapters.RowsConserved | src/supply_chain_hub/application/integration_services.py:795-801 | through an import, total = accepted + rejected = number of rows, a row with several errors is rejected once, and nothing is rejected iff there are no errors |
| Adapters.FileRejectionCountsOnce | src/supply_chain_hub/application/integration_services.py:795-801 | a rejected file counts as one rejected record and leaves the ledger as it is |
| Adapters.EachRecordCountsOnce | src/supply_chain_hub/application/integration_services.py:780-792 | the record loop accepts each record or rejects exactly its row |
| Risk.RiskRun | src/supply_chain_hub/analytics/risk.py:13-91 | only an empty list is refused; each result says of its record what is available, what will be left and short, the short share of the forecast, and the severity that the thresholds give it; severities rise with the ratios, the metrics measure the forecasts against the demands, the bounds hold |
| Risk.SeverityBounds | src/supply_chain_hub/analytics/risk.py:36-65 | of n positive ratios at least ceil(n/2) records are LOW and at most ceil((n-1)/5) HIGH, and the thresholds are ordered |
| Risk.ThresholdsExactly | src/supply_chain_hub/analytics/risk.py:43-50 | over the n sorted positive ratios the first threshold is the middle one or the mean of the two middle ones, the second lies four fifths of the way along the n - 1 gaps, by linear interpolation; both are zero if there are none |
| Risk.ThresholdsFromBelow | src/supply_chain_hub/analytics/risk.py:43-50 | at most n/2 positive ratios, rounded down, lie strictly below the first threshold and at most ceil(4(n-1)/5) below the second |
| Risk.OrderDoesNotMatter | src/supply_chain_hub/analytics/risk.py:43-65 | permuting the records changes neither thresholds nor any record's result |
| Risk.SeverityIsMonotone | src/supply_chain_hub/analytics/risk.py:53-65 | a larger shortage ratio never gets a lower severity |
| Risk.MedianBelowEighty | src/supply_chain_hub/analytics/risk.py:44-50 | the interpolated 0.5 quantile is at most the 0.8 quantile, also where both fall between the same two values |
| Risk.QuantileBetween | src/supply_chain_hub/analytics/risk.py:45-48 | an interpolated quantile lies between the order statistics around it |
| Risk.NoRiskExactly | src/supply_chain_hub/analytics/risk.py:32-42 | severity NONE iff the forecast is not positive or available plus inbound stock covers it |
| Risk.MetricsExactly | src/supply_chain_hub/analytics/risk.py:94-109 | arrays of different or zero length are refused and no others; the bias is total forecast minus total demand, the other means total absolute and squared error, each over the number of values, and the last metric total error over total demand, or zero without demand |
| Risk.MetricInequalities | src/supply_chain_hub/analytics/risk.py:100-109 | abs(bias) <= mean absolute error, whose square is at most the mean squared error |
| Risk.BelowRootMeanSquare | src/supply_chain_hub/analytics/risk.py:104-107 | abs(bias) <= mean absolute error <= every nonnegative number whose square is at least the mean squared error, the least of which is the root |
| Risk.PerfectForecast | src/supply_chain_hub/analytics/risk.py:98-109 | equal arrays give zero in every metric |
| Reconciliation.ReconcileWithPandas | src/supply_chain_hub/analytics/reconciliation.py:41-64 | one-to-one check, join, size check, differences, sort: some outcome the engine may produce |
| Reconciliation.ReconcileWithPolars | src/supply_chain_hub/analytics/reconciliation.py:97-126 | the same as one chain, with the size check after the sort |
| Reconciliation.EnginesAgree | src/supply_chain_hub/analytics/reconciliation.py:41-126 | with distinct record indices, the two engines return the same list or the same error, whatever row order their joins, sorts and inputs have |
| Reconciliation.AgreementExactly | src/supply_chain_hub/analytics/reconciliation.py:51-53 | on accepted inputs the engines are bound to agree if and only if the record indices are distinct: ties may be sorted differently |
| Reconciliation.TiedRows | src/supply_chain_hub/analytics/reconciliation.py:51-53 | two articles under one record index are accepted by both engines, with their two results in either order |
| Reconciliation.AcceptedExactly | src/supply_chain_hub/analytics/reconciliation.py:41-50 | either engine answers a repeated record index, article and warehouse first, then a row without its counterpart, and accepts if and only if there is neither |
| Reconciliation.ResultsExactly | src/supply_chain_hub/analytics/reconciliation.py:49-126 | in every outcome that either engine accepts the rows correspond one to one to the supplier rows and to the hub rows of the same record index, article and warehouse; each row reports both quantities, their difference, and a match if and only if they are equal; rows ascend by record index |
| Reconciliation.SizesMatchIffKeysMatch | src/supply_chain_hub/analytics/reconciliation.py:47-48 | the pigeonhole behind the size check, for every row order of the join |
| Reconciliation.DifferencesConserve | src/supply_chain_hub/analytics/reconciliation.py:49-126 | in every outcome that either engine accepts, differences sum to total reported minus total held |
| Shipments.Shipment.AddShipmentEvent | src/supply_chain_hub/application/services.py:298-337 | an event, in place: a repeated id, then an invalid event, is refused with nothing written; otherwise status, times and log are updated |
| Shipments.EventsExactly | src/supply_chain_hub/domain/shipments.py:4-44 | an event is accepted if and only if its id is new and it may happen: a pick-up only at the start, transit only from a pick-up or a delay, a delay only on the way and not twice running, a delivery only once under way, a cancellation only before the end; a repeated id conflicts, anything else is invalid; what an accepted event writes |
| Shipments.EveryRunAgrees | src/supply_chain_hub/domain/shipments.py:4-44 | in any run of offered events: the status is the fold of the table over the accepted ones and the one named by the last, ids are distinct, a pick-up only comes first, a delivery or cancellation only last, delivered_at is set iff DELIVERED and is that event's time |
| Shipments.FinalAndStable | src/supply_chain_hub/application/services.py:314-322 | nothing is accepted after DELIVERED or CANCELLED, shipped_at never changes once set, and the log only grows |
| Shipments.DeliveredWithoutShipTime | src/supply_chain_hub/application/services.py:315-319 | a delivered shipment lacks a ship time if and only if none was given at creation and its first event was a delay: the delay branch out of PLANNED skips the pick-up |
| Shipments.DelayedThenDelivered | src/supply_chain_hub/domain/shipments.py:8-12 | such a run: a delay, then a delivery, and no ship time |

## Left out

- Races inside one transaction: completion, upserts, manual sets and shipment events are atomic here; the code runs them at read committed without row locks, so two of them on the same row can lose an update.
- Uniqueness conflicts at commit: with atomic transactions the earlier lookup decides, so the conflict errors of concurrent inserts do not arise.
- Rounding: quantities are exact reals; storing a converted quantity with three decimals and the floating-point rounding of the analytics are not modelled.
- Risk.BelowRootMeanSquare: bounds every number whose square reaches the mean squared error instead of the root itself, because the model has no square root function.
- JobLaws.WaitingTimes: counts from the clock reading of a transaction; the code takes that reading before it waits for the row lock, so a hold can end earlier after the commit than its length.
- Parsing: JSON validation, UTF-8 decoding, CSV tokenising and time zone conversion are parameters of the model; adapters start from a valid payload, or from split rows that are valid or carry a nonempty list of fields in error.
- The hash, the calendar and the broker: the hash is any function, the date any function of the time, and the broker may deliver any job at any time.
- The object store: a map from key to bytes in which a put is stored, refused, or stored without confirmation; unreachability is a parameter of each load.
- Settings that change during a run, and clocks that run backwards or differ between machines.
- Ties in creation time: job ids are the order of creation, so the dispatch query never has to choose between equal times.
- A database that fails while a failure is being recorded: the task then only asks the broker for another delivery.
- Worker.RecoverStaleImports: the publishing that follows the sweep is left out; its receipts are the receipts of the protocol.
- Suppliers are identified with their codes, and rows of deleted reference data do not occur.
- Columns that no decision reads: started_at, failure messages, file names, content types, correlation ids, raw fragments, Celery task ids, and the events written for the learning view.
- The inline payload column of older jobs, and an object key or idempotency key that is missing.
- Dataframes: column types, empty frames and byte counts.
- HTTP routes, authentication, metrics, the user interface, listing and get queries, reference data, purchase orders, carrier messages, the Spark pipeline, data generators and benchmarks.
- The synchronous import helper, which only combines submission and one execution.
