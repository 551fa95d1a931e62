# Settlement facilitator: a verified model

This Dafny project models the hosted payment facilitator's hard parts and proves what they promise.

* **Settlement protocol** (`Settlement`, `Rows`, `Reconciliation`, `Protocol`, `Effects`, `ClaimSafety`, `Ledger`,
  `Attempts`, `Answers`, `Invariants`, `SettlementTheorems`, `SharedNames`, `Repetition`, `Conservation`, `Outcomes`,
  `Traces`, `Provenance`, `Acts`, `EnvelopeRuns`). Any number of settle calls, reconcilers and operators share one database. Their steps are the
  statements of the source: advisory lock, replay look-up, insert under the uniqueness constraint, attempt insert,
  commit, provider call, compare-and-swap, lease claim, fenced write, release, manual review. A run is any sequence of
  enabled steps, so callers interleave inside the claim transaction, any of them may crash anywhere, provider replies
  are arbitrary, and the clock only moves forward. The theorems are about every run.
* **Stores** (`Stores`, `StoreObjects`, `StoresExactly`, `MemoryRuns`, `Refinement`, `Profiles`). The in-memory store
  with its replay index and the database store, as objects proved against pure functions; for exactly which calls the
  two agree; and the interleaved claim steps, run without interruption, do what the database store's claim does in one
  go.
* **Reconciler** (`Scan`, `Candidates`, `Tally`, `Reconciler`, `Runner`). The candidate queries and their round-robin
  merge, one run over the database store while others change the tables between its statements, its statistics, and the
  loop around runs.
* **Rate limiters** (`Limits`, `LimitMeaning`, `LimitTheorems`, `LimitPolicy`, `LimiterObjects`). Fixed windows in memory and as a
  Redis script with expiring keys.
* **Connection pool** (`Pool`, `PoolTheorems`). A machine at the granularity of the pool's lock: operations on the idle
  queue outside the lock are steps of their own.
* **Circuit breaker and retry** (`Breaker`), **pause switches and audit trail** (`Pause`, `PauseObjects`),
  **decimals, envelope and fingerprint** (`Decimals`, `Envelope`), **prime sieve** (`Sieve`).

Conventions. Time is an integer number of ticks in the settlement protocol and a real number of seconds elsewhere.
A guarded SQL update is a function from a row to an optional row, `None` when its WHERE clause matches nothing.
Look-ups see every row committed before them, which is the READ COMMITTED isolation that PostgreSQL uses by default; with
a snapshot taken before the wait for the advisory lock the claim would not be safe.
A protocol history lists, oldest first, every event that touched a record's status or lease.
`Config.hash`, the hash of the advisory lock, is arbitrary: collisions only make claims wait for each other.
`Config.delay` bounds the time from reading the clock for a lease or status statement to the statement taking effect;
the timed theorems carry it as slack and are exact when it is zero.

Where the code and its description part, the model follows the code:

* A SUBMITTED record that the provider reports as finally failed is sent to a store method that refuses it; it counts as
  an error and stays SUBMITTED (`Reconciler.SubmittedFailureIsRefused`).
* A manual-review audit event records the lease as held afterwards although it is cleared
  (`StoreObjects.PostgresSettlementStore.ApplyControlAction`).
* A release that read the pool's closed flag before `close()` set it can put its connection back after the queue has been
  drained, so `close()` does not close everything (`PoolTheorems.CloseCanLeak`, `PoolTheorems.EndsCleanExactly`).
* A reconciler that claimed a SUBMITTED record can fail it from UNKNOWN, without its own wait, if another reconciler uses
  its name and lease value (`SharedNames.FailuresWaitExactly`).
* Redis keys carry a hash tag per seller while the in-memory address bucket is shared, and a script that runs more than a
  minute after a key's first use finds it expired (`LimitTheorems.PartOnTagOrLateness`).
* Amounts that are not integers are rounded to 28 significant digits before they are written out
  (`Decimals.TextCollidesElsewhere`).
* The stores look for a record in different orders, and the database reads an absent scheme or network as the empty string
  while the in-memory index does not (`StoresExactly.AnswerAlikeExactly`); no validated envelope brings this out
  (`EnvelopeRuns.EnvelopesAnswerAlike`).
* An in-memory audit tail with a limit of zero or less returns the whole trail (`Pause.TailsAgreeExactly`).
* The retry loop in the claim transaction can never go round: the row that won the insert is always visible
  (`SettlementTheorems.ClaimsNeverRetry`).
* The circuit breaker's note that errors do not trip the circuit is not what the code does: errors count and trip it like
  failures, and a transient settlement error on the last attempt counts twice (`Breaker.SettleWithRetry`).

## Model

| member | source | states |
|---|---|---|
| SettlementTheorems.AtMostOneSubmission | src/hosted_facilitator/hosted/postgres.py:2662-2793 | in every run at most one step is a provider call for a given (seller, provider, scheme, network, fingerprint), across payment profiles; every submitted key has a record, and no two records share a key |
| SettlementTheorems.ClaimsNeverRetry | src/hosted_facilitator/hosted/postgres.py:2677-2793 | after a lost insert, in every reachable state, one of the fallback look-ups finds a row, so the visibility retry is never taken |
| SettlementTheorems.SuccessMeansSettled | src/hosted_facilitator/hosted/engine.py:162-210 | every answer of success, fresh or cached, is backed in the final state of the run by a SETTLED record of that payment with the same transaction and payer |
| Provenance.SuccessWasSaid | src/hosted_facilitator/hosted/engine.py:142-210 | success is answered only where a provider said settled, to the settle call of that record or to a reconciler, and with the transaction and payer it said |
| Provenance.FailureMeansFailed | src/hosted_facilitator/hosted/engine.py:397-436 | every answer FAILED_FINAL is backed in the final state of the run by a SETTLE_FAILED record of that payment with the same error |
| Provenance.AnswersAreTrue | src/hosted_facilitator/hosted/engine.py:126-210 | every answer is either fresh, and repeats field by field what the provider returned to that very call, or cached, and shows status by status a record of that payment as it stood at some moment: final outcomes as recorded, SUBMITTED only from a SUBMITTED record with its transaction, and UNKNOWN without a transaction and with the reason for its status otherwise |
| Provenance.OutcomesWereSaid | src/hosted_facilitator/hosted/engine.py:142-210 | a record is SETTLED or SETTLE_FAILED in a reachable state only on the word of a provider asked in that run, and has the content that word leaves |
| Provenance.SettlersWriteReplies | src/hosted_facilitator/hosted/engine.py:142-210 | each status a settle call writes is the one its own provider call said: SETTLED iff said or success without a status, SUBMITTED and SETTLE_FAILED iff said, UNKNOWN iff it raised, said so, or gave neither; with the transaction of the reply and its payer, or the payload's where that is blank |
| Provenance.ReconcilersWriteReplies | src/hosted_facilitator/hosted/reconciliation.py:150-268 | each reconciler write is called for by the reply it was given: a settlement has the reply's transaction and payer, or the record's where blank, and a transaction it must have; every other write keeps both |
| Provenance.ReconcilersKeepContent | src/hosted_facilitator/hosted/reconciliation.py:150-268 | for workers with names of their own, that record is the row as it is: only a settlement changes transaction or payer |
| Provenance.ReviewsKeepContent | src/hosted_facilitator/hosted/postgres.py:3015-3223 | an operator's review was asked for, sets its own error and keeps transaction and payer |
| Provenance.TablesAreTheirWrites | src/hosted_facilitator/hosted/postgres.py:2825-2963 | a row has the content of its last status write, the stamp of its last status write, release or operator's claim, and a count of its leases; its attempt has the transaction, error and stamp of the first status write |
| Provenance.ClaimsWaitForStale | src/hosted_facilitator/hosted/postgres.py:2964-3223 | a reconciler leases a record only once its last update is as old as it asks for, and so does an operator where the record is SUBMITTED or in progress |
| Traces.StepKeepsTraces | src/hosted_facilitator/hosted/postgres.py:2825-3223 | every step of every actor keeps rows, attempts, leases, read records and answers traced to what was said |
| Outcomes.WritesExactly | src/hosted_facilitator/hosted/engine.py:142-210 | the status and content written for a reply are exactly those that the reply's own fields call for |
| Outcomes.AnswersExactly | src/hosted_facilitator/hosted/engine.py:397-436 | fresh and cached answers are exactly those that the reply's and the record's own fields call for, each status with its reason written out |
| Acts.SettlerWritesExactly | src/hosted_facilitator/hosted/postgres.py:2825-2900 | a settle call's outcome is stored exactly while its record is in progress, or SUBMITTED with an outcome that may follow |
| Acts.ReconcilerWritesExactly | src/hosted_facilitator/hosted/postgres.py:3363-3442 | what a reply calls for is stored exactly while owner, lease, expiry and source status fit, and the worker then holds nothing |
| Acts.ReconcilerClaimsExactly | src/hosted_facilitator/hosted/postgres.py:2964-2990 | a worker gets the lease exactly when the row has the status it looks for, is stale by its own setting and is free |
| Acts.OperatorClaimsExactly | src/hosted_facilitator/hosted/postgres.py:3015-3223 | an operator gets the lease of a free open record, of an active one only when stale, and that refreshes its update time |
| Acts.OperatorReleasesExactly | src/hosted_facilitator/hosted/postgres.py:3015-3223 | the holder of a lease can always put it down, and nobody else can |
| Acts.OperatorReviewsExactly | src/hosted_facilitator/hosted/postgres.py:3015-3223 | an operator reviews exactly the UNKNOWN records it holds an unexpired lease on |
| Acts.ReviewRun | src/hosted_facilitator/hosted/postgres.py:3015-3223 | from any state with a free UNKNOWN record, an operator's two steps bring it to review |
| Acts.ExistingRecordAnswers | src/hosted_facilitator/hosted/engine.py:105-125 | a call that has not begun its claim can be answered from any record with its profile or replay key, without a provider call |
| Repetition.SuccessIsRepeated | src/hosted_facilitator/hosted/engine.py:397-436 | in every run of calls of which any two for one seller and fingerprint share a replay key or a profile: once success was answered, every later call for that seller and fingerprint that answers at all answers success with the same transaction and payer |
| Repetition.RepeatedExactly | src/hosted_facilitator/hosted/engine.py:397-436 | success is repeated in every run of a set of calls if and only if no two of them for one seller and fingerprint differ in both replay key and profile |
| Repetition.UnlinkedPart | src/hosted_facilitator/hosted/engine.py:162-210 | for any two such calls there is a run in which the first is answered success and the second, begun afterwards, is not |
| EnvelopeRuns.EnvelopeSuccessIsRepeated | src/hosted_facilitator/hosted/engine.py:92-136 | the same for every run whose calls come from validated envelopes with textual scheme and network, under an injective hash, with nothing assumed of the calls themselves |
| EnvelopeRuns.ReplayKeysExactly | src/hosted_facilitator/hosted/engine.py:92-136 | calls of one seller made of validated envelopes share a replay key exactly when the envelopes make the same payment |
| EnvelopeRuns.AnsweredFromItsOwnPayment | src/hosted_facilitator/hosted/engine.py:92-136 | in every run no such call is answered from the record of another payment, not even one that differs in the nonce alone |
| SettlementTheorems.StatusesOnlyAdvance | src/hosted_facilitator/hosted/postgres.py:2836-2890 | every status write by anyone starts from the status before it and strictly raises the rank; a record has at most three |
| SettlementTheorems.TerminalForever | src/hosted_facilitator/hosted/postgres.py:3173-3311 | a terminal record keeps status, transaction, payer and error for the rest of the run, and SETTLED or SETTLE_FAILED ones hold no lease |
| SettlementTheorems.AttemptMirrorsRecord | src/hosted_facilitator/hosted/postgres.py:3417-3474 | every record has exactly one attempt, STARTED exactly while the record is in progress, else the image of the first status the record left progress for |
| SettlementTheorems.ClosedForever | src/hosted_facilitator/hosted/postgres.py:3561-3570 | a closed attempt keeps its status in every continuation |
| SettlementTheorems.WritesAreFenced | src/hosted_facilitator/hosted/postgres.py:3363-3442 | with no assumption on owners, the last event on a record before a reconciler's write is a claim by that owner with exactly that lease, unexpired at the write's stamp |
| SettlementTheorems.LeaseFencing | src/hosted_facilitator/hosted/postgres.py:3363-3442 | for workers with names of their own, which no operator uses, the last event before a reconciler's write is that reconciler's own claim, unexpired: no other claim, release or status write came between, and the record is as it was claimed |
| SettlementTheorems.RunKeepsNames | src/hosted_facilitator/hosted/postgres.py:2964-3013 | under such names every write comes from the latest claim of its owner |
| SettlementTheorems.LeasesNeverOverlap | src/hosted_facilitator/hosted/postgres.py:2964-3013 | a lease is claimed only when the previous one has expired, was released or was used up, and never on a final record |
| SettlementTheorems.ReconcilersWait | src/hosted_facilitator/hosted/reconciliation.py:130-238 | under any owners: a reconciler fails or reviews a record only from UNKNOWN, reviews it only after `stale_unknown_after` there and unasked only after `manual_review_after`, and fails it only after `stale_unknown_after` there unless it had claimed it as SUBMITTED |
| SettlementTheorems.FailuresWait | src/hosted_facilitator/hosted/reconciliation.py:171-182 | for workers with names of their own every failure waits `stale_unknown_after` in UNKNOWN, and is of a record claimed as UNKNOWN |
| SharedNames.FailuresWaitExactly | src/hosted_facilitator/hosted/reconciliation.py:171-182 | every failure in every run under given worker names waits `stale_unknown_after` in UNKNOWN exactly when no two slots share a non-empty name |
| SharedNames.SharedNamesHurry | src/hosted_facilitator/hosted/postgres.py:3363-3442 | for any names and any two slots that share one, a run under these names in which one of them fails a record that has just become UNKNOWN, against its own setting |
| SettlementTheorems.OthersAreLegal | src/hosted_facilitator/hosted/postgres.py:2836-2890 | whatever all actors do between two moments of a run, no record goes and no status falls back in rank |
| SettlementTheorems.ReconcilersNeedWarrant | src/hosted_facilitator/hosted/reconciliation.py:150-268 | under any owners, reconciliation settles a record only on a reply that said settled, fails it only on one that said finally failed, and sends it to review only on one that said neither |
| Invariants.StepKeepsInv | src/hosted_facilitator/hosted/postgres.py:2662-2890 | every step of every actor keeps the protocol's invariant: locks, pending rows and claims apart, ledger, attempts and answers |
| Invariants.StepProgresses | src/hosted_facilitator/hosted/postgres.py:2836-2890 | no step loses a record or its identity, and none rewrites a terminal outcome |
| ClaimSafety.StepKeepsClaimInv | src/hosted_facilitator/hosted/postgres.py:2677-2793 | callers never share a lock, a pending row, a pending attempt or a claim, and a claim not yet submitted has no submission, through every step |
| Attempts.ClosingKeepsAttempts | src/hosted_facilitator/hosted/postgres.py:3444-3474 | closing the open attempts of a record on a reconciled status keeps every attempt the image of its record's first exit |
| Profiles.ClaimsRefineStore | src/hosted_facilitator/hosted/postgres.py:2662-2793 | from any reachable state, every undisturbed run of a caller's claim steps that comes to an end has left the tables of the store's claim, and the caller with its claim or cached answer |
| Refinement.UndisturbedClaim | src/hosted_facilitator/hosted/postgres.py:2677-2793 | the same from any state whose tables satisfy the uniqueness constraints |
| Refinement.StepsRefineClaim | src/hosted_facilitator/hosted/postgres.py:2662-2793 | and such a run exists for every caller alone with the tables |
| Profiles.KeysAreUnique | src/hosted_facilitator/hosted/postgres.py:2662-2793 | in every reachable state a replay key, and a profile key, is on one row at most |
| Stores.StoresAgree | src/hosted_facilitator/hosted/storage.py:484-529 | where a fingerprint fixes provider, scheme and network, both stores give the same claims and answers to every sequence of settle calls and end with the same records and attempts |
| StoresExactly.AnswerAlikeExactly | src/hosted_facilitator/hosted/storage.py:484-529 | over a set of calls the two stores answer every sequence alike exactly when no two calls of different profiles share a replay key but not the in-memory key, and no call shares its profile with one call and its replay key with another of another profile and key |
| StoresExactly.PairParts | src/hosted_facilitator/hosted/postgres.py:2677-2700 | the second call of such a pair is a duplicate to the database and a fresh claim in memory |
| StoresExactly.TripleParts | src/hosted_facilitator/hosted/storage.py:272-296 | the last call of such a triple is answered from one record in memory and from another in the database |
| EnvelopeRuns.EnvelopesAnswerAlike | src/hosted_facilitator/hosted/fingerprint.py:9-35 | calls from validated envelopes with textual scheme and network never part the stores |
| Stores.RepeatGetsTheAnswer | src/hosted_facilitator/hosted/engine.py:397-436 | from any tables, a settle call that got the claim is answered field by field what the provider replied, and repeating it, from any profile of the seller, is a duplicate with that status and success, its transaction and payer when settled or submitted, and its error when finally failed |
| Stores.CachedEchoesFresh | src/hosted_facilitator/hosted/engine.py:142-210 | every provider reply is answered as it says, and the record it leads to is answered from later as the reply itself was |
| Stores.MemorySettleMeans | src/hosted_facilitator/hosted/engine.py:126-210 | a settle call that finds a record is told how it stands, from that record alone, and counted on it; any other gets the claim, repeats the reply and leaves a record and a closed attempt that say what the reply said; no other record changes |
| Stores.TablesSettleMeans | src/hosted_facilitator/hosted/engine.py:126-210 | the same over the database store |
| Stores.IndexIsScan | src/hosted_facilitator/hosted/storage.py:262-296 | after any settle calls the replay index answers exactly as a linear scan of the records |
| Stores.ClaimsConserved | src/hosted_facilitator/hosted/storage.py:484-529 | in the in-memory store the number of claims equals the number of records plus the sum of their duplicate counters |
| Conservation.ProtocolConservesClaims | src/hosted_facilitator/hosted/postgres.py:2677-2793 | in every run of the protocol the claim transactions committed equal the rows plus the sum of their duplicate counters |
| MemoryRuns.MemoryAtMostOneSubmission | src/hosted_facilitator/hosted/storage.py:484-529 | over the in-memory store, whose claim is one step under its lock, every interleaving and crash of settle calls has at most one provider call per replay key, across profiles |
| Stores.FirstForExact | src/hosted_facilitator/hosted/postgres.py:2677-2700 | the ordered replay query finds the row with the key that has the smallest id, or there is none |
| StoreObjects.InMemorySettlementStore.ClaimForSettlement | src/hosted_facilitator/hosted/storage.py:484-529 | keeps the store valid and does exactly the specified claim: record, claim answer, index and counters |
| StoreObjects.InMemorySettlementStore.StartSettleAttempt | src/hosted_facilitator/hosted/storage.py:531-544 | adds one STARTED attempt under the next id |
| StoreObjects.InMemorySettlementStore.FinishSettleAttempt | src/hosted_facilitator/hosted/storage.py:546-561 | finishes that attempt, and ignores an unknown id |
| StoreObjects.InMemorySettlementStore.Mark | src/hosted_facilitator/hosted/storage.py:563-599 | the mark methods change their own fields of one record and no others |
| StoreObjects.InMemorySettlementStore.Settle | src/hosted_facilitator/hosted/engine.py:126-210 | a settle call through this store: a record found answers from its own status and is counted; otherwise the answer repeats the reply, and the new record says what the reply said |
| StoreObjects.PostgresSettlementStore.ClaimAndStartSettleAttempt | src/hosted_facilitator/hosted/postgres.py:2662-2793 | the claim transaction: duplicate of the row found by replay key or unique key, or new record and attempt; a lost insert spends a sequence value |
| StoreObjects.PostgresSettlementStore.MarkRecordAndFinishSettleAttempt | src/hosted_facilitator/hosted/postgres.py:2825-2890 | compare-and-swap on status: record and attempt change together, or nothing does |
| StoreObjects.PostgresSettlementStore.ClaimReconciliationRecord | src/hosted_facilitator/hosted/postgres.py:2964-2990 | leases the row exactly when status, staleness and lease allow it, leaving its update time alone |
| StoreObjects.PostgresSettlementStore.ReleaseReconciliationRecord | src/hosted_facilitator/hosted/postgres.py:2992-3013 | only the owner releases, and the lease is cleared |
| StoreObjects.PostgresSettlementStore.UpdateReconciliationRecord | src/hosted_facilitator/hosted/postgres.py:3363-3474 | the fenced update: owner, exact lease value, expiry and source status all match, and then record and open attempts change together |
| StoreObjects.PostgresSettlementStore.ApplyControlAction | src/hosted_facilitator/hosted/postgres.py:3015-3223 | an operator's claim, release or manual review of a row, with the lease flags its audit event records |
| StoreObjects.PostgresSettlementStore.Settle | src/hosted_facilitator/hosted/engine.py:126-210 | the same through this store |
| Scan.ScanCandidates | src/hosted_facilitator/hosted/reconciliation.py:104-128 | the nested loops return the round-robin merge of the buckets cut off at the limit |
| Scan.ScanLength | src/hosted_facilitator/hosted/reconciliation.py:104-128 | exactly min(limit, total) records |
| Scan.OldestFirst | src/hosted_facilitator/hosted/reconciliation.py:104-128 | with a record, every older record of its bucket is returned too, and before it |
| Scan.Fair | src/hosted_facilitator/hosted/reconciliation.py:104-128 | every bucket gets at least min(its length, limit div 3) places |
| Scan.NoRecordTwice | src/hosted_facilitator/hosted/reconciliation.py:104-128 | disjoint buckets without repetition give no record twice |
| Reconciler.Take | src/hosted_facilitator/hosted/reconciliation.py:150-268 | one candidate through the store's claim and fenced update, with others acting in between: tables, counters and escaping exceptions are those of its visit |
| Reconciler.VisitIsHonest | src/hosted_facilitator/hosted/reconciliation.py:150-268 | a visit changes its own row at most, exactly as its turn says and to the content that reply and claimed record call for, whatever others did meanwhile; failures and reviews are of UNKNOWN rows only |
| Reconciler.UndisturbedVisit | src/hosted_facilitator/hosted/reconciliation.py:130-268 | left alone, a visit claims its record exactly when it is due by the run's settings, and writes a status exactly when reply and record call for it, the lease lasts, and it is not a failure of a SUBMITTED record |
| Reconciliation.DecidesExactly | src/hosted_facilitator/hosted/reconciliation.py:150-268 | which reply leads to which write with which content, as an if-and-only-if on the reply, the claimed status and its age: review iff the record is UNKNOWN, the reply is inconclusive, and it asks for review or the wait is over |
| Reconciliation.WithholdsExactly | src/hosted_facilitator/hosted/reconciliation.py:150-268 | and exactly when there is no write: no proof, an exception, or a record that has to wait |
| Reconciler.RunOnce | src/hosted_facilitator/hosted/reconciliation.py:71-102 | a run scans the store and works through what it found; it returns if and only if the scan does not fail and no turn aborts; then scanned is the length of the merged scan and claimed + skipped, each outcome counter is the number of rows the run itself moved to that status, and the counters add up to claimed plus the in-progress records whose provider raised |
| Reconciler.UndisturbedScan | src/hosted_facilitator/hosted/reconciliation.py:104-128 | if nothing changes while the queries run, the scan finds exactly min(limit, number of eligible records) records, and none twice |
| Reconciler.ScanStore | src/hosted_facilitator/hosted/reconciliation.py:104-128 | the three queries, with others acting in between, each give a bucket of the rows they read, and the scan is their merge |
| Candidates.ListCandidates | src/hosted_facilitator/hosted/postgres.py:882-893 | the query gives the oldest eligible rows in order, as many as there are up to the limit, each once |
| Tally.WorkIsAccounted | src/hosted_facilitator/hosted/reconciliation.py:150-268 | any counters that tally with turns without aborts satisfy that sum |
| Reconciler.SubmittedFailureIsRefused | src/hosted_facilitator/hosted/reconciliation.py:171-182 | a final failure reported for a SUBMITTED record that is still SUBMITTED at the write leaves the tables alone and counts as one error |
| Runner.RunLoop | src/hosted_facilitator/hosted/runner.py:100-133 | every pass is a run over the store from the tables the pass before it left, with its own scan; statistics are those of the passes; a stop, the bound on runs and failed runs, and an exception of the iteration callback each end the loop at once, and nothing else does |
| Runner.StatsAreTotals | src/hosted_facilitator/hosted/runner.py:744-753 | every pass counts as completed or failed, the aggregate is field by field the total of the completed runs, and last run and last error are those of the last completed run and the last pass |
| Runner.AggregateKeepsIdentities | src/hosted_facilitator/hosted/runner.py:744-753 | over any number of runs: scanned = claimed + skipped, the counters add up to claimed plus the in-progress records whose provider raised, and each outcome counter is the number of rows the runs moved to that status |
| LimitTheorems.LimitersAgree | src/hosted_facilitator/hosted/limits.py:140-177 | within one hash tag, as long as scripts asked for in one window run within a minute of each other, Redis admits exactly what the in-memory limiter admits and reports the same remaining count on admission |
| LimitTheorems.PromptIsTimely | src/hosted_facilitator/hosted/limits.py:205-250 | scripts that run inside their own window always do, because a key outlives its window |
| LimitTheorems.ReadingIsExact | src/hosted_facilitator/hosted/limits.py:148-152 | the server's reading of a key is the counter exactly while the minute from the key's first use lasts |
| LimitTheorems.PartOnTagOrLateness | src/hosted_facilitator/hosted/limits.py:205-250 | for any request after any timely run of one tag, the limiters differ on admission exactly when memory refuses and every bucket full in memory has a positive limit and is forgotten by the server: another tag, or over a minute since the key's first use |
| LimitTheorems.ReadingAfter | src/hosted_facilitator/hosted/limits.py:148-152 | after such a run the script reads zero of a forgotten key and the counter of any other |
| LimitTheorems.AdmissionsAreCounted | src/hosted_facilitator/hosted/limits.py:102-134 | a counter is the number of admissions that used its bucket in its window, so refusals consume nothing |
| LimitTheorems.AtMostLimitPerWindow | src/hosted_facilitator/hosted/limits.py:102-134 | under one policy a bucket admits at most its limit per window |
| LimitTheorems.AtMostTwiceInAMinute | src/hosted_facilitator/hosted/limits.py:102-134 | and at most twice its limit in any sixty seconds |
| LimitTheorems.RemainingIsExact | src/hosted_facilitator/hosted/limits.py:294-324 | an admission reporting r remaining is followed by exactly r more admissions of the same request in that window |
| LimitTheorems.RefusalLasts | src/hosted_facilitator/hosted/limits.py:108-121 | refused requests change no counter, so the refusal lasts for the window |
| LimitMeaning.MemoryMeaning | src/hosted_facilitator/hosted/limits.py:102-134 | the decision admits iff every bucket has room, and then reports the least number of places left in any bucket and the smallest limit of those; a refusal names a full bucket and a wait of one window |
| LimitMeaning.AdmissionPassMeaning | src/hosted_facilitator/hosted/limits.py:163-176 | the script's running minimum is the least number of places left |
| LimitMeaning.RefusalPassMeaning | src/hosted_facilitator/hosted/limits.py:140-162 | the script refuses iff a bucket is full, and names a full bucket with the smallest limit of the full ones and what it has left |
| LimitMeaning.BucketKeysDistinct | src/hosted_facilitator/hosted/limits.py:253-291 | the bucket keys of one request are all different |
| LimitMeaning.KeyDeterminesLimit | src/hosted_facilitator/hosted/limits.py:253-291 | under one policy a key has the limit of the policy field for its kind, whatever the request |
| LimitPolicy.BucketsExactly | src/hosted_facilitator/hosted/limits.py:253-291 | which buckets a request has, key by key and policy field by policy field, as an if-and-only-if |
| LimitPolicy.PolicyIsKept | src/hosted_facilitator/hosted/limits.py:23-39 | end to end, in any window each seller is admitted at most what the settle, verify, supported, invalid and seller fields say for requests of that kind, and each address what the ip and invalid fields say |
| LimitPolicy.SharedOnlyByParty | src/hosted_facilitator/hosted/limits.py:253-291 | two requests share a bucket only through one seller or one address, up to sanitising |
| LimitPolicy.SafePartMeans | src/hosted_facilitator/hosted/limits.py:327-328 | a sanitised name keeps its safe letters in place, has underscores for the others, and is cut after 128 |
| LimitMeaning.TagsExactly | src/hosted_facilitator/hosted/limits.py:331-336 | two requests have one hash tag exactly when they have one seller, or none and one address, or neither |
| LimitMeaning.RedisReports | src/hosted_facilitator/hosted/limits.py:205-240 | what the client reports of a script reply: reset and wait, and the full bucket named with what it has left |
| LimitMeaning.RefusalWaitsLongest | src/hosted_facilitator/hosted/limits.py:140-162 | the wait reported with a refusal is the longest of the full buckets |
| LimitMeaning.LivesFor | src/hosted_facilitator/hosted/limits.py:140-162 | a key's time to live is its remaining time, to the nearest second |
| LimitMeaning.WindowsAgree | src/hosted_facilitator/hosted/limits.py:126-127 | windows from fractional and from whole seconds are the same |
| Limits.Tightest | src/hosted_facilitator/hosted/limits.py:312-324 | one of the decisions, and none is tighter by remaining count and then by limit |
| Limits.LongestWait | src/hosted_facilitator/hosted/limits.py:312-317 | one of the refusals, and none waits longer |
| LimiterObjects.InMemoryFixedWindowRateLimiter.Check | src/hosted_facilitator/hosted/limits.py:102-134 | admits exactly when every bucket the policy gives the request has room, and then counts it once in each of them and nowhere else; a refusal leaves the counters alone |
| LimiterObjects.RedisFixedWindowRateLimiter.Check | src/hosted_facilitator/hosted/limits.py:205-250 | admits exactly when every such bucket has room by what the server still holds, and updates the server as the script does |
| LimiterObjects.RedisFixedWindowRateLimiter.RunScript | src/hosted_facilitator/hosted/limits.py:140-177 | the script's two loops give the specified reply and server |
| PoolTheorems.PoolIsSafe | src/hosted_facilitator/hosted/postgres.py:3669-3775 | in every interleaving of checkout, release and close: open connections within the total within the size, none both idle and held, held twice or handed out closed, and the queue-full branch is never reached |
| PoolTheorems.QuietPoolBalances | src/hosted_facilitator/hosted/postgres.py:3712-3760 | between calls no place leaks: the total is what lies idle plus what close drained, and only idle connections are open |
| PoolTheorems.StaysEmptyExactly | src/hosted_facilitator/hosted/postgres.py:3712-3760 | after close has emptied the queue it stays empty in every continuation exactly when no release that saw the pool open is under way |
| PoolTheorems.EndsCleanExactly | src/hosted_facilitator/hosted/postgres.py:3712-3760 | after close has emptied the queue, every continuation that comes to rest has closed every connection exactly when no such release is under way |
| PoolTheorems.LateReleaseLeaks | src/hosted_facilitator/hosted/postgres.py:3746-3760 | from any closed state with such a release, a run brings every thread to rest with a connection left open |
| PoolTheorems.ClosedForGood | src/hosted_facilitator/hosted/postgres.py:3722-3744 | once the pool is closed and no checkout is under way, no run hands out or makes a connection again |
| PoolTheorems.LastBackFirstOut | src/hosted_facilitator/hosted/postgres.py:3722-3760 | while the pool is open, the connection put back last is handed out next |
| PoolTheorems.CheckoutMakesRoom | src/hosted_facilitator/hosted/postgres.py:3722-3744 | with nothing idle, a checkout can make a connection whenever there is a place |
| PoolTheorems.CloseCanLeak | src/hosted_facilitator/hosted/postgres.py:3712-3760 | from any new pool a run leads to a closed, quiet pool with an open connection |
| PoolTheorems.StepKeepsInv | src/hosted_facilitator/hosted/postgres.py:3722-3760 | every step keeps places counted, connections in one custody, the lock exclusive and the queue below its size |
| Breaker.BreakerIsItsHistory | src/hosted_facilitator/nanopayments/adapter.py:144-207 | with a monotone clock the lazily updated breaker refuses exactly when the failures since the last success or reset reach the threshold and the last is within the recovery time |
| Breaker.RefusedAfter | src/hosted_facilitator/nanopayments/adapter.py:144-207 | the breaker object, driven by any history of successes, failures, errors, resets and reads, refuses exactly when its history says so |
| Breaker.ReadsDoNotMatter | src/hosted_facilitator/nanopayments/adapter.py:155-167 | with a monotone clock the breaker refuses the same with and without the reads in its history, although reading changes its state |
| Breaker.SettleWithRetry | src/hosted_facilitator/nanopayments/adapter.py:777-878 | submits at most retries + 1 times and only after transient replies, sleeps exactly the backoff of the waits taken, returns None iff retries is negative, and leaves the breaker with all it heard |
| Breaker.HeardIsReplayed | src/hosted_facilitator/nanopayments/adapter.py:809-873 | what the loop does to the breaker is the replay of its events, so the history theorem applies |
| Breaker.TotalWaitClosedForm | src/hosted_facilitator/nanopayments/adapter.py:809-836 | the waits add up to base * (2^n - 1) |
| Breaker.WaitBounded | src/hosted_facilitator/nanopayments/adapter.py:809-836 | no run of the loop sleeps longer than all its retries would |
| Breaker.NanopaymentCircuitBreaker.ReadState | src/hosted_facilitator/nanopayments/adapter.py:155-163 | reading moves an open breaker whose recovery is over to half-open |
| Breaker.NanopaymentCircuitBreaker.IsAvailable | src/hosted_facilitator/nanopayments/adapter.py:165-167 | available unless open after that reading |
| Breaker.NanopaymentCircuitBreaker.RecordSuccess | src/hosted_facilitator/nanopayments/adapter.py:169-175 | closes the breaker and forgets all failures |
| Breaker.NanopaymentCircuitBreaker.RecordFailure | src/hosted_facilitator/nanopayments/adapter.py:177-187 | counts and dates the failure, and opens at the threshold |
| Breaker.NanopaymentCircuitBreaker.RecordError | src/hosted_facilitator/nanopayments/adapter.py:189-201 | the same for errors |
| Pause.AuditTellsState | src/hosted_facilitator/hosted/control_plane.py:141-175 | after any operations, replaying the audit trail from nothing gives the pause state, each pause event starts where the previous one on its target ended, and events are numbered in order |
| Pause.SameAnswersAfterAnyChanges | src/hosted_facilitator/hosted/postgres.py:1123-1254 | after any operations the rows let through exactly the payments the sets do, with the same audit trail |
| Pause.ReplayTellsLast | src/hosted_facilitator/hosted/control_plane.py:290-302 | a target is paused in the replayed state iff its last event left it paused |
| Pause.SafeNameIsStable | src/hosted_facilitator/hosted/control_plane.py:2496-2498 | a sanitised provider name is unchanged by sanitising it again when rows are read back |
| Pause.TailsAgreeExactly | src/hosted_facilitator/hosted/control_plane.py:134-136 | the audit tails of the two forms are equal exactly when the limit is positive or the trail empty |
| Pause.TailIsNewest | src/hosted_facilitator/hosted/control_plane.py:134-136 | the table's tail is the newest events, newest first, as many as asked for up to a hundred |
| Pause.LetThroughExactly | src/hosted_facilitator/hosted/control_plane.py:281-302 | after any requests, in either form, a payment is let through exactly when the last request that reached everything, its provider and its network each said to go on, told from the requests as they were sent |
| Pause.SafeNameIsPrefix | src/hosted_facilitator/hosted/control_plane.py:2496-2498 | a sanitised name is what is left of the name, cut after 64 letters, or "unknown" if nothing is left |
| Pause.KeepsPartByPart | src/hosted_facilitator/hosted/control_plane.py:2496-2498 | sanitising drops letters one by one, wherever they stand |
| PauseObjects.InMemoryControlPlaneState.SetPauseTarget | src/hosted_facilitator/hosted/control_plane.py:141-175 | refused targets change nothing; otherwise one switch changes and one event is appended |
| PauseObjects.InMemoryControlPlaneState.AllowsPayment | src/hosted_facilitator/hosted/control_plane.py:281-288 | the answer specified from the three switches |
| PauseObjects.PostgresControlPlaneState.SetPauseTarget | src/hosted_facilitator/hosted/postgres.py:1185-1254 | one transaction: the row is made sure of, read, overwritten, and the event recorded |
| PauseObjects.PostgresControlPlaneState.ReadPauseState | src/hosted_facilitator/hosted/postgres.py:1123-1143 | reading the paused rows in any order gives exactly the pause state they represent |
| Decimals.SameTextSameNumber | src/hosted_facilitator/hosted/fingerprint.py:55-64 | two literals get the same canonical text exactly when their rounded numbers are equal |
| Decimals.TextDecidesNumber | src/hosted_facilitator/hosted/fingerprint.py:55-64 | for integers of any size and other numbers of up to 28 significant digits, exactly when they denote the same number |
| Decimals.RoundingKeepsExactly | src/hosted_facilitator/hosted/fingerprint.py:62-64 | rounding keeps the number exactly when its significant digits fit |
| Decimals.TextCollidesElsewhere | src/hosted_facilitator/hosted/fingerprint.py:62-64 | every other literal shares its text with a different number |
| Decimals.LongFractionCollides | src/hosted_facilitator/hosted/validation.py:63-70 | for instance one and one unit in the 28th or any later decimal place |
| Decimals.PositionalInjective | src/hosted_facilitator/hosted/fingerprint.py:62-64 | positional text determines sign, units and decimal places |
| Decimals.CanonicalReads | src/hosted_facilitator/hosted/fingerprint.py:62-64 | reading canonical text back gives the rounded number |
| Decimals.RoundedIsNearest | src/hosted_facilitator/hosted/fingerprint.py:62-64 | rounding is to the nearest number of 28 digits, halves to even |
| Envelope.ValidatedExactly | src/hosted_facilitator/hosted/validation.py:13-52 | an envelope passes exactly when scheme and network print alike, asset and payTo are the same up to case, amounts are the same number, timeouts do not differ, and versions and extras are equal |
| Envelope.ComplainsExactly | src/hosted_facilitator/hosted/validation.py:13-52 | otherwise it is refused with the first complaint in order: no accepted object, terms, timeout, versions, extras |
| Envelope.FirstComplaint | src/hosted_facilitator/hosted/validation.py:22-31 | and among the terms with the first that does not agree, by what is wrong with it |
| Envelope.EitherObjectExactly | src/hosted_facilitator/hosted/validation.py:55-60 | a validated envelope has the same canonical terms from either object exactly when scheme and network are the same values and asset and payTo the same or both hexadecimal |
| Envelope.HexTermsAgree | src/hosted_facilitator/hosted/fingerprint.py:19-35 | so with 0x addresses and textual scheme and network, whatever the case |
| Envelope.FingerprintFixesTerms | src/hosted_facilitator/hosted/fingerprint.py:9-35 | under an injective hash, validated envelopes with one fingerprint have one provider, the same printed scheme and network, and the same values where these are text |
| Envelope.FingerprintExactly | src/hosted_facilitator/hosted/fingerprint.py:9-64 | under an injective hash, two envelopes have one fingerprint exactly when provider, version, scheme and network are equal, asset, payTo, from, to and nonce are equal up to the case of hexadecimal text, and amount, value, validAfter and validBefore are each absent in both or the same number |
| Envelope.FingerprintExists | src/hosted_facilitator/hosted/fingerprint.py:55-64 | there is a fingerprint exactly when every quantity is absent or a number |
| Sieve.PrimeCount | external-seller/app.py:277-289 | for every limit, the number of primes not exceeding it |
| Sieve.ReplacementFits | external-seller/app.py:286-287 | the replacement is exactly as long as the slice it replaces |
| Sieve.ZeroSlice | external-seller/app.py:287 | accepts only a replacement of the slice's length, zeroes the slice and nothing else |
| Sieve.CompositeAddsNothing | external-seller/app.py:284-288 | the multiples of a crossed-out number have all been crossed out already |
| Sieve.LeftOverIsPrime | external-seller/app.py:283-289 | what is left when the outer loop ends is prime, and every prime is left |

## Left out

- Operations console, HTTP routes, telemetry, authentication, signers and the chain providers: plumbing and foreign calls; providers appear as arbitrary replies.
- SQLite store: the in-memory store's claim logic again, without reconciliation.
- Schema, migrations, health queries and environment checks: the model keeps transaction atomicity, row and advisory locks, sequences and the uniqueness constraint.
- Trace ids, raw requirements, amounts and network in records and answers: carried along, never decided on.
- Identity of live record objects: the in-memory store hands out objects that callers may go on to mutate; records are values here.
- SettlementTheorems.LeaseFencing: worker names are distinct and no operator uses one, as the source's owner names are meant to be; SettlementTheorems.WritesAreFenced is what holds without it. Waits and expiry are exact up to the bound on statement delay.
- Stores.StoresAgree: sequential settle calls only; concurrency is the subject of the protocol.
- Reconciler.RunOnce: a write whose answer is lost after it took effect is not modelled; a failing store changes nothing.
- Runner.RunLoop: the lengths of sleeps, and what the iteration callback does besides raising, are not modelled.
- LimitTheorems.LimitersAgree: refusals may differ in wait, limit and remaining count, because the script reports the key's own time to live.
- Rate-limit keys and target names: letters and digits are the ASCII ones, and Redis keys are triples of tag, bucket key and window.
- Envelope lower-casing is ASCII; comparison of versions and extra fields is a parameter, and so is the reading of decimal literals, NaN and infinities included.
- Decimals: exponent limits of the decimal context, and the limit of 4300 digits beyond which Python 3.11 and later refuse to write out an integer and the fingerprint raises instead.
- Pool wrapper's released flag, which is read and set without a lock: every checkout has one user here. Connection waits and timeouts have no duration.
- PoolTheorems.StaysEmptyExactly: a second call of close() may still drain what came late.
- Breaker arithmetic is on reals; the tolerance of 1e-9 is kept.
- Reasons, actors and correlation ids of audit events.
