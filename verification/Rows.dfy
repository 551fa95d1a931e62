/** Guarded updates of one settlement row. `None` means that the WHERE clause matched no row. */
module Rows {
  import opened Wrappers
  import opened Settlement

  // ---------------------------------------------------------------- settler

  /** The statuses from which the settler may finalise to `status`; empty when the status is unsupported. */
  function SettlerSources(status: Status): set<Status> {
    match status
    case Settled | Unknown => {SettleInProgress, Submitted}
    case Submitted | SettleFailed => {SettleInProgress}
    case _ => {}
  }

  /** A status write: every one of them also drops the lease. */
  function Rewritten(row: Record, status: Status, transaction: Option<string>, payer: Option<string>,
                     error: Option<Reason>, stamp: Time): Record
  {
    row.(status := status, transaction := transaction, payer := payer, error := error,
         owner := None, leaseUntil := None, updatedAt := stamp)
  }

  function Finalise(row: Record, f: Finalisation, stamp: Time): Option<Record> {
    if row.status in SettlerSources(f.status)
    then Some(Rewritten(row, f.status, f.transaction, f.payer, f.error, stamp))
    else None
  }

  function BumpDuplicate(row: Record, stamp: Time): Record {
    row.(duplicateClaims := row.duplicateClaims + 1, lastDuplicateAt := Some(stamp))
  }

  // ---------------------------------------------------------------- reconciler

  predicate LeaseFree(row: Record, stamp: Time) {
    row.leaseUntil.None? || row.leaseUntil.value <= stamp
  }

  /** A reconciler's claim leaves updatedAt alone. */
  function ReconcilerClaim(row: Record, owner: string, until: Time, eligible: set<Status>,
                           staleBefore: Option<Time>, stamp: Time): Option<Record>
  {
    if && row.status in eligible
       && (staleBefore.None? || row.updatedAt <= staleBefore.value)
       && LeaseFree(row, stamp)
    then Some(row.(owner := Some(owner), leaseUntil := Some(until),
                   reconciliationAttempts := row.reconciliationAttempts + 1))
    else None
  }

  /** The statuses from which a reconciler may move a record to `status`. */
  function ReconcilerSources(status: Status): set<Status> {
    match status
    case Settled => {Unknown, Submitted, SettleInProgress}
    case SettleFailed => {Unknown, SettleInProgress}
    case Unknown => {Submitted, SettleInProgress}
    case ManualReview => {Unknown}
    case _ => {}
  }

  /** The fenced update: owner, exact lease value and expiry all have to match. */
  function FencedWrite(row: Record, status: Status, transaction: Option<string>, payer: Option<string>,
                       error: Option<Reason>, owner: string, lease: Time, stamp: Time): Option<Record>
  {
    if && row.status in ReconcilerSources(status)
       && row.owner == Some(owner)
       && row.leaseUntil == Some(lease)
       && lease > stamp
    then Some(Rewritten(row, status, transaction, payer, error, stamp))
    else None
  }

  // ---------------------------------------------------------------- operator

  /** An operator's claim refreshes updatedAt, and takes active records only once they are stale. */
  function OperatorClaim(row: Record, owner: string, until: Time, activeStaleBefore: Time,
      stamp: Time): Option<Record> {
    if && row.status in {Unknown, ManualReview, Submitted, SettleInProgress}
       && !(row.status in {Submitted, SettleInProgress} && row.updatedAt > activeStaleBefore)
       && LeaseFree(row, stamp)
    then Some(row.(owner := Some(owner), leaseUntil := Some(until), updatedAt := stamp,
                   reconciliationAttempts := row.reconciliationAttempts + 1))
    else None
  }

  function Release(row: Record, owner: string, stamp: Time): Option<Record> {
    if row.owner == Some(owner)
    then Some(row.(owner := None, leaseUntil := None, updatedAt := stamp))
    else None
  }

  function OperatorReview(row: Record, owner: string, stamp: Time): Option<Record> {
    if && row.status == Unknown
       && row.owner == Some(owner)
       && row.leaseUntil.Some? && row.leaseUntil.value > stamp
    then Some(Rewritten(row, ManualReview, row.transaction, row.payer, Some(ManualReviewOperatorRequested), stamp))
    else None
  }

  // ---------------------------------------------------------------- attempts

  function FinishAttempt(attempt: Attempt, status: AttemptStatus, transaction: Option<string>,
                         error: Option<Reason>, stamp: Time): Attempt
  {
    attempt.(status := status, finishedAt := Some(stamp), transaction := transaction, error := error)
  }

  /** Reconciliation closes the attempts of a record that are still STARTED, and no others. */
  function CloseStarted(attempts: map<nat, Attempt>, recordId: nat, status: Status,
                        transaction: Option<string>, error: Option<Reason>, stamp: Time): map<nat, Attempt>
  {
    map a | a in attempts ::
      if attempts[a].recordId == recordId && attempts[a].status == Started
      then FinishAttempt(attempts[a], AttemptImage(status),
                         if transaction.Some? then transaction else attempts[a].transaction,
                         if error.Some? then error else attempts[a].error, stamp)
      else attempts[a]
  }

  // ---------------------------------------------------------------- what others may do

  /** What other actors may do to the rows meanwhile: no row disappears and no status falls back. */
  predicate Legal(rows: map<nat, Record>, next: map<nat, Record>) {
    forall id | id in rows :: id in next && Rank(rows[id].status) <= Rank(next[id].status)
  }
}
