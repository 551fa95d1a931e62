/** What a reconciler does with one claimed record, as a function of the record and the provider's reply. */
module Reconciliation {
  import opened Wrappers
  import opened Settlement

  datatype ReconcileStatus =
    OutcomeSettled | OutcomeFailedFinal | OutcomeUnknown | OutcomeManualReview | OutcomePending

  /** The provider lookup and call: no such provider, an exception, or an outcome. */
  datatype ReconcileReply =
    | NotRegistered
    | ReconcileRaised
    | ReconcileReplied(status: ReconcileStatus, transaction: Option<string>,
                       payer: Option<string>, error: Option<Reason>)

  /** One reconciler run: its settings, and the instant it read the clock. */
  datatype Run = Run(
    owner: string,
    leaseSeconds: Time,
    staleInProgressAfter: Time,
    staleSubmittedAfter: Time,
    staleUnknownAfter: Time,
    manualReviewAfter: Time,
    now: Time)
  {
    function Lease(): Time { now + leaseSeconds }

    function StaleAfter(status: Status): Time {
      match status
      case SettleInProgress => staleInProgressAfter
      case Submitted => staleSubmittedAfter
      case _ => staleUnknownAfter
    }

    function StaleBefore(status: Status): Time { now - StaleAfter(status) }
  }

  datatype Decision =
    | LeavePending
    | LeaveAfterError
    | MissingProof
    | Write(status: Status, transaction: Option<string>, payer: Option<string>, error: Option<Reason>)

  function DefaultUnknownReason(record: Record): Reason {
    if record.status == SettleInProgress then StaleSettleInProgress else ReconciliationUnknown
  }

  function MarkUnknown(record: Record, error: Option<Reason>): Decision {
    Write(Unknown, record.transaction, record.payer, Some(ReasonOrElse(error, DefaultUnknownReason(record))))
  }

  function ManualOrPending(run: Run, record: Record, now: Time, error: Option<Reason>): Decision {
    if record.status == SettleInProgress then
      MarkUnknown(record, error)
    else if record.status == Unknown && now - record.updatedAt >= run.manualReviewAfter then
      Write(ManualReview, record.transaction, record.payer, error)
    else
      LeavePending
  }

  function Decide(run: Run, record: Record, reply: ReconcileReply): Decision {
    match reply
    case NotRegistered =>
      ManualOrPending(run, record, run.now, Some(ReconciliationProviderNotRegistered))
    case ReconcileRaised =>
      if record.status == SettleInProgress
      then MarkUnknown(record, Some(ProviderReconciliationException))
      else LeaveAfterError
    case ReconcileReplied(status, transaction, payer, error) =>
      match status
      case OutcomeSettled =>
        var proof := OrElse(transaction, record.transaction);
        if Blank(proof) then MissingProof else Write(Settled, proof, OrElse(payer, record.payer), None)
      case OutcomeFailedFinal =>
        if record.status == SettleInProgress
        then MarkUnknown(record, error)
        else Write(SettleFailed, record.transaction, record.payer, error)
      case OutcomeUnknown =>
        if record.status == Submitted || record.status == SettleInProgress
        then MarkUnknown(record, error)
        else ManualOrPending(run, record, run.now, error)
      case OutcomeManualReview =>
        ManualOrPending(run, record, run.now + run.manualReviewAfter, error)
      case OutcomePending =>
        ManualOrPending(run, record, run.now, error)
  }

  /** A reply that asks for manual review in so many words. */
  predicate AsksForReview(reply: ReconcileReply) {
    reply.ReconcileReplied? && reply.status == OutcomeManualReview
  }

  /** What a reply must have said for a reconciler to write a status on the strength of it. */
  predicate Warrants(reply: ReconcileReply, status: Status) {
    match status
    case Settled => reply.ReconcileReplied? && reply.status == OutcomeSettled
    case SettleFailed => reply.ReconcileReplied? && reply.status == OutcomeFailedFinal
    case ManualReview =>
      reply.NotRegistered?
      || (reply.ReconcileReplied? && reply.status != OutcomeSettled && reply.status != OutcomeFailedFinal)
    case Unknown => reply.ReconcileReplied? ==> reply.status != OutcomeSettled
    case _ => false
  }

  // ---------------------------------------------------------------- the decision, from the reply's own words

  predicate Says(reply: ReconcileReply, status: ReconcileStatus) {
    reply.ReconcileReplied? && reply.status == status
  }

  /** `chosen` is the reply's word where it has one, and otherwise what the record already said. */
  predicate Preferred(chosen: Option<string>, reply: Option<string>, record: Option<string>) {
    if reply.Some? && reply.value != "" then chosen == reply else chosen == record
  }

  /** The reply has nothing final to say: no provider, or UNKNOWN, PENDING or a request for review. */
  predicate Inconclusive(reply: ReconcileReply) {
    || reply.NotRegistered? || Says(reply, OutcomeUnknown) || Says(reply, OutcomePending)
    || Says(reply, OutcomeManualReview)
  }

  /** The reason a reply gives: its own words, or the code for what went wrong. */
  function ReasonIn(reply: ReconcileReply): Option<Reason> {
    match reply
    case NotRegistered => Some(ReconciliationProviderNotRegistered)
    case ReconcileRaised => Some(ProviderReconciliationException)
    case ReconcileReplied(_, _, _, error) => error
  }

  /** An UNKNOWN record is due for review: the provider asks for it, or it has been waiting long enough. */
  predicate DueForReview(run: Run, record: Record, reply: ReconcileReply) {
    if Says(reply, OutcomeManualReview) then run.now >= record.updatedAt
    else run.now >= record.updatedAt + run.manualReviewAfter
  }

  /** This write of this content is what the reply and the claimed record call for. */
  predicate CalledFor(run: Run, record: Record, reply: ReconcileReply, status: Status, content: Content) {
    match status
    case Settled =>
      && Says(reply, OutcomeSettled)
      && content.transaction.Some? && content.transaction.value != ""
      && Preferred(content.transaction, reply.transaction, record.transaction)
      && Preferred(content.payer, reply.payer, record.payer) && content.error.None?
    case SettleFailed =>
      && Says(reply, OutcomeFailedFinal) && record.status != SettleInProgress
      && content == Content(record.transaction, record.payer, reply.error)
    case Unknown =>
      && (if record.status == SettleInProgress then !Says(reply, OutcomeSettled)
          else record.status == Submitted && Says(reply, OutcomeUnknown))
      && content.transaction == record.transaction && content.payer == record.payer && content.error.Some?
      && (if ReasonIn(reply).Some? && ReasonIn(reply) != Some(Said("")) then content.error == ReasonIn(reply)
          else if record.status == SettleInProgress then content.error.value == StaleSettleInProgress
          else content.error.value == ReconciliationUnknown)
    case ManualReview =>
      && record.status == Unknown && Inconclusive(reply) && DueForReview(run, record, reply)
      && content == Content(record.transaction, record.payer, ReasonIn(reply))
    case _ => false
  }

  /** A reconciler decides on a write exactly when the reply and the record call for it, and of nothing else. */
  lemma DecidesExactly(run: Run, record: Record, reply: ReconcileReply, status: Status, content: Content)
    ensures Decide(run, record, reply) == Write(status, content.transaction, content.payer, content.error)
            <==> CalledFor(run, record, reply, status, content)
  {
  }

  /** And where it decides on none: a settlement without proof, an exception, or a record that has to wait. */
  lemma WithholdsExactly(run: Run, record: Record, reply: ReconcileReply)
    requires record.status in {SettleInProgress, Submitted, Unknown}
    ensures Decide(run, record, reply).MissingProof? <==>
              && Says(reply, OutcomeSettled)
              && (reply.transaction.None? || reply.transaction.value == "")
              && (record.transaction.None? || record.transaction.value == "")
    ensures Decide(run, record, reply).LeaveAfterError? <==> reply.ReconcileRaised? && record.status != SettleInProgress
    ensures Decide(run, record, reply).LeavePending? <==>
              && Inconclusive(reply)
              && (|| (record.status == Submitted && !Says(reply, OutcomeUnknown))
                  || (record.status == Unknown && !DueForReview(run, record, reply)))
  {
  }
}
