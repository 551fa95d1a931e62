/**
 * What a settle call writes and answers, told from the provider's reply and from the record found, field by field and
 * without the functions that compute it.
 */
module Outcomes {
  import opened Wrappers
  import opened Settlement

  // ---------------------------------------------------------------- what a reply says

  predicate SaysSettled(reply: ProviderReply) {
    reply.ProviderReplied? && (reply.status == Some(ProviderSettled) || (reply.status.None? && reply.success))
  }

  predicate SaysSubmitted(reply: ProviderReply) {
    reply.ProviderReplied? && reply.status == Some(ProviderSubmitted)
  }

  predicate SaysFailed(reply: ProviderReply) {
    reply.ProviderReplied? && reply.status == Some(ProviderFailedFinal)
  }

  /** Nothing to rely on: an exception, UNKNOWN, or no status and no success. */
  predicate SaysNothing(reply: ProviderReply) {
    reply.ProviderRaised? || reply.status == Some(ProviderUnknown) || (reply.status.None? && !reply.success)
  }

  /** The payer is the one the reply names, and failing that the one in the payment payload. */
  predicate IsPayer(payer: Option<string>, reply: ProviderReply, payloadPayer: Option<string>)
    requires reply.ProviderReplied?
  {
    if reply.payer.Some? && reply.payer.value != "" then payer == reply.payer else payer == payloadPayer
  }

  // ---------------------------------------------------------------- what is written

  /** This status with this content is what a reply leaves on a record with content `before`. */
  predicate Leaves(before: Content, reply: ProviderReply, payloadPayer: Option<string>, status: Status,
                   content: Content)
  {
    match status
    case Settled =>
      && SaysSettled(reply) && content.transaction == reply.transaction
      && IsPayer(content.payer, reply, payloadPayer) && content.error.None?
    case Submitted =>
      && SaysSubmitted(reply) && content.transaction == reply.transaction
      && IsPayer(content.payer, reply, payloadPayer) && content.error.None?
    case SettleFailed => SaysFailed(reply) && content == before.(error := reply.error)
    case Unknown =>
      && SaysNothing(reply)
      && content == before.(error :=
                              if reply.ProviderRaised? then Some(ProviderSettlementException) else reply.error)
    case _ => false
  }

  /** The settler writes exactly what the reply leaves. */
  lemma WritesExactly(record: Record, reply: ProviderReply, payloadPayer: Option<string>, status: Status,
                      content: Content)
    ensures var f := FinalisationFor(record, reply, payloadPayer);
            f.status == status && Content(f.transaction, f.payer, f.error) == content
            <==> Leaves(ContentOf(record), reply, payloadPayer, status, content)
  {
  }

  // ---------------------------------------------------------------- what is answered

  /** The answer to the call that submitted the payment. */
  predicate Repeats(outcome: SettleOutcome, reply: ProviderReply, payloadPayer: Option<string>) {
    && !outcome.duplicate && (outcome.success <==> SaysSettled(reply))
    && (outcome.status == ProviderSettled <==> SaysSettled(reply))
    && (outcome.status == ProviderSubmitted <==> SaysSubmitted(reply))
    && (outcome.status == ProviderFailedFinal <==> SaysFailed(reply))
    && (outcome.status == ProviderUnknown <==> SaysNothing(reply))
    && if reply.ProviderRaised? then
         outcome.transaction.None? && outcome.payer.None? && outcome.error == Some(SettlementOutcomeUnknown)
       else
         && outcome.transaction == reply.transaction && outcome.error == reply.error
         && IsPayer(outcome.payer, reply, payloadPayer)
  }

  /** The answer from a record that was there before: final and submitted outcomes as recorded, all else UNKNOWN. */
  predicate Shows(outcome: SettleOutcome, record: Record) {
    && outcome.duplicate && outcome.payer == record.payer
    && (outcome.success <==> record.status == Settled)
    && (outcome.status == ProviderSettled <==> record.status == Settled)
    && (outcome.status == ProviderFailedFinal <==> record.status == SettleFailed)
    && (outcome.status == ProviderSubmitted <==> record.status == Submitted)
    && outcome.transaction == (if record.status in {Settled, Submitted} then record.transaction else None)
    && outcome.error == match record.status
                        case Settled => None
                        case SettleFailed => record.error
                        case Submitted => Some(SettlementSubmitted)
                        case Unknown | Reconciled => Some(SettlementOutcomeUnknown)
                        case ManualReview => Some(SettlementUnderManualReview)
                        case Received | SettleInProgress => Some(SettlementStillInProgress)
  }

  /** How a further claim is told that the record exists. */
  predicate ToldAs(claim: Claim, status: Status) {
    && (claim == DuplicateFinal <==> status in {Settled, SettleFailed})
    && (claim == DuplicateUnknown <==> status in {Unknown, Submitted, Reconciled})
    && (claim == DuplicateManualReview <==> status == ManualReview)
    && (claim == DuplicateInFlight <==> status in {Received, SettleInProgress})
  }

  lemma AnswersExactly(record: Record, reply: ProviderReply, payloadPayer: Option<string>, outcome: SettleOutcome)
    ensures outcome == FinalisationFor(record, reply, payloadPayer).outcome <==> Repeats(outcome, reply, payloadPayer)
    ensures outcome == CachedSettlement(record) <==> Shows(outcome, record)
  {
  }

  lemma ClaimsExactly(claim: Claim, status: Status)
    ensures claim == ClaimForStatus(status) <==> ToldAs(claim, status)
  {
  }
}
