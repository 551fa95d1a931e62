/** Settlement records, attempts and claims: the vocabulary of the settlement store. */
module Settlement {
  import opened Wrappers

  /** Instants and durations, in whole ticks of the system clock. */
  type Time = int

  datatype Status =
    | Received
    | SettleInProgress
    | Submitted
    | Settled
    | SettleFailed
    | Unknown
    | Reconciled
    | ManualReview

  datatype AttemptStatus = Started | AttemptSubmitted | AttemptSettled | AttemptFailed | AttemptUnknown

  datatype Claim = Claimed | DuplicateInFlight | DuplicateFinal | DuplicateUnknown | DuplicateManualReview

  /** The identity of one settle request: the columns that are written once, at insertion. */
  datatype Call = Call(
    seller: string,
    profile: string,
    fingerprint: string,
    provider: string,
    scheme: Option<string>,
    network: Option<string>)

  /** What the database treats as one provider submission: absent scheme and network read as "". */
  datatype ReplayKey = ReplayKey(
    seller: string, provider: string, scheme: string, network: string, fingerprint: string)

  /** The columns of the table's uniqueness constraint. */
  datatype ProfileKey = ProfileKey(seller: string, profile: string, fingerprint: string)

  function Coalesce(text: Option<string>): string {
    if text.Some? then text.value else ""
  }

  function ReplayKeyOf(call: Call): ReplayKey {
    ReplayKey(call.seller, call.provider, Coalesce(call.scheme), Coalesce(call.network), call.fingerprint)
  }

  function ProfileKeyOf(call: Call): ProfileKey {
    ProfileKey(call.seller, call.profile, call.fingerprint)
  }

  /** The provider, scheme and network that a fingerprint was taken over. */
  datatype Terms = Terms(provider: string, scheme: Option<string>, network: Option<string>)

  predicate Fixed(terms: string -> Terms, call: Call) {
    terms(call.fingerprint) == Terms(call.provider, call.scheme, call.network)
  }

  /** Why a record or an answer is not a success: a provider's own words, or one of the facilitator's codes. */
  datatype Reason =
    | Said(text: string)
    | ProviderSettlementException
    | SettlementOutcomeUnknown
    | SettlementSubmitted
    | SettlementStillInProgress
    | SettlementUnderManualReview
    | DuplicateSettlement
    | ManualReviewOperatorRequested
    | StaleSettleInProgress
    | ReconciliationUnknown
    | ProviderReconciliationException
    | ReconciliationProviderNotRegistered

  datatype Record = Record(
    call: Call,
    status: Status,
    transaction: Option<string>,
    payer: Option<string>,
    error: Option<Reason>,
    createdAt: Time,
    updatedAt: Time,
    owner: Option<string>,
    leaseUntil: Option<Time>,
    reconciliationAttempts: nat,
    duplicateClaims: nat,
    lastDuplicateAt: Option<Time>)

  datatype Attempt = Attempt(
    recordId: nat,
    status: AttemptStatus,
    startedAt: Time,
    finishedAt: Option<Time>,
    transaction: Option<string>,
    error: Option<Reason>)

  /** What a status write says about the payment. */
  datatype Content = Content(transaction: Option<string>, payer: Option<string>, error: Option<Reason>)

  const NO_CONTENT := Content(None, None, None)

  function ContentOf(row: Record): Content {
    Content(row.transaction, row.payer, row.error)
  }

  function NewRecord(call: Call, now: Time): Record {
    Record(call, SettleInProgress, None, None, None, now, now, None, None, 0, 0, None)
  }

  function NewAttempt(recordId: nat, now: Time): Attempt {
    Attempt(recordId, Started, now, None, None, None)
  }

  /** How an existing record of this status answers a further claim. */
  function ClaimForStatus(status: Status): Claim {
    match status
    case Settled | SettleFailed => DuplicateFinal
    case Unknown | Submitted | Reconciled => DuplicateUnknown
    case ManualReview => DuplicateManualReview
    case Received | SettleInProgress => DuplicateInFlight
  }

  /** Final statuses carry a definite outcome; manual review is terminal without one. */
  predicate Final(status: Status) {
    status == Settled || status == SettleFailed
  }

  predicate Terminal(status: Status) {
    Final(status) || status == ManualReview
  }

  /** The order in which a record may move through its statuses. */
  function Rank(status: Status): nat {
    match status
    case Received | SettleInProgress => 0
    case Submitted => 1
    case Unknown => 2
    case Reconciled | Settled | SettleFailed | ManualReview => 3
  }

  /** The attempt status that a record's first move out of SettleInProgress leaves behind. */
  function AttemptImage(status: Status): AttemptStatus {
    match status
    case Settled => AttemptSettled
    case SettleFailed => AttemptFailed
    case Submitted => AttemptSubmitted
    case Unknown | ManualReview => AttemptUnknown
    case Received | SettleInProgress | Reconciled => Started
  }

  // ---------------------------------------------------------------- settle answers

  datatype ProviderStatus = ProviderSettled | ProviderSubmitted | ProviderFailedFinal | ProviderUnknown

  datatype SettleOutcome = SettleOutcome(
    success: bool,
    transaction: Option<string>,
    payer: Option<string>,
    error: Option<Reason>,
    status: ProviderStatus,
    duplicate: bool)

  /** What a provider's settle call comes back with: an exception, or an outcome whose status may be missing. */
  datatype ProviderReply =
    | ProviderRaised
    | ProviderReplied(success: bool, status: Option<ProviderStatus>,
                      transaction: Option<string>, payer: Option<string>, error: Option<Reason>)

  predicate Blank(text: Option<string>) {
    text.None? || text.value == ""
  }

  function OrElse(first: Option<string>, second: Option<string>): Option<string> {
    if Blank(first) then second else first
  }

  function ReasonOrElse(first: Option<Reason>, second: Reason): Reason {
    if first.None? || first.value == Said("") then second else first.value
  }

  function ProviderStatusOf(reply: ProviderReply): ProviderStatus
    requires reply.ProviderReplied?
  {
    if reply.status.Some? then reply.status.value
    else if reply.success then ProviderSettled
    else ProviderUnknown
  }

  /** The answer given for an existing record, without another provider call. */
  function CachedSettlement(record: Record): SettleOutcome {
    match record.status
    case Settled =>
      SettleOutcome(true, record.transaction, record.payer, None, ProviderSettled, true)
    case SettleFailed =>
      SettleOutcome(false, None, record.payer, record.error, ProviderFailedFinal, true)
    case Submitted =>
      SettleOutcome(false, record.transaction, record.payer, Some(SettlementSubmitted), ProviderSubmitted, true)
    case _ =>
      var reason := match ClaimForStatus(record.status)
                    case DuplicateInFlight => SettlementStillInProgress
                    case DuplicateUnknown => SettlementOutcomeUnknown
                    case DuplicateManualReview => SettlementUnderManualReview
                    case _ => DuplicateSettlement;
      SettleOutcome(false, None, record.payer, Some(reason), ProviderUnknown, true)
  }

  /** The status write that a provider reply leads to, and the answer returned once it is stored. */
  datatype Finalisation = Finalisation(
    status: Status,
    attemptStatus: AttemptStatus,
    transaction: Option<string>,
    payer: Option<string>,
    error: Option<Reason>,
    outcome: SettleOutcome)

  function FinalisationFor(record: Record, reply: ProviderReply, payloadPayer: Option<string>): Finalisation {
    if reply.ProviderRaised? then
      Finalisation(Unknown, AttemptUnknown, record.transaction, record.payer, Some(ProviderSettlementException),
                   SettleOutcome(false, None, None, Some(SettlementOutcomeUnknown), ProviderUnknown, false))
    else
      var status := ProviderStatusOf(reply);
      var payer := OrElse(reply.payer, payloadPayer);
      var outcome := SettleOutcome(status == ProviderSettled, reply.transaction, payer, reply.error, status, false);
      match status
      case ProviderSettled =>
        Finalisation(Settled, AttemptSettled, reply.transaction, payer, None, outcome)
      case ProviderSubmitted =>
        Finalisation(Submitted, AttemptSubmitted, reply.transaction, payer, None, outcome)
      case ProviderFailedFinal =>
        Finalisation(SettleFailed, AttemptFailed, record.transaction, record.payer, reply.error, outcome)
      case ProviderUnknown =>
        Finalisation(Unknown, AttemptUnknown, record.transaction, record.payer, reply.error, outcome)
  }
}
