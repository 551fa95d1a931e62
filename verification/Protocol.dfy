/**
 * The settlement protocol as a step relation: any number of settle calls, reconcilers and operators
 * over one database, interleaving between statements, with crashes and arbitrary provider replies.
 * Every statement sees the rows committed before it, as under READ COMMITTED isolation.
 */
module Protocol {
  import opened Wrappers
  import opened Settlement
  import opened Rows
  import opened Reconciliation

  // ---------------------------------------------------------------- settle callers

  /** Where a settle call stands. Locked .. WithAttempt are inside the claim transaction. */
  datatype Phase =
    | Ready
    | Locked
    | FoundRow(id: nat, snapshot: Record)
    | Missed
    | Conflicted
    | Inserted(id: nat, pending: Record)
    | WithAttempt(id: nat, pending: Record, attemptId: nat, pendingAttempt: Attempt)
    | HasClaim(id: nat, snapshot: Record, attemptId: nat)
    | Calling(id: nat, snapshot: Record, attemptId: nat)
    | Returned(id: nat, snapshot: Record, attemptId: nat, reply: ProviderReply)
    | Done

  datatype Caller = Caller(
    call: Call,
    payloadPayer: Option<string>,
    began: nat,      // how many answers had been given when this call began
    tries: nat,      // claim transactions that came back empty-handed
    phase: Phase)

  predicate InTransaction(phase: Phase) {
    phase.Locked? || phase.FoundRow? || phase.Missed? || phase.Conflicted? || phase.Inserted? || phase.WithAttempt?
  }

  /** The call found no row under its lock and is inserting one. */
  predicate Inserting(phase: Phase) {
    phase.Missed? || phase.Inserted? || phase.WithAttempt?
  }

  /** The call holds an uncommitted row. */
  predicate HoldsPending(phase: Phase) {
    phase.Inserted? || phase.WithAttempt?
  }

  /** The call committed the row and owns the right to submit it. */
  predicate Claimant(phase: Phase) {
    phase.HasClaim? || phase.Calling? || phase.Returned?
  }

  // ---------------------------------------------------------------- history

  datatype Writer =
    | Settler(caller: nat, heard: ProviderReply, payloadPayer: Option<string>)
    | Reconciler(ticket: nat, run: Run, reply: ReconcileReply, lease: Time, claimed: Record)
    | Operator(operator: string)

  /** Who claims a lease, and the update time up to which it counts a record as stale. */
  datatype Claimer = ByReconciler(staleBefore: Time) | ByOperator(activeStaleBefore: Time)

  /** Everything that touches a record's status or lease, with the stamp it carries and the time it took effect. */
  datatype Event =
    | StatusWrite(id: nat, from: Status, to: Status, content: Content, writer: Writer, stamp: Time, at: Time)
    | LeaseClaim(id: nat, owner: string, until: Time, ticket: nat, claimer: Claimer, stamp: Time, at: Time)
    | LeaseRelease(id: nat, owner: string, stamp: Time, at: Time)

  /** Oldest event innermost. */
  datatype History = Empty | Then(before: History, event: Event)

  function Length(h: History): nat {
    if h.Empty? then 0 else 1 + Length(h.before)
  }

  function LastOn(h: History, id: nat): Option<Event> {
    if h.Empty? then None
    else if h.event.id == id then Some(h.event)
    else LastOn(h.before, id)
  }

  function LastClaimBy(h: History, owner: string): Option<Event> {
    if h.Empty? then None
    else if h.event.LeaseClaim? && h.event.owner == owner then Some(h.event)
    else LastClaimBy(h.before, owner)
  }

  function StatusAfter(h: History, id: nat): Status {
    if h.Empty? then SettleInProgress
    else if h.event.StatusWrite? && h.event.id == id then h.event.to
    else StatusAfter(h.before, id)
  }

  /** When the current status was written; None while the record is as inserted. */
  function Since(h: History, id: nat): Option<Time> {
    if h.Empty? then None
    else if h.event.StatusWrite? && h.event.id == id then Some(h.event.at)
    else Since(h.before, id)
  }

  /** The first status written over SettleInProgress. */
  function FirstExit(h: History, id: nat): Option<Status> {
    if h.Empty? then None
    else
      var earlier := FirstExit(h.before, id);
      if earlier.Some? then earlier
      else if h.event.StatusWrite? && h.event.id == id then Some(h.event.to)
      else None
  }

  function StatusWrites(h: History, id: nat): nat {
    if h.Empty? then 0
    else StatusWrites(h.before, id) + if h.event.StatusWrite? && h.event.id == id then 1 else 0
  }

  // ---------------------------------------------------------------- state

  datatype Held = Held(id: nat, snapshot: Record, ticket: nat)

  datatype Worker = Worker(run: Run, holding: Option<Held>)

  /** What an answer rests on: the provider's reply to this call, or a record that was there before it. */
  datatype Source =
    | Fresh(id: nat, reply: ProviderReply, payloadPayer: Option<string>)
    | Existing(id: nat, record: Record)

  datatype Answer = Answer(call: Call, began: nat, source: Source, outcome: SettleOutcome)

  datatype State = State(
    clock: Time,
    rows: map<nat, Record>,
    attempts: map<nat, Attempt>,
    nextRecord: nat,
    nextAttempt: nat,
    callers: map<nat, Caller>,
    workers: map<nat, Worker>,
    submissions: multiset<ReplayKey>,
    answers: seq<Answer>,
    history: History)

  /**
   * `hash` is the advisory lock's hash, under no assumption at all. `delay` bounds the time between reading
   * the clock for a lease or status statement and that statement taking effect.
   */
  datatype Config = Config(hash: string -> int, delay: nat)

  function Initial(clock: Time): State {
    State(clock, map[], map[], 1, 1, map[], map[], multiset{}, [], Empty)
  }

  function LockText(key: ReplayKey): string {
    key.seller + ":" + key.provider + ":" + key.scheme + ":" + key.network + ":" + key.fingerprint
  }

  function LockOf(cfg: Config, call: Call): int {
    cfg.hash(LockText(ReplayKeyOf(call)))
  }

  predicate Stamped(cfg: Config, s: State, stamp: Time) {
    s.clock - cfg.delay <= stamp <= s.clock
  }

  /** CLAIM_VISIBILITY_RETRIES. */
  const CLAIM_TRIES := 3

  // ---------------------------------------------------------------- steps

  /** One settle call, up to the commit of its claim. */
  datatype ClaimStep =
    | Begin(call: Call, payloadPayer: Option<string>)
    | AnswerCached(id: nat)
    | TakeLock
    | LookUp(found: Option<nat>)
    | CommitDuplicate(stamp: Time, answered: bool)
    | Insert(stamp: Time)
    | ReadConflict(id: nat)
    | RetryClaim
    | StartAttempt
    | CommitClaim

  /** One settle call, from its committed claim on; a crash or refusal can end it anywhere. */
  datatype SettleStep =
    | CallProvider
    | ProviderReturns(reply: ProviderReply)
    | FinaliseRecord(stamp: Time, answered: bool)
    | Crash

  datatype WorkStep =
    | StartRun(run: Run)
    | ClaimRow(id: nat, status: Status, stamp: Time)
    | ApplyReply(reply: ReconcileReply, stamp: Time)
    | StopWorker

  datatype OperatorStep =
    | ClaimLease(until: Time, activeStaleBefore: Time)
    | ReleaseLease
    | MoveToReview

  datatype Step =
    | Tick(clock: Time)
    | Claiming(c: nat, claim: ClaimStep)
    | Settling(c: nat, settle: SettleStep)
    | Reconciling(w: nat, work: WorkStep)
    | Operating(owner: string, id: nat, stamp: Time, action: OperatorStep)

  predicate SameReplay(s: State, id: nat, c: nat) {
    id in s.rows && c in s.callers && ReplayKeyOf(s.rows[id].call) == ReplayKeyOf(s.callers[c].call)
  }

  predicate SameProfile(s: State, id: nat, c: nat) {
    id in s.rows && c in s.callers && ProfileKeyOf(s.rows[id].call) == ProfileKeyOf(s.callers[c].call)
  }

  // ---------------------------------------------------------------- settle call: guard and effect of each step

  function At(s: State, c: nat, phase: Phase): State
    requires c in s.callers
  {
    s.(callers := s.callers[c := s.callers[c].(phase := phase)])
  }

  function Answered(s: State, c: nat, source: Source, outcome: SettleOutcome): State
    requires c in s.callers
  {
    At(s, c, Done).(answers := s.answers + [Answer(s.callers[c].call, s.callers[c].began, source, outcome)])
  }

  /** A call ends with its commit: its answer goes out, unless it crashes before that. */
  function CallEnds(s: State, c: nat, source: Source, outcome: SettleOutcome, answered: bool): State
    requires c in s.callers
  {
    if answered then Answered(s, c, source, outcome) else At(s, c, Done)
  }

  function Touched(s: State, id: nat, row: Record, e: Event): State {
    s.(rows := s.rows[id := row], history := Then(s.history, e))
  }

  function AfterBegin(s: State, c: nat, call: Call, payloadPayer: Option<string>): State {
    s.(callers := s.callers[c := Caller(call, payloadPayer, |s.answers|, 0, Ready)])
  }

  /** The look-ups around the rate limiter: by profile, or across profiles by replay key. */
  predicate CanAnswerCached(s: State, c: nat, id: nat) {
    c in s.callers && s.callers[c].phase.Ready? && (SameProfile(s, id, c) || SameReplay(s, id, c))
  }

  function AfterAnswerCached(s: State, c: nat, id: nat): State
    requires CanAnswerCached(s, c, id)
  {
    Answered(s, c, Existing(id, s.rows[id]), CachedSettlement(s.rows[id]))
  }

  /** The transaction-scoped advisory lock is granted once no open transaction holds the same value. */
  predicate CanTakeLock(cfg: Config, s: State, c: nat) {
    && c in s.callers && s.callers[c].phase.Ready?
    && forall d | d in s.callers && InTransaction(s.callers[d].phase) ::
         LockOf(cfg, s.callers[d].call) != LockOf(cfg, s.callers[c].call)
  }

  function AfterTakeLock(s: State, c: nat): State
    requires c in s.callers
  {
    At(s, c, Locked)
  }

  predicate CanLookUp(s: State, c: nat, found: Option<nat>) {
    && c in s.callers && s.callers[c].phase.Locked?
    && (found.Some? ==> SameReplay(s, found.value, c))
    && (found.None? ==> forall id | id in s.rows :: !SameReplay(s, id, c))
  }

  function AfterLookUp(s: State, c: nat, found: Option<nat>): State
    requires CanLookUp(s, c, found)
  {
    At(s, c, if found.Some? then FoundRow(found.value, s.rows[found.value]) else Missed)
  }

  predicate CanCommitDuplicate(s: State, c: nat, stamp: Time) {
    c in s.callers && s.callers[c].phase.FoundRow? && s.callers[c].phase.id in s.rows && stamp <= s.clock
  }

  /** Answers from the row as it was read; the duplicate counter goes up on the row as it is now. */
  function AfterCommitDuplicate(s: State, c: nat, stamp: Time, answered: bool): State
    requires CanCommitDuplicate(s, c, stamp)
  {
    var p := s.callers[c].phase;
    CallEnds(s, c, Existing(p.id, p.snapshot), CachedSettlement(p.snapshot), answered)
      .(rows := s.rows[p.id := BumpDuplicate(s.rows[p.id], stamp)])
  }

  /** The insert blocks while another transaction holds an uncommitted row with the same unique key. */
  predicate CanInsert(s: State, c: nat, stamp: Time) {
    && c in s.callers && s.callers[c].phase.Missed? && stamp <= s.clock
    && forall d | d in s.callers && HoldsPending(s.callers[d].phase) ::
         ProfileKeyOf(s.callers[d].call) != ProfileKeyOf(s.callers[c].call)
  }

  /** A sequence value is spent whether or not the row goes in. */
  function AfterInsert(s: State, c: nat, stamp: Time): State
    requires CanInsert(s, c, stamp)
  {
    var taken := exists id | id in s.rows :: SameProfile(s, id, c);
    At(s, c, if taken then Conflicted else Inserted(s.nextRecord, NewRecord(s.callers[c].call, stamp)))
      .(nextRecord := s.nextRecord + 1)
  }

  predicate CanReadConflict(s: State, c: nat, id: nat) {
    c in s.callers && s.callers[c].phase.Conflicted? && (SameProfile(s, id, c) || SameReplay(s, id, c))
  }

  function AfterReadConflict(s: State, c: nat, id: nat): State
    requires CanReadConflict(s, c, id)
  {
    At(s, c, FoundRow(id, s.rows[id]))
  }

  predicate CanRetryClaim(s: State, c: nat) {
    && c in s.callers && s.callers[c].phase.Conflicted?
    && forall id | id in s.rows :: !SameProfile(s, id, c) && !SameReplay(s, id, c)
  }

  function AfterRetryClaim(s: State, c: nat): State
    requires c in s.callers
  {
    var tries := s.callers[c].tries + 1;
    s.(callers := s.callers[c := s.callers[c].(tries := tries, phase := if tries < CLAIM_TRIES then Ready else Done)])
  }

  predicate CanStartAttempt(s: State, c: nat) {
    c in s.callers && s.callers[c].phase.Inserted?
  }

  function AfterStartAttempt(s: State, c: nat): State
    requires CanStartAttempt(s, c)
  {
    var p := s.callers[c].phase;
    At(s, c, WithAttempt(p.id, p.pending, s.nextAttempt, NewAttempt(p.id, p.pending.createdAt)))
      .(nextAttempt := s.nextAttempt + 1)
  }

  predicate CanCommitClaim(s: State, c: nat) {
    c in s.callers && s.callers[c].phase.WithAttempt?
  }

  function AfterCommitClaim(s: State, c: nat): State
    requires CanCommitClaim(s, c)
  {
    var p := s.callers[c].phase;
    At(s, c, HasClaim(p.id, p.pending, p.attemptId))
      .(rows := s.rows[p.id := p.pending], attempts := s.attempts[p.attemptId := p.pendingAttempt])
  }

  predicate CanCallProvider(s: State, c: nat) {
    c in s.callers && s.callers[c].phase.HasClaim?
  }

  function AfterCallProvider(s: State, c: nat): State
    requires CanCallProvider(s, c)
  {
    var p := s.callers[c].phase;
    At(s, c, Calling(p.id, p.snapshot, p.attemptId))
      .(submissions := s.submissions + multiset{ReplayKeyOf(s.callers[c].call)})
  }

  predicate CanReturn(s: State, c: nat) {
    c in s.callers && s.callers[c].phase.Calling?
  }

  function AfterProviderReturns(s: State, c: nat, reply: ProviderReply): State
    requires CanReturn(s, c)
  {
    var p := s.callers[c].phase;
    At(s, c, Returned(p.id, p.snapshot, p.attemptId, reply))
  }

  predicate CanFinalise(cfg: Config, s: State, c: nat, stamp: Time) {
    && c in s.callers && s.callers[c].phase.Returned? && s.callers[c].phase.id in s.rows
    && s.callers[c].phase.attemptId in s.attempts && Stamped(cfg, s, stamp)
  }

  function FinalisationOf(k: Caller): Finalisation
    requires k.phase.Returned?
  {
    FinalisationFor(k.phase.snapshot, k.phase.reply, k.payloadPayer)
  }

  /** When the status check fails the store raises, and this call gives no answer. */
  function AfterFinalise(cfg: Config, s: State, c: nat, stamp: Time, answered: bool): State
    requires CanFinalise(cfg, s, c, stamp)
  {
    var p := s.callers[c].phase;
    var f := FinalisationOf(s.callers[c]);
    var row := Finalise(s.rows[p.id], f, stamp);
    if row.None? then At(s, c, Done)
    else
      var e := StatusWrite(p.id, s.rows[p.id].status, f.status, ContentOf(row.value),
                           Settler(c, p.reply, s.callers[c].payloadPayer), stamp, s.clock);
      Touched(CallEnds(s, c, Fresh(p.id, p.reply, s.callers[c].payloadPayer), f.outcome, answered), p.id, row.value, e)
        .(attempts := s.attempts[p.attemptId :=
            FinishAttempt(s.attempts[p.attemptId], f.attemptStatus, f.transaction, f.error, stamp)])
  }

  // ---------------------------------------------------------------- reconciler: guard and effect of each step

  predicate CanStartRun(s: State, w: nat, run: Run) {
    (w in s.workers ==> s.workers[w].holding.None?) && run.owner != "" && run.now == s.clock
  }

  function AfterStartRun(s: State, w: nat, run: Run): State {
    s.(workers := s.workers[w := Worker(run, None)])
  }

  predicate CanClaimRow(cfg: Config, s: State, w: nat, id: nat, status: Status, stamp: Time) {
    && w in s.workers && s.workers[w].holding.None? && id in s.rows
    && status in {SettleInProgress, Submitted, Unknown} && Stamped(cfg, s, stamp)
  }

  function AfterClaimRow(cfg: Config, s: State, w: nat, id: nat, status: Status, stamp: Time): State
    requires CanClaimRow(cfg, s, w, id, status, stamp)
  {
    var run := s.workers[w].run;
    var row := ReconcilerClaim(s.rows[id], run.owner, run.Lease(), {status}, Some(run.StaleBefore(status)), stamp);
    if row.None? then s
    else
      var ticket := Length(s.history);
      Touched(s, id, row.value,
              LeaseClaim(id, run.owner, run.Lease(), ticket, ByReconciler(run.StaleBefore(status)), stamp, s.clock))
        .(workers := s.workers[w := Worker(run, Some(Held(id, row.value, ticket)))])
  }

  predicate CanApplyReply(cfg: Config, s: State, w: nat, stamp: Time) {
    && w in s.workers && s.workers[w].holding.Some? && s.workers[w].holding.value.id in s.rows
    && Stamped(cfg, s, stamp)
  }

  /** The decision is taken on the record as it was claimed; the store raises when the fence does not hold. */
  function AfterApplyReply(cfg: Config, s: State, w: nat, reply: ReconcileReply, stamp: Time): State
    requires CanApplyReply(cfg, s, w, stamp)
  {
    var run := s.workers[w].run;
    var held := s.workers[w].holding.value;
    var released := AfterStopWorker(s, w);
    var decision := Decide(run, held.snapshot, reply);
    if !decision.Write? then released
    else
      var row := FencedWrite(s.rows[held.id], decision.status, decision.transaction, decision.payer,
                             decision.error, run.owner, run.Lease(), stamp);
      if row.None? then released
      else
        var e := StatusWrite(held.id, s.rows[held.id].status, decision.status, ContentOf(row.value),
                             Reconciler(held.ticket, run, reply, run.Lease(), held.snapshot), stamp, s.clock);
        Touched(released, held.id, row.value, e)
          .(attempts := CloseStarted(s.attempts, held.id, decision.status, decision.transaction, decision.error, stamp))
  }

  function AfterStopWorker(s: State, w: nat): State
    requires w in s.workers
  {
    s.(workers := s.workers[w := s.workers[w].(holding := None)])
  }

  // ---------------------------------------------------------------- operator: guard and effect of each step

  predicate CanOperate(cfg: Config, s: State, owner: string, id: nat, stamp: Time) {
    owner != "" && id in s.rows && Stamped(cfg, s, stamp)
  }

  function AfterOperatorClaims(s: State, owner: string, id: nat, until: Time, activeStaleBefore: Time,
      stamp: Time): State
    requires id in s.rows
  {
    var row := OperatorClaim(s.rows[id], owner, until, activeStaleBefore, stamp);
    if row.None? then s
    else
      Touched(s, id, row.value,
              LeaseClaim(id, owner, until, Length(s.history), ByOperator(activeStaleBefore), stamp, s.clock))
  }

  function AfterOperatorReleases(s: State, owner: string, id: nat, stamp: Time): State
    requires id in s.rows
  {
    var row := Release(s.rows[id], owner, stamp);
    if row.None? then s else Touched(s, id, row.value, LeaseRelease(id, owner, stamp, s.clock))
  }

  function AfterOperatorReviews(s: State, owner: string, id: nat, stamp: Time): State
    requires id in s.rows
  {
    var row := OperatorReview(s.rows[id], owner, stamp);
    if row.None? then s
    else
      Touched(s, id, row.value,
              StatusWrite(id, Unknown, ManualReview, ContentOf(row.value), Operator(owner), stamp, s.clock))
        .(attempts := CloseStarted(s.attempts, id, ManualReview, s.rows[id].transaction,
                                   Some(ManualReviewOperatorRequested), stamp))
  }

  // ---------------------------------------------------------------- the step relation

  predicate CanClaim(cfg: Config, s: State, c: nat, step: ClaimStep) {
    match step
    case Begin(_, _) => c !in s.callers
    case AnswerCached(id) => CanAnswerCached(s, c, id)
    case TakeLock => CanTakeLock(cfg, s, c)
    case LookUp(found) => CanLookUp(s, c, found)
    case CommitDuplicate(stamp, _) => CanCommitDuplicate(s, c, stamp)
    case Insert(stamp) => CanInsert(s, c, stamp)
    case ReadConflict(id) => CanReadConflict(s, c, id)
    case RetryClaim => CanRetryClaim(s, c)
    case StartAttempt => CanStartAttempt(s, c)
    case CommitClaim => CanCommitClaim(s, c)
  }

  function AfterClaiming(cfg: Config, s: State, c: nat, step: ClaimStep): State
    requires CanClaim(cfg, s, c, step)
  {
    match step
    case Begin(call, payer) => AfterBegin(s, c, call, payer)
    case AnswerCached(id) => AfterAnswerCached(s, c, id)
    case TakeLock => AfterTakeLock(s, c)
    case LookUp(found) => AfterLookUp(s, c, found)
    case CommitDuplicate(stamp, answered) => AfterCommitDuplicate(s, c, stamp, answered)
    case Insert(stamp) => AfterInsert(s, c, stamp)
    case ReadConflict(id) => AfterReadConflict(s, c, id)
    case RetryClaim => AfterRetryClaim(s, c)
    case StartAttempt => AfterStartAttempt(s, c)
    case CommitClaim => AfterCommitClaim(s, c)
  }

  predicate CanSettle(cfg: Config, s: State, c: nat, step: SettleStep) {
    match step
    case CallProvider => CanCallProvider(s, c)
    case ProviderReturns(_) => CanReturn(s, c)
    case FinaliseRecord(stamp, _) => CanFinalise(cfg, s, c, stamp)
    case Crash => c in s.callers
  }

  function AfterSettling(cfg: Config, s: State, c: nat, step: SettleStep): State
    requires CanSettle(cfg, s, c, step)
  {
    match step
    case CallProvider => AfterCallProvider(s, c)
    case ProviderReturns(reply) => AfterProviderReturns(s, c, reply)
    case FinaliseRecord(stamp, answered) => AfterFinalise(cfg, s, c, stamp, answered)
    case Crash => At(s, c, Done)
  }

  predicate CanReconcile(cfg: Config, s: State, w: nat, step: WorkStep) {
    match step
    case StartRun(run) => CanStartRun(s, w, run)
    case ClaimRow(id, status, stamp) => CanClaimRow(cfg, s, w, id, status, stamp)
    case ApplyReply(_, stamp) => CanApplyReply(cfg, s, w, stamp)
    case StopWorker => w in s.workers
  }

  function AfterReconciling(cfg: Config, s: State, w: nat, step: WorkStep): State
    requires CanReconcile(cfg, s, w, step)
  {
    match step
    case StartRun(run) => AfterStartRun(s, w, run)
    case ClaimRow(id, status, stamp) => AfterClaimRow(cfg, s, w, id, status, stamp)
    case ApplyReply(reply, stamp) => AfterApplyReply(cfg, s, w, reply, stamp)
    case StopWorker => AfterStopWorker(s, w)
  }

  function AfterOperating(s: State, owner: string, id: nat, stamp: Time, action: OperatorStep): State
    requires id in s.rows
  {
    match action
    case ClaimLease(until, stale) => AfterOperatorClaims(s, owner, id, until, stale, stamp)
    case ReleaseLease => AfterOperatorReleases(s, owner, id, stamp)
    case MoveToReview => AfterOperatorReviews(s, owner, id, stamp)
  }

  predicate Enabled(cfg: Config, s: State, step: Step) {
    match step
    case Tick(clock) => clock >= s.clock
    case Claiming(c, claim) => CanClaim(cfg, s, c, claim)
    case Settling(c, settle) => CanSettle(cfg, s, c, settle)
    case Reconciling(w, work) => CanReconcile(cfg, s, w, work)
    case Operating(owner, id, stamp, _) => CanOperate(cfg, s, owner, id, stamp)
  }

  function After(cfg: Config, s: State, step: Step): State
    requires Enabled(cfg, s, step)
  {
    match step
    case Tick(clock) => s.(clock := clock)
    case Claiming(c, claim) => AfterClaiming(cfg, s, c, claim)
    case Settling(c, settle) => AfterSettling(cfg, s, c, settle)
    case Reconciling(w, work) => AfterReconciling(cfg, s, w, work)
    case Operating(owner, id, stamp, action) => AfterOperating(s, owner, id, stamp, action)
  }

  // ---------------------------------------------------------------- runs

  /** A run is any sequence of enabled steps. */
  ghost predicate Runs(cfg: Config, s: State, steps: seq<Step>)
    decreases |steps|
  {
    steps == [] || (Enabled(cfg, s, steps[0]) && Runs(cfg, After(cfg, s, steps[0]), steps[1..]))
  }

  ghost function EndState(cfg: Config, s: State, steps: seq<Step>): State
    requires Runs(cfg, s, steps)
    decreases |steps|
  {
    if steps == [] then s else EndState(cfg, After(cfg, s, steps[0]), steps[1..])
  }
}
