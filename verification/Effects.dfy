/** The few ways in which a step of a reconciler or an operator can change the shared state. */
module Effects {
  import opened Wrappers
  import opened Settlement
  import opened Rows
  import opened Reconciliation
  import opened Protocol

  /** The row and one event, moved together. */
  ghost predicate Touches(s: State, t: State, e: Event) {
    && e.id in s.rows && e.id in t.rows
    && t.rows == s.rows[e.id := t.rows[e.id]]
    && t.rows[e.id].call == s.rows[e.id].call
    && t.history == Then(s.history, e)
    && t.clock == s.clock
  }

  /** Everything that belongs to settle calls stays as it was. */
  ghost predicate CallersUntouched(s: State, t: State) {
    && t.callers == s.callers && t.submissions == s.submissions && t.answers == s.answers
    && t.nextRecord == s.nextRecord && t.nextAttempt == s.nextAttempt
  }

  predicate SameOutcome(row: Record, after: Record) {
    && after.status == row.status && after.transaction == row.transaction
    && after.payer == row.payer && after.error == row.error
  }

  ghost predicate NoTouch(s: State, t: State) {
    && t.rows == s.rows && t.attempts == s.attempts && t.history == s.history
    && t.clock >= s.clock && CallersUntouched(s, t)
  }

  /** A lease claimed or released; status and outcome unchanged; the record is not final. */
  ghost predicate LeaseTouch(s: State, t: State) {
    && t.history.Then? && !t.history.event.StatusWrite? && Touches(s, t, t.history.event)
    && t.attempts == s.attempts && CallersUntouched(s, t)
    && SameOutcome(s.rows[t.history.event.id], t.rows[t.history.event.id])
  }

  /** The open attempts of one record are closed; nothing else about attempts changes. */
  ghost predicate ClosesOnly(attempts: map<nat, Attempt>, after: map<nat, Attempt>, id: nat, status: Status) {
    && after.Keys == attempts.Keys
    && forall a | a in attempts ::
         if attempts[a].recordId == id && attempts[a].status == Started
         then after[a].recordId == id && after[a].status == AttemptImage(status)
         else after[a] == attempts[a]
  }

  /** A status written through a lease: from a status that is not terminal, never to SUBMITTED. */
  ghost predicate ClosingTouch(s: State, t: State) {
    && t.history.Then? && t.history.event.StatusWrite? && Touches(s, t, t.history.event)
    && ClosesOnly(s.attempts, t.attempts, t.history.event.id, t.history.event.to) && CallersUntouched(s, t)
    && !Terminal(s.rows[t.history.event.id].status)
    && Rank(s.rows[t.history.event.id].status) < Rank(t.history.event.to)
    && t.rows[t.history.event.id].status == t.history.event.to
    && t.history.event.to != Submitted
  }

  ghost predicate LeasedEffect(s: State, t: State) {
    NoTouch(s, t) || LeaseTouch(s, t) || ClosingTouch(s, t)
  }

  lemma RowClaimEffect(cfg: Config, s: State, w: nat, id: nat, status: Status, stamp: Time)
    requires CanClaimRow(cfg, s, w, id, status, stamp)
    ensures LeasedEffect(s, AfterClaimRow(cfg, s, w, id, status, stamp))
  {
  }

  lemma ReplyEffect(cfg: Config, s: State, w: nat, reply: ReconcileReply, stamp: Time)
    requires CanApplyReply(cfg, s, w, stamp)
    ensures LeasedEffect(s, AfterApplyReply(cfg, s, w, reply, stamp))
  {
  }

  lemma ReconcilingEffect(cfg: Config, s: State, w: nat, step: WorkStep)
    requires CanReconcile(cfg, s, w, step)
    ensures LeasedEffect(s, AfterReconciling(cfg, s, w, step))
  {
    match step
    case StartRun(run) => assert NoTouch(s, AfterStartRun(s, w, run));
    case ClaimRow(id, status, stamp) => RowClaimEffect(cfg, s, w, id, status, stamp);
    case ApplyReply(reply, stamp) => ReplyEffect(cfg, s, w, reply, stamp);
    case StopWorker => assert NoTouch(s, AfterStopWorker(s, w));
  }

  lemma OperatingEffect(s: State, owner: string, id: nat, stamp: Time, action: OperatorStep)
    requires id in s.rows
    ensures LeasedEffect(s, AfterOperating(s, owner, id, stamp, action))
  {
  }

  // ---------------------------------------------------------------- the settler's own write

  /** One call moves, or appears; the rest of the callers stay as they were. */
  ghost predicate OneMoves(s: State, t: State, c: nat) {
    && c in t.callers
    && t.callers == s.callers[c := t.callers[c]]
  }

  /** A settle call moves on without touching the tables, the history or the answers. */
  ghost predicate QuietMove(s: State, t: State, c: nat) {
    && OneMoves(s, t, c)
    && t.rows == s.rows && t.attempts == s.attempts && t.history == s.history
    && t.clock == s.clock && t.workers == s.workers && t.answers == s.answers
  }

  predicate Quiet(step: ClaimStep) {
    !step.AnswerCached? && !step.CommitDuplicate? && !step.CommitClaim?
  }

  lemma ClaimingQuietly(cfg: Config, s: State, c: nat, step: ClaimStep)
    requires CanClaim(cfg, s, c, step) && Quiet(step)
    ensures QuietMove(s, AfterClaiming(cfg, s, c, step), c)
  {
  }

  lemma SettlingQuietly(cfg: Config, s: State, c: nat, step: SettleStep)
    requires CanSettle(cfg, s, c, step) && !step.FinaliseRecord?
    ensures QuietMove(s, AfterSettling(cfg, s, c, step), c)
  {
  }

  /** The claimant's status write: its row, its attempt and, unless it crashes, its answer. */
  ghost predicate SettlerTouch(s: State, t: State, c: nat) {
    && c in s.callers && s.callers[c].phase.Returned? && OneMoves(s, t, c) && t.callers[c].phase.Done?
    && s.callers[c].phase.id in s.rows && s.callers[c].phase.attemptId in s.attempts
    && t.history.Then? && t.history.event.StatusWrite? && Touches(s, t, t.history.event)
    && t.history.event.id == s.callers[c].phase.id
    && s.rows[t.history.event.id].status in {SettleInProgress, Submitted}
    && Rank(s.rows[t.history.event.id].status) < Rank(t.history.event.to)
    && t.rows[t.history.event.id].status == t.history.event.to
    && s.callers[c].phase.attemptId in t.attempts
    && t.attempts == s.attempts[s.callers[c].phase.attemptId := t.attempts[s.callers[c].phase.attemptId]]
    && t.attempts[s.callers[c].phase.attemptId].recordId == s.attempts[s.callers[c].phase.attemptId].recordId
    && t.attempts[s.callers[c].phase.attemptId].status == AttemptImage(t.history.event.to)
    && t.submissions == s.submissions && t.nextRecord == s.nextRecord && t.nextAttempt == s.nextAttempt
    && (t.answers == s.answers || SettlerAnswers(s, t, c))
  }

  /** The answer that goes with the write; success goes with a SETTLED row. */
  ghost predicate SettlerAnswers(s: State, t: State, c: nat)
    requires c in s.callers && t.history.Then? && t.history.event.id in t.rows
  {
    && |t.answers| == |s.answers| + 1
    && t.answers == s.answers + [Answer(s.callers[c].call, s.callers[c].began, t.answers[|s.answers|].source,
                                        t.answers[|s.answers|].outcome)]
    && (t.answers[|s.answers|].outcome.success ==>
          && t.rows[t.history.event.id].status == Settled
          && t.rows[t.history.event.id].transaction == t.answers[|s.answers|].outcome.transaction
          && t.rows[t.history.event.id].payer == t.answers[|s.answers|].outcome.payer)
  }

  lemma FinaliseEffect(cfg: Config, s: State, c: nat, stamp: Time, answered: bool)
    requires CanFinalise(cfg, s, c, stamp)
    ensures var t := AfterFinalise(cfg, s, c, stamp, answered);
            t == At(s, c, Done) || SettlerTouch(s, t, c)
  {
  }

  // ---------------------------------------------------------------- identities

  /** Rows and attempts may be updated in place, but none is added, lost, or re-identified. */
  ghost predicate SameIdentities(s: State, t: State) {
    && t.rows.Keys == s.rows.Keys
    && t.attempts.Keys == s.attempts.Keys
    && (forall id | id in s.rows :: t.rows[id].call == s.rows[id].call)
    && (forall a | a in s.attempts :: t.attempts[a].recordId == s.attempts[a].recordId)
    && t.submissions == s.submissions
    && t.nextRecord >= s.nextRecord && t.nextAttempt >= s.nextAttempt
  }

  /**
   * Records stay, keep their identity, and either keep their outcome or leave a non-terminal status for a higher one.
   */
  ghost predicate Progress(s: State, t: State) {
    forall id | id in s.rows ::
      && id in t.rows && t.rows[id].call == s.rows[id].call
      && (|| SameOutcome(s.rows[id], t.rows[id])
          || (!Terminal(s.rows[id].status) && Rank(s.rows[id].status) < Rank(t.rows[id].status)))
  }

  lemma LeasedEffectProgresses(s: State, t: State)
    requires LeasedEffect(s, t)
    ensures Progress(s, t)
  {
  }

  lemma SettlerTouchProgresses(s: State, t: State, c: nat)
    requires SettlerTouch(s, t, c)
    ensures Progress(s, t)
  {
  }

  lemma LeasedEffectKeepsIdentities(s: State, t: State)
    requires LeasedEffect(s, t)
    ensures SameIdentities(s, t)
  {
  }

  lemma SettlerTouchKeepsIdentities(s: State, t: State, c: nat)
    requires SettlerTouch(s, t, c)
    ensures SameIdentities(s, t)
  {
  }
}
