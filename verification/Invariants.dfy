/** Every step keeps the protocol's invariant. */
module Invariants {
  import opened Wrappers
  import opened Settlement
  import opened Rows
  import opened Reconciliation
  import opened Protocol
  import opened Effects
  import opened ClaimSafety
  import opened Ledger
  import opened Attempts
  import opened Answers

  ghost predicate Inv(cfg: Config, s: State) {
    ClaimInv(cfg, s) && LedgerInv(cfg, s) && AttemptInv(s) && AnswerInv(s)
  }

  lemma InitialInv(cfg: Config, clock: Time)
    ensures Inv(cfg, Initial(clock))
  {
  }

  // ---------------------------------------------------------------- progress

  lemma StepProgresses(cfg: Config, s: State, step: Step)
    requires ClaimInv(cfg, s) && Enabled(cfg, s, step)
    ensures Progress(s, After(cfg, s, step))
  {
    match step
    case Tick(_) =>
    case Claiming(c, claim) => ClaimingProgresses(cfg, s, c, claim);
    case Settling(c, settle) => SettlingProgresses(cfg, s, c, settle);
    case Reconciling(w, work) =>
      ReconcilingEffect(cfg, s, w, work);
      LeasedEffectProgresses(s, AfterReconciling(cfg, s, w, work));
    case Operating(owner, id, stamp, action) =>
      OperatingEffect(s, owner, id, stamp, action);
      LeasedEffectProgresses(s, AfterOperating(s, owner, id, stamp, action));
  }

  lemma ClaimingProgresses(cfg: Config, s: State, c: nat, step: ClaimStep)
    requires CallersOk(s) && CanClaim(cfg, s, c, step)
    ensures Progress(s, AfterClaiming(cfg, s, c, step))
  {
    if Quiet(step) {
      ClaimingQuietly(cfg, s, c, step);
    } else if step.CommitClaim? {
      assert CallerOk(s, s.callers[c]);
    }
  }

  lemma SettlingProgresses(cfg: Config, s: State, c: nat, step: SettleStep)
    requires CanSettle(cfg, s, c, step)
    ensures Progress(s, AfterSettling(cfg, s, c, step))
  {
    if step.FinaliseRecord? {
      var t := AfterFinalise(cfg, s, c, step.stamp, step.answered);
      FinaliseEffect(cfg, s, c, step.stamp, step.answered);
      if SettlerTouch(s, t, c) { SettlerTouchProgresses(s, t, c); }
    } else {
      SettlingQuietly(cfg, s, c, step);
    }
  }

  // ---------------------------------------------------------------- ledger

  lemma ClaimingKeepsLedger(cfg: Config, s: State, c: nat, step: ClaimStep)
    requires LedgerInv(cfg, s) && CallersOk(s) && CanClaim(cfg, s, c, step)
    ensures LedgerInv(cfg, AfterClaiming(cfg, s, c, step))
  {
    if Quiet(step) {
      ClaimingQuietly(cfg, s, c, step);
      SteadyKeepsLedger(cfg, s, AfterClaiming(cfg, s, c, step));
    } else if step.CommitClaim? {
      assert CallerOk(s, s.callers[c]);
      CommitKeepsLedger(cfg, s, c);
    } else {
      SteadyKeepsLedger(cfg, s, AfterClaiming(cfg, s, c, step));
    }
  }

  lemma SettlingKeepsLedger(cfg: Config, s: State, c: nat, step: SettleStep)
    requires LedgerInv(cfg, s) && CallersOk(s) && ClaimantsUnsubmitted(s) && CanSettle(cfg, s, c, step)
    ensures LedgerInv(cfg, AfterSettling(cfg, s, c, step))
  {
    if step.FinaliseRecord? {
      FinaliseKeepsLedger(cfg, s, c, step.stamp, step.answered);
    } else {
      SettlingQuietly(cfg, s, c, step);
      SteadyKeepsLedger(cfg, s, AfterSettling(cfg, s, c, step));
    }
  }

  lemma ReconcilingKeepsLedger(cfg: Config, s: State, w: nat, step: WorkStep)
    requires LedgerInv(cfg, s) && CanReconcile(cfg, s, w, step)
    ensures LedgerInv(cfg, AfterReconciling(cfg, s, w, step))
  {
    match step
    case StartRun(run) => StartingKeepsLedger(cfg, s, w, run);
    case ClaimRow(id, status, stamp) => RowClaimKeepsLedger(cfg, s, w, id, status, stamp);
    case ApplyReply(reply, stamp) => ReplyKeepsLedger(cfg, s, w, reply, stamp);
    case StopWorker => DroppingKeepsWorkers(cfg, s, AfterStopWorker(s, w), w);
  }

  lemma StartingKeepsLedger(cfg: Config, s: State, w: nat, run: Run)
    requires LedgerInv(cfg, s) && CanStartRun(s, w, run)
    ensures LedgerInv(cfg, AfterStartRun(s, w, run))
  {
  }

  lemma OperatingKeepsLedger(cfg: Config, s: State, owner: string, id: nat, stamp: Time, action: OperatorStep)
    requires LedgerInv(cfg, s) && CanOperate(cfg, s, owner, id, stamp)
    ensures LedgerInv(cfg, AfterOperating(s, owner, id, stamp, action))
  {
    match action
    case ClaimLease(until, stale) => OperatorClaimKeepsLedger(cfg, s, owner, id, until, stale, stamp);
    case ReleaseLease => OperatorReleaseKeepsLedger(cfg, s, owner, id, stamp);
    case MoveToReview => OperatorReviewKeepsLedger(cfg, s, owner, id, stamp);
  }

  // ---------------------------------------------------------------- attempts

  lemma ClaimingKeepsAttempts(cfg: Config, s: State, c: nat, step: ClaimStep)
    requires AttemptInv(s) && OnlyRows(s) && CallersOk(s) && CanClaim(cfg, s, c, step)
    ensures AttemptInv(AfterClaiming(cfg, s, c, step))
  {
    if step.CommitClaim? {
      assert CallerOk(s, s.callers[c]);
      CommitKeepsAttempts(cfg, s, c);
    } else {
      if Quiet(step) { ClaimingQuietly(cfg, s, c, step); }
      UnclaimedAfter(cfg, s, c, step);
      QuietStepKeepsAttempts(s, AfterClaiming(cfg, s, c, step), c);
    }
  }

  lemma UnclaimedAfter(cfg: Config, s: State, c: nat, step: ClaimStep)
    requires CanClaim(cfg, s, c, step) && !step.CommitClaim?
    ensures var t := AfterClaiming(cfg, s, c, step); OneMoves(s, t, c) && !Claimant(t.callers[c].phase)
  {
  }

  lemma FinaliseKeepsAttempts(cfg: Config, s: State, c: nat, stamp: Time, answered: bool)
    requires AttemptInv(s) && RowsAgree(cfg, s) && ClaimInv(cfg, s) && CanFinalise(cfg, s, c, stamp)
    ensures AttemptInv(AfterFinalise(cfg, s, c, stamp, answered))
  {
    var t := AfterFinalise(cfg, s, c, stamp, answered);
    FinaliseEffect(cfg, s, c, stamp, answered);
    if SettlerTouch(s, t, c) {
      SettlerTouchKeepsAttempts(cfg, s, t, c);
    } else {
      QuietStepKeepsAttempts(s, t, c);
    }
  }

  lemma SettlingKeepsAttempts(cfg: Config, s: State, c: nat, step: SettleStep)
    requires AttemptInv(s) && RowsAgree(cfg, s) && ClaimInv(cfg, s) && CanSettle(cfg, s, c, step)
    ensures AttemptInv(AfterSettling(cfg, s, c, step))
  {
    if step.FinaliseRecord? {
      FinaliseKeepsAttempts(cfg, s, c, step.stamp, step.answered);
    } else {
      SettlingQuietly(cfg, s, c, step);
      QuietStepKeepsAttempts(s, AfterSettling(cfg, s, c, step), c);
    }
  }

  // ---------------------------------------------------------------- answers

  lemma ClaimingKeepsAnswers(cfg: Config, s: State, c: nat, step: ClaimStep)
    requires AnswerInv(s) && CallersOk(s) && CanClaim(cfg, s, c, step)
    ensures AnswerInv(AfterClaiming(cfg, s, c, step))
  {
    ClaimingProgresses(cfg, s, c, step);
    match step
    case AnswerCached(id) => CachedAnswerKeepsAnswers(s, c, id);
    case CommitDuplicate(stamp, answered) =>
      if answered {
        DuplicateKeepsAnswers(s, c, stamp);
      } else {
        SilentKeepsAnswers(s, AfterClaiming(cfg, s, c, step), c);
      }
    case _ => SilentKeepsAnswers(s, AfterClaiming(cfg, s, c, step), c);
  }

  lemma SettlingKeepsAnswers(cfg: Config, s: State, c: nat, step: SettleStep)
    requires AnswerInv(s) && CallersOk(s) && CanSettle(cfg, s, c, step)
    ensures AnswerInv(AfterSettling(cfg, s, c, step))
  {
    SettlingProgresses(cfg, s, c, step);
    if step.FinaliseRecord? {
      var t := AfterFinalise(cfg, s, c, step.stamp, step.answered);
      FinaliseEffect(cfg, s, c, step.stamp, step.answered);
      assert CallerOk(s, s.callers[c]);
      if SettlerTouch(s, t, c) {
        SettlerTouchKeepsAnswers(s, t, c);
      } else {
        SilentKeepsAnswers(s, t, c);
      }
    } else {
      SilentKeepsAnswers(s, AfterSettling(cfg, s, c, step), c);
    }
  }

  // ---------------------------------------------------------------- all together

  lemma LeasedEffectKeepsRest(cfg: Config, s: State, t: State)
    requires Inv(cfg, s) && LeasedEffect(s, t)
    ensures AttemptInv(t) && AnswerInv(t)
  {
    LeasedEffectKeepsAttempts(cfg, s, t);
    LeasedEffectProgresses(s, t);
    OthersKeepAnswers(s, t);
  }

  lemma StepKeepsRest(cfg: Config, s: State, step: Step)
    requires Inv(cfg, s) && Enabled(cfg, s, step)
    ensures var t := After(cfg, s, step); LedgerInv(cfg, t) && AttemptInv(t) && AnswerInv(t)
  {
    match step
    case Tick(clock) =>
      LeasedEffectKeepsRest(cfg, s, s.(clock := clock));
      SteadyKeepsLedger(cfg, s, s.(clock := clock));
    case Claiming(c, claim) =>
      ClaimingKeepsLedger(cfg, s, c, claim);
      ClaimingKeepsAttempts(cfg, s, c, claim);
      ClaimingKeepsAnswers(cfg, s, c, claim);
    case Settling(c, settle) =>
      SettlingKeepsLedger(cfg, s, c, settle);
      SettlingKeepsAttempts(cfg, s, c, settle);
      SettlingKeepsAnswers(cfg, s, c, settle);
    case Reconciling(w, work) =>
      ReconcilingEffect(cfg, s, w, work);
      ReconcilingKeepsLedger(cfg, s, w, work);
      LeasedEffectKeepsRest(cfg, s, AfterReconciling(cfg, s, w, work));
    case Operating(owner, id, stamp, action) =>
      OperatingEffect(s, owner, id, stamp, action);
      OperatingKeepsLedger(cfg, s, owner, id, stamp, action);
      LeasedEffectKeepsRest(cfg, s, AfterOperating(s, owner, id, stamp, action));
  }

  lemma StepKeepsInv(cfg: Config, s: State, step: Step)
    requires Inv(cfg, s) && Enabled(cfg, s, step)
    ensures Inv(cfg, After(cfg, s, step))
  {
    StepKeepsClaimInv(cfg, s, step);
    StepKeepsRest(cfg, s, step);
  }
}
