/** Each record has one attempt, open exactly while the record is in progress, and closed once for good. */
module Attempts {
  import opened Wrappers
  import opened Settlement
  import opened Rows
  import opened Reconciliation
  import opened Protocol
  import opened Effects
  import opened Ledger
  import opened ClaimSafety

  predicate AttemptAgrees(h: History, a: Attempt) {
    a.status == if FirstExit(h, a.recordId).None? then Started else AttemptImage(FirstExit(h, a.recordId).value)
  }

  ghost predicate HasAttempt(s: State, id: nat) {
    exists a :: a in s.attempts && s.attempts[a].recordId == id
  }

  ghost predicate AttemptsAgree(s: State) {
    forall a | a in s.attempts :: s.attempts[a].recordId in s.rows && AttemptAgrees(s.history, s.attempts[a])
  }

  ghost predicate OneAttemptEach(s: State) {
    && (forall a, b | a in s.attempts && b in s.attempts && s.attempts[a].recordId == s.attempts[b].recordId :: a == b)
    && (forall id | id in s.rows :: HasAttempt(s, id))
  }

  /** Only the claimant ever writes SUBMITTED, and it writes once. */
  ghost predicate ClaimantsUnsubmitted(s: State) {
    forall c | c in s.callers && Claimant(s.callers[c].phase) && s.callers[c].phase.id in s.rows ::
      s.rows[s.callers[c].phase.id].status != Submitted
  }

  ghost predicate AttemptInv(s: State) {
    AttemptsAgree(s) && OneAttemptEach(s) && ClaimantsUnsubmitted(s)
  }

  // ---------------------------------------------------------------- first exits

  lemma {:induction false} ExitedIffWritten(h: History, id: nat)
    ensures FirstExit(h, id).Some? <==> Since(h, id).Some?
  {
    if h.Then? { ExitedIffWritten(h.before, id); }
  }

  lemma {:induction false} ExitsCloseAttempts(delay: nat, h: History, id: nat)
    requires Audited(delay, h)
    ensures FirstExit(h, id).Some? ==> AttemptImage(FirstExit(h, id).value) != Started
  {
    if h.Then? { ExitsCloseAttempts(delay, h.before, id); }
  }

  // ---------------------------------------------------------------- writes

  lemma AttemptsKept(s: State, t: State)
    requires OneAttemptEach(s) && SameIdentities(s, t)
    ensures OneAttemptEach(t)
  {
  }

  /** Reconciliation closes the open attempt of the record, and leaves every closed one as it was. */
  lemma ClosingKeepsAttempts(cfg: Config, s: State, t: State)
    requires AttemptInv(s) && Audited(cfg.delay, s.history) && ClosingTouch(s, t)
    ensures AttemptInv(t)
  {
    var e := t.history.event;
    forall a | a in t.attempts ensures t.attempts[a].recordId in t.rows && AttemptAgrees(t.history, t.attempts[a]) {
      ExitsCloseAttempts(cfg.delay, s.history, s.attempts[a].recordId);
      assert AttemptAgrees(s.history, s.attempts[a]);
    }
    LeasedEffectKeepsIdentities(s, t);
    AttemptsKept(s, t);
  }

  /** Leases do not enter into attempts. */
  lemma LeaseKeepsAttempts(s: State, t: State)
    requires AttemptInv(s) && (NoTouch(s, t) || LeaseTouch(s, t))
    ensures AttemptInv(t)
  {
  }

  lemma LeasedEffectKeepsAttempts(cfg: Config, s: State, t: State)
    requires AttemptInv(s) && Audited(cfg.delay, s.history) && LeasedEffect(s, t)
    ensures AttemptInv(t)
  {
    if ClosingTouch(s, t) { ClosingKeepsAttempts(cfg, s, t); } else { LeaseKeepsAttempts(s, t); }
  }

  /** The settler closes its own attempt; it can only do so while the record is still in progress. */
  lemma SettlerAgrees(cfg: Config, s: State, t: State, c: nat)
    requires AttemptsAgree(s) && OneAttemptEach(s) && RowsAgree(cfg, s) && SettlerTouch(s, t, c) &&
        CallerOk(s, s.callers[c])
    requires s.rows[s.callers[c].phase.id].status != Submitted
    ensures AttemptsAgree(t)
  {
    var p := s.callers[c].phase;
    assert RowAgrees(cfg.delay, s.clock, s.history, p.id, s.rows[p.id]);
    ExitedIffWritten(s.history, p.id);
    forall a | a in t.attempts ensures t.attempts[a].recordId in t.rows && AttemptAgrees(t.history, t.attempts[a]) {
      assert AttemptAgrees(s.history, s.attempts[a]);
    }
  }

  /** The claimant leaves; the row it wrote may now be SUBMITTED, and no other claimant holds that row. */
  lemma SettlerKeepsUnsubmitted(cfg: Config, s: State, t: State, c: nat)
    requires ClaimantsUnsubmitted(s) && CallersApart(cfg, s) && SettlerTouch(s, t, c)
    ensures ClaimantsUnsubmitted(t)
  {
  }

  lemma SettlerTouchKeepsAttempts(cfg: Config, s: State, t: State, c: nat)
    requires AttemptInv(s) && RowsAgree(cfg, s) && ClaimInv(cfg, s) && SettlerTouch(s, t, c)
    ensures AttemptInv(t)
  {
    assert CallerOk(s, s.callers[c]);
    SettlerAgrees(cfg, s, t, c);
    SettlerKeepsUnsubmitted(cfg, s, t, c);
    SettlerTouchKeepsIdentities(s, t, c);
    AttemptsKept(s, t);
  }

  /** What a commit does to the tables, for a row and an attempt that are in neither. */
  ghost predicate Committed(s: State, t: State, id: nat, row: Record, a: nat, attempt: Attempt) {
    && id !in s.rows && a !in s.attempts && attempt.recordId == id
    && t.rows == s.rows[id := row] && t.attempts == s.attempts[a := attempt] && t.history == s.history
  }

  lemma CommitAgrees(s: State, t: State, id: nat, row: Record, a: nat, attempt: Attempt)
    requires AttemptsAgree(s) && Committed(s, t, id, row, a, attempt)
    requires attempt.status == Started && FirstExit(s.history, id).None?
    ensures AttemptsAgree(t)
  {
  }

  lemma CommitOneEach(s: State, t: State, id: nat, row: Record, a: nat, attempt: Attempt)
    requires AttemptsAgree(s) && OneAttemptEach(s) && Committed(s, t, id, row, a, attempt)
    ensures OneAttemptEach(t)
  {
    assert forall b | b in s.attempts :: s.attempts[b].recordId != id;
    forall i | i in t.rows ensures HasAttempt(t, i) {
      if i == id {
        assert a in t.attempts && t.attempts[a].recordId == i;
      } else {
        assert HasAttempt(s, i);
        var b :| b in s.attempts && s.attempts[b].recordId == i;
        assert b in t.attempts && t.attempts[b].recordId == i;
      }
    }
  }

  lemma CommitKeepsAttempts(cfg: Config, s: State, c: nat)
    requires AttemptInv(s) && OnlyRows(s) && CanCommitClaim(s, c) && CallerOk(s, s.callers[c])
    requires forall d | d in s.callers && d != c :: CallerOk(s, s.callers[d])
    ensures AttemptInv(AfterCommitClaim(s, c))
  {
    var t := AfterCommitClaim(s, c);
    var p := s.callers[c].phase;
    Untouched(s.history, p.id);
    CommitAgrees(s, t, p.id, p.pending, p.attemptId, p.pendingAttempt);
    CommitOneEach(s, t, p.id, p.pending, p.attemptId, p.pendingAttempt);
  }

  /** Steps of a settle call that leave rows' statuses and attempts alone. */
  lemma QuietStepKeepsAttempts(s: State, t: State, c: nat)
    requires AttemptInv(s) && OneMoves(s, t, c)
    requires t.history == s.history && t.attempts == s.attempts && t.rows.Keys == s.rows.Keys
    requires forall id | id in s.rows :: t.rows[id].status == s.rows[id].status
    requires Claimant(t.callers[c].phase) ==>
               c in s.callers && Claimant(s.callers[c].phase) && t.callers[c].phase.id == s.callers[c].phase.id
    ensures AttemptInv(t)
  {
  }
}
