/** The claim protocol: whatever the interleaving, a replay key has one row, one claimant and one submission. */
module ClaimSafety {
  import opened Wrappers
  import opened Settlement
  import opened Rows
  import opened Reconciliation
  import opened Protocol
  import opened Effects

  ghost predicate HasKey(s: State, key: ReplayKey) {
    exists id :: id in s.rows && ReplayKeyOf(s.rows[id].call) == key
  }

  ghost predicate HasProfile(s: State, key: ProfileKey) {
    exists id :: id in s.rows && ProfileKeyOf(s.rows[id].call) == key
  }

  /** While a call is inserting, its row is in no table and no committed row has its replay key. */
  ghost predicate PendingOk(s: State, call: Call, id: nat, pending: Record) {
    && !HasKey(s, ReplayKeyOf(call))
    && id < s.nextRecord && id !in s.rows
    && pending == NewRecord(call, pending.createdAt)
  }

  /** A claimant's row is in the table under the claimant's own identity, with its attempt beside it. */
  ghost predicate OwnsRow(s: State, call: Call, id: nat, snapshot: Record, attemptId: nat) {
    && id in s.rows && s.rows[id].call == call
    && attemptId in s.attempts && s.attempts[attemptId].recordId == id
    && snapshot == NewRecord(call, snapshot.createdAt)
  }

  ghost predicate CallerOk(s: State, k: Caller) {
    match k.phase
    case FoundRow(id, snapshot) => id in s.rows && snapshot.call == s.rows[id].call
    case Missed => !HasKey(s, ReplayKeyOf(k.call))
    case Conflicted => HasProfile(s, ProfileKeyOf(k.call))
    case Inserted(id, pending) => PendingOk(s, k.call, id, pending)
    case WithAttempt(id, pending, attemptId, attempt) =>
      && PendingOk(s, k.call, id, pending)
      && attemptId < s.nextAttempt && attemptId !in s.attempts
      && attempt == NewAttempt(id, attempt.startedAt)
    case HasClaim(id, snapshot, attemptId) =>
      OwnsRow(s, k.call, id, snapshot, attemptId) && ReplayKeyOf(k.call) !in s.submissions
    case Calling(id, snapshot, attemptId) => OwnsRow(s, k.call, id, snapshot, attemptId)
    case Returned(id, snapshot, attemptId, _) => OwnsRow(s, k.call, id, snapshot, attemptId)
    case _ => true
  }

  /** Two settle calls never share a lock, an uncommitted row, an uncommitted attempt or a claim. */
  ghost predicate Apart(cfg: Config, k: Caller, l: Caller) {
    && (InTransaction(k.phase) && InTransaction(l.phase) ==> LockOf(cfg, k.call) != LockOf(cfg, l.call))
    && (HoldsPending(k.phase) && HoldsPending(l.phase) ==> k.phase.id != l.phase.id)
    && (k.phase.WithAttempt? && l.phase.WithAttempt? ==> k.phase.attemptId != l.phase.attemptId)
    && (Claimant(k.phase) && Claimant(l.phase) ==> k.phase.id != l.phase.id)
  }

  ghost predicate TablesOk(s: State) {
    && (forall i, j | i in s.rows && j in s.rows && ReplayKeyOf(s.rows[i].call) == ReplayKeyOf(s.rows[j].call) ::
        i == j)
    && (forall id | id in s.rows :: id < s.nextRecord)
    && (forall a | a in s.attempts :: a < s.nextAttempt)
  }

  ghost predicate SubmittedOnce(s: State) {
    && (forall key :: s.submissions[key] <= 1)
    && (forall key | key in s.submissions :: HasKey(s, key))
  }

  ghost predicate CallersOk(s: State) {
    forall c | c in s.callers :: CallerOk(s, s.callers[c])
  }

  ghost predicate CallersApart(cfg: Config, s: State) {
    forall c, d | c in s.callers && d in s.callers && c != d :: Apart(cfg, s.callers[c], s.callers[d])
  }

  ghost predicate ClaimInv(cfg: Config, s: State) {
    CallersOk(s) && CallersApart(cfg, s) && TablesOk(s) && SubmittedOnce(s)
  }

  // ---------------------------------------------------------------- frames

  lemma KeysKept(s: State, t: State, key: ReplayKey)
    requires SameIdentities(s, t)
    ensures HasKey(s, key) <==> HasKey(t, key)
  {
  }

  lemma ProfilesKept(s: State, t: State, key: ProfileKey)
    requires forall id | id in s.rows :: id in t.rows && t.rows[id].call == s.rows[id].call
    requires HasProfile(s, key)
    ensures HasProfile(t, key)
  {
  }

  lemma CallerOkKept(s: State, t: State, k: Caller)
    requires SameIdentities(s, t) && CallerOk(s, k)
    ensures CallerOk(t, k)
  {
  }

  lemma SubmittedOnceKept(s: State, t: State)
    requires SameIdentities(s, t) && SubmittedOnce(s)
    ensures SubmittedOnce(t)
  {
  }

  lemma MoveKeepsClaimInv(cfg: Config, s: State, t: State, c: nat)
    requires ClaimInv(cfg, s) && SameIdentities(s, t) && OneMoves(s, t, c)
    requires CallerOk(t, t.callers[c])
    requires forall d | d in s.callers && d != c ::
               Apart(cfg, s.callers[d], t.callers[c]) && Apart(cfg, t.callers[c], s.callers[d])
    ensures ClaimInv(cfg, t)
  {
    SubmittedOnceKept(s, t);
    forall d | d in t.callers ensures CallerOk(t, t.callers[d]) {
      if d != c { CallerOkKept(s, t, s.callers[d]); }
    }
  }

  lemma InPlaceKeepsClaimInv(cfg: Config, s: State, t: State)
    requires ClaimInv(cfg, s) && SameIdentities(s, t) && t.callers == s.callers
    ensures ClaimInv(cfg, t)
  {
    SubmittedOnceKept(s, t);
    forall d | d in t.callers ensures CallerOk(t, t.callers[d]) {
      CallerOkKept(s, t, s.callers[d]);
    }
  }

  // ---------------------------------------------------------------- settle calls

  /** A call that holds nothing in the database constrains nobody. */
  lemma IdleMoveKeepsClaimInv(cfg: Config, s: State, t: State, c: nat)
    requires ClaimInv(cfg, s) && SameIdentities(s, t) && OneMoves(s, t, c)
    requires t.callers[c].phase.Ready? || t.callers[c].phase.Done?
    ensures ClaimInv(cfg, t)
  {
    MoveKeepsClaimInv(cfg, s, t, c);
  }

  /** Moves that keep what the call held apart from the others. */
  lemma SteadyMoveKeepsClaimInv(cfg: Config, s: State, t: State, c: nat)
    requires ClaimInv(cfg, s) && SameIdentities(s, t) && OneMoves(s, t, c) && c in s.callers
    requires CallerOk(t, t.callers[c]) && t.callers[c].call == s.callers[c].call
    requires InTransaction(t.callers[c].phase) ==> InTransaction(s.callers[c].phase)
    requires Claimant(t.callers[c].phase) ==>
               Claimant(s.callers[c].phase) && t.callers[c].phase.id == s.callers[c].phase.id
    requires !HoldsPending(t.callers[c].phase)
    ensures ClaimInv(cfg, t)
  {
    forall d | d in s.callers && d != c
      ensures Apart(cfg, s.callers[d], t.callers[c]) && Apart(cfg, t.callers[c], s.callers[d])
    {
      assert Apart(cfg, s.callers[d], s.callers[c]) && Apart(cfg, s.callers[c], s.callers[d]);
    }
    MoveKeepsClaimInv(cfg, s, t, c);
  }

  lemma LockKeepsClaimInv(cfg: Config, s: State, c: nat)
    requires ClaimInv(cfg, s) && CanTakeLock(cfg, s, c)
    ensures ClaimInv(cfg, AfterTakeLock(s, c))
  {
    MoveKeepsClaimInv(cfg, s, AfterTakeLock(s, c), c);
  }

  lemma LookUpKeepsClaimInv(cfg: Config, s: State, c: nat, found: Option<nat>)
    requires ClaimInv(cfg, s) && CanLookUp(s, c, found)
    ensures ClaimInv(cfg, AfterLookUp(s, c, found))
  {
    var t := AfterLookUp(s, c, found);
    if found.None? {
      KeysKept(s, t, ReplayKeyOf(s.callers[c].call));
      assert !HasKey(s, ReplayKeyOf(s.callers[c].call)) by {
        assert forall id | id in s.rows :: !SameReplay(s, id, c);
      }
    }
    SteadyMoveKeepsClaimInv(cfg, s, t, c);
  }

  lemma FreshRowApart(cfg: Config, s: State, k: Caller, l: Caller, pending: Record)
    requires CallerOk(s, k) && k.phase != Done && Apart(cfg, k, l) && Apart(cfg, l, k) && l.phase.Missed?
    ensures var inserted := l.(phase := Inserted(s.nextRecord, pending));
            Apart(cfg, k, inserted) && Apart(cfg, inserted, k)
  {
  }

  lemma InsertedKeepsClaimInv(cfg: Config, s: State, c: nat, stamp: Time)
    requires ClaimInv(cfg, s) && CanInsert(s, c, stamp)
    requires AfterInsert(s, c, stamp).callers[c].phase.Inserted?
    ensures ClaimInv(cfg, AfterInsert(s, c, stamp))
  {
    var t := AfterInsert(s, c, stamp);
    assert CallerOk(s, s.callers[c]);
    KeysKept(s, t, ReplayKeyOf(s.callers[c].call));
    forall d | d in s.callers && d != c
      ensures Apart(cfg, s.callers[d], t.callers[c]) && Apart(cfg, t.callers[c], s.callers[d])
    {
      if s.callers[d].phase != Done {
        FreshRowApart(cfg, s, s.callers[d], s.callers[c], t.callers[c].phase.pending);
      }
    }
    MoveKeepsClaimInv(cfg, s, t, c);
  }

  lemma ConflictIsBacked(s: State, c: nat, stamp: Time)
    requires CanInsert(s, c, stamp) && AfterInsert(s, c, stamp).callers[c].phase.Conflicted?
    ensures HasProfile(AfterInsert(s, c, stamp), ProfileKeyOf(s.callers[c].call))
  {
  }

  lemma ConflictKeepsClaimInv(cfg: Config, s: State, c: nat, stamp: Time)
    requires ClaimInv(cfg, s) && CanInsert(s, c, stamp)
    requires AfterInsert(s, c, stamp).callers[c].phase.Conflicted?
    ensures ClaimInv(cfg, AfterInsert(s, c, stamp))
  {
    ConflictIsBacked(s, c, stamp);
    SteadyMoveKeepsClaimInv(cfg, s, AfterInsert(s, c, stamp), c);
  }

  lemma AttemptKeepsClaimInv(cfg: Config, s: State, c: nat)
    requires ClaimInv(cfg, s) && CanStartAttempt(s, c)
    ensures ClaimInv(cfg, AfterStartAttempt(s, c))
  {
    var t := AfterStartAttempt(s, c);
    KeysKept(s, t, ReplayKeyOf(s.callers[c].call));
    assert CallerOk(s, s.callers[c]);
    forall d | d in s.callers && d != c
      ensures Apart(cfg, s.callers[d], t.callers[c]) && Apart(cfg, t.callers[c], s.callers[d])
    {
      assert CallerOk(s, s.callers[d]);
      assert Apart(cfg, s.callers[d], s.callers[c]) && Apart(cfg, s.callers[c], s.callers[d]);
    }
    MoveKeepsClaimInv(cfg, s, t, c);
  }

  lemma ReadConflictKeepsClaimInv(cfg: Config, s: State, c: nat, id: nat)
    requires ClaimInv(cfg, s) && CanReadConflict(s, c, id)
    ensures ClaimInv(cfg, AfterReadConflict(s, c, id))
  {
    SteadyMoveKeepsClaimInv(cfg, s, AfterReadConflict(s, c, id), c);
  }

  lemma ReplyKeepsClaimInv(cfg: Config, s: State, c: nat, reply: ProviderReply)
    requires ClaimInv(cfg, s) && CanReturn(s, c)
    ensures ClaimInv(cfg, AfterProviderReturns(s, c, reply))
  {
    assert CallerOk(s, s.callers[c]);
    SteadyMoveKeepsClaimInv(cfg, s, AfterProviderReturns(s, c, reply), c);
  }

  /** Calling the provider: the claimant's key was not submitted before, and no other claimant has it. */
  lemma SubmissionKeepsClaimInv(cfg: Config, s: State, c: nat)
    requires ClaimInv(cfg, s) && CanCallProvider(s, c)
    ensures ClaimInv(cfg, AfterCallProvider(s, c))
  {
    var t := AfterCallProvider(s, c);
    assert CallerOk(s, s.callers[c]);
    SubmissionKeepsOnce(s, c);
    SubmissionKeepsCallers(cfg, s, c);
    forall d | d in s.callers && d != c
      ensures Apart(cfg, s.callers[d], t.callers[c]) && Apart(cfg, t.callers[c], s.callers[d])
    {
      assert Apart(cfg, s.callers[d], s.callers[c]) && Apart(cfg, s.callers[c], s.callers[d]);
    }
  }

  lemma SubmissionKeepsOnce(s: State, c: nat)
    requires SubmittedOnce(s) && CanCallProvider(s, c) && CallerOk(s, s.callers[c])
    ensures SubmittedOnce(AfterCallProvider(s, c))
  {
  }

  lemma SubmissionKeepsCallers(cfg: Config, s: State, c: nat)
    requires CallersOk(s) && CallersApart(cfg, s) && TablesOk(s) && CanCallProvider(s, c)
    ensures CallersOk(AfterCallProvider(s, c))
  {
  }

  /** Committing the claim: the lock kept every other transaction away from this replay key. */
  lemma CommitKeepsClaimInv(cfg: Config, s: State, c: nat)
    requires ClaimInv(cfg, s) && CanCommitClaim(s, c)
    ensures ClaimInv(cfg, AfterCommitClaim(s, c))
  {
    CommitKeepsTables(s, c);
    CommitKeepsCallers(cfg, s, c);
    CommitKeepsApart(cfg, s, c);
  }

  lemma CommitKeepsCallers(cfg: Config, s: State, c: nat)
    requires CallersOk(s) && CallersApart(cfg, s) && CanCommitClaim(s, c)
    requires ReplayKeyOf(s.callers[c].call) !in s.submissions
    ensures CallersOk(AfterCommitClaim(s, c))
  {
    var t := AfterCommitClaim(s, c);
    assert CallerOk(s, s.callers[c]);
    forall d | d in t.callers ensures CallerOk(t, t.callers[d]) {
      if d != c {
        OtherCallerOutlivesCommit(cfg, s, t, s.callers[d], s.callers[c]);
      }
    }
  }

  lemma CommitKeepsApart(cfg: Config, s: State, c: nat)
    requires CallersOk(s) && CallersApart(cfg, s) && CanCommitClaim(s, c)
    ensures CallersApart(cfg, AfterCommitClaim(s, c))
  {
    var t := AfterCommitClaim(s, c);
    forall d | d in s.callers && d != c
      ensures Apart(cfg, s.callers[d], t.callers[c]) && Apart(cfg, t.callers[c], s.callers[d])
    {
      assert CallerOk(s, s.callers[d]) && CallerOk(s, s.callers[c]);
    }
  }

  lemma CommitKeepsTables(s: State, c: nat)
    requires TablesOk(s) && SubmittedOnce(s) && CanCommitClaim(s, c) && CallerOk(s, s.callers[c])
    ensures TablesOk(AfterCommitClaim(s, c)) && SubmittedOnce(AfterCommitClaim(s, c))
    ensures ReplayKeyOf(s.callers[c].call) !in s.submissions
  {
    var t := AfterCommitClaim(s, c);
    forall k | k in t.submissions ensures HasKey(t, k) {
      var id :| id in s.rows && ReplayKeyOf(s.rows[id].call) == k;
      assert id in t.rows && ReplayKeyOf(t.rows[id].call) == k;
    }
    forall i, j | i in t.rows && j in t.rows && ReplayKeyOf(t.rows[i].call) == ReplayKeyOf(t.rows[j].call)
      ensures i == j
    {
      assert i in s.rows || i == s.callers[c].phase.id;
      assert j in s.rows || j == s.callers[c].phase.id;
    }
  }

  lemma OtherCallerOutlivesCommit(cfg: Config, s: State, t: State, k: Caller, committer: Caller)
    requires committer.phase.WithAttempt? && CallerOk(s, committer)
    requires t.rows == s.rows[committer.phase.id := committer.phase.pending]
    requires t.attempts == s.attempts[committer.phase.attemptId := committer.phase.pendingAttempt]
    requires t.nextRecord == s.nextRecord && t.nextAttempt == s.nextAttempt && t.submissions == s.submissions
    requires CallerOk(s, k) && Apart(cfg, k, committer)
    ensures CallerOk(t, k)
  {
    if Inserting(k.phase) {
      assert ReplayKeyOf(k.call) != ReplayKeyOf(committer.call) by {
        assert LockOf(cfg, k.call) != LockOf(cfg, committer.call);
      }
      assert !HasKey(t, ReplayKeyOf(k.call)) by {
        assert forall id | id in t.rows :: id in s.rows || t.rows[id].call == committer.call;
      }
    }
    if k.phase.Conflicted? { ProfilesKept(s, t, ProfileKeyOf(k.call)); }
  }

  // ---------------------------------------------------------------- every step

  lemma ClaimingKeepsClaimInv(cfg: Config, s: State, c: nat, step: ClaimStep)
    requires ClaimInv(cfg, s) && CanClaim(cfg, s, c, step)
    ensures ClaimInv(cfg, AfterClaiming(cfg, s, c, step))
  {
    match step
    case TakeLock => LockKeepsClaimInv(cfg, s, c);
    case LookUp(found) => LookUpKeepsClaimInv(cfg, s, c, found);
    case Insert(stamp) => InsertKeepsClaimInv(cfg, s, c, stamp);
    case ReadConflict(id) => ReadConflictKeepsClaimInv(cfg, s, c, id);
    case StartAttempt => AttemptKeepsClaimInv(cfg, s, c);
    case CommitClaim => CommitKeepsClaimInv(cfg, s, c);
    case _ => IdleStepKeepsClaimInv(cfg, s, c, step);
  }

  lemma IdleStepKeepsClaimInv(cfg: Config, s: State, c: nat, step: ClaimStep)
    requires ClaimInv(cfg, s) && CanClaim(cfg, s, c, step)
    requires step.Begin? || step.AnswerCached? || step.CommitDuplicate? || step.RetryClaim?
    ensures ClaimInv(cfg, AfterClaiming(cfg, s, c, step))
  {
    IdleStepEffect(cfg, s, c, step);
    IdleMoveKeepsClaimInv(cfg, s, AfterClaiming(cfg, s, c, step), c);
  }

  lemma IdleStepEffect(cfg: Config, s: State, c: nat, step: ClaimStep)
    requires CanClaim(cfg, s, c, step)
    requires step.Begin? || step.AnswerCached? || step.CommitDuplicate? || step.RetryClaim?
    ensures var t := AfterClaiming(cfg, s, c, step);
            SameIdentities(s, t) && OneMoves(s, t, c) && (t.callers[c].phase.Ready? || t.callers[c].phase.Done?)
  {
  }

  lemma InsertKeepsClaimInv(cfg: Config, s: State, c: nat, stamp: Time)
    requires ClaimInv(cfg, s) && CanInsert(s, c, stamp)
    ensures ClaimInv(cfg, AfterInsert(s, c, stamp))
  {
    if AfterInsert(s, c, stamp).callers[c].phase.Inserted? {
      InsertedKeepsClaimInv(cfg, s, c, stamp);
    } else {
      ConflictKeepsClaimInv(cfg, s, c, stamp);
    }
  }

  lemma SettlingKeepsClaimInv(cfg: Config, s: State, c: nat, step: SettleStep)
    requires ClaimInv(cfg, s) && CanSettle(cfg, s, c, step)
    ensures ClaimInv(cfg, AfterSettling(cfg, s, c, step))
  {
    match step
    case CallProvider => SubmissionKeepsClaimInv(cfg, s, c);
    case ProviderReturns(reply) => ReplyKeepsClaimInv(cfg, s, c, reply);
    case FinaliseRecord(stamp, answered) =>
      var t := AfterFinalise(cfg, s, c, stamp, answered);
      FinaliseEffect(cfg, s, c, stamp, answered);
      if SettlerTouch(s, t, c) { SettlerTouchKeepsIdentities(s, t, c); }
      IdleMoveKeepsClaimInv(cfg, s, t, c);
    case Crash => IdleMoveKeepsClaimInv(cfg, s, At(s, c, Done), c);
  }

  lemma LeasedEffectKeepsClaimInv(cfg: Config, s: State, t: State)
    requires ClaimInv(cfg, s) && LeasedEffect(s, t)
    ensures ClaimInv(cfg, t)
  {
    LeasedEffectKeepsIdentities(s, t);
    InPlaceKeepsClaimInv(cfg, s, t);
  }

  lemma StepKeepsClaimInv(cfg: Config, s: State, step: Step)
    requires ClaimInv(cfg, s) && Enabled(cfg, s, step)
    ensures ClaimInv(cfg, After(cfg, s, step))
  {
    match step
    case Tick(clock) => InPlaceKeepsClaimInv(cfg, s, s.(clock := clock));
    case Claiming(c, claim) => ClaimingKeepsClaimInv(cfg, s, c, claim);
    case Settling(c, settle) => SettlingKeepsClaimInv(cfg, s, c, settle);
    case Reconciling(w, work) =>
      ReconcilingEffect(cfg, s, w, work);
      LeasedEffectKeepsClaimInv(cfg, s, AfterReconciling(cfg, s, w, work));
    case Operating(owner, id, stamp, action) =>
      OperatingEffect(s, owner, id, stamp, action);
      LeasedEffectKeepsClaimInv(cfg, s, AfterOperating(s, owner, id, stamp, action));
  }
}
