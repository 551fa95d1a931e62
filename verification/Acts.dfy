/**
 * When the protocol's conditional updates take effect: exactly when the row's own fields allow it. The safety results
 * say what an update never does; these say that it does what it should.
 */
module Acts {
  import opened Wrappers
  import opened Settlement
  import opened Outcomes
  import opened Rows
  import opened Reconciliation
  import opened Protocol

  predicate Unleased(row: Record, stamp: Time) {
    row.leaseUntil.Some? ==> row.leaseUntil.value <= stamp
  }

  predicate LeasedTo(row: Record, owner: string, stamp: Time) {
    row.owner == Some(owner) && row.leaseUntil.Some? && stamp < row.leaseUntil.value
  }

  /** An operator gets the lease of any open record that is free, and of an active one only when it is stale. */
  lemma OperatorClaimsExactly(s: State, owner: string, id: nat, until: Time, stale: Time, stamp: Time)
    requires id in s.rows
    ensures var t, row := AfterOperatorClaims(s, owner, id, until, stale, stamp), s.rows[id];
            if && row.status in {SettleInProgress, Submitted, Unknown, ManualReview} && Unleased(row, stamp)
               && (row.status in {SettleInProgress, Submitted} ==> row.updatedAt <= stale)
            then
              && t.history == Then(s.history, LeaseClaim(id, owner, until, Length(s.history), ByOperator(stale), stamp,
                                                         s.clock))
              && t.rows == s.rows[id := row.(owner := Some(owner), leaseUntil := Some(until), updatedAt := stamp,
                                             reconciliationAttempts := row.reconciliationAttempts + 1)]
            else t == s
  {
  }

  /** The holder of a lease can always put it down, and nobody else can. */
  lemma OperatorReleasesExactly(s: State, owner: string, id: nat, stamp: Time)
    requires id in s.rows
    ensures var t, row := AfterOperatorReleases(s, owner, id, stamp), s.rows[id];
            if row.owner == Some(owner)
            then
              && t.history == Then(s.history, LeaseRelease(id, owner, stamp, s.clock))
              && t.rows == s.rows[id := row.(owner := None, leaseUntil := None, updatedAt := stamp)]
            else t == s
  {
  }

  /** An operator moves to review exactly the UNKNOWN records it holds an unexpired lease on. */
  lemma OperatorReviewsExactly(s: State, owner: string, id: nat, stamp: Time)
    requires id in s.rows
    ensures var t, row := AfterOperatorReviews(s, owner, id, stamp), s.rows[id];
            if row.status == Unknown && LeasedTo(row, owner, stamp)
            then
              && t.history.Then? && t.history.before == s.history && t.history.event.StatusWrite?
              && t.rows == s.rows[id := row.(status := ManualReview, error := Some(ManualReviewOperatorRequested),
                                             owner := None, leaseUntil := None, updatedAt := stamp)]
            else t == s
  {
  }

  /** A reconciler gets a free record of the status it looks for, once it has been there as long as its setting says. */
  lemma ReconcilerClaimsExactly(cfg: Config, s: State, w: nat, id: nat, status: Status, stamp: Time)
    requires CanClaimRow(cfg, s, w, id, status, stamp)
    ensures var t, row, run := AfterClaimRow(cfg, s, w, id, status, stamp), s.rows[id], s.workers[w].run;
            var wait := match status
                        case SettleInProgress => run.staleInProgressAfter
                        case Submitted => run.staleSubmittedAfter
                        case _ => run.staleUnknownAfter;
            if row.status == status && row.updatedAt + wait <= run.now && Unleased(row, stamp)
            then
              && w in t.workers && t.workers[w].run == run && t.workers[w].holding.Some?
              && t.workers[w].holding.value.id == id && t.workers[w].holding.value.snapshot == t.rows[id]
              && t.rows == s.rows[id := row.(owner := Some(run.owner), leaseUntil := Some(run.now + run.leaseSeconds),
                                             reconciliationAttempts := row.reconciliationAttempts + 1)]
            else t == s
  {
  }

  /** The statuses a reconciler finds its write welcome in. */
  predicate Welcome(from: Status, to: Status) {
    match to
    case Settled => from in {SettleInProgress, Submitted, Unknown}
    case SettleFailed => from in {SettleInProgress, Unknown}
    case Unknown => from in {SettleInProgress, Submitted}
    case ManualReview => from == Unknown
    case _ => false
  }

  /** What a reply calls for is written exactly while the record is welcome to it and under the worker's own lease. */
  lemma {:induction false} ReconcilerWritesExactly(cfg: Config, s: State, w: nat, reply: ReconcileReply, stamp: Time,
                                                   status: Status, content: Content)
    requires CanApplyReply(cfg, s, w, stamp)
    requires var run, held := s.workers[w].run, s.workers[w].holding.value;
             CalledFor(run, held.snapshot, reply, status, content)
    ensures var t, run, held := AfterApplyReply(cfg, s, w, reply, stamp), s.workers[w].run, s.workers[w].holding.value;
            var row := s.rows[held.id];
            && w in t.workers && t.workers[w].holding.None?
            && if && Welcome(row.status, status) && row.owner == Some(run.owner)
                  && row.leaseUntil == Some(run.now + run.leaseSeconds) && stamp < run.now + run.leaseSeconds
               then
                 t.rows == s.rows[held.id := row.(status := status, transaction := content.transaction,
                                                  payer := content.payer, error := content.error, owner := None,
                                                  leaseUntil := None, updatedAt := stamp)]
               else t.rows == s.rows && t.history == s.history
  {
    var run, held := s.workers[w].run, s.workers[w].holding.value;
    DecidesExactly(run, held.snapshot, reply, status, content);
  }

  /** A settle call's outcome is stored exactly while its record is in progress, or is SUBMITTED and may still move. */
  lemma {:induction false} SettlerWritesExactly(cfg: Config, s: State, c: nat, stamp: Time, answered: bool,
                                                status: Status, content: Content)
    requires CanFinalise(cfg, s, c, stamp)
    requires var k := s.callers[c];
             Leaves(ContentOf(k.phase.snapshot), k.phase.reply, k.payloadPayer, status, content)
    ensures var t, p := AfterFinalise(cfg, s, c, stamp, answered), s.callers[c].phase;
            var row := s.rows[p.id];
            if row.status == SettleInProgress || (row.status == Submitted && status in {Settled, Unknown})
            then
              && t.rows == s.rows[p.id := row.(status := status, transaction := content.transaction,
                                               payer := content.payer, error := content.error, owner := None,
                                               leaseUntil := None, updatedAt := stamp)]
              && |t.answers| == |s.answers| + (if answered then 1 else 0)
            else t.rows == s.rows && t.history == s.history && t.answers == s.answers
  {
    var k := s.callers[c];
    WritesExactly(k.phase.snapshot, k.phase.reply, k.payloadPayer, status, content);
  }

  /** A call that has not begun its claim can be answered from any record with its profile key or its replay key. */
  lemma {:induction false} ExistingRecordAnswers(cfg: Config, s: State, c: nat, id: nat)
    requires c in s.callers && s.callers[c].phase.Ready? && id in s.rows
    requires || ProfileKeyOf(s.rows[id].call) == ProfileKeyOf(s.callers[c].call)
             || ReplayKeyOf(s.rows[id].call) == ReplayKeyOf(s.callers[c].call)
    ensures Enabled(cfg, s, Step.Claiming(c, AnswerCached(id)))
    ensures var t := After(cfg, s, Step.Claiming(c, AnswerCached(id)));
            && t.rows == s.rows && t.submissions == s.submissions && t.callers[c].phase.Done?
            && |t.answers| == |s.answers| + 1 && t.answers[|s.answers|].call == s.callers[c].call
            && Shows(t.answers[|s.answers|].outcome, s.rows[id])
  {
    AnswersExactly(s.rows[id], ProviderRaised, None, CachedSettlement(s.rows[id]));
  }

  lemma {:induction false} OneStep(cfg: Config, s: State, step: Step)
    requires Enabled(cfg, s, step)
    ensures Runs(cfg, s, [step]) && EndState(cfg, s, [step]) == After(cfg, s, step)
  {
    var next := After(cfg, s, step);
    assert [step][1..] == [] && Runs(cfg, next, []) && EndState(cfg, next, []) == next;
  }

  /** An operator can bring any UNKNOWN record that is free to review: claim it, and move it. */
  lemma {:induction false} ReviewRun(cfg: Config, s: State, owner: string, id: nat, until: Time)
    requires owner != "" && id in s.rows && s.rows[id].status == Unknown && Unleased(s.rows[id], s.clock)
    requires until > s.clock
    ensures var steps := [Step.Operating(owner, id, s.clock, ClaimLease(until, s.clock)),
                          Step.Operating(owner, id, s.clock, MoveToReview)];
            && Runs(cfg, s, steps)
            && id in EndState(cfg, s, steps).rows && EndState(cfg, s, steps).rows[id].status == ManualReview
            && EndState(cfg, s, steps).rows[id].owner.None?
  {
    var claim, review := Step.Operating(owner, id, s.clock, ClaimLease(until, s.clock)),
                         Step.Operating(owner, id, s.clock, MoveToReview);
    OperatorClaimsExactly(s, owner, id, until, s.clock, s.clock);
    var s1 := After(cfg, s, claim);
    OperatorReviewsExactly(s1, owner, id, s.clock);
    var s2 := After(cfg, s1, review);
    OneStep(cfg, s1, review);
    assert [claim, review][1..] == [review];
  }
}
