/**
 * What the history of status writes, lease claims and releases says about every record, and which events can
 * follow which: rank, fencing and timing are all properties of one event against the history before it.
 */
module Ledger {
  import opened Wrappers
  import opened Settlement
  import opened Rows
  import opened Reconciliation
  import opened Protocol
  import opened Effects

  predicate ClaimedBy(last: Option<Event>, owner: string, until: Time) {
    last.Some? && last.value.LeaseClaim? && last.value.owner == owner && last.value.until == until
  }

  predicate LeaseOverBy(last: Option<Event>, limit: Time) {
    last.Some? && last.value.LeaseClaim? ==> last.value.until <= limit
  }

  /** The claim that handed out `ticket`, on this record and to this owner, is in the history. */
  predicate Ticketed(h: History, ticket: nat, id: nat, owner: string, until: Time) {
    && h.Then?
    && (|| (h.event.LeaseClaim? && h.event.ticket == ticket && h.event.id == id
            && h.event.owner == owner && h.event.until == until)
        || Ticketed(h.before, ticket, id, owner, until))
  }

  /** How long the record had kept its status before `at`, against a minimum, up to the delay of a stamp. */
  predicate KeptFor(h: History, id: nat, at: Time, minimum: Time, delay: nat) {
    Since(h, id).Some? && at - Since(h, id).value >= minimum - delay
  }

  // ---------------------------------------------------------------- one event against the history before it

  predicate WriteOk(delay: nat, before: History, e: Event)
    requires e.StatusWrite?
  {
    && e.from == StatusAfter(before, e.id)
    && Rank(e.from) < Rank(e.to)
    && e.to in {Submitted, Unknown, Settled, SettleFailed, ManualReview}
    && e.at - delay <= e.stamp <= e.at
    && match e.writer
       case Settler(_, _, _) => e.from == SettleInProgress
       case Operator(owner) =>
         && e.from == Unknown && e.to == ManualReview
         && LastOn(before, e.id).Some? && LastOn(before, e.id).value.LeaseClaim?
         && LastOn(before, e.id).value.owner == owner && e.stamp < LastOn(before, e.id).value.until
       case Reconciler(ticket, run, reply, lease, claimed) =>
         && ClaimedBy(LastOn(before, e.id), run.owner, lease)
         && e.stamp < lease
         && Warrants(reply, e.to)
         && Ticketed(before, ticket, e.id, run.owner, lease)
         && Rank(claimed.status) <= Rank(e.from)
         && (LastOn(before, e.id).value.ticket == ticket ==> claimed.status == e.from)
         && (e.to == SettleFailed ==> e.from == Unknown && claimed.status in {Submitted, Unknown})
         && (e.to == ManualReview ==> e.from == Unknown == claimed.status)
         && (claimed.status == e.from ==> ReconcilerPatient(delay, before, e))
  }

  /** The timing promised of a reconciler that finds the record in the status it claimed it in. */
  predicate ReconcilerPatient(delay: nat, before: History, e: Event)
    requires e.StatusWrite? && e.writer.Reconciler?
  {
    && (e.from != SettleInProgress ==> KeptFor(before, e.id, e.at, e.writer.run.StaleAfter(e.from), delay))
    && (e.to == ManualReview && !AsksForReview(e.writer.reply) ==>
          KeptFor(before, e.id, e.at, e.writer.run.manualReviewAfter, delay))
  }

  predicate EventOk(delay: nat, before: History, e: Event) {
    match e
    case StatusWrite(_, _, _, _, _, _, _) => WriteOk(delay, before, e)
    case LeaseClaim(id, owner, until, ticket, _, stamp, at) =>
      && ticket == Length(before)
      && LeaseOverBy(LastOn(before, id), stamp)
      && !Final(StatusAfter(before, id))
      && at - delay <= stamp <= at
    case LeaseRelease(id, owner, _, _) =>
      LastOn(before, id).Some? && LastOn(before, id).value.LeaseClaim? && LastOn(before, id).value.owner == owner
  }

  predicate Audited(delay: nat, h: History) {
    h.Then? ==> Audited(delay, h.before) && EventOk(delay, h.before, h.event)
  }

  // ---------------------------------------------------------------- the tables against the history

  ghost predicate RowAgrees(delay: nat, clock: Time, h: History, id: nat, row: Record) {
    && row.status == StatusAfter(h, id)
    && row.status in {SettleInProgress, Submitted, Unknown, Settled, SettleFailed, ManualReview}
    && (if LastOn(h, id).Some? && LastOn(h, id).value.LeaseClaim?
        then row.owner == Some(LastOn(h, id).value.owner) && row.leaseUntil == Some(LastOn(h, id).value.until)
        else row.owner.None? && row.leaseUntil.None?)
    && (Final(row.status) ==> row.owner.None?)
    && (row.status == SettleInProgress <==> Since(h, id).None?)
    && (Since(h, id).Some? ==> Since(h, id).value <= clock && Since(h, id).value <= row.updatedAt + delay)
  }

  /**
   * The record has not gone back behind its snapshot, and has been as it is since the snapshot if it still agrees with
   * it.
   */
  predicate SnapshotAgrees(delay: nat, h: History, row: Record, held: Held) {
    && Rank(held.snapshot.status) <= Rank(row.status)
    && (row.status == held.snapshot.status && row.status != SettleInProgress ==>
          Since(h, held.id).Some? && Since(h, held.id).value <= held.snapshot.updatedAt + delay)
  }

  ghost predicate WorkerAgrees(delay: nat, s: State, run: Run, held: Held) {
    && held.id in s.rows
    && run.now <= s.clock
    && held.snapshot.status in {SettleInProgress, Submitted, Unknown}
    && held.snapshot.updatedAt <= run.StaleBefore(held.snapshot.status)
    && held.ticket < Length(s.history)
    && Ticketed(s.history, held.ticket, held.id, run.owner, run.Lease())
    && (LastOn(s.history, held.id).Some? && LastOn(s.history, held.id).value.LeaseClaim?
        && LastOn(s.history, held.id).value.ticket == held.ticket ==>
          s.rows[held.id].status == held.snapshot.status)
    && SnapshotAgrees(delay, s.history, s.rows[held.id], held)
  }

  ghost predicate RowsAgree(cfg: Config, s: State) {
    forall id | id in s.rows :: RowAgrees(cfg.delay, s.clock, s.history, id, s.rows[id])
  }

  ghost predicate OnlyRows(s: State) {
    forall id: nat | LastOn(s.history, id).Some? :: id in s.rows
  }

  ghost predicate WorkersAgree(delay: nat, s: State) {
    forall w | w in s.workers ::
      && s.workers[w].run.now <= s.clock
      && (s.workers[w].holding.Some? ==> WorkerAgrees(delay, s, s.workers[w].run, s.workers[w].holding.value))
  }

  ghost predicate LedgerInv(cfg: Config, s: State) {
    RowsAgree(cfg, s) && OnlyRows(s) && WorkersAgree(cfg.delay, s) && Audited(cfg.delay, s.history)
  }

  // ---------------------------------------------------------------- facts about histories

  /** No event on a record: it is as inserted. */
  lemma {:induction false} Untouched(h: History, id: nat)
    requires LastOn(h, id).None?
    ensures StatusAfter(h, id) == SettleInProgress && Since(h, id).None? && FirstExit(h, id).None?
  {
    if h.Then? { Untouched(h.before, id); }
  }

  lemma TouchKeepsRows(cfg: Config, s: State, t: State, e: Event)
    requires RowsAgree(cfg, s) && OnlyRows(s) && Touches(s, t, e)
    requires RowAgrees(cfg.delay, t.clock, t.history, e.id, t.rows[e.id])
    ensures RowsAgree(cfg, t) && OnlyRows(t)
  {
  }

  /** Only a status write moves the status, and it moves it up. */
  ghost predicate StatusMoves(s: State, t: State, e: Event)
    requires Touches(s, t, e)
  {
    if e.StatusWrite? then Rank(s.rows[e.id].status) < Rank(t.rows[e.id].status)
    else t.rows[e.id].status == s.rows[e.id].status
  }

  /** A held claim survives any touch: either the record is another one, or the claim is no longer the last. */
  lemma TouchKeepsHolding(cfg: Config, s: State, t: State, e: Event, run: Run, held: Held)
    requires WorkerAgrees(cfg.delay, s, run, held) && Touches(s, t, e)
    requires e.LeaseClaim? ==> e.ticket == Length(s.history)
    requires StatusMoves(s, t, e)
    ensures WorkerAgrees(cfg.delay, t, run, held)
  {
  }

  lemma TouchKeepsWorkers(cfg: Config, s: State, t: State, e: Event)
    requires WorkersAgree(cfg.delay, s) && Touches(s, t, e) && t.workers == s.workers
    requires e.LeaseClaim? ==> e.ticket == Length(s.history)
    requires StatusMoves(s, t, e)
    ensures WorkersAgree(cfg.delay, t)
  {
  }

  /** Putting down what one worker holds. */
  lemma DroppingKeepsWorkers(cfg: Config, s: State, t: State, w: nat)
    requires WorkersAgree(cfg.delay, s) && w in s.workers
    requires t.rows == s.rows && t.history == s.history && t.clock == s.clock
    requires t.workers == s.workers[w := s.workers[w].(holding := None)]
    ensures WorkersAgree(cfg.delay, t)
  {
  }

  // ---------------------------------------------------------------- operators

  lemma OperatorClaimKeepsLedger(cfg: Config, s: State, owner: string, id: nat, until: Time, stale: Time, stamp: Time)
    requires LedgerInv(cfg, s) && CanOperate(cfg, s, owner, id, stamp)
    ensures LedgerInv(cfg, AfterOperatorClaims(s, owner, id, until, stale, stamp))
  {
  }

  lemma OperatorReleaseKeepsLedger(cfg: Config, s: State, owner: string, id: nat, stamp: Time)
    requires LedgerInv(cfg, s) && CanOperate(cfg, s, owner, id, stamp)
    ensures LedgerInv(cfg, AfterOperatorReleases(s, owner, id, stamp))
  {
    var row := Release(s.rows[id], owner, stamp);
    if row.Some? {
      var t := AfterOperatorReleases(s, owner, id, stamp);
      var e := LeaseRelease(id, owner, stamp, s.clock);
      assert RowAgrees(cfg.delay, s.clock, s.history, id, s.rows[id]);
      TouchKeepsRows(cfg, s, t, e);
      TouchKeepsWorkers(cfg, s, t, e);
    }
  }

  lemma OperatorReviewKeepsLedger(cfg: Config, s: State, owner: string, id: nat, stamp: Time)
    requires LedgerInv(cfg, s) && CanOperate(cfg, s, owner, id, stamp)
    ensures LedgerInv(cfg, AfterOperatorReviews(s, owner, id, stamp))
  {
    var row := OperatorReview(s.rows[id], owner, stamp);
    if row.Some? {
      var t := AfterOperatorReviews(s, owner, id, stamp);
      var e := StatusWrite(id, Unknown, ManualReview, ContentOf(row.value), Operator(owner), stamp, s.clock);
      assert RowAgrees(cfg.delay, s.clock, s.history, id, s.rows[id]);
      TouchKeepsRows(cfg, s, t, e);
      TouchKeepsWorkers(cfg, s, t, e);
    }
  }

  // ---------------------------------------------------------------- reconcilers

  lemma RowClaimKeepsLedger(cfg: Config, s: State, w: nat, id: nat, status: Status, stamp: Time)
    requires LedgerInv(cfg, s) && CanClaimRow(cfg, s, w, id, status, stamp)
    ensures LedgerInv(cfg, AfterClaimRow(cfg, s, w, id, status, stamp))
  {
    var run := s.workers[w].run;
    var row := ReconcilerClaim(s.rows[id], run.owner, run.Lease(), {status}, Some(run.StaleBefore(status)), stamp);
    if row.Some? {
      var t := AfterClaimRow(cfg, s, w, id, status, stamp);
      var e := LeaseClaim(id, run.owner, run.Lease(), Length(s.history), ByReconciler(run.StaleBefore(status)), stamp,
                          s.clock);
      assert RowAgrees(cfg.delay, s.clock, s.history, id, s.rows[id]);
      TouchKeepsRows(cfg, s, t, e);
      forall v | v in t.workers && t.workers[v].holding.Some?
        ensures WorkerAgrees(cfg.delay, t, t.workers[v].run, t.workers[v].holding.value)
      {
        if v != w { TouchKeepsHolding(cfg, s, t, e, s.workers[v].run, s.workers[v].holding.value); }
      }
    }
  }

  lemma FencedWriteOk(cfg: Config, s: State, run: Run, held: Held, reply: ReconcileReply, stamp: Time, e: Event)
    requires RowsAgree(cfg, s) && WorkerAgrees(cfg.delay, s, run, held) && Stamped(cfg, s, stamp)
    requires Decide(run, held.snapshot, reply).Write?
    requires var d := Decide(run, held.snapshot, reply);
             FencedWrite(s.rows[held.id], d.status, d.transaction, d.payer, d.error, run.owner, run.Lease(),
                 stamp).Some?
    requires e.StatusWrite?
    requires e == StatusWrite(held.id, s.rows[held.id].status, Decide(run, held.snapshot, reply).status, e.content,
                              Reconciler(held.ticket, run, reply, run.Lease(), held.snapshot), stamp, s.clock)
    ensures WriteOk(cfg.delay, s.history, e)
  {
  }

  lemma ReplyKeepsLedger(cfg: Config, s: State, w: nat, reply: ReconcileReply, stamp: Time)
    requires LedgerInv(cfg, s) && CanApplyReply(cfg, s, w, stamp)
    ensures LedgerInv(cfg, AfterApplyReply(cfg, s, w, reply, stamp))
  {
    var run := s.workers[w].run;
    var held := s.workers[w].holding.value;
    var released := AfterStopWorker(s, w);
    DroppingKeepsWorkers(cfg, s, released, w);
    var d := Decide(run, held.snapshot, reply);
    if d.Write? {
      var row := FencedWrite(s.rows[held.id], d.status, d.transaction, d.payer, d.error, run.owner, run.Lease(), stamp);
      if row.Some? {
        var t := AfterApplyReply(cfg, s, w, reply, stamp);
        var e := StatusWrite(held.id, s.rows[held.id].status, d.status, ContentOf(row.value),
                             Reconciler(held.ticket, run, reply, run.Lease(), held.snapshot), stamp, s.clock);
        FencedWriteOk(cfg, s, run, held, reply, stamp, e);
        TouchKeepsRows(cfg, s, t, e);
        TouchKeepsWorkers(cfg, released, t, e);
      }
    }
  }

  // ---------------------------------------------------------------- settle calls

  lemma FinaliseKeepsLedger(cfg: Config, s: State, c: nat, stamp: Time, answered: bool)
    requires LedgerInv(cfg, s) && CanFinalise(cfg, s, c, stamp)
    requires s.rows[s.callers[c].phase.id].status != Submitted
    ensures LedgerInv(cfg, AfterFinalise(cfg, s, c, stamp, answered))
  {
    var p := s.callers[c].phase;
    var f := FinalisationOf(s.callers[c]);
    var row := Finalise(s.rows[p.id], f, stamp);
    if row.Some? {
      var t := AfterFinalise(cfg, s, c, stamp, answered);
      var e := StatusWrite(p.id, s.rows[p.id].status, f.status, ContentOf(row.value),
                           Settler(c, p.reply, s.callers[c].payloadPayer), stamp, s.clock);
      assert RowAgrees(cfg.delay, s.clock, s.history, p.id, s.rows[p.id]);
      TouchKeepsRows(cfg, s, t, e);
      TouchKeepsWorkers(cfg, s, t, e);
    }
  }

  lemma CommitKeepsLedger(cfg: Config, s: State, c: nat)
    requires LedgerInv(cfg, s) && CanCommitClaim(s, c)
    requires s.callers[c].phase.id !in s.rows
    requires s.callers[c].phase.pending == NewRecord(s.callers[c].call, s.callers[c].phase.pending.createdAt)
    ensures LedgerInv(cfg, AfterCommitClaim(s, c))
  {
    var t := AfterCommitClaim(s, c);
    Untouched(s.history, s.callers[c].phase.id);
    forall v | v in t.workers && t.workers[v].holding.Some?
      ensures WorkerAgrees(cfg.delay, t, t.workers[v].run, t.workers[v].holding.value)
    {
      assert WorkerAgrees(cfg.delay, s, s.workers[v].run, s.workers[v].holding.value);
    }
  }

  /** Steps that change no status, lease or timestamp, such as a duplicate count or the passing of time. */
  ghost predicate LedgerSteady(s: State, t: State) {
    && t.rows.Keys == s.rows.Keys && t.history == s.history && t.clock >= s.clock && t.workers == s.workers
    && (forall id | id in s.rows ::
          && t.rows[id].status == s.rows[id].status && t.rows[id].updatedAt == s.rows[id].updatedAt
          && t.rows[id].owner == s.rows[id].owner && t.rows[id].leaseUntil == s.rows[id].leaseUntil)
  }

  lemma SteadyKeepsLedger(cfg: Config, s: State, t: State)
    requires LedgerInv(cfg, s) && LedgerSteady(s, t)
    ensures LedgerInv(cfg, t)
  {
  }
}
