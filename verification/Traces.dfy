/**
 * Where everything in the tables comes from: each status write's content from what its writer was told, each row from
 * the last write on it, each attempt from the first, and each answer from a reply or from a record as it once stood.
 */
module Traces {
  import opened Wrappers
  import opened Settlement
  import opened Outcomes
  import opened Rows
  import opened Reconciliation
  import opened Protocol
  import opened Effects
  import opened ClaimSafety
  import opened Ledger
  import opened Attempts
  import opened Answers
  import opened Invariants
  import opened SettlementTheorems

  // ---------------------------------------------------------------- what a history says

  function ContentAfter(h: History, id: nat): Content {
    if h.Empty? then NO_CONTENT
    else if h.event.StatusWrite? && h.event.id == id then h.event.content
    else ContentAfter(h.before, id)
  }

  /** Status writes, releases and operators' claims set the update time; a reconciler's claim does not. */
  predicate Refreshes(e: Event) {
    e.StatusWrite? || e.LeaseRelease? || e.claimer.ByOperator?
  }

  function Refreshed(h: History, id: nat): Option<Time> {
    if h.Empty? then None
    else if h.event.id == id && Refreshes(h.event) then Some(h.event.stamp)
    else Refreshed(h.before, id)
  }

  /** How often the record was leased, to reconcilers or operators. */
  function LeaseClaims(h: History, id: nat): nat {
    if h.Empty? then 0
    else LeaseClaims(h.before, id) + if h.event.LeaseClaim? && h.event.id == id then 1 else 0
  }

  function FirstWrite(h: History, id: nat): Option<Event> {
    if h.Empty? then None
    else
      var earlier := FirstWrite(h.before, id);
      if earlier.Some? then earlier
      else if h.event.StatusWrite? && h.event.id == id then Some(h.event)
      else None
  }

  /** At some moment of the history, the record had this status and content. */
  predicate StoodAs(h: History, id: nat, row: Record) {
    || (StatusAfter(h, id) == row.status && ContentAfter(h, id) == ContentOf(row))
    || (h.Then? && StoodAs(h.before, id, row))
  }

  /** A settle call wrote the record on the strength of this reply. */
  predicate WrittenOn(h: History, id: nat, reply: ProviderReply, payloadPayer: Option<string>) {
    && h.Then?
    && (|| (h.event.StatusWrite? && h.event.id == id && h.event.writer.Settler?
            && h.event.writer.heard == reply && h.event.writer.payloadPayer == payloadPayer)
        || WrittenOn(h.before, id, reply, payloadPayer))
  }

  // ---------------------------------------------------------------- events

  /** When the record was last updated, as the history and its creation tell. */
  function UpdatedAt(rows: map<nat, Record>, h: History, id: nat): Time
    requires id in rows
  {
    if Refreshed(h, id).Some? then Refreshed(h, id).value else rows[id].createdAt
  }

  /** An event says only what its author was told, and claims only what is stale enough for it. */
  predicate Sourced(rows: map<nat, Record>, before: History, e: Event) {
    && e.id in rows
    && match e
       case StatusWrite(id, _, to, content, writer, _, _) => WriteSourced(before, id, to, content, writer)
       case LeaseClaim(id, _, _, _, claimer, _, _) =>
         ClaimSourced(StatusAfter(before, id), UpdatedAt(rows, before, id), claimer)
       case LeaseRelease(_, _, _, _) => true
  }

  predicate WriteSourced(before: History, id: nat, to: Status, content: Content, writer: Writer) {
    match writer
    case Settler(_, heard, payloadPayer) => Leaves(NO_CONTENT, heard, payloadPayer, to, content)
    case Operator(_) => content == ContentAfter(before, id).(error := Some(ManualReviewOperatorRequested))
    case Reconciler(ticket, run, reply, _, claimed) =>
      && CalledFor(run, claimed, reply, to, content) && StoodAs(before, id, claimed)
      && (ClaimedWith(LastOn(before, id), ticket) ==> ContentOf(claimed) == ContentAfter(before, id))
  }

  predicate ClaimSourced(status: Status, updatedAt: Time, claimer: Claimer) {
    match claimer
    case ByReconciler(staleBefore) => status in {SettleInProgress, Submitted, Unknown} && updatedAt <= staleBefore
    case ByOperator(activeStaleBefore) =>
      && status in {SettleInProgress, Submitted, Unknown, ManualReview}
      && (status in {SettleInProgress, Submitted} ==> updatedAt <= activeStaleBefore)
  }

  predicate Traced(rows: map<nat, Record>, h: History) {
    h.Then? ==> Traced(rows, h.before) && Sourced(rows, h.before, h.event)
  }

  // ---------------------------------------------------------------- tables, actors and answers

  predicate RowTraced(h: History, id: nat, row: Record) {
    && ContentOf(row) == ContentAfter(h, id) && row.reconciliationAttempts == LeaseClaims(h, id)
    && row.updatedAt == if Refreshed(h, id).Some? then Refreshed(h, id).value else row.createdAt
  }

  /** An attempt is closed with the transaction, error and stamp of the first write on its record. */
  predicate AttemptTraced(h: History, a: Attempt) {
    var first := FirstWrite(h, a.recordId);
    if first.None? then a.transaction.None? && a.error.None? && a.finishedAt.None?
    else
      && first.value.StatusWrite? && a.finishedAt == Some(first.value.stamp)
      && a.transaction == first.value.content.transaction && a.error == first.value.content.error
  }

  predicate WorkerTraced(h: History, held: Held) {
    && StoodAs(h, held.id, held.snapshot) && held.ticket < Length(h)
    && (ClaimedWith(LastOn(h, held.id), held.ticket) ==> ContentOf(held.snapshot) == ContentAfter(h, held.id))
  }

  predicate CallerTraced(rows: map<nat, Record>, h: History, k: Caller) {
    k.phase.FoundRow? ==> Read(rows, h, k.call, k.phase.id, k.phase.snapshot)
  }

  /** The record was read for this call; a terminal outcome it showed is still there. */
  predicate Read(rows: map<nat, Record>, h: History, call: Call, id: nat, record: Record) {
    && id in rows && rows[id].call == record.call && SamePayment(record.call, call) && StoodAs(h, id, record)
    && (Terminal(record.status) ==> SameOutcome(record, rows[id]))
  }

  /** A final answer is what the record it rests on still says. */
  predicate StillSays(row: Record, outcome: SettleOutcome) {
    && (outcome.success ==> SettledAs(row, outcome.transaction, outcome.payer))
    && (outcome.status == ProviderFailedFinal ==> row.status == SettleFailed && row.error == outcome.error)
  }

  predicate AnswerTraced(rows: map<nat, Record>, h: History, a: Answer) {
    && a.source.id in rows && StillSays(rows[a.source.id], a.outcome)
    && match a.source
       case Fresh(id, reply, payloadPayer) =>
         && rows[id].call == a.call && WrittenOn(h, id, reply, payloadPayer)
         && Repeats(a.outcome, reply, payloadPayer)
       case Existing(id, record) => Read(rows, h, a.call, id, record) && Shows(a.outcome, record)
  }

  ghost predicate RowsTraced(s: State) {
    forall id | id in s.rows :: RowTraced(s.history, id, s.rows[id])
  }

  ghost predicate AttemptsTraced(s: State) {
    forall a | a in s.attempts :: AttemptTraced(s.history, s.attempts[a])
  }

  ghost predicate WorkersTraced(s: State) {
    forall w | w in s.workers && s.workers[w].holding.Some? :: WorkerTraced(s.history, s.workers[w].holding.value)
  }

  ghost predicate CallersTraced(s: State) {
    forall c | c in s.callers :: CallerTraced(s.rows, s.history, s.callers[c])
  }

  ghost predicate AnswersTraced(s: State) {
    forall i | 0 <= i < |s.answers| :: AnswerTraced(s.rows, s.history, s.answers[i])
  }

  ghost predicate TraceInv(s: State) {
    && Traced(s.rows, s.history) && RowsTraced(s) && AttemptsTraced(s)
    && WorkersTraced(s) && CallersTraced(s) && AnswersTraced(s)
  }

  // ---------------------------------------------------------------- what lasts

  /** The history gains one event at most, and rows move on but keep their creation time. */
  ghost predicate Onward(s: State, t: State) {
    && (t.history == s.history || (t.history.Then? && t.history.before == s.history))
    && Progress(s, t) && SameBirths(s, t)
  }

  ghost predicate SameBirths(s: State, t: State) {
    forall id | id in s.rows :: id in t.rows && t.rows[id].createdAt == s.rows[id].createdAt
  }

  lemma {:induction false} TracedWithRows(rows: map<nat, Record>, next: map<nat, Record>, h: History)
    requires Traced(rows, h) && forall id | id in rows :: id in next && next[id].createdAt == rows[id].createdAt
    ensures Traced(next, h)
  {
    if h.Then? { TracedWithRows(rows, next, h.before); }
  }

  lemma {:induction false} ReadLasts(s: State, t: State, call: Call, id: nat, record: Record)
    requires Onward(s, t) && Read(s.rows, s.history, call, id, record)
    ensures Read(t.rows, t.history, call, id, record)
  {
  }

  lemma {:induction false} AnswerLasts(s: State, t: State, a: Answer)
    requires Onward(s, t) && AnswerTraced(s.rows, s.history, a)
    ensures AnswerTraced(t.rows, t.history, a)
  {
    if a.source.Existing? { ReadLasts(s, t, a.call, a.source.id, a.source.record); }
  }

  lemma {:induction false} CallersLast(s: State, t: State)
    requires CallersTraced(s) && Onward(s, t)
    requires forall c | c in t.callers && t.callers[c].phase.FoundRow? ::
               c in s.callers && t.callers[c] == s.callers[c]
    ensures CallersTraced(t)
  {
    forall c | c in t.callers ensures CallerTraced(t.rows, t.history, t.callers[c]) {
      if t.callers[c].phase.FoundRow? {
        var p := t.callers[c].phase;
        assert CallerTraced(s.rows, s.history, s.callers[c]);
        ReadLasts(s, t, t.callers[c].call, p.id, p.snapshot);
      }
    }
  }

  lemma {:induction false} AnswersLast(s: State, t: State)
    requires AnswersTraced(s) && Onward(s, t) && t.answers == s.answers
    ensures AnswersTraced(t)
  {
    forall i | 0 <= i < |t.answers| ensures AnswerTraced(t.rows, t.history, t.answers[i]) {
      AnswerLasts(s, t, s.answers[i]);
    }
  }

  lemma {:induction false} OneMoreAnswer(s: State, t: State, a: Answer)
    requires AnswersTraced(s) && Onward(s, t) && t.answers == s.answers + [a]
    requires AnswerTraced(t.rows, t.history, a)
    ensures AnswersTraced(t)
  {
    forall i | 0 <= i < |t.answers| ensures AnswerTraced(t.rows, t.history, t.answers[i]) {
      if i < |s.answers| { AnswerLasts(s, t, s.answers[i]); }
    }
  }

  /** No event: workers hold what they held, or nothing. */
  lemma {:induction false} WorkersLast(s: State, t: State)
    requires WorkersTraced(s) && t.history == s.history
    requires forall w | w in t.workers && t.workers[w].holding.Some? :: w in s.workers && t.workers[w] == s.workers[w]
    ensures WorkersTraced(t)
  {
  }

  lemma {:induction false} HoldingLasts(h: History, e: Event, held: Held)
    requires WorkerTraced(h, held) && (e.LeaseClaim? ==> e.ticket == Length(h))
    ensures WorkerTraced(Then(h, e), held)
  {
  }

  lemma {:induction false} WorkersLastEvent(s: State, t: State, e: Event)
    requires WorkersTraced(s) && t.history == Then(s.history, e) && (e.LeaseClaim? ==> e.ticket == Length(s.history))
    requires forall w | w in t.workers && t.workers[w].holding.Some? :: w in s.workers && t.workers[w] == s.workers[w]
    ensures WorkersTraced(t)
  {
    forall w | w in t.workers && t.workers[w].holding.Some?
      ensures WorkerTraced(t.history, t.workers[w].holding.value)
    {
      HoldingLasts(s.history, e, s.workers[w].holding.value);
    }
  }

  lemma {:induction false} RowsLastEvent(s: State, t: State, e: Event)
    requires RowsTraced(s) && Touches(s, t, e) && RowTraced(t.history, e.id, t.rows[e.id])
    ensures RowsTraced(t)
  {
    forall id | id in t.rows ensures RowTraced(t.history, id, t.rows[id]) {
      if id != e.id { assert RowTraced(s.history, id, s.rows[id]); }
    }
  }

  lemma {:induction false} AttemptsLastLease(s: State, t: State, e: Event)
    requires AttemptsTraced(s) && t.attempts == s.attempts && t.history == Then(s.history, e) && !e.StatusWrite?
    ensures AttemptsTraced(t)
  {
    forall a | a in t.attempts ensures AttemptTraced(t.history, t.attempts[a]) {
      assert AttemptTraced(s.history, s.attempts[a]);
    }
  }

  /** A row as it is now stands in the history. */
  lemma {:induction false} RowIsRead(cfg: Config, s: State, call: Call, id: nat)
    requires RowsAgree(cfg, s) && RowsTraced(s) && id in s.rows && SamePayment(s.rows[id].call, call)
    ensures Read(s.rows, s.history, call, id, s.rows[id])
  {
    assert RowAgrees(cfg.delay, s.clock, s.history, id, s.rows[id]) && RowTraced(s.history, id, s.rows[id]);
  }

  lemma {:induction false} Unwritten(h: History, id: nat)
    requires LastOn(h, id).None?
    ensures ContentAfter(h, id) == NO_CONTENT && Refreshed(h, id).None? && FirstWrite(h, id).None?
    ensures LeaseClaims(h, id) == 0
  {
    if h.Then? { Unwritten(h.before, id); }
  }

  lemma {:induction false} FirstWriteIsExit(h: History, id: nat)
    ensures FirstWrite(h, id).Some? <==> FirstExit(h, id).Some?
    ensures FirstWrite(h, id).Some? ==> FirstWrite(h, id).value.StatusWrite? && FirstWrite(h, id).value.id == id
  {
    if h.Then? { FirstWriteIsExit(h.before, id); }
  }

  // ---------------------------------------------------------------- settle calls

  /** Nothing in the tables changes but one caller's phase, and it holds no record that it has read. */
  lemma {:induction false} MoveKeepsTraces(s: State, t: State, c: nat)
    requires TraceInv(s) && QuietMove(s, t, c) && !t.callers[c].phase.FoundRow?
    ensures TraceInv(t)
  {
    CallersLast(s, t);
    AnswersLast(s, t);
  }

  /** A call reads a row. */
  lemma {:induction false} ReadingKeepsTraces(cfg: Config, s: State, t: State, c: nat, id: nat)
    requires TraceInv(s) && RowsAgree(cfg, s) && QuietMove(s, t, c) && c in s.callers && id in s.rows
    requires SamePayment(s.rows[id].call, s.callers[c].call)
    requires t.callers[c] == s.callers[c].(phase := FoundRow(id, s.rows[id]))
    ensures TraceInv(t)
  {
    RowIsRead(cfg, s, s.callers[c].call, id);
    forall d | d in t.callers ensures CallerTraced(t.rows, t.history, t.callers[d]) {
      if d != c { assert CallerTraced(s.rows, s.history, s.callers[d]); }
    }
    AnswersLast(s, t);
  }

  lemma {:induction false} CachedKeepsTraces(cfg: Config, s: State, c: nat, id: nat)
    requires TraceInv(s) && RowsAgree(cfg, s) && CanAnswerCached(s, c, id)
    ensures TraceInv(AfterAnswerCached(s, c, id))
  {
    var t, k := AfterAnswerCached(s, c, id), s.callers[c];
    var a := Answer(k.call, k.began, Existing(id, s.rows[id]), CachedSettlement(s.rows[id]));
    RowIsRead(cfg, s, k.call, id);
    AnswersExactly(s.rows[id], ProviderRaised, None, a.outcome);
    OneMoreAnswer(s, t, a);
    CallersLast(s, t);
  }

  lemma {:induction false} DuplicateKeepsRows(s: State, c: nat, stamp: Time, answered: bool)
    requires TraceInv(s) && CanCommitDuplicate(s, c, stamp)
    ensures var t := AfterCommitDuplicate(s, c, stamp, answered);
            Onward(s, t) && Traced(t.rows, t.history) && RowsTraced(t) && AttemptsTraced(t) && WorkersTraced(t)
  {
    var t := AfterCommitDuplicate(s, c, stamp, answered);
    TracedWithRows(s.rows, t.rows, s.history);
    forall id | id in t.rows ensures RowTraced(t.history, id, t.rows[id]) {
      assert RowTraced(s.history, id, s.rows[id]);
    }
    WorkersLast(s, t);
  }

  lemma {:induction false} DuplicateKeepsTraces(s: State, c: nat, stamp: Time, answered: bool)
    requires TraceInv(s) && CanCommitDuplicate(s, c, stamp)
    ensures TraceInv(AfterCommitDuplicate(s, c, stamp, answered))
  {
    var t, k := AfterCommitDuplicate(s, c, stamp, answered), s.callers[c];
    DuplicateKeepsRows(s, c, stamp, answered);
    CallersLast(s, t);
    if answered {
      var a := Answer(k.call, k.began, Existing(k.phase.id, k.phase.snapshot), CachedSettlement(k.phase.snapshot));
      assert CallerTraced(s.rows, s.history, k);
      ReadLasts(s, t, k.call, k.phase.id, k.phase.snapshot);
      AnswersExactly(k.phase.snapshot, ProviderRaised, None, a.outcome);
      OneMoreAnswer(s, t, a);
    } else {
      AnswersLast(s, t);
    }
  }

  lemma {:induction false} CommitKeepsTraces(s: State, c: nat)
    requires TraceInv(s) && OnlyRows(s) && CanCommitClaim(s, c) && CallerOk(s, s.callers[c])
    ensures TraceInv(AfterCommitClaim(s, c))
  {
    var t, p := AfterCommitClaim(s, c), s.callers[c].phase;
    assert p.id !in s.rows && p.attemptId !in s.attempts;
    Unwritten(s.history, p.id);
    TracedWithRows(s.rows, t.rows, s.history);
    forall id | id in t.rows ensures RowTraced(t.history, id, t.rows[id]) {
      if id != p.id { assert RowTraced(s.history, id, s.rows[id]); }
    }
    WorkersLast(s, t);
    CallersLast(s, t);
    AnswersLast(s, t);
  }

  lemma {:induction false} ClaimingKeepsTraces(cfg: Config, s: State, c: nat, step: ClaimStep)
    requires TraceInv(s) && RowsAgree(cfg, s) && OnlyRows(s) && CallersOk(s) && CanClaim(cfg, s, c, step)
    ensures TraceInv(AfterClaiming(cfg, s, c, step))
  {
    match step
    case AnswerCached(id) => CachedKeepsTraces(cfg, s, c, id);
    case CommitDuplicate(stamp, answered) => DuplicateKeepsTraces(s, c, stamp, answered);
    case CommitClaim =>
      assert CallerOk(s, s.callers[c]);
      CommitKeepsTraces(s, c);
    case LookUp(found) =>
      ClaimingQuietly(cfg, s, c, step);
      if found.Some? {
        ReadingKeepsTraces(cfg, s, AfterLookUp(s, c, found), c, found.value);
      } else {
        MoveKeepsTraces(s, AfterLookUp(s, c, found), c);
      }
    case ReadConflict(id) =>
      ClaimingQuietly(cfg, s, c, step);
      ReadingKeepsTraces(cfg, s, AfterReadConflict(s, c, id), c, id);
    case _ =>
      ClaimingQuietly(cfg, s, c, step);
      MoveKeepsTraces(s, AfterClaiming(cfg, s, c, step), c);
  }

  // ---------------------------------------------------------------- the settler's write

  lemma {:induction false} FinaliseSourced(cfg: Config, s: State, c: nat, stamp: Time, answered: bool)
    requires RowsTraced(s) && CanFinalise(cfg, s, c, stamp) && CallerOk(s, s.callers[c])
    requires Finalise(s.rows[s.callers[c].phase.id], FinalisationOf(s.callers[c]), stamp).Some?
    ensures var t, p := AfterFinalise(cfg, s, c, stamp, answered), s.callers[c].phase;
            && t.history.Then? && Touches(s, t, t.history.event) && t.history.event.id == p.id
            && Sourced(t.rows, s.history, t.history.event) && RowTraced(t.history, p.id, t.rows[p.id])
  {
    var k := s.callers[c];
    var f := FinalisationOf(k);
    WritesExactly(k.phase.snapshot, k.phase.reply, k.payloadPayer, f.status, Content(f.transaction, f.payer, f.error));
  }

  /** The claimant's attempt is the only one of its record, and its record has not been written before. */
  lemma {:induction false} FirstToWrite(cfg: Config, s: State, c: nat)
    requires AttemptInv(s) && RowsAgree(cfg, s) && c in s.callers && CallerOk(s, s.callers[c])
    requires s.callers[c].phase.Returned? && s.rows[s.callers[c].phase.id].status in {SettleInProgress, Submitted}
    ensures var p := s.callers[c].phase;
            && FirstWrite(s.history, p.id).None?
            && forall a | a in s.attempts && a != p.attemptId :: s.attempts[a].recordId != p.id
  {
    var p := s.callers[c].phase;
    FirstWriteIsExit(s.history, p.id);
    ExitedIffWritten(s.history, p.id);
    assert RowAgrees(cfg.delay, s.clock, s.history, p.id, s.rows[p.id]);
    assert Claimant(p) && s.rows[p.id].status == SettleInProgress;
  }

  lemma {:induction false} FirstWriteTraces(s: State, t: State, a: nat, e: Event)
    requires AttemptsTraced(s) && t.history == Then(s.history, e) && e.StatusWrite? && a in s.attempts
    requires FirstWrite(s.history, e.id).None? && s.attempts[a].recordId == e.id
    requires forall b | b in s.attempts && b != a :: s.attempts[b].recordId != e.id
    requires a in t.attempts && t.attempts == s.attempts[a := t.attempts[a]] && t.attempts[a].recordId == e.id
    requires t.attempts[a].transaction == e.content.transaction && t.attempts[a].error == e.content.error
    requires t.attempts[a].finishedAt == Some(e.stamp)
    ensures AttemptsTraced(t)
  {
    forall b | b in t.attempts ensures AttemptTraced(t.history, t.attempts[b]) {
      if b != a { assert AttemptTraced(s.history, s.attempts[b]); }
    }
  }

  lemma {:induction false} FinaliseKeepsAttemptTraces(cfg: Config, s: State, c: nat, stamp: Time, answered: bool)
    requires AttemptsTraced(s) && AttemptInv(s) && CanFinalise(cfg, s, c, stamp)
    requires CallerOk(s, s.callers[c]) && RowsAgree(cfg, s)
    requires Finalise(s.rows[s.callers[c].phase.id], FinalisationOf(s.callers[c]), stamp).Some?
    ensures AttemptsTraced(AfterFinalise(cfg, s, c, stamp, answered))
  {
    var t, p := AfterFinalise(cfg, s, c, stamp, answered), s.callers[c].phase;
    FirstToWrite(cfg, s, c);
    FirstWriteTraces(s, t, p.attemptId, t.history.event);
  }

  lemma {:induction false} FinaliseAnswerTraced(cfg: Config, s: State, c: nat, stamp: Time)
    requires CanFinalise(cfg, s, c, stamp) && CallerOk(s, s.callers[c])
    requires Finalise(s.rows[s.callers[c].phase.id], FinalisationOf(s.callers[c]), stamp).Some?
    ensures var t, k := AfterFinalise(cfg, s, c, stamp, true), s.callers[c];
            AnswerTraced(t.rows, t.history, Answer(k.call, k.began, Fresh(k.phase.id, k.phase.reply, k.payloadPayer),
                                                   FinalisationOf(k).outcome))
  {
    var k := s.callers[c];
    var f := FinalisationOf(k);
    AnswersExactly(k.phase.snapshot, k.phase.reply, k.payloadPayer, f.outcome);
  }

  lemma {:induction false} FinaliseKeepsAnswerTraces(cfg: Config, s: State, c: nat, stamp: Time, answered: bool)
    requires AnswersTraced(s) && CanFinalise(cfg, s, c, stamp) && CallerOk(s, s.callers[c])
    requires Finalise(s.rows[s.callers[c].phase.id], FinalisationOf(s.callers[c]), stamp).Some?
    requires Onward(s, AfterFinalise(cfg, s, c, stamp, answered))
    ensures AnswersTraced(AfterFinalise(cfg, s, c, stamp, answered))
  {
    var t, k := AfterFinalise(cfg, s, c, stamp, answered), s.callers[c];
    if answered {
      FinaliseAnswerTraced(cfg, s, c, stamp);
      OneMoreAnswer(s, t, Answer(k.call, k.began, Fresh(k.phase.id, k.phase.reply, k.payloadPayer),
                                 FinalisationOf(k).outcome));
    } else {
      AnswersLast(s, t);
    }
  }

  /** Everything but attempts and answers, for any write of one caller's own. */
  lemma {:induction false} OwnWriteKeepsTraces(s: State, t: State, c: nat, e: Event)
    requires TraceInv(s) && Onward(s, t) && Touches(s, t, e) && e.StatusWrite? && OneMoves(s, t, c)
    requires !t.callers[c].phase.FoundRow? && t.workers == s.workers
    requires Sourced(t.rows, s.history, e) && RowTraced(t.history, e.id, t.rows[e.id])
    ensures Traced(t.rows, t.history) && RowsTraced(t) && WorkersTraced(t) && CallersTraced(t)
  {
    TracedWithRows(s.rows, t.rows, s.history);
    RowsLastEvent(s, t, e);
    WorkersLastEvent(s, t, e);
    CallersLast(s, t);
  }

  lemma {:induction false} FinaliseKeepsTraces(cfg: Config, s: State, c: nat, stamp: Time, answered: bool)
    requires TraceInv(s) && AttemptInv(s) && RowsAgree(cfg, s) && CanFinalise(cfg, s, c, stamp)
    requires CallerOk(s, s.callers[c]) && Onward(s, AfterFinalise(cfg, s, c, stamp, answered))
    ensures TraceInv(AfterFinalise(cfg, s, c, stamp, answered))
  {
    var t, k := AfterFinalise(cfg, s, c, stamp, answered), s.callers[c];
    if Finalise(s.rows[k.phase.id], FinalisationOf(k), stamp).None? {
      MoveKeepsTraces(s, t, c);
    } else {
      FinaliseSourced(cfg, s, c, stamp, answered);
      OwnWriteKeepsTraces(s, t, c, t.history.event);
      FinaliseKeepsAttemptTraces(cfg, s, c, stamp, answered);
      FinaliseKeepsAnswerTraces(cfg, s, c, stamp, answered);
    }
  }

  // ---------------------------------------------------------------- reconcilers and operators

  /** An event of theirs leaves callers and answers alone. */
  lemma {:induction false} EventKeepsTraces(s: State, t: State, e: Event)
    requires TraceInv(s) && Onward(s, t) && Touches(s, t, e) && t.callers == s.callers && t.answers == s.answers
    requires Sourced(t.rows, s.history, e) && RowTraced(t.history, e.id, t.rows[e.id])
    requires AttemptsTraced(t) && WorkersTraced(t)
    ensures TraceInv(t)
  {
    TracedWithRows(s.rows, t.rows, s.history);
    RowsLastEvent(s, t, e);
    CallersLast(s, t);
    AnswersLast(s, t);
  }

  lemma {:induction false} ClosingKeepsAttemptTraces(cfg: Config, s: State, t: State, content: Content)
    requires AttemptsTraced(s) && AttemptInv(s) && Audited(cfg.delay, s.history)
    requires t.history.Then? && t.history.before == s.history && t.history.event.StatusWrite?
    requires var e := t.history.event;
             && e.content == content
             && t.attempts == CloseStarted(s.attempts, e.id, e.to, content.transaction, content.error, e.stamp)
    ensures AttemptsTraced(t)
  {
    forall a | a in t.attempts ensures AttemptTraced(t.history, t.attempts[a]) {
      assert AttemptTraced(s.history, s.attempts[a]) && AttemptAgrees(s.history, s.attempts[a]);
      FirstWriteIsExit(s.history, s.attempts[a].recordId);
      ExitsCloseAttempts(cfg.delay, s.history, s.attempts[a].recordId);
    }
  }

  lemma {:induction false} RowClaimSourced(cfg: Config, s: State, w: nat, id: nat, status: Status, stamp: Time)
    requires CanClaimRow(cfg, s, w, id, status, stamp)
    requires RowAgrees(cfg.delay, s.clock, s.history, id, s.rows[id]) && RowTraced(s.history, id, s.rows[id])
    ensures var t := AfterClaimRow(cfg, s, w, id, status, stamp);
            t != s ==>
              && t.history.Then? && t.history.event.LeaseClaim? && t.history.event.id == id
              && t.history.event.ticket == Length(s.history) && Touches(s, t, t.history.event)
              && Sourced(t.rows, s.history, t.history.event) && RowTraced(t.history, id, t.rows[id])
              && t.callers == s.callers && t.answers == s.answers && t.attempts == s.attempts
              && w in t.workers && t.workers == s.workers[w := t.workers[w]] && t.workers[w].holding.Some?
              && WorkerTraced(t.history, t.workers[w].holding.value)
  {
  }

  lemma {:induction false} RowClaimKeepsTraces(cfg: Config, s: State, w: nat, id: nat, status: Status, stamp: Time)
    requires TraceInv(s) && RowsAgree(cfg, s) && CanClaimRow(cfg, s, w, id, status, stamp)
    requires Onward(s, AfterClaimRow(cfg, s, w, id, status, stamp))
    ensures TraceInv(AfterClaimRow(cfg, s, w, id, status, stamp))
  {
    var t := AfterClaimRow(cfg, s, w, id, status, stamp);
    if t != s {
      RowClaimSourced(cfg, s, w, id, status, stamp);
      AttemptsLastLease(s, t, t.history.event);
      forall v | v in t.workers && t.workers[v].holding.Some?
        ensures WorkerTraced(t.history, t.workers[v].holding.value)
      {
        if v != w { HoldingLasts(s.history, t.history.event, s.workers[v].holding.value); }
      }
      EventKeepsTraces(s, t, t.history.event);
    }
  }

  lemma {:induction false} ReplySourced(cfg: Config, s: State, w: nat, reply: ReconcileReply, stamp: Time)
    requires RowsTraced(s) && WorkersTraced(s) && CanApplyReply(cfg, s, w, stamp)
    requires AfterApplyReply(cfg, s, w, reply, stamp).history != s.history
    ensures var t := AfterApplyReply(cfg, s, w, reply, stamp);
            && t.history.Then? && t.history.event.StatusWrite? && Touches(s, t, t.history.event)
            && Sourced(t.rows, s.history, t.history.event)
            && RowTraced(t.history, t.history.event.id, t.rows[t.history.event.id])
  {
    var run, held := s.workers[w].run, s.workers[w].holding.value;
    var d := Decide(run, held.snapshot, reply);
    assert WorkerTraced(s.history, held);
    DecidesExactly(run, held.snapshot, reply, d.status, Content(d.transaction, d.payer, d.error));
  }

  lemma {:induction false} ReplyCloses(cfg: Config, s: State, w: nat, reply: ReconcileReply, stamp: Time)
    requires CanApplyReply(cfg, s, w, stamp)
    ensures var t := AfterApplyReply(cfg, s, w, reply, stamp);
            && t.callers == s.callers && t.answers == s.answers
            && (forall v | v in t.workers && t.workers[v].holding.Some? ::
                  v in s.workers && t.workers[v] == s.workers[v])
            && (t.history == s.history ==> t.rows == s.rows && t.attempts == s.attempts)
            && (t.history != s.history ==>
                  && t.history.Then? && t.history.before == s.history && t.history.event.StatusWrite?
                  && var e, content := t.history.event, t.history.event.content;
                     t.attempts == CloseStarted(s.attempts, e.id, e.to, content.transaction, content.error, e.stamp))
  {
  }

  lemma {:induction false} ReplyKeepsTraces(cfg: Config, s: State, w: nat, reply: ReconcileReply, stamp: Time)
    requires TraceInv(s) && AttemptInv(s) && Audited(cfg.delay, s.history) && CanApplyReply(cfg, s, w, stamp)
    requires Onward(s, AfterApplyReply(cfg, s, w, reply, stamp))
    ensures TraceInv(AfterApplyReply(cfg, s, w, reply, stamp))
  {
    var t := AfterApplyReply(cfg, s, w, reply, stamp);
    ReplyCloses(cfg, s, w, reply, stamp);
    if t.history == s.history {
      WorkersLast(s, t);
    } else {
      ReplySourced(cfg, s, w, reply, stamp);
      ClosingKeepsTraces(cfg, s, t);
    }
  }

  /** A status write that closes the record's open attempt, by a reconciler or an operator. */
  lemma {:induction false} ClosingKeepsTraces(cfg: Config, s: State, t: State)
    requires TraceInv(s) && AttemptInv(s) && Audited(cfg.delay, s.history) && Onward(s, t)
    requires t.callers == s.callers && t.answers == s.answers
    requires forall w | w in t.workers && t.workers[w].holding.Some? :: w in s.workers && t.workers[w] == s.workers[w]
    requires t.history.Then? && t.history.event.StatusWrite? && Touches(s, t, t.history.event)
    requires var e := t.history.event;
             t.attempts == CloseStarted(s.attempts, e.id, e.to, e.content.transaction, e.content.error, e.stamp)
    requires Sourced(t.rows, s.history, t.history.event)
    requires RowTraced(t.history, t.history.event.id, t.rows[t.history.event.id])
    ensures TraceInv(t)
  {
    ClosingKeepsAttemptTraces(cfg, s, t, t.history.event.content);
    WorkersLastEvent(s, t, t.history.event);
    EventKeepsTraces(s, t, t.history.event);
  }

  /** An operator's claim or release. */
  lemma {:induction false} LeaseKeepsTraces(s: State, t: State)
    requires TraceInv(s) && Onward(s, t) && t.callers == s.callers && t.answers == s.answers
    requires t.workers == s.workers && t.attempts == s.attempts
    requires t.history.Then? && !t.history.event.StatusWrite? && Touches(s, t, t.history.event)
    requires t.history.event.LeaseClaim? ==> t.history.event.ticket == Length(s.history)
    requires Sourced(t.rows, s.history, t.history.event)
    requires RowTraced(t.history, t.history.event.id, t.rows[t.history.event.id])
    ensures TraceInv(t)
  {
    AttemptsLastLease(s, t, t.history.event);
    WorkersLastEvent(s, t, t.history.event);
    EventKeepsTraces(s, t, t.history.event);
  }

  lemma {:induction false} OperatorClaimSourced(cfg: Config, s: State, owner: string, id: nat, until: Time, stale: Time,
                                                stamp: Time)
    requires id in s.rows && RowAgrees(cfg.delay, s.clock, s.history, id, s.rows[id])
    requires RowTraced(s.history, id, s.rows[id])
    requires OperatorClaim(s.rows[id], owner, until, stale, stamp).Some?
    ensures var t := AfterOperatorClaims(s, owner, id, until, stale, stamp);
            Sourced(t.rows, s.history, t.history.event) && RowTraced(t.history, id, t.rows[id])
  {
  }

  lemma {:induction false} OperatorReviewSourced(s: State, owner: string, id: nat, stamp: Time)
    requires id in s.rows && RowTraced(s.history, id, s.rows[id])
    requires OperatorReview(s.rows[id], owner, stamp).Some?
    ensures var t := AfterOperatorReviews(s, owner, id, stamp);
            && t.callers == s.callers && t.answers == s.answers && t.workers == s.workers
            && t.history.Then? && t.history.event.StatusWrite? && t.history.event.id == id
            && Touches(s, t, t.history.event)
            && Sourced(t.rows, s.history, t.history.event) && RowTraced(t.history, id, t.rows[id])
            && var e := t.history.event;
               t.attempts == CloseStarted(s.attempts, e.id, e.to, e.content.transaction, e.content.error, e.stamp)
  {
  }

  lemma {:induction false} OperatorClaimKeepsTraces(cfg: Config, s: State, owner: string, id: nat, until: Time,
                                                    stale: Time, stamp: Time)
    requires TraceInv(s) && id in s.rows && RowAgrees(cfg.delay, s.clock, s.history, id, s.rows[id])
    requires Onward(s, AfterOperatorClaims(s, owner, id, until, stale, stamp))
    ensures TraceInv(AfterOperatorClaims(s, owner, id, until, stale, stamp))
  {
    if OperatorClaim(s.rows[id], owner, until, stale, stamp).Some? {
      assert RowTraced(s.history, id, s.rows[id]);
      OperatorClaimSourced(cfg, s, owner, id, until, stale, stamp);
      LeaseKeepsTraces(s, AfterOperatorClaims(s, owner, id, until, stale, stamp));
    }
  }

  lemma {:induction false} OperatorReleaseKeepsTraces(s: State, owner: string, id: nat, stamp: Time)
    requires TraceInv(s) && id in s.rows && Onward(s, AfterOperatorReleases(s, owner, id, stamp))
    ensures TraceInv(AfterOperatorReleases(s, owner, id, stamp))
  {
    if Release(s.rows[id], owner, stamp).Some? {
      assert RowTraced(s.history, id, s.rows[id]);
      LeaseKeepsTraces(s, AfterOperatorReleases(s, owner, id, stamp));
    }
  }

  lemma {:induction false} OperatorReviewKeepsTraces(cfg: Config, s: State, owner: string, id: nat, stamp: Time)
    requires TraceInv(s) && AttemptInv(s) && Audited(cfg.delay, s.history) && id in s.rows
    requires Onward(s, AfterOperatorReviews(s, owner, id, stamp))
    ensures TraceInv(AfterOperatorReviews(s, owner, id, stamp))
  {
    if OperatorReview(s.rows[id], owner, stamp).Some? {
      assert RowTraced(s.history, id, s.rows[id]);
      OperatorReviewSourced(s, owner, id, stamp);
      ClosingKeepsTraces(cfg, s, AfterOperatorReviews(s, owner, id, stamp));
    }
  }

  lemma {:induction false} OperatingKeepsTraces(cfg: Config, s: State, owner: string, id: nat, stamp: Time,
                                                action: OperatorStep)
    requires TraceInv(s) && AttemptInv(s) && Audited(cfg.delay, s.history) && id in s.rows
    requires RowAgrees(cfg.delay, s.clock, s.history, id, s.rows[id])
    requires Onward(s, AfterOperating(s, owner, id, stamp, action))
    ensures TraceInv(AfterOperating(s, owner, id, stamp, action))
  {
    match action
    case ClaimLease(until, stale) => OperatorClaimKeepsTraces(cfg, s, owner, id, until, stale, stamp);
    case ReleaseLease => OperatorReleaseKeepsTraces(s, owner, id, stamp);
    case MoveToReview => OperatorReviewKeepsTraces(cfg, s, owner, id, stamp);
  }

  // ---------------------------------------------------------------- every step

  lemma {:induction false} ClaimingKeepsBirths(cfg: Config, s: State, c: nat, step: ClaimStep)
    requires CallersOk(s) && CanClaim(cfg, s, c, step)
    ensures SameBirths(s, AfterClaiming(cfg, s, c, step))
  {
    if Quiet(step) {
      ClaimingQuietly(cfg, s, c, step);
    } else if step.CommitClaim? {
      assert CallerOk(s, s.callers[c]);
    }
  }

  lemma {:induction false} SettlingKeepsBirths(cfg: Config, s: State, c: nat, step: SettleStep)
    requires CanSettle(cfg, s, c, step)
    ensures SameBirths(s, AfterSettling(cfg, s, c, step))
  {
    if !step.FinaliseRecord? { SettlingQuietly(cfg, s, c, step); }
  }

  lemma {:induction false} ReconcilingKeepsBirths(cfg: Config, s: State, w: nat, work: WorkStep)
    requires CanReconcile(cfg, s, w, work)
    ensures SameBirths(s, AfterReconciling(cfg, s, w, work))
  {
  }

  lemma {:induction false} OperatingKeepsBirths(s: State, owner: string, id: nat, stamp: Time, action: OperatorStep)
    requires id in s.rows
    ensures SameBirths(s, AfterOperating(s, owner, id, stamp, action))
  {
  }

  lemma {:induction false} StepKeepsBirths(cfg: Config, s: State, step: Step)
    requires CallersOk(s) && Enabled(cfg, s, step)
    ensures SameBirths(s, After(cfg, s, step))
  {
    match step
    case Tick(_) =>
    case Claiming(c, claim) => ClaimingKeepsBirths(cfg, s, c, claim);
    case Settling(c, settle) => SettlingKeepsBirths(cfg, s, c, settle);
    case Reconciling(w, work) => ReconcilingKeepsBirths(cfg, s, w, work);
    case Operating(owner, id, stamp, action) => OperatingKeepsBirths(s, owner, id, stamp, action);
  }

  lemma {:induction false} StepIsOnward(cfg: Config, s: State, step: Step)
    requires ClaimInv(cfg, s) && Enabled(cfg, s, step)
    ensures Onward(s, After(cfg, s, step))
  {
    StepProgresses(cfg, s, step);
    StepPersists(cfg, s, step);
    StepKeepsBirths(cfg, s, step);
  }

  lemma {:induction false} ReconcilingKeepsTraces(cfg: Config, s: State, w: nat, work: WorkStep)
    requires TraceInv(s) && RowsAgree(cfg, s) && AttemptInv(s) && Audited(cfg.delay, s.history)
    requires CanReconcile(cfg, s, w, work)
    requires Onward(s, AfterReconciling(cfg, s, w, work))
    ensures TraceInv(AfterReconciling(cfg, s, w, work))
  {
    match work
    case StartRun(run) => WorkersLast(s, AfterStartRun(s, w, run));
    case ClaimRow(id, status, stamp) => RowClaimKeepsTraces(cfg, s, w, id, status, stamp);
    case ApplyReply(reply, stamp) => ReplyKeepsTraces(cfg, s, w, reply, stamp);
    case StopWorker => WorkersLast(s, AfterStopWorker(s, w));
  }

  lemma {:induction false} StepKeepsTraces(cfg: Config, s: State, step: Step)
    requires TraceInv(s) && Inv(cfg, s) && Enabled(cfg, s, step)
    ensures TraceInv(After(cfg, s, step))
  {
    StepIsOnward(cfg, s, step);
    match step
    case Tick(_) =>
    case Claiming(c, claim) => ClaimingKeepsTraces(cfg, s, c, claim);
    case Settling(c, settle) =>
      if settle.FinaliseRecord? {
        assert CallerOk(s, s.callers[c]);
        FinaliseKeepsTraces(cfg, s, c, settle.stamp, settle.answered);
      } else {
        SettlingQuietly(cfg, s, c, settle);
        MoveKeepsTraces(s, AfterSettling(cfg, s, c, settle), c);
      }
    case Reconciling(w, work) => ReconcilingKeepsTraces(cfg, s, w, work);
    case Operating(owner, id, stamp, action) =>
      assert RowAgrees(cfg.delay, s.clock, s.history, id, s.rows[id]);
      OperatingKeepsTraces(cfg, s, owner, id, stamp, action);
  }

  lemma {:induction false} RunKeepsTraces(cfg: Config, s: State, steps: seq<Step>)
    requires TraceInv(s) && Inv(cfg, s) && Runs(cfg, s, steps)
    ensures TraceInv(EndState(cfg, s, steps))
    decreases |steps|
  {
    if steps != [] {
      StepKeepsInv(cfg, s, steps[0]);
      StepKeepsTraces(cfg, s, steps[0]);
      RunKeepsTraces(cfg, After(cfg, s, steps[0]), steps[1..]);
    }
  }
}
