/** Over every run: tables and answers say what providers said, and claims take only what is stale. */
module Provenance {
  import opened Wrappers
  import opened Settlement
  import opened Outcomes
  import opened Rows
  import opened Reconciliation
  import opened Protocol
  import opened Effects
  import opened ClaimSafety
  import opened Ledger
  import opened Answers
  import opened Invariants
  import opened SettlementTheorems
  import opened Traces

  // ---------------------------------------------------------------- replies come from steps of the run

  /** Caller `c` came with this call and payload, and its provider call returned this reply. */
  predicate AskedBy(past: seq<Step>, c: nat, call: Call, payloadPayer: Option<string>, reply: ProviderReply) {
    Step.Claiming(c, Begin(call, payloadPayer)) in past && Settling(c, ProviderReturns(reply)) in past
  }

  ghost predicate Asked(past: seq<Step>, call: Call, payloadPayer: Option<string>, reply: ProviderReply) {
    exists c :: AskedBy(past, c, call, payloadPayer, reply)
  }

  /** Worker `w` started this run and was given this reply. */
  predicate ConsultedBy(past: seq<Step>, w: nat, run: Run, reply: ReconcileReply, stamp: Time) {
    Reconciling(w, StartRun(run)) in past && Reconciling(w, ApplyReply(reply, stamp)) in past
  }

  ghost predicate Consulted(past: seq<Step>, run: Run, reply: ReconcileReply, stamp: Time) {
    exists w :: ConsultedBy(past, w, run, reply, stamp)
  }

  ghost predicate EventHeard(past: seq<Step>, rows: map<nat, Record>, e: Event) {
    e.StatusWrite? ==>
      && e.id in rows
      && match e.writer
         case Settler(_, heard, payloadPayer) => Asked(past, rows[e.id].call, payloadPayer, heard)
         case Reconciler(_, run, reply, _, _) => Consulted(past, run, reply, e.stamp)
         case Operator(owner) => Step.Operating(owner, e.id, e.stamp, MoveToReview) in past
  }

  ghost predicate HistoryHeard(past: seq<Step>, rows: map<nat, Record>, h: History) {
    h.Then? ==> HistoryHeard(past, rows, h.before) && EventHeard(past, rows, h.event)
  }

  ghost predicate CallerHeard(past: seq<Step>, c: nat, k: Caller) {
    && Step.Claiming(c, Begin(k.call, k.payloadPayer)) in past
    && (k.phase.Returned? ==> Settling(c, ProviderReturns(k.phase.reply)) in past)
  }

  ghost predicate AnswerHeard(past: seq<Step>, a: Answer) {
    a.source.Fresh? ==> Asked(past, a.call, a.source.payloadPayer, a.source.reply)
  }

  ghost predicate HeardInv(past: seq<Step>, s: State) {
    && HistoryHeard(past, s.rows, s.history)
    && (forall c | c in s.callers :: CallerHeard(past, c, s.callers[c]))
    && (forall w | w in s.workers :: Reconciling(w, StartRun(s.workers[w].run)) in past)
    && (forall i | 0 <= i < |s.answers| :: AnswerHeard(past, s.answers[i]))
  }

  ghost predicate SameCalls(rows: map<nat, Record>, next: map<nat, Record>) {
    forall id | id in rows :: id in next && next[id].call == rows[id].call
  }

  lemma {:induction false} EventStillHeard(past: seq<Step>, step: Step, rows: map<nat, Record>,
                                           next: map<nat, Record>, e: Event)
    requires EventHeard(past, rows, e) && SameCalls(rows, next)
    ensures EventHeard(past + [step], next, e)
  {
    if e.StatusWrite? && e.writer.Settler? {
      var c :| AskedBy(past, c, rows[e.id].call, e.writer.payloadPayer, e.writer.heard);
      assert AskedBy(past + [step], c, next[e.id].call, e.writer.payloadPayer, e.writer.heard);
    }
    if e.StatusWrite? && e.writer.Reconciler? {
      var w :| ConsultedBy(past, w, e.writer.run, e.writer.reply, e.stamp);
      assert ConsultedBy(past + [step], w, e.writer.run, e.writer.reply, e.stamp);
    }
  }

  lemma {:induction false} HistoryStillHeard(past: seq<Step>, step: Step, rows: map<nat, Record>,
                                             next: map<nat, Record>, h: History)
    requires HistoryHeard(past, rows, h) && SameCalls(rows, next)
    ensures HistoryHeard(past + [step], next, h)
  {
    if h.Then? {
      HistoryStillHeard(past, step, rows, next, h.before);
      EventStillHeard(past, step, rows, next, h.event);
    }
  }

  lemma {:induction false} AnswerStillHeard(past: seq<Step>, step: Step, a: Answer)
    requires AnswerHeard(past, a)
    ensures AnswerHeard(past + [step], a)
  {
    if a.source.Fresh? {
      var c :| AskedBy(past, c, a.call, a.source.payloadPayer, a.source.reply);
      assert AskedBy(past + [step], c, a.call, a.source.payloadPayer, a.source.reply);
    }
  }

  // ---------------------------------------------------------------- what each actor's step moves

  lemma {:induction false} ClaimingMoves(cfg: Config, s: State, c: nat, claim: ClaimStep)
    requires CanClaim(cfg, s, c, claim)
    ensures var t := AfterClaiming(cfg, s, c, claim);
            && t.workers == s.workers && t.history == s.history && OneMoves(s, t, c)
            && !t.callers[c].phase.Returned?
            && (claim.Begin? ==> t.callers[c].call == claim.call && t.callers[c].payloadPayer == claim.payloadPayer)
            && (!claim.Begin? ==> c in s.callers && t.callers[c].call == s.callers[c].call
                                  && t.callers[c].payloadPayer == s.callers[c].payloadPayer)
  {
  }

  lemma {:induction false} SettlingMoves(cfg: Config, s: State, c: nat, settle: SettleStep)
    requires CanSettle(cfg, s, c, settle)
    ensures var t := AfterSettling(cfg, s, c, settle);
            && t.workers == s.workers && OneMoves(s, t, c) && c in s.callers
            && t.callers[c].call == s.callers[c].call && t.callers[c].payloadPayer == s.callers[c].payloadPayer
            && (t.callers[c].phase.Returned? ==> settle == ProviderReturns(t.callers[c].phase.reply))
            && (!settle.FinaliseRecord? ==> t.history == s.history && t.answers == s.answers)
  {
  }

  lemma {:induction false} ReconcilingMoves(cfg: Config, s: State, w: nat, work: WorkStep)
    requires CanReconcile(cfg, s, w, work)
    ensures var t := AfterReconciling(cfg, s, w, work);
            && t.callers == s.callers && t.answers == s.answers && w in t.workers
            && t.workers == s.workers[w := t.workers[w]]
            && (work.StartRun? ==> t.workers[w].run == work.run)
            && (!work.StartRun? ==> w in s.workers && t.workers[w].run == s.workers[w].run)
            && (t.history != s.history ==> t.history.Then? && (t.history.event.StatusWrite? ==> work.ApplyReply?))
  {
  }

  lemma {:induction false} OperatingMoves(s: State, owner: string, id: nat, stamp: Time, action: OperatorStep)
    requires id in s.rows
    ensures var t := AfterOperating(s, owner, id, stamp, action);
            && t.callers == s.callers && t.answers == s.answers && t.workers == s.workers
            && (t.history != s.history ==>
                  && t.history.Then? && id in t.rows
                  && (t.history.event.StatusWrite? ==>
                        action == MoveToReview && t.history.event.writer == Operator(owner)
                        && t.history.event.id == id && t.history.event.stamp == stamp))
  {
  }

  lemma {:induction false} CallersHeard(cfg: Config, past: seq<Step>, s: State, step: Step, c: nat)
    requires HeardInv(past, s) && Enabled(cfg, s, step) && c in After(cfg, s, step).callers
    ensures CallerHeard(past + [step], c, After(cfg, s, step).callers[c])
  {
    if c in s.callers { assert CallerHeard(past, c, s.callers[c]); }
    match step
    case Tick(_) =>
    case Claiming(d, claim) => ClaimingMoves(cfg, s, d, claim);
    case Settling(d, settle) => SettlingMoves(cfg, s, d, settle);
    case Reconciling(w, work) => ReconcilingMoves(cfg, s, w, work);
    case Operating(owner, id, stamp, action) => OperatingMoves(s, owner, id, stamp, action);
  }

  lemma {:induction false} WorkersHeard(cfg: Config, past: seq<Step>, s: State, step: Step, w: nat)
    requires HeardInv(past, s) && Enabled(cfg, s, step) && w in After(cfg, s, step).workers
    ensures Reconciling(w, StartRun(After(cfg, s, step).workers[w].run)) in past + [step]
  {
    match step
    case Tick(_) =>
    case Claiming(c, claim) => ClaimingMoves(cfg, s, c, claim);
    case Settling(c, settle) => SettlingMoves(cfg, s, c, settle);
    case Reconciling(v, work) => ReconcilingMoves(cfg, s, v, work);
    case Operating(owner, id, stamp, action) => OperatingMoves(s, owner, id, stamp, action);
  }

  // ---------------------------------------------------------------- the new event and the new answer of a step

  lemma {:induction false} NewEventHeard(cfg: Config, past: seq<Step>, s: State, step: Step)
    requires HeardInv(past, s) && CallersOk(s) && Enabled(cfg, s, step)
    requires var t := After(cfg, s, step); t.history.Then? && t.history.before == s.history
    ensures var t := After(cfg, s, step); EventHeard(past + [step], t.rows, t.history.event)
  {
    match step
    case Tick(_) =>
    case Claiming(c, claim) => ClaimingMoves(cfg, s, c, claim);
    case Settling(c, settle) =>
      if settle.FinaliseRecord? {
        SettlerHeard(cfg, past, s, c, settle.stamp, settle.answered);
      } else {
        SettlingMoves(cfg, s, c, settle);
      }
    case Reconciling(w, work) =>
      ReconcilingMoves(cfg, s, w, work);
      if work.ApplyReply? { ReplyHeard(cfg, past, s, w, work.reply, work.stamp); }
    case Operating(owner, id, stamp, action) => OperatingMoves(s, owner, id, stamp, action);
  }

  lemma {:induction false} SettlerHeard(cfg: Config, past: seq<Step>, s: State, c: nat, stamp: Time, answered: bool)
    requires HeardInv(past, s) && CallersOk(s) && CanFinalise(cfg, s, c, stamp)
    ensures var t, step := AfterFinalise(cfg, s, c, stamp, answered), Settling(c, FinaliseRecord(stamp, answered));
            && (t.history.Then? && t.history.before == s.history ==>
                  EventHeard(past + [step], t.rows, t.history.event))
            && (|t.answers| == |s.answers| || (|t.answers| == |s.answers| + 1 && t.answers[..|s.answers|] == s.answers
                                               && AnswerHeard(past + [step], t.answers[|s.answers|])))
  {
    var k, step := s.callers[c], Settling(c, FinaliseRecord(stamp, answered));
    assert CallerOk(s, k) && CallerHeard(past, c, k);
    assert AskedBy(past + [step], c, k.call, k.payloadPayer, k.phase.reply);
  }

  lemma {:induction false} ReplyHeard(cfg: Config, past: seq<Step>, s: State, w: nat, reply: ReconcileReply,
                                      stamp: Time)
    requires HeardInv(past, s) && CanApplyReply(cfg, s, w, stamp)
    ensures var t, step := AfterApplyReply(cfg, s, w, reply, stamp), Reconciling(w, ApplyReply(reply, stamp));
            t.history.Then? && t.history.before == s.history ==> EventHeard(past + [step], t.rows, t.history.event)
  {
    var step := Reconciling(w, ApplyReply(reply, stamp));
    assert ConsultedBy(past + [step], w, s.workers[w].run, reply, stamp);
  }

  /** A step answers nothing new, or one thing that was heard. */
  lemma {:induction false} NewAnswerHeard(cfg: Config, past: seq<Step>, s: State, step: Step)
    requires HeardInv(past, s) && CallersOk(s) && Enabled(cfg, s, step)
    ensures var t := After(cfg, s, step);
            || t.answers == s.answers
            || (|t.answers| == |s.answers| + 1 && t.answers[..|s.answers|] == s.answers
                && AnswerHeard(past + [step], t.answers[|s.answers|]))
  {
    var t := After(cfg, s, step);
    match step
    case Tick(_) =>
    case Claiming(c, claim) => if Quiet(claim) { ClaimingQuietly(cfg, s, c, claim); }
    case Settling(c, settle) =>
      if settle.FinaliseRecord? {
        SettlerHeard(cfg, past, s, c, settle.stamp, settle.answered);
        FinaliseEffect(cfg, s, c, settle.stamp, settle.answered);
      } else {
        SettlingQuietly(cfg, s, c, settle);
      }
    case Reconciling(w, work) => ReconcilingEffect(cfg, s, w, work);
    case Operating(owner, id, stamp, action) => OperatingEffect(s, owner, id, stamp, action);
  }

  lemma {:induction false} AnswersHeard(cfg: Config, past: seq<Step>, s: State, step: Step)
    requires HeardInv(past, s) && CallersOk(s) && Enabled(cfg, s, step)
    ensures var t := After(cfg, s, step); forall i | 0 <= i < |t.answers| :: AnswerHeard(past + [step], t.answers[i])
  {
    var t := After(cfg, s, step);
    NewAnswerHeard(cfg, past, s, step);
    forall i | 0 <= i < |t.answers| ensures AnswerHeard(past + [step], t.answers[i]) {
      if i < |s.answers| {
        assert t.answers[i] == s.answers[i];
        AnswerStillHeard(past, step, s.answers[i]);
      }
    }
  }

  lemma {:induction false} EventsHeard(cfg: Config, past: seq<Step>, s: State, step: Step)
    requires HeardInv(past, s) && CallersOk(s) && Enabled(cfg, s, step) && Onward(s, After(cfg, s, step))
    ensures var t := After(cfg, s, step); HistoryHeard(past + [step], t.rows, t.history)
  {
    var t := After(cfg, s, step);
    HistoryStillHeard(past, step, s.rows, t.rows, s.history);
    if t.history != s.history { NewEventHeard(cfg, past, s, step); }
  }

  lemma {:induction false} StepIsHeard(cfg: Config, past: seq<Step>, s: State, step: Step)
    requires HeardInv(past, s) && CallersOk(s) && Enabled(cfg, s, step) && Onward(s, After(cfg, s, step))
    ensures HeardInv(past + [step], After(cfg, s, step))
  {
    var t := After(cfg, s, step);
    EventsHeard(cfg, past, s, step);
    AnswersHeard(cfg, past, s, step);
    forall c | c in t.callers ensures CallerHeard(past + [step], c, t.callers[c]) {
      CallersHeard(cfg, past, s, step, c);
    }
    forall w | w in t.workers ensures Reconciling(w, StartRun(t.workers[w].run)) in past + [step] {
      WorkersHeard(cfg, past, s, step, w);
    }
  }

  lemma {:induction false} StepKeepsHeard(cfg: Config, past: seq<Step>, s: State, step: Step)
    requires HeardInv(past, s) && Inv(cfg, s) && Enabled(cfg, s, step)
    ensures HeardInv(past + [step], After(cfg, s, step)) && Inv(cfg, After(cfg, s, step))
  {
    StepIsOnward(cfg, s, step);
    StepIsHeard(cfg, past, s, step);
    StepKeepsInv(cfg, s, step);
  }

  lemma {:induction false} OneStepOn(past: seq<Step>, steps: seq<Step>)
    requires steps != []
    ensures past + steps == past + [steps[0]] + steps[1..]
  {
  }

  lemma {:induction false} RunIsHeard(cfg: Config, past: seq<Step>, s: State, steps: seq<Step>)
    requires HeardInv(past, s) && Inv(cfg, s) && Runs(cfg, s, steps)
    ensures HeardInv(past + steps, EndState(cfg, s, steps))
    decreases |steps|
  {
    if steps == [] {
      assert past + steps == past;
    } else {
      OneStepOn(past, steps);
      var longer, next := past + [steps[0]], After(cfg, s, steps[0]);
      StepKeepsHeard(cfg, past, s, steps[0]);
      RunIsHeard(cfg, longer, next, steps[1..]);
    }
  }

  // ---------------------------------------------------------------- writes

  lemma {:induction false} Known(cfg: Config, clock: Time, steps: seq<Step>)
    requires Runs(cfg, Initial(clock), steps)
    ensures var s := EndState(cfg, Initial(clock), steps); TraceInv(s) && HeardInv(steps, s)
  {
    InitialInv(cfg, clock);
    RunKeepsTraces(cfg, Initial(clock), steps);
    RunIsHeard(cfg, [], Initial(clock), steps);
    assert [] + steps == steps;
  }

  lemma {:induction false} TracedWithin(rows: map<nat, Record>, before: History, e: Event, h: History)
    requires Traced(rows, h) && Within(Then(before, e), h)
    ensures Sourced(rows, before, e)
  {
    if Then(before, e) != h { TracedWithin(rows, before, e, h.before); }
  }

  lemma {:induction false} HeardWithin(past: seq<Step>, rows: map<nat, Record>, before: History, e: Event, h: History)
    requires HistoryHeard(past, rows, h) && Within(Then(before, e), h)
    ensures EventHeard(past, rows, e)
  {
    if Then(before, e) != h { HeardWithin(past, rows, before, e, h.before); }
  }

  /** What a settle call writes is what its own provider call returned, to the letter. */
  lemma {:induction false} SettlersWriteReplies(cfg: Config, clock: Time, steps: seq<Step>, before: History, e: Event)
    requires Runs(cfg, Initial(clock), steps)
    requires Within(Then(before, e), EndState(cfg, Initial(clock), steps).history)
    requires e.StatusWrite? && e.writer.Settler?
    ensures Leaves(NO_CONTENT, e.writer.heard, e.writer.payloadPayer, e.to, e.content)
    ensures var s := EndState(cfg, Initial(clock), steps);
            e.id in s.rows && Asked(steps, s.rows[e.id].call, e.writer.payloadPayer, e.writer.heard)
  {
    var s := EndState(cfg, Initial(clock), steps);
    Known(cfg, clock, steps);
    TracedWithin(s.rows, before, e, s.history);
    HeardWithin(steps, s.rows, before, e, s.history);
  }

  /** What a reconciler writes is called for by the reply it was given, and by the record as it once stood. */
  lemma {:induction false} ReconcilersWriteReplies(cfg: Config, clock: Time, steps: seq<Step>, before: History,
                                                   e: Event)
    requires Runs(cfg, Initial(clock), steps)
    requires Within(Then(before, e), EndState(cfg, Initial(clock), steps).history) && IsReconcilerWrite(e)
    ensures CalledFor(e.writer.run, e.writer.claimed, e.writer.reply, e.to, e.content)
    ensures StoodAs(before, e.id, e.writer.claimed) && Consulted(steps, e.writer.run, e.writer.reply, e.stamp)
  {
    var s := EndState(cfg, Initial(clock), steps);
    Known(cfg, clock, steps);
    TracedWithin(s.rows, before, e, s.history);
    HeardWithin(steps, s.rows, before, e, s.history);
  }

  /**
   * For workers with names of their own, the record is still as it was claimed: only a settlement can change its
   * transaction or payer, and then only to what the reply says.
   */
  lemma {:induction false} ReconcilersKeepContent(cfg: Config, names: nat -> string, clock: Time, steps: seq<Step>,
                                                  before: History, e: Event)
    requires Runs(cfg, Initial(clock), steps) && OwnNames(names, steps)
    requires Within(Then(before, e), EndState(cfg, Initial(clock), steps).history) && IsReconcilerWrite(e)
    ensures var now := ContentAfter(before, e.id);
            if e.to == Settled then
              && Says(e.writer.reply, OutcomeSettled)
              && Preferred(e.content.transaction, e.writer.reply.transaction, now.transaction)
              && Preferred(e.content.payer, e.writer.reply.payer, now.payer)
            else e.content.transaction == now.transaction && e.content.payer == now.payer
  {
    var s := EndState(cfg, Initial(clock), steps);
    LeaseFencing(cfg, names, clock, steps, before, e);
    Known(cfg, clock, steps);
    TracedWithin(s.rows, before, e, s.history);
  }

  /** An operator's review keeps transaction and payer, and was asked for. */
  lemma {:induction false} ReviewsKeepContent(cfg: Config, clock: Time, steps: seq<Step>, before: History, e: Event)
    requires Runs(cfg, Initial(clock), steps)
    requires Within(Then(before, e), EndState(cfg, Initial(clock), steps).history)
    requires e.StatusWrite? && e.writer.Operator?
    ensures e.content == ContentAfter(before, e.id).(error := Some(ManualReviewOperatorRequested))
    ensures Step.Operating(e.writer.operator, e.id, e.stamp, MoveToReview) in steps
  {
    var s := EndState(cfg, Initial(clock), steps);
    Known(cfg, clock, steps);
    TracedWithin(s.rows, before, e, s.history);
    HeardWithin(steps, s.rows, before, e, s.history);
  }

  /**
   * In every reachable state a row has the content of its last status write and the stamp of its last refresh, and its
   * attempt the transaction, error and stamp of its first status write.
   */
  lemma {:induction false} TablesAreTheirWrites(cfg: Config, clock: Time, steps: seq<Step>, id: nat, a: nat)
    requires Runs(cfg, Initial(clock), steps)
    ensures var s := EndState(cfg, Initial(clock), steps);
            && (id in s.rows ==> RowTraced(s.history, id, s.rows[id]))
            && (a in s.attempts ==> AttemptTraced(s.history, s.attempts[a]))
  {
    Known(cfg, clock, steps);
  }

  /** A lease is taken only on what is stale: on any record by a reconciler, on an active one by an operator. */
  lemma {:induction false} ClaimsWaitForStale(cfg: Config, clock: Time, steps: seq<Step>, before: History, e: Event)
    requires Runs(cfg, Initial(clock), steps)
    requires Within(Then(before, e), EndState(cfg, Initial(clock), steps).history) && e.LeaseClaim?
    ensures var s := EndState(cfg, Initial(clock), steps);
            e.id in s.rows && ClaimSourced(StatusAfter(before, e.id), UpdatedAt(s.rows, before, e.id), e.claimer)
  {
    var s := EndState(cfg, Initial(clock), steps);
    Known(cfg, clock, steps);
    TracedWithin(s.rows, before, e, s.history);
  }

  // ---------------------------------------------------------------- answers

  /**
   * Every answer repeats the reply to that very call, or echoes a record of that payment as it once stood; and where
   * it is final, the record says the same for the rest of the run.
   */
  lemma {:induction false} AnswersAreTrue(cfg: Config, clock: Time, steps: seq<Step>, i: nat)
    requires Runs(cfg, Initial(clock), steps) && i < |EndState(cfg, Initial(clock), steps).answers|
    ensures var s := EndState(cfg, Initial(clock), steps);
            var a := s.answers[i];
            && a.source.id in s.rows && SamePayment(s.rows[a.source.id].call, a.call)
            && StillSays(s.rows[a.source.id], a.outcome)
            && match a.source
               case Fresh(_, reply, payloadPayer) =>
                 Asked(steps, a.call, payloadPayer, reply) && Repeats(a.outcome, reply, payloadPayer)
               case Existing(id, record) => StoodAs(s.history, id, record) && Shows(a.outcome, record)
  {
    var s := EndState(cfg, Initial(clock), steps);
    Known(cfg, clock, steps);
    assert AnswerTraced(s.rows, s.history, s.answers[i]) && AnswerHeard(steps, s.answers[i]);
  }

  /** A final failure is answered only when the payment's record is SETTLE_FAILED with that error, and stays so. */
  lemma {:induction false} FailureMeansFailed(cfg: Config, clock: Time, steps: seq<Step>, i: nat) returns (id: nat)
    requires Runs(cfg, Initial(clock), steps) && i < |EndState(cfg, Initial(clock), steps).answers|
    requires EndState(cfg, Initial(clock), steps).answers[i].outcome.status == ProviderFailedFinal
    ensures var s := EndState(cfg, Initial(clock), steps);
            && id in s.rows && SamePayment(s.rows[id].call, s.answers[i].call)
            && s.rows[id].status == SettleFailed && s.rows[id].error == s.answers[i].outcome.error
            && !s.answers[i].outcome.success
  {
    AnswersAreTrue(cfg, clock, steps, i);
    id := EndState(cfg, Initial(clock), steps).answers[i].source.id;
  }

  // ---------------------------------------------------------------- outcomes have a provider's word behind them

  /** The write that gave the record its status. */
  lemma {:induction false} LastWrite(h: History, id: nat) returns (before: History, e: Event)
    requires StatusAfter(h, id) != SettleInProgress
    ensures Within(Then(before, e), h) && e.StatusWrite? && e.id == id
    ensures e.to == StatusAfter(h, id) && e.content == ContentAfter(h, id)
  {
    if h.event.StatusWrite? && h.event.id == id {
      before, e := h.before, h.event;
    } else {
      before, e := LastWrite(h.before, id);
    }
  }

  lemma {:induction false} StoodWithin(part: History, h: History, id: nat, row: Record)
    requires Within(part, h) && StoodAs(part, id, row)
    ensures StoodAs(h, id, row)
  {
    if part != h { StoodWithin(part, h.before, id, row); }
  }

  /** A provider said so: in reply to the settle call of this very record, or to a reconciler that found it so. */
  ghost predicate SaidSo(steps: seq<Step>, h: History, id: nat, call: Call, status: Status, content: Content) {
    || (exists reply, payloadPayer | Asked(steps, call, payloadPayer, reply) ::
          Leaves(NO_CONTENT, reply, payloadPayer, status, content))
    || (exists run, claimed, reply, stamp | Consulted(steps, run, reply, stamp) && StoodAs(h, id, claimed) ::
          CalledFor(run, claimed, reply, status, content))
  }

  /**
   * In every reachable state, a record is SETTLED or SETTLE_FAILED only on a provider's word, and says what it said.
   */
  lemma {:induction false} OutcomesWereSaid(cfg: Config, clock: Time, steps: seq<Step>, id: nat)
    requires Runs(cfg, Initial(clock), steps)
    requires var s := EndState(cfg, Initial(clock), steps); id in s.rows && Final(s.rows[id].status)
    ensures var s := EndState(cfg, Initial(clock), steps);
            SaidSo(steps, s.history, id, s.rows[id].call, s.rows[id].status, ContentOf(s.rows[id]))
  {
    var s := EndState(cfg, Initial(clock), steps);
    Reachable(cfg, clock, steps);
    assert RowAgrees(cfg.delay, s.clock, s.history, id, s.rows[id]);
    TablesAreTheirWrites(cfg, clock, steps, id, 0);
    var before, e := LastWrite(s.history, id);
    AuditedWithin(cfg.delay, Then(before, e), s.history);
    if e.writer.Settler? {
      SettlersWriteReplies(cfg, clock, steps, before, e);
    } else {
      ReconcilersWriteReplies(cfg, clock, steps, before, e);
      WithinBefore(before, e, s.history);
      StoodWithin(before, s.history, id, e.writer.claimed);
    }
  }

  lemma {:induction false} WithinBefore(before: History, e: Event, h: History)
    requires Within(Then(before, e), h)
    ensures Within(before, h)
  {
    if Then(before, e) != h { WithinBefore(before, e, h.before); }
  }

  /** So success is answered only where a provider said settled, and with the transaction and payer it said. */
  lemma {:induction false} SuccessWasSaid(cfg: Config, clock: Time, steps: seq<Step>, i: nat) returns (content: Content)
    requires Runs(cfg, Initial(clock), steps) && i < |EndState(cfg, Initial(clock), steps).answers|
    requires EndState(cfg, Initial(clock), steps).answers[i].outcome.success
    ensures var s := EndState(cfg, Initial(clock), steps);
            var a := s.answers[i];
            && content.transaction == a.outcome.transaction && content.payer == a.outcome.payer
            && a.source.id in s.rows
            && SaidSo(steps, s.history, a.source.id, s.rows[a.source.id].call, Settled, content)
  {
    var s := EndState(cfg, Initial(clock), steps);
    AnswersAreTrue(cfg, clock, steps, i);
    var id := s.answers[i].source.id;
    content := ContentOf(s.rows[id]);
    OutcomesWereSaid(cfg, clock, steps, id);
  }
}
