/** What the settlement protocol guarantees over every run. */
module SettlementTheorems {
  import opened Wrappers
  import opened Settlement
  import opened Rows
  import opened Reconciliation
  import opened Protocol
  import opened Effects
  import opened ClaimSafety
  import opened Ledger
  import opened Attempts
  import opened Answers
  import opened Invariants

  lemma {:induction false} RunKeepsInv(cfg: Config, s: State, steps: seq<Step>)
    requires Inv(cfg, s) && Runs(cfg, s, steps)
    ensures Inv(cfg, EndState(cfg, s, steps))
    decreases |steps|
  {
    if steps != [] {
      StepKeepsInv(cfg, s, steps[0]);
      RunKeepsInv(cfg, After(cfg, s, steps[0]), steps[1..]);
    }
  }

  lemma Reachable(cfg: Config, clock: Time, steps: seq<Step>)
    requires Runs(cfg, Initial(clock), steps)
    ensures Inv(cfg, EndState(cfg, Initial(clock), steps))
  {
    InitialInv(cfg, clock);
    RunKeepsInv(cfg, Initial(clock), steps);
  }

  // ---------------------------------------------------------------- one submission per payment

  /** The step is a provider call for this replay key. */
  predicate CallsFor(s: State, step: Step, key: ReplayKey) {
    && step.Settling? && step.settle.CallProvider? && step.c in s.callers
    && ReplayKeyOf(s.callers[step.c].call) == key
  }

  /** How often a run calls the provider for a replay key. */
  ghost function ProviderCalls(cfg: Config, s: State, steps: seq<Step>, key: ReplayKey): nat
    requires Runs(cfg, s, steps)
    decreases |steps|
  {
    if steps == [] then 0
    else (if CallsFor(s, steps[0], key) then 1 else 0) + ProviderCalls(cfg, After(cfg, s, steps[0]), steps[1..], key)
  }

  lemma {:induction false} ClaimingSubmitsNothing(cfg: Config, s: State, c: nat, claim: ClaimStep)
    requires CanClaim(cfg, s, c, claim)
    ensures AfterClaiming(cfg, s, c, claim).submissions == s.submissions
  {
  }

  lemma {:induction false} StepSubmits(cfg: Config, s: State, step: Step, key: ReplayKey)
    requires Enabled(cfg, s, step)
    ensures After(cfg, s, step).submissions[key] == s.submissions[key] + if CallsFor(s, step, key) then 1 else 0
  {
    match step
    case Tick(_) =>
    case Claiming(c, claim) => ClaimingSubmitsNothing(cfg, s, c, claim);
    case Settling(c, settle) =>
      if settle.FinaliseRecord? { FinaliseEffect(cfg, s, c, settle.stamp, settle.answered); }
    case Reconciling(w, work) => ReconcilingEffect(cfg, s, w, work);
    case Operating(owner, id, stamp, action) => OperatingEffect(s, owner, id, stamp, action);
  }

  lemma {:induction false} SubmissionsAreCalls(cfg: Config, s: State, steps: seq<Step>, key: ReplayKey)
    requires Runs(cfg, s, steps)
    ensures EndState(cfg, s, steps).submissions[key] == s.submissions[key] + ProviderCalls(cfg, s, steps, key)
    decreases |steps|
  {
    if steps != [] {
      StepSubmits(cfg, s, steps[0], key);
      SubmissionsAreCalls(cfg, After(cfg, s, steps[0]), steps[1..], key);
    }
  }

  /**
   * However settle calls, crashes, reconcilers and operators interleave, the provider is called at most once per
   * replay key, whichever payment profiles the calls use; and a key with a submission has exactly one record.
   */
  lemma AtMostOneSubmission(cfg: Config, clock: Time, steps: seq<Step>, key: ReplayKey)
    requires Runs(cfg, Initial(clock), steps)
    ensures ProviderCalls(cfg, Initial(clock), steps, key) <= 1
    ensures var s := EndState(cfg, Initial(clock), steps);
            && s.submissions[key] <= 1
            && (key in s.submissions ==> HasKey(s, key))
            && forall i, j | i in s.rows && j in s.rows &&
                ReplayKeyOf(s.rows[i].call) == key == ReplayKeyOf(s.rows[j].call) ::
                 i == j
  {
    Reachable(cfg, clock, steps);
    SubmissionsAreCalls(cfg, Initial(clock), steps, key);
  }

  /** The claim's fallback look-up always finds the row that beat it: the retry loop never goes round. */
  lemma ClaimsNeverRetry(cfg: Config, clock: Time, steps: seq<Step>, c: nat)
    requires Runs(cfg, Initial(clock), steps)
    ensures !CanRetryClaim(EndState(cfg, Initial(clock), steps), c)
  {
    var s := EndState(cfg, Initial(clock), steps);
    Reachable(cfg, clock, steps);
    if c in s.callers && s.callers[c].phase.Conflicted? {
      assert CallerOk(s, s.callers[c]);
      var id :| id in s.rows && ProfileKeyOf(s.rows[id].call) == ProfileKeyOf(s.callers[c].call);
      assert SameProfile(s, id, c);
    }
  }

  // ---------------------------------------------------------------- answers

  /** Success is answered only when the payment's record is SETTLED with that transaction and payer, and stays so. */
  lemma SuccessMeansSettled(cfg: Config, clock: Time, steps: seq<Step>, i: nat)
    requires Runs(cfg, Initial(clock), steps)
    requires i < |EndState(cfg, Initial(clock), steps).answers|
    requires EndState(cfg, Initial(clock), steps).answers[i].outcome.success
    ensures var s := EndState(cfg, Initial(clock), steps); Backed(s, s.answers[i])
  {
    Reachable(cfg, clock, steps);
  }

  // ---------------------------------------------------------------- ranks and terminal records

  predicate Within(part: History, h: History) {
    part == h || (h.Then? && Within(part, h.before))
  }

  lemma {:induction false} AuditedWithin(delay: nat, part: History, h: History)
    requires Audited(delay, h) && Within(part, h)
    ensures Audited(delay, part)
  {
    if part != h { AuditedWithin(delay, part, h.before); }
  }

  lemma {:induction false} WritesBoundedByRank(delay: nat, h: History, id: nat)
    requires Audited(delay, h)
    ensures StatusWrites(h, id) <= Rank(StatusAfter(h, id))
  {
    if h.Then? { WritesBoundedByRank(delay, h.before, id); }
  }

  /**
   * Every status write starts from the status before it and strictly raises the rank; three is the most there can be.
   */
  lemma StatusesOnlyAdvance(cfg: Config, clock: Time, steps: seq<Step>, before: History, e: Event, id: nat)
    requires Runs(cfg, Initial(clock), steps)
    requires Within(Then(before, e), EndState(cfg, Initial(clock), steps).history) && e.StatusWrite?
    ensures e.from == StatusAfter(before, e.id) && Rank(e.from) < Rank(e.to)
    ensures StatusWrites(EndState(cfg, Initial(clock), steps).history, id) <= 3
  {
    var s := EndState(cfg, Initial(clock), steps);
    Reachable(cfg, clock, steps);
    AuditedWithin(cfg.delay, Then(before, e), s.history);
    WritesBoundedByRank(cfg.delay, s.history, id);
  }

  lemma {:induction false} RunProgresses(cfg: Config, s: State, steps: seq<Step>, id: nat)
    requires Inv(cfg, s) && Runs(cfg, s, steps) && id in s.rows && Terminal(s.rows[id].status)
    ensures var t := EndState(cfg, s, steps);
            id in t.rows && SameOutcome(s.rows[id], t.rows[id]) && t.rows[id].call == s.rows[id].call
    decreases |steps|
  {
    if steps != [] {
      StepKeepsInv(cfg, s, steps[0]);
      StepProgresses(cfg, s, steps[0]);
      RunProgresses(cfg, After(cfg, s, steps[0]), steps[1..], id);
    }
  }

  /**
   * A terminal record keeps its status, transaction, payer and error for the rest of the run; a final one holds no
   * lease.
   */
  lemma TerminalForever(cfg: Config, clock: Time, steps: seq<Step>, more: seq<Step>, id: nat)
    requires Runs(cfg, Initial(clock), steps)
    requires Runs(cfg, EndState(cfg, Initial(clock), steps), more)
    requires var s := EndState(cfg, Initial(clock), steps); id in s.rows && Terminal(s.rows[id].status)
    ensures var s := EndState(cfg, Initial(clock), steps);
            var t := EndState(cfg, s, more);
            && id in t.rows && SameOutcome(s.rows[id], t.rows[id])
            && (Final(t.rows[id].status) ==> t.rows[id].owner.None? && t.rows[id].leaseUntil.None?)
  {
    var s := EndState(cfg, Initial(clock), steps);
    Reachable(cfg, clock, steps);
    RunProgresses(cfg, s, more, id);
    RunKeepsInv(cfg, s, more);
    var t := EndState(cfg, s, more);
    assert RowAgrees(cfg.delay, t.clock, t.history, id, t.rows[id]);
  }

  // ---------------------------------------------------------------- attempts

  /**
   * In every reachable state a record has exactly one attempt; it is STARTED exactly while the record is
   * SETTLE_IN_PROGRESS, and otherwise shows the first status that the record left SETTLE_IN_PROGRESS for.
   */
  lemma AttemptMirrorsRecord(cfg: Config, clock: Time, steps: seq<Step>, id: nat) returns (a: nat)
    requires Runs(cfg, Initial(clock), steps)
    requires id in EndState(cfg, Initial(clock), steps).rows
    ensures var s := EndState(cfg, Initial(clock), steps);
            && a in s.attempts && s.attempts[a].recordId == id
            && (forall b | b in s.attempts && s.attempts[b].recordId == id :: b == a)
            && (s.attempts[a].status == Started <==> s.rows[id].status == SettleInProgress)
            && (FirstExit(s.history, id).Some? <==> s.rows[id].status != SettleInProgress)
            && (FirstExit(s.history, id).Some? ==> s.attempts[a].status == AttemptImage(FirstExit(s.history, id).value))
  {
    var s := EndState(cfg, Initial(clock), steps);
    Reachable(cfg, clock, steps);
    assert HasAttempt(s, id);
    a :| a in s.attempts && s.attempts[a].recordId == id;
    assert RowAgrees(cfg.delay, s.clock, s.history, id, s.rows[id]);
    assert AttemptAgrees(s.history, s.attempts[a]);
    ExitedIffWritten(s.history, id);
    ExitsCloseAttempts(cfg.delay, s.history, id);
  }

  /** The first exit, once made, is the same in every longer history. */
  lemma {:induction false} FirstExitStays(part: History, h: History, id: nat)
    requires Within(part, h) && FirstExit(part, id).Some?
    ensures FirstExit(h, id) == FirstExit(part, id)
  {
    if part != h { FirstExitStays(part, h.before, id); }
  }

  /** One step adds at most one event, and keeps every attempt on its record. */
  ghost predicate Persists(s: State, t: State) {
    && (t.history == s.history || (t.history.Then? && t.history.before == s.history))
    && forall a | a in s.attempts :: a in t.attempts && t.attempts[a].recordId == s.attempts[a].recordId
  }

  lemma StepPersists(cfg: Config, s: State, step: Step)
    requires CallersOk(s) && Enabled(cfg, s, step)
    ensures Persists(s, After(cfg, s, step))
  {
    match step
    case Tick(_) =>
    case Claiming(c, claim) =>
      if Quiet(claim) {
        ClaimingQuietly(cfg, s, c, claim);
      } else if claim.CommitClaim? {
        assert CallerOk(s, s.callers[c]);
      }
    case Settling(c, settle) =>
      if settle.FinaliseRecord? {
        FinaliseEffect(cfg, s, c, settle.stamp, settle.answered);
      } else {
        SettlingQuietly(cfg, s, c, settle);
      }
    case Reconciling(w, work) =>
      ReconcilingEffect(cfg, s, w, work);
      LeasedEffectKeepsIdentities(s, AfterReconciling(cfg, s, w, work));
    case Operating(owner, id, stamp, action) =>
      OperatingEffect(s, owner, id, stamp, action);
      LeasedEffectKeepsIdentities(s, AfterOperating(s, owner, id, stamp, action));
  }

  lemma {:induction false} RunPersists(cfg: Config, s: State, steps: seq<Step>, part: History, a: nat)
    requires Inv(cfg, s) && Runs(cfg, s, steps) && Within(part, s.history) && a in s.attempts
    ensures var t := EndState(cfg, s, steps);
            Within(part, t.history) && a in t.attempts && t.attempts[a].recordId == s.attempts[a].recordId
    decreases |steps|
  {
    if steps != [] {
      StepKeepsInv(cfg, s, steps[0]);
      StepPersists(cfg, s, steps[0]);
      RunPersists(cfg, After(cfg, s, steps[0]), steps[1..], part, a);
    }
  }

  /** An attempt that is closed keeps its status for the rest of the run. */
  lemma ClosedForever(cfg: Config, clock: Time, steps: seq<Step>, more: seq<Step>, a: nat)
    requires Runs(cfg, Initial(clock), steps)
    requires Runs(cfg, EndState(cfg, Initial(clock), steps), more)
    requires var s := EndState(cfg, Initial(clock), steps); a in s.attempts && s.attempts[a].status != Started
    ensures var s := EndState(cfg, Initial(clock), steps);
            var t := EndState(cfg, s, more);
            a in t.attempts && t.attempts[a].status == s.attempts[a].status
  {
    var s := EndState(cfg, Initial(clock), steps);
    Reachable(cfg, clock, steps);
    assert AttemptAgrees(s.history, s.attempts[a]);
    RunPersists(cfg, s, more, s.history, a);
    RunKeepsInv(cfg, s, more);
    var t := EndState(cfg, s, more);
    assert AttemptAgrees(t.history, t.attempts[a]);
    FirstExitStays(s.history, t.history, s.attempts[a].recordId);
  }

  /** What any actors do between two moments of a run is legal: no record goes, and no status falls back. */
  lemma {:induction false} OthersAreLegal(cfg: Config, s: State, steps: seq<Step>)
    requires Inv(cfg, s) && Runs(cfg, s, steps)
    ensures Legal(s.rows, EndState(cfg, s, steps).rows)
    decreases |steps|
  {
    if steps != [] {
      var next := After(cfg, s, steps[0]);
      StepKeepsInv(cfg, s, steps[0]);
      StepIsLegal(cfg, s, steps[0]);
      OthersAreLegal(cfg, next, steps[1..]);
      LegalTransitive(s.rows, next.rows, EndState(cfg, s, steps).rows);
    }
  }

  lemma StepIsLegal(cfg: Config, s: State, step: Step)
    requires ClaimInv(cfg, s) && Enabled(cfg, s, step)
    ensures Legal(s.rows, After(cfg, s, step).rows)
  {
    StepProgresses(cfg, s, step);
  }

  lemma LegalTransitive(a: map<nat, Record>, b: map<nat, Record>, c: map<nat, Record>)
    requires Legal(a, b) && Legal(b, c)
    ensures Legal(a, c)
  {
  }

  // ---------------------------------------------------------------- leases

  lemma {:induction false} TicketsBounded(delay: nat, h: History, id: nat, ticket: nat, owner: string, until: Time)
    requires Audited(delay, h)
    ensures Ticketed(h, ticket, id, owner, until) ==> ticket < Length(h)
    ensures LastOn(h, id).Some? && LastOn(h, id).value.LeaseClaim? ==> LastOn(h, id).value.ticket < Length(h)
  {
    if h.Then? { TicketsBounded(delay, h.before, id, ticket, owner, until); }
  }

  /** The last claim on a record is at least as recent as any claim on it. */
  lemma {:induction false} LastOnIsLatest(delay: nat, h: History, id: nat, ticket: nat, owner: string, until: Time)
    requires Audited(delay, h) && Ticketed(h, ticket, id, owner, until)
    ensures LastOn(h, id).Some?
    ensures LastOn(h, id).value.LeaseClaim? ==> LastOn(h, id).value.ticket >= ticket
  {
    TicketsBounded(delay, h.before, id, ticket, owner, until);
    if h.event.id != id {
      LastOnIsLatest(delay, h.before, id, ticket, owner, until);
    }
  }

  /** The last claim by an owner is at least as recent as that owner's claim on any record. */
  lemma {:induction false} LastByIsLatest(delay: nat, h: History, id: nat, owner: string)
    requires Audited(delay, h)
    requires LastOn(h, id).Some? && LastOn(h, id).value.LeaseClaim? && LastOn(h, id).value.owner == owner
    ensures LastClaimBy(h, owner).Some? && LastClaimBy(h, owner).value.LeaseClaim?
    ensures LastClaimBy(h, owner).value.ticket >= LastOn(h, id).value.ticket
  {
    TicketsBounded(delay, h.before, id, 0, owner, 0);
    if h.event.id != id {
      LastByIsLatest(delay, h.before, id, owner);
    }
  }

  predicate IsReconcilerWrite(e: Event) {
    e.StatusWrite? && e.writer.Reconciler?
  }

  /** Owner names are distinct and used sequentially: each write comes from its owner's latest claim. */
  predicate OwnersSequential(h: History) {
    h.Then? ==>
      && OwnersSequential(h.before)
      && (IsReconcilerWrite(h.event) ==>
            var last := LastClaimBy(h.before, h.event.writer.run.owner);
            last.Some? && last.value.LeaseClaim? && last.value.ticket == h.event.writer.ticket)
  }

  lemma {:induction false} SequentialWithin(part: History, h: History)
    requires OwnersSequential(h) && Within(part, h)
    ensures OwnersSequential(part)
  {
    if part != h { SequentialWithin(part, h.before); }
  }

  /**
   * Whoever else uses its name, a reconciler's write finds its owner's claim, with its exact lease, as the last event.
   */
  lemma WritesAreFenced(cfg: Config, clock: Time, steps: seq<Step>, before: History, e: Event)
    requires Runs(cfg, Initial(clock), steps)
    requires Within(Then(before, e), EndState(cfg, Initial(clock), steps).history) && IsReconcilerWrite(e)
    ensures WriteOk(cfg.delay, before, e)
    ensures ClaimedBy(LastOn(before, e.id), e.writer.run.owner, e.writer.lease)
    ensures e.stamp < e.writer.lease && e.at < e.writer.lease + cfg.delay
    ensures LastOn(before, e.id).value.ticket >= e.writer.ticket
  {
    var h := EndState(cfg, Initial(clock), steps).history;
    Reachable(cfg, clock, steps);
    AuditedWithin(cfg.delay, Then(before, e), h);
    LastOnIsLatest(cfg.delay, before, e.id, e.writer.ticket, e.writer.run.owner, e.writer.lease);
  }

  /** Workers run under names of their own, and no operator acts under the name of a worker. */
  ghost predicate OwnNames(names: nat -> string, steps: seq<Step>) {
    Distinct(names) && AllNamed(names, steps)
  }

  /** No two slots share a name; a slot without a name is never used, because a run needs an owner. */
  ghost predicate Distinct(names: nat -> string) {
    forall v, w | names(v) == names(w) != "" :: v == w
  }

  ghost predicate AllNamed(names: nat -> string, steps: seq<Step>) {
    forall k | 0 <= k < |steps| :: StepNamed(names, steps[k])
  }

  ghost predicate StepNamed(names: nat -> string, step: Step) {
    && (step.Reconciling? && step.work.StartRun? ==> step.work.run.owner == names(step.w))
    && (step.Operating? ==> forall w :: step.owner != names(w))
  }

  predicate ClaimedWith(last: Option<Event>, ticket: nat) {
    last.Some? && last.value.LeaseClaim? && last.value.ticket == ticket
  }

  /** What a worker holds is the latest claim under its name. */
  predicate HoldsLatest(names: nat -> string, s: State) {
    forall w | w in s.workers ::
      && s.workers[w].run.owner == names(w) != ""
      && (s.workers[w].holding.Some? ==>
          ClaimedWith(LastClaimBy(s.history, names(w)), s.workers[w].holding.value.ticket))
  }

  lemma ReconcilingKeepsNames(cfg: Config, names: nat -> string, s: State, w: nat, work: WorkStep)
    requires Distinct(names) && HoldsLatest(names, s) && OwnersSequential(s.history) && CanReconcile(cfg, s, w, work)
    requires StepNamed(names, Step.Reconciling(w, work))
    ensures var t := AfterReconciling(cfg, s, w, work); HoldsLatest(names, t) && OwnersSequential(t.history)
  {
  }

  /** No worker moves, and nothing happens under a worker's name. */
  ghost predicate Nameless(names: nat -> string, s: State, t: State) {
    && t.workers == s.workers
    && (|| t.history == s.history
        || (&& t.history.Then? && t.history.before == s.history && !IsReconcilerWrite(t.history.event)
            && (t.history.event.LeaseClaim? ==> forall w :: t.history.event.owner != names(w))))
  }

  lemma NamelessKeepsNames(names: nat -> string, s: State, t: State)
    requires HoldsLatest(names, s) && OwnersSequential(s.history) && Nameless(names, s, t)
    ensures HoldsLatest(names, t) && OwnersSequential(t.history)
  {
  }

  lemma ClaimingIsNameless(cfg: Config, names: nat -> string, s: State, c: nat, claim: ClaimStep)
    requires CanClaim(cfg, s, c, claim)
    ensures Nameless(names, s, AfterClaiming(cfg, s, c, claim))
  {
    if Quiet(claim) { ClaimingQuietly(cfg, s, c, claim); }
  }

  lemma OperatingIsNameless(names: nat -> string, s: State, owner: string, id: nat, stamp: Time, action: OperatorStep)
    requires id in s.rows && forall w :: owner != names(w)
    ensures Nameless(names, s, AfterOperating(s, owner, id, stamp, action))
  {
  }

  lemma SettlingIsNameless(cfg: Config, names: nat -> string, s: State, c: nat, settle: SettleStep)
    requires CanSettle(cfg, s, c, settle)
    ensures Nameless(names, s, AfterSettling(cfg, s, c, settle))
  {
    if !settle.FinaliseRecord? { SettlingQuietly(cfg, s, c, settle); }
  }

  lemma StepKeepsNames(cfg: Config, names: nat -> string, s: State, step: Step)
    requires Distinct(names) && HoldsLatest(names, s) && OwnersSequential(s.history)
    requires Enabled(cfg, s, step) && StepNamed(names, step)
    ensures var t := After(cfg, s, step); HoldsLatest(names, t) && OwnersSequential(t.history)
  {
    if step.Reconciling? {
      ReconcilingKeepsNames(cfg, names, s, step.w, step.work);
    } else {
      if step.Claiming? { ClaimingIsNameless(cfg, names, s, step.c, step.claim); }
      if step.Settling? { SettlingIsNameless(cfg, names, s, step.c, step.settle); }
      if step.Operating? { OperatingIsNameless(names, s, step.owner, step.id, step.stamp, step.action); }
      NamelessKeepsNames(names, s, After(cfg, s, step));
    }
  }

  lemma {:induction false} RunKeepsNames(cfg: Config, names: nat -> string, s: State, steps: seq<Step>)
    requires HoldsLatest(names, s) && OwnersSequential(s.history) && Runs(cfg, s, steps) && OwnNames(names, steps)
    ensures OwnersSequential(EndState(cfg, s, steps).history)
    decreases |steps|
  {
    if steps != [] {
      assert StepNamed(names, steps[0]);
      StepKeepsNames(cfg, names, s, steps[0]);
      RunKeepsNames(cfg, names, After(cfg, s, steps[0]), steps[1..]);
    }
  }

  /** Fencing, wherever owners use their names sequentially. */
  lemma SequentialFencing(cfg: Config, clock: Time, steps: seq<Step>, before: History, e: Event)
    requires Runs(cfg, Initial(clock), steps)
    requires var h := EndState(cfg, Initial(clock), steps).history; Within(Then(before, e), h) && OwnersSequential(h)
    requires IsReconcilerWrite(e)
    ensures LastOn(before, e.id).Some? && LastOn(before, e.id).value.LeaseClaim?
    ensures LastOn(before, e.id).value.ticket == e.writer.ticket
  {
    var h := EndState(cfg, Initial(clock), steps).history;
    WritesAreFenced(cfg, clock, steps, before, e);
    Reachable(cfg, clock, steps);
    AuditedWithin(cfg.delay, Then(before, e), h);
    SequentialWithin(Then(before, e), h);
    LastByIsLatest(cfg.delay, before, e.id, e.writer.run.owner);
  }

  /**
   * Fencing, for workers with names of their own: a reconciler's write carries a stamp before its lease expires and
   * takes effect at most `delay` later, and the last event on the record before it is that reconciler's own claim: no
   * other claim, no release and no status write came between, so the record is still as it was claimed.
   */
  lemma LeaseFencing(cfg: Config, names: nat -> string, clock: Time, steps: seq<Step>, before: History, e: Event)
    requires Runs(cfg, Initial(clock), steps) && OwnNames(names, steps)
    requires Within(Then(before, e), EndState(cfg, Initial(clock), steps).history) && IsReconcilerWrite(e)
    ensures e.stamp < e.writer.lease && e.at < e.writer.lease + cfg.delay
    ensures ClaimedBy(LastOn(before, e.id), e.writer.run.owner, e.writer.lease)
    ensures LastOn(before, e.id).value.ticket == e.writer.ticket
    ensures e.from == e.writer.claimed.status
  {
    RunKeepsNames(cfg, names, Initial(clock), steps);
    WritesAreFenced(cfg, clock, steps, before, e);
    SequentialFencing(cfg, clock, steps, before, e);
  }

  /** A lease is only ever claimed once the previous one is over, released or used up. */
  lemma LeasesNeverOverlap(cfg: Config, clock: Time, steps: seq<Step>, before: History, e: Event)
    requires Runs(cfg, Initial(clock), steps)
    requires Within(Then(before, e), EndState(cfg, Initial(clock), steps).history) && e.LeaseClaim?
    ensures LeaseOverBy(LastOn(before, e.id), e.stamp) && !Final(StatusAfter(before, e.id))
  {
    Reachable(cfg, clock, steps);
    AuditedWithin(cfg.delay, Then(before, e), EndState(cfg, Initial(clock), steps).history);
  }

  /** Whoever the owner is, no record is settled or failed by reconciliation unless the provider said so in that run. */
  lemma ReconcilersNeedWarrant(cfg: Config, clock: Time, steps: seq<Step>, before: History, e: Event)
    requires Runs(cfg, Initial(clock), steps)
    requires Within(Then(before, e), EndState(cfg, Initial(clock), steps).history) && IsReconcilerWrite(e)
    ensures Warrants(e.writer.reply, e.to)
  {
    Reachable(cfg, clock, steps);
    AuditedWithin(cfg.delay, Then(before, e), EndState(cfg, Initial(clock), steps).history);
  }

  // ---------------------------------------------------------------- timing

  /**
   * Timed safety under any owners, exact when `delay` is zero. A reconciler never writes SUBMITTED, and fails a
   * record or moves it to manual review only from UNKNOWN. Manual review comes only after `staleUnknownAfter` in
   * UNKNOWN, and unless the provider asked for it only after `manualReviewAfter`. A failure comes only after
   * `staleUnknownAfter` in UNKNOWN if the reconciler claimed the record as UNKNOWN; the one other way is a claim of a
   * SUBMITTED record.
   */
  lemma ReconcilersWait(cfg: Config, clock: Time, steps: seq<Step>, before: History, e: Event)
    requires Runs(cfg, Initial(clock), steps)
    requires Within(Then(before, e), EndState(cfg, Initial(clock), steps).history) && IsReconcilerWrite(e)
    ensures e.to != Submitted
    ensures e.to == ManualReview ==>
              e.from == Unknown && KeptFor(before, e.id, e.at, e.writer.run.staleUnknownAfter, cfg.delay)
    ensures e.to == ManualReview && !AsksForReview(e.writer.reply) ==>
              KeptFor(before, e.id, e.at, e.writer.run.manualReviewAfter, cfg.delay)
    ensures e.to == SettleFailed ==> e.from == Unknown && e.writer.claimed.status in {Submitted, Unknown}
    ensures e.to == SettleFailed && e.writer.claimed.status == Unknown ==>
              KeptFor(before, e.id, e.at, e.writer.run.staleUnknownAfter, cfg.delay)
  {
    Reachable(cfg, clock, steps);
    AuditedWithin(cfg.delay, Then(before, e), EndState(cfg, Initial(clock), steps).history);
  }

  /** For workers with names of their own, every failure waits, and is of a record claimed as UNKNOWN. */
  lemma FailuresWait(cfg: Config, names: nat -> string, clock: Time, steps: seq<Step>, before: History, e: Event)
    requires Runs(cfg, Initial(clock), steps) && OwnNames(names, steps)
    requires Within(Then(before, e), EndState(cfg, Initial(clock), steps).history) && IsReconcilerWrite(e)
    ensures e.to == SettleFailed ==>
              && e.from == Unknown == e.writer.claimed.status
              && KeptFor(before, e.id, e.at, e.writer.run.staleUnknownAfter, cfg.delay)
  {
    LeaseFencing(cfg, names, clock, steps, before, e);
    ReconcilersWait(cfg, clock, steps, before, e);
  }

  /** Under these names, every failure in every run comes only after the failing reconciler's own wait. */
  ghost predicate FailuresAlwaysWait(cfg: Config, names: nat -> string) {
    forall clock, steps, before, e | Fails(cfg, names, clock, steps, before, e) ::
      KeptFor(before, e.id, e.at, e.writer.run.staleUnknownAfter, cfg.delay)
  }

  /** A reconciler's failure, somewhere in a run under these names. */
  ghost predicate Fails(cfg: Config, names: nat -> string, clock: Time, steps: seq<Step>, before: History, e: Event) {
    && Runs(cfg, Initial(clock), steps) && AllNamed(names, steps)
    && Within(Then(before, e), EndState(cfg, Initial(clock), steps).history)
    && IsReconcilerWrite(e) && e.to == SettleFailed
  }
}
