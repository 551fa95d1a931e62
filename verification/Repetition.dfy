/**
 * A success, once answered, is repeated to every later call for the same payment; and the exact condition on the calls
 * under which that holds in every run.
 */
module Repetition {
  import opened Wrappers
  import opened Settlement
  import opened Rows
  import opened Reconciliation
  import opened Protocol
  import opened Effects
  import opened ClaimSafety
  import opened Answers
  import opened Invariants
  import opened Profiles
  import Refinement
  import SharedNames

  // ---------------------------------------------------------------- which calls a run makes

  /** Two calls for one payment meet in the database: by replay key, or by the uniqueness constraint. */
  predicate Linked(x: Call, y: Call) {
    SamePayment(x, y) ==> ReplayKeyOf(x) == ReplayKeyOf(y) || x.profile == y.profile
  }

  ghost predicate AllLinked(calls: set<Call>) {
    forall x, y | x in calls && y in calls :: Linked(x, y)
  }

  predicate StepFrom(calls: set<Call>, step: Step) {
    step.Claiming? && step.claim.Begin? ==> step.claim.call in calls
  }

  ghost predicate AllFrom(calls: set<Call>, steps: seq<Step>) {
    forall k | 0 <= k < |steps| :: StepFrom(calls, steps[k])
  }

  ghost predicate CallsFrom(calls: set<Call>, s: State) {
    && (forall c | c in s.callers :: s.callers[c].call in calls)
    && (forall id | id in s.rows :: s.rows[id].call in calls)
  }

  lemma LeasedKeepsCalls(calls: set<Call>, s: State, t: State)
    requires CallsFrom(calls, s) && LeasedEffect(s, t)
    ensures CallsFrom(calls, t)
  {
  }

  lemma StepKeepsCalls(cfg: Config, calls: set<Call>, s: State, step: Step)
    requires CallersOk(s) && CallsFrom(calls, s) && Enabled(cfg, s, step) && StepFrom(calls, step)
    ensures CallsFrom(calls, After(cfg, s, step))
  {
    match step
    case Tick(_) =>
    case Claiming(c, claim) => ClaimingKeepsCalls(cfg, calls, s, c, claim);
    case Settling(c, settle) => SettlingKeepsCalls(cfg, calls, s, c, settle);
    case Reconciling(w, work) =>
      ReconcilingEffect(cfg, s, w, work);
      LeasedKeepsCalls(calls, s, AfterReconciling(cfg, s, w, work));
    case Operating(owner, id, stamp, action) =>
      OperatingEffect(s, owner, id, stamp, action);
      LeasedKeepsCalls(calls, s, AfterOperating(s, owner, id, stamp, action));
  }

  lemma ClaimingKeepsCalls(cfg: Config, calls: set<Call>, s: State, c: nat, step: ClaimStep)
    requires CallersOk(s) && CallsFrom(calls, s) && CanClaim(cfg, s, c, step)
    requires step.Begin? ==> step.call in calls
    ensures CallsFrom(calls, AfterClaiming(cfg, s, c, step))
  {
    if step.CommitClaim? {
      assert CallerOk(s, s.callers[c]);
    } else if Quiet(step) {
      ClaimingQuietly(cfg, s, c, step);
      ClaimingKeepsCall(cfg, s, c, step);
      MoveKeepsCalls(calls, s, AfterClaiming(cfg, s, c, step), c);
    }
  }

  lemma ClaimingKeepsCall(cfg: Config, s: State, c: nat, step: ClaimStep)
    requires CanClaim(cfg, s, c, step) && Quiet(step)
    ensures c in AfterClaiming(cfg, s, c, step).callers
    ensures AfterClaiming(cfg, s, c, step).callers[c].call == if step.Begin? then step.call else s.callers[c].call
  {
  }

  lemma MoveKeepsCalls(calls: set<Call>, s: State, t: State, c: nat)
    requires CallsFrom(calls, s) && QuietMove(s, t, c) && t.callers[c].call in calls
    ensures CallsFrom(calls, t)
  {
  }

  lemma SettlingKeepsCalls(cfg: Config, calls: set<Call>, s: State, c: nat, step: SettleStep)
    requires CallsFrom(calls, s) && CanSettle(cfg, s, c, step)
    ensures CallsFrom(calls, AfterSettling(cfg, s, c, step))
  {
  }

  // ---------------------------------------------------------------- later calls

  /** A call that began after a success can only be on its way to repeating it. */
  predicate Follows(k: Caller, outcome: SettleOutcome) {
    && !HoldsPending(k.phase) && !Claimant(k.phase)
    && (k.phase.FoundRow? ==> SettledAs(k.phase.snapshot, outcome.transaction, outcome.payer))
  }

  predicate SameSuccess(first: SettleOutcome, second: SettleOutcome) {
    second.success && second.transaction == first.transaction && second.payer == first.payer
  }

  /** Answer `i` is a success for this call's payment, and the call began after it. */
  predicate Succeeded(s: State, i: nat, call: Call, began: nat) {
    i < |s.answers| && s.answers[i].outcome.success && SamePayment(s.answers[i].call, call) && began > i
  }

  ghost predicate CallerFollows(s: State, k: Caller) {
    forall i: nat | Succeeded(s, i, k.call, k.began) :: Follows(k, s.answers[i].outcome)
  }

  ghost predicate AnswerFollows(s: State, a: Answer) {
    forall i: nat | Succeeded(s, i, a.call, a.began) :: SameSuccess(s.answers[i].outcome, a.outcome)
  }

  ghost predicate LaterInv(s: State) {
    && (forall c | c in s.callers :: CallerFollows(s, s.callers[c]))
    && (forall j: nat | j < |s.answers| :: AnswerFollows(s, s.answers[j]) && s.answers[j].began <= j)
  }

  /** What a step may rely on. */
  ghost predicate Sound(calls: set<Call>, s: State) {
    && CallersOk(s) && TablesOk(s) && OneEach(s) && AnswerInv(s)
    && AllLinked(calls) && CallsFrom(calls, s)
  }

  lemma {:induction false} RowsMeet(calls: set<Call>, s: State, i: nat, j: nat)
    requires Sound(calls, s) && i in s.rows && j in s.rows && SamePayment(s.rows[i].call, s.rows[j].call)
    ensures i == j
  {
    assert Linked(s.rows[i].call, s.rows[j].call);
    if s.rows[i].call.profile == s.rows[j].call.profile {
      assert StoredFor(s, i, ProfileKeyOf(s.rows[i].call)) && StoredFor(s, j, ProfileKeyOf(s.rows[i].call));
    }
  }

  /** The row behind an earlier success is the only row this call can meet, and it meets it by one of its keys. */
  lemma {:induction false} BackingRow(calls: set<Call>, s: State, i: nat, c: nat) returns (id: nat)
    requires Sound(calls, s) && c in s.callers && Succeeded(s, i, s.callers[c].call, s.callers[c].began)
    ensures BackedBy(s, id, s.answers[i]) && (SameReplay(s, id, c) || SameProfile(s, id, c))
    ensures forall j | j in s.rows && SamePayment(s.rows[j].call, s.callers[c].call) :: j == id
  {
    assert Backed(s, s.answers[i]);
    id :| BackedBy(s, id, s.answers[i]);
    assert Linked(s.rows[id].call, s.callers[c].call);
    forall j | j in s.rows && SamePayment(s.rows[j].call, s.callers[c].call) ensures j == id {
      RowsMeet(calls, s, j, id);
    }
  }

  /** A step of one call that answers nothing. */
  lemma {:induction false} SilentKeepsLater(s: State, t: State, c: nat)
    requires LaterInv(s) && t.answers == s.answers && OneMoves(s, t, c) && CallerFollows(t, t.callers[c])
    ensures LaterInv(t)
  {
    forall d | d in t.callers ensures CallerFollows(t, t.callers[d]) {
      if d != c { assert CallerFollows(s, s.callers[d]); }
    }
    forall j: nat | j < |t.answers| ensures AnswerFollows(t, t.answers[j]) && t.answers[j].began <= j {
      assert AnswerFollows(s, s.answers[j]);
    }
  }

  lemma {:induction false} OthersKeepLater(s: State, t: State)
    requires LaterInv(s) && t.answers == s.answers && t.callers == s.callers
    ensures LaterInv(t)
  {
    forall d | d in t.callers ensures CallerFollows(t, t.callers[d]) {
      assert CallerFollows(s, s.callers[d]);
    }
    forall j: nat | j < |t.answers| ensures AnswerFollows(t, t.answers[j]) && t.answers[j].began <= j {
      assert AnswerFollows(s, s.answers[j]);
    }
  }

  lemma {:induction false} AnsweringKeepsLater(s: State, t: State, c: nat, source: Source, outcome: SettleOutcome)
    requires LaterInv(s) && Answers.Answers(s, t, c, source, outcome) && ReadsFaithful(s)
    requires AnswerFollows(s, Answer(s.callers[c].call, s.callers[c].began, source, outcome))
    ensures LaterInv(t)
  {
    forall d | d in t.callers ensures CallerFollows(t, t.callers[d]) {
      assert s.callers[d].began <= |s.answers| && CallerFollows(s, s.callers[d]);
      forall i: nat | Succeeded(t, i, t.callers[d].call, t.callers[d].began)
        ensures Follows(t.callers[d], t.answers[i].outcome)
      {
        assert Succeeded(s, i, s.callers[d].call, s.callers[d].began);
      }
    }
    forall j: nat | j < |t.answers| ensures AnswerFollows(t, t.answers[j]) && t.answers[j].began <= j {
      AnswerStillFollows(s, t, c, source, outcome, j);
    }
  }

  lemma {:induction false} AnswerStillFollows(s: State, t: State, c: nat, source: Source, outcome: SettleOutcome,
                                              j: nat)
    requires LaterInv(s) && Answers.Answers(s, t, c, source, outcome) && ReadsFaithful(s) && j < |t.answers|
    requires AnswerFollows(s, Answer(s.callers[c].call, s.callers[c].began, source, outcome))
    ensures AnswerFollows(t, t.answers[j]) && t.answers[j].began <= j
  {
    assert s.callers[c].began <= |s.answers|;
    if j < |s.answers| { assert t.answers[j] == s.answers[j] && AnswerFollows(s, s.answers[j]); }
    forall i: nat | Succeeded(t, i, t.answers[j].call, t.answers[j].began)
      ensures SameSuccess(t.answers[i].outcome, t.answers[j].outcome)
    {
      assert Succeeded(s, i, t.answers[j].call, t.answers[j].began);
    }
  }

  lemma {:induction false} CachedAnswerKeepsLater(calls: set<Call>, s: State, c: nat, id: nat)
    requires Sound(calls, s) && LaterInv(s) && CanAnswerCached(s, c, id)
    ensures LaterInv(AfterAnswerCached(s, c, id))
  {
    var k, source, outcome := s.callers[c], Existing(id, s.rows[id]), CachedSettlement(s.rows[id]);
    forall i: nat | Succeeded(s, i, k.call, k.began) ensures SameSuccess(s.answers[i].outcome, outcome) {
      var b := BackingRow(calls, s, i, c);
      assert id == b;
    }
    AnsweringKeepsLater(s, AfterAnswerCached(s, c, id), c, source, outcome);
  }

  lemma {:induction false} DuplicateKeepsLater(s: State, c: nat, stamp: Time)
    requires ReadsFaithful(s) && LaterInv(s) && CanCommitDuplicate(s, c, stamp)
    ensures LaterInv(AfterCommitDuplicate(s, c, stamp, true))
  {
    var k, p := s.callers[c], s.callers[c].phase;
    var source, outcome := Existing(p.id, p.snapshot), CachedSettlement(p.snapshot);
    assert CallerFollows(s, k);
    AnsweringKeepsLater(s, AfterCommitDuplicate(s, c, stamp, true), c, source, outcome);
  }

  lemma {:induction false} LookUpKeepsLater(calls: set<Call>, s: State, c: nat, found: Option<nat>)
    requires Sound(calls, s) && LaterInv(s) && CanLookUp(s, c, found)
    ensures LaterInv(AfterLookUp(s, c, found))
  {
    var k, t := s.callers[c], AfterLookUp(s, c, found);
    forall i: nat | Succeeded(t, i, k.call, k.began) ensures Follows(t.callers[c], t.answers[i].outcome) {
      assert Succeeded(s, i, k.call, k.began);
      var b := BackingRow(calls, s, i, c);
      assert found.Some? ==> found.value == b;
    }
    SilentKeepsLater(s, t, c);
  }

  lemma {:induction false} ReadConflictKeepsLater(calls: set<Call>, s: State, c: nat, id: nat)
    requires Sound(calls, s) && LaterInv(s) && CanReadConflict(s, c, id)
    ensures LaterInv(AfterReadConflict(s, c, id))
  {
    var k, t := s.callers[c], AfterReadConflict(s, c, id);
    forall i: nat | Succeeded(t, i, k.call, k.began) ensures Follows(t.callers[c], t.answers[i].outcome) {
      assert Succeeded(s, i, k.call, k.began);
      var b := BackingRow(calls, s, i, c);
      assert id == b;
    }
    SilentKeepsLater(s, t, c);
  }

  /** A later call that missed by its replay key meets the row behind the success when it inserts. */
  lemma {:induction false} InsertKeepsLater(calls: set<Call>, s: State, c: nat, stamp: Time)
    requires Sound(calls, s) && LaterInv(s) && CanInsert(s, c, stamp)
    ensures LaterInv(AfterInsert(s, c, stamp))
  {
    var k, t := s.callers[c], AfterInsert(s, c, stamp);
    forall i: nat | Succeeded(t, i, k.call, k.began) ensures Follows(t.callers[c], t.answers[i].outcome) {
      assert Succeeded(s, i, k.call, k.began);
      var b := BackingRow(calls, s, i, c);
      assert CallerOk(s, k);
      assert SameProfile(s, b, c);
    }
    SilentKeepsLater(s, t, c);
  }

  /** A call that is inserting or owns its row began after no success. */
  lemma {:induction false} OwnMoveKeepsLater(s: State, t: State, c: nat)
    requires LaterInv(s) && t.answers == s.answers && OneMoves(s, t, c) && c in s.callers
    requires t.callers[c].call == s.callers[c].call && t.callers[c].began == s.callers[c].began
    requires HoldsPending(s.callers[c].phase) || Claimant(s.callers[c].phase)
    ensures LaterInv(t)
  {
    assert CallerFollows(s, s.callers[c]);
    forall i: nat ensures !Succeeded(t, i, t.callers[c].call, t.callers[c].began) {
      if Succeeded(t, i, t.callers[c].call, t.callers[c].began) {
        assert Succeeded(s, i, s.callers[c].call, s.callers[c].began);
        assert false;
      }
    }
    SilentKeepsLater(s, t, c);
  }

  /** A call that moves to a phase in which it holds nothing. */
  lemma {:induction false} IdleMoveKeepsLater(s: State, t: State, c: nat)
    requires LaterInv(s) && t.answers == s.answers && OneMoves(s, t, c)
    requires var phase := t.callers[c].phase; phase.Ready? || phase.Locked? || phase.Done?
    ensures LaterInv(t)
  {
    SilentKeepsLater(s, t, c);
  }

  lemma {:induction false} SettlerTouchKeepsLater(s: State, t: State, c: nat)
    requires ReadsFaithful(s) && LaterInv(s) && SettlerTouch(s, t, c) && t.answers != s.answers
    requires t.callers[c] == s.callers[c].(phase := Done)
    ensures LaterInv(t)
  {
    var k, source, outcome := s.callers[c], t.answers[|s.answers|].source, t.answers[|s.answers|].outcome;
    assert CallerFollows(s, k);
    forall i: nat ensures !Succeeded(s, i, k.call, k.began) {
      if Succeeded(s, i, k.call, k.began) { assert false; }
    }
    AnsweringKeepsLater(s, t, c, source, outcome);
  }

  // ---------------------------------------------------------------- every step

  lemma {:induction false} ClaimingKeepsLater(cfg: Config, calls: set<Call>, s: State, c: nat, step: ClaimStep)
    requires Sound(calls, s) && LaterInv(s) && CanClaim(cfg, s, c, step)
    ensures LaterInv(AfterClaiming(cfg, s, c, step))
  {
    match step
    case AnswerCached(id) => CachedAnswerKeepsLater(calls, s, c, id);
    case CommitDuplicate(stamp, answered) =>
      if answered {
        DuplicateKeepsLater(s, c, stamp);
      } else {
        IdleMoveKeepsLater(s, AfterClaiming(cfg, s, c, step), c);
      }
    case LookUp(found) => LookUpKeepsLater(calls, s, c, found);
    case ReadConflict(id) => ReadConflictKeepsLater(calls, s, c, id);
    case Insert(stamp) => InsertKeepsLater(calls, s, c, stamp);
    case StartAttempt => OwnMoveKeepsLater(s, AfterClaiming(cfg, s, c, step), c);
    case CommitClaim => OwnMoveKeepsLater(s, AfterClaiming(cfg, s, c, step), c);
    case _ => IdleMoveKeepsLater(s, AfterClaiming(cfg, s, c, step), c);
  }

  lemma {:induction false} SettlingKeepsLater(cfg: Config, s: State, c: nat, step: SettleStep)
    requires ReadsFaithful(s) && LaterInv(s) && CanSettle(cfg, s, c, step)
    ensures LaterInv(AfterSettling(cfg, s, c, step))
  {
    var t := AfterSettling(cfg, s, c, step);
    match step
    case FinaliseRecord(stamp, answered) =>
      FinaliseEffect(cfg, s, c, stamp, answered);
      if SettlerTouch(s, t, c) && t.answers != s.answers {
        SettlerTouchKeepsLater(s, t, c);
      } else {
        OwnMoveKeepsLater(s, t, c);
      }
    case Crash => IdleMoveKeepsLater(s, t, c);
    case _ => OwnMoveKeepsLater(s, t, c);
  }

  lemma {:induction false} StepKeepsLater(cfg: Config, calls: set<Call>, s: State, step: Step)
    requires Sound(calls, s) && LaterInv(s) && Enabled(cfg, s, step)
    ensures LaterInv(After(cfg, s, step))
  {
    match step
    case Tick(clock) => OthersKeepLater(s, s.(clock := clock));
    case Claiming(c, claim) => ClaimingKeepsLater(cfg, calls, s, c, claim);
    case Settling(c, settle) => SettlingKeepsLater(cfg, s, c, settle);
    case Reconciling(w, work) =>
      ReconcilingEffect(cfg, s, w, work);
      OthersKeepLater(s, AfterReconciling(cfg, s, w, work));
    case Operating(owner, id, stamp, action) =>
      OperatingEffect(s, owner, id, stamp, action);
      OthersKeepLater(s, AfterOperating(s, owner, id, stamp, action));
  }

  lemma {:induction false} RunKeepsLater(cfg: Config, calls: set<Call>, s: State, steps: seq<Step>)
    requires Inv(cfg, s) && OneEach(s) && LaterInv(s) && AllLinked(calls) && CallsFrom(calls, s)
    requires Runs(cfg, s, steps) && AllFrom(calls, steps)
    ensures LaterInv(EndState(cfg, s, steps))
    decreases |steps|
  {
    if steps != [] {
      StepKeepsInv(cfg, s, steps[0]);
      StepKeepsProfiles(cfg, s, steps[0]);
      StepKeepsCalls(cfg, calls, s, steps[0]);
      StepKeepsLater(cfg, calls, s, steps[0]);
      RunKeepsLater(cfg, calls, After(cfg, s, steps[0]), steps[1..]);
    }
  }

  /**
   * In a run of linked calls, once a settle call has answered success, every settle call for that seller and
   * fingerprint that begins afterwards and answers at all answers success with the same transaction and payer.
   */
  lemma {:induction false} SuccessIsRepeated(cfg: Config, calls: set<Call>, clock: Time, steps: seq<Step>, i: nat,
                                             j: nat)
    requires AllLinked(calls) && Runs(cfg, Initial(clock), steps) && AllFrom(calls, steps)
    requires AnsweredLater(EndState(cfg, Initial(clock), steps), i, j)
    ensures var answers := EndState(cfg, Initial(clock), steps).answers;
            SameSuccess(answers[i].outcome, answers[j].outcome)
  {
    InitialInv(cfg, clock);
    RunKeepsLater(cfg, calls, Initial(clock), steps);
    var s := EndState(cfg, Initial(clock), steps);
    assert AnswerFollows(s, s.answers[j]);
  }

  /** Answer `i` is a success, and answer `j` is for the same payment, by a call that began after it. */
  predicate AnsweredLater(s: State, i: nat, j: nat) {
    j < |s.answers| && Succeeded(s, i, s.answers[j].call, s.answers[j].began)
  }

  // ---------------------------------------------------------------- and never without

  /** A run of these calls leads from one state to another. */
  ghost predicate Leads(cfg: Config, calls: set<Call>, s: State, t: State) {
    exists steps | Runs(cfg, s, steps) && AllFrom(calls, steps) :: EndState(cfg, s, steps) == t
  }

  lemma {:induction false} LeadsFurther(cfg: Config, calls: set<Call>, r: State, s: State, steps: seq<Step>)
    requires Leads(cfg, calls, r, s) && Runs(cfg, s, steps) && AllFrom(calls, steps)
    ensures Leads(cfg, calls, r, EndState(cfg, s, steps))
  {
    var past :| Runs(cfg, r, past) && AllFrom(calls, past) && EndState(cfg, r, past) == s;
    SharedNames.RunBoth(cfg, r, past, steps);
    forall k | 0 <= k < |past + steps| ensures StepFrom(calls, (past + steps)[k]) {
      if k < |past| {
        assert (past + steps)[k] == past[k];
      } else {
        assert (past + steps)[k] == steps[k - |past|];
      }
    }
  }

  lemma {:induction false} LeadsBy(cfg: Config, calls: set<Call>, r: State, s: State, step: Step)
    requires Leads(cfg, calls, r, s) && Enabled(cfg, s, step) && StepFrom(calls, step)
    ensures Leads(cfg, calls, r, After(cfg, s, step))
  {
    var next := After(cfg, s, step);
    assert [step][1..] == [] && Runs(cfg, next, []) && Runs(cfg, s, [step]) && EndState(cfg, s, [step]) == next;
    LeadsFurther(cfg, calls, r, s, [step]);
  }

  /** Nobody is inside a transaction, and no row has either key of this call. */
  predicate Clear(s: State, call: Call) {
    && (forall c | c in s.callers :: !InTransaction(s.callers[c].phase))
    && (forall id | id in s.rows :: id < s.nextRecord && ReplayKeyOf(s.rows[id].call) != ReplayKeyOf(call)
                                    && ProfileKeyOf(s.rows[id].call) != ProfileKeyOf(call))
  }

  lemma {:induction false} ClaimsFresh(cfg: Config, calls: set<Call>, r: State, s: State, c: nat, call: Call)
    returns (t: State)
    requires Leads(cfg, calls, r, s) && call in calls && Clear(s, call) && c !in s.callers
    ensures Leads(cfg, calls, r, t) && t == Refinement.AfterFresh(AfterBegin(s, c, call, None), c, s.clock)
  {
    LeadsBy(cfg, calls, r, s, Step.Claiming(c, Begin(call, None)));
    var begun := AfterBegin(s, c, call, None);
    t := Refinement.AfterFresh(begun, c, s.clock);
    assert Refinement.Alone(begun, c);
    assert Refinement.NoReplay(begun, c) && Refinement.NoProfile(begun, c);
    Refinement.FreshRun(cfg, begun, c, s.clock);
    Refinement.MissRun(cfg, begun, c, t);
    var steps :| Runs(cfg, begun, steps) && Refinement.ClaimOnly(steps, c) && EndState(cfg, begun, steps) == t;
    LeadsFurther(cfg, calls, r, begun, steps);
  }

  /** The call has claimed its row and may submit. */
  predicate MaySubmit(s: State, c: nat) {
    && c in s.callers && s.callers[c].phase.HasClaim?
    && s.callers[c].phase.id in s.rows && s.rows[s.callers[c].phase.id].status == SettleInProgress
    && s.callers[c].phase.attemptId in s.attempts
  }

  /** The provider has replied to the call's submission. */
  function Replied(s: State, c: nat, reply: ProviderReply): State
    requires MaySubmit(s, c)
  {
    AfterProviderReturns(AfterCallProvider(s, c), c, reply)
  }

  lemma {:induction false} Submits(cfg: Config, calls: set<Call>, r: State, s: State, c: nat, reply: ProviderReply)
    requires Leads(cfg, calls, r, s) && MaySubmit(s, c)
    ensures Leads(cfg, calls, r, Replied(s, c, reply)) && CanFinalise(cfg, Replied(s, c, reply), c, s.clock)
  {
    LeadsBy(cfg, calls, r, s, Settling(c, CallProvider));
    LeadsBy(cfg, calls, r, AfterCallProvider(s, c), Settling(c, ProviderReturns(reply)));
  }

  /** The call's answer is out, and rows are as they were but for the outcome of its own. */
  predicate Settles(s: State, t: State, c: nat, outcome: SettleOutcome) {
    && c in s.callers && t.callers == s.callers[c := s.callers[c].(phase := Done)]
    && |t.answers| == |s.answers| + 1 && t.answers[..|s.answers|] == s.answers
    && t.answers[|s.answers|].call == s.callers[c].call && t.answers[|s.answers|].began == s.callers[c].began
    && t.answers[|s.answers|].outcome == outcome
    && t.nextRecord == s.nextRecord && t.rows.Keys == s.rows.Keys
    && forall id | id in s.rows :: t.rows[id].call == s.rows[id].call
  }

  lemma {:induction false} FinaliseSettles(cfg: Config, s: State, c: nat, reply: ProviderReply)
    requires MaySubmit(s, c) && CanFinalise(cfg, Replied(s, c, reply), c, s.clock)
    ensures Settles(s, AfterFinalise(cfg, Replied(s, c, reply), c, s.clock, true), c,
                    FinalisationFor(s.callers[c].phase.snapshot, reply, s.callers[c].payloadPayer).outcome)
  {
    var t := AfterFinalise(cfg, Replied(s, c, reply), c, s.clock, true);
    assert t.callers == s.callers[c := s.callers[c].(phase := Done)];
  }

  lemma {:induction false} Replies(cfg: Config, calls: set<Call>, r: State, s: State, c: nat, reply: ProviderReply)
    returns (t: State)
    requires Leads(cfg, calls, r, s) && MaySubmit(s, c)
    ensures Leads(cfg, calls, r, t)
    ensures Settles(s, t, c, FinalisationFor(s.callers[c].phase.snapshot, reply, s.callers[c].payloadPayer).outcome)
  {
    Submits(cfg, calls, r, s, c, reply);
    LeadsBy(cfg, calls, r, Replied(s, c, reply), Settling(c, FinaliseRecord(s.clock, true)));
    t := AfterFinalise(cfg, Replied(s, c, reply), c, s.clock, true);
    FinaliseSettles(cfg, s, c, reply);
  }

  /** One call more has come and gone, with a row of its own and this answer. */
  predicate OneMore(s: State, t: State, c: nat, call: Call, success: bool) {
    && t.callers.Keys == s.callers.Keys + {c} && t.callers[c].phase.Done?
    && (forall d | d in s.callers && d != c :: t.callers[d].phase == s.callers[d].phase)
    && |t.answers| == |s.answers| + 1 && t.answers[..|s.answers|] == s.answers
    && t.answers[|s.answers|].call == call && t.answers[|s.answers|].began == |s.answers|
    && t.answers[|s.answers|].outcome.success == success
    && t.nextRecord == s.nextRecord + 1 && t.rows.Keys == s.rows.Keys + {s.nextRecord}
    && t.rows[s.nextRecord].call == call && forall id | id in s.rows :: t.rows[id].call == s.rows[id].call
  }

  lemma {:induction false} FreshThenSettled(s: State, t: State, c: nat, call: Call, outcome: SettleOutcome)
    requires Clear(s, call) && c !in s.callers
    requires Settles(Refinement.AfterFresh(AfterBegin(s, c, call, None), c, s.clock), t, c, outcome)
    ensures OneMore(s, t, c, call, outcome.success)
  {
  }

  /** A fresh claim, a provider's reply, and the answer that goes with it. */
  lemma {:induction false} SettlesFresh(cfg: Config, calls: set<Call>, r: State, s: State, c: nat, call: Call,
                                        success: bool) returns (t: State)
    requires Leads(cfg, calls, r, s) && call in calls && Clear(s, call) && c !in s.callers
    ensures Leads(cfg, calls, r, t) && OneMore(s, t, c, call, success)
  {
    var claimed := ClaimsFresh(cfg, calls, r, s, c, call);
    var reply := ProviderReplied(success, None, None, None, None);
    t := Replies(cfg, calls, r, claimed, c, reply);
    FreshThenSettled(s, t, c, call, FinalisationFor(NewRecord(call, s.clock), reply, None).outcome);
  }

  /** Two calls for one payment that do not meet: the first succeeds, the second claims a row of its own and fails. */
  lemma {:induction false} UnlinkedPart(cfg: Config, calls: set<Call>, x: Call, y: Call) returns (steps: seq<Step>)
    requires x in calls && y in calls && !Linked(x, y)
    ensures Runs(cfg, Initial(0), steps) && AllFrom(calls, steps)
    ensures AnsweredLater(EndState(cfg, Initial(0), steps), 0, 1)
    ensures !EndState(cfg, Initial(0), steps).answers[1].outcome.success
  {
    var r := Initial(0);
    assert Runs(cfg, r, []) && AllFrom(calls, []) && EndState(cfg, r, []) == r;
    var s := SettlesFresh(cfg, calls, r, r, 0, x, true);
    assert Clear(s, y);
    var t := SettlesFresh(cfg, calls, r, s, 1, y, false);
    steps :| Runs(cfg, r, steps) && AllFrom(calls, steps) && EndState(cfg, r, steps) == t;
  }

  ghost predicate RepeatedIn(cfg: Config, calls: set<Call>, clock: Time, steps: seq<Step>)
    requires Runs(cfg, Initial(clock), steps)
  {
    forall i: nat, j: nat | AnsweredLater(EndState(cfg, Initial(clock), steps), i, j) ::
      var answers := EndState(cfg, Initial(clock), steps).answers;
      SameSuccess(answers[i].outcome, answers[j].outcome)
  }

  /** Every run of these calls repeats its successes. */
  ghost predicate AlwaysRepeated(cfg: Config, calls: set<Call>) {
    forall clock, steps | Runs(cfg, Initial(clock), steps) && AllFrom(calls, steps) ::
      RepeatedIn(cfg, calls, clock, steps)
  }

  /** Success is repeated in every run of these calls exactly when all calls for one payment meet. */
  lemma {:induction false} RepeatedExactly(cfg: Config, calls: set<Call>)
    ensures AlwaysRepeated(cfg, calls) <==> AllLinked(calls)
  {
    if AllLinked(calls) {
      forall clock, steps | Runs(cfg, Initial(clock), steps) && AllFrom(calls, steps)
        ensures RepeatedIn(cfg, calls, clock, steps)
      {
        forall i: nat, j: nat | AnsweredLater(EndState(cfg, Initial(clock), steps), i, j)
          ensures var answers := EndState(cfg, Initial(clock), steps).answers;
                  SameSuccess(answers[i].outcome, answers[j].outcome)
        {
          SuccessIsRepeated(cfg, calls, clock, steps, i, j);
        }
      }
    } else {
      var x, y :| x in calls && y in calls && !Linked(x, y);
      var steps := UnlinkedPart(cfg, calls, x, y);
      assert !RepeatedIn(cfg, calls, 0, steps);
    }
  }
}
