/**
 * Settle calls that interleave over the in-memory store, whose claim is one step under its lock. Calls may crash
 * anywhere, and provider replies are arbitrary.
 */
module MemoryRuns {
  import opened Wrappers
  import opened Settlement
  import opened Rows
  import opened Stores

  /** Where a settle call stands. */
  datatype Phase =
    | Ready
    | Claimant(id: nat)
    | Attempted(id: nat, attemptId: nat)
    | Calling(id: nat, attemptId: nat)
    | Returned(id: nat, attemptId: nat, reply: ProviderReply)
    | Marked(attemptId: nat, f: Finalisation)
    | Done

  datatype Caller = Caller(call: Call, payloadPayer: Option<string>, phase: Phase)

  datatype State = State(store: Memory, callers: map<nat, Caller>, submissions: multiset<RawKey>)

  const INITIAL := State(EMPTY_MEMORY, map[], multiset{})

  datatype Step =
    | Begin(call: Call, payloadPayer: Option<string>)
    | ClaimRecord(now: Time)
    | StartAttempt(now: Time)
    | CallProvider
    | ProviderReturns(reply: ProviderReply)
    | MarkRecord(now: Time)
    | EndAttempt(now: Time)
    | Crash

  predicate Enabled(s: State, c: nat, step: Step) {
    if step.Begin? then c !in s.callers
    else
      && c in s.callers
      && match step
         case ClaimRecord(_) => s.callers[c].phase.Ready?
         case StartAttempt(_) => s.callers[c].phase.Claimant?
         case CallProvider => s.callers[c].phase.Attempted?
         case ProviderReturns(_) => s.callers[c].phase.Calling?
         case MarkRecord(_) => s.callers[c].phase.Returned? && s.callers[c].phase.id in s.store.objects
         case EndAttempt(_) => s.callers[c].phase.Marked? && s.callers[c].phase.attemptId in s.store.attempts
         case _ => true
  }

  function At(s: State, c: nat, phase: Phase): State
    requires c in s.callers
  {
    s.(callers := s.callers[c := s.callers[c].(phase := phase)])
  }

  function AfterClaim(s: State, c: nat, now: Time): State
    requires c in s.callers
  {
    var claim := MemoryClaim(s.store, s.callers[c].call, now);
    At(s, c, if claim.claim == Claimed then Claimant(claim.id) else Done).(store := claim.store)
  }

  function AfterAttempt(s: State, c: nat, now: Time): State
    requires c in s.callers && s.callers[c].phase.Claimant?
  {
    var id, m := s.callers[c].phase.id, s.store;
    At(s, c, Attempted(id, m.nextAttempt))
      .(store := m.(attempts := m.attempts[m.nextAttempt := NewAttempt(id, now)], nextAttempt := m.nextAttempt + 1))
  }

  function AfterCall(s: State, c: nat): State
    requires c in s.callers && s.callers[c].phase.Attempted?
  {
    At(s, c, Calling(s.callers[c].phase.id, s.callers[c].phase.attemptId))
      .(submissions := s.submissions + multiset{RawKeyOf(s.callers[c].call)})
  }

  /** The mark is unguarded: the record is whatever it has become. */
  function AfterMark(s: State, c: nat, now: Time): State
    requires c in s.callers && s.callers[c].phase.Returned? && s.callers[c].phase.id in s.store.objects
  {
    var p, m := s.callers[c].phase, s.store;
    var f := FinalisationFor(m.objects[p.id], p.reply, s.callers[c].payloadPayer);
    At(s, c, Marked(p.attemptId, f)).(store := m.(objects := m.objects[p.id := MemoryMark(m.objects[p.id], f, now)]))
  }

  function AfterEnd(s: State, c: nat, now: Time): State
    requires c in s.callers && s.callers[c].phase.Marked? && s.callers[c].phase.attemptId in s.store.attempts
  {
    var a, f, m := s.callers[c].phase.attemptId, s.callers[c].phase.f, s.store;
    At(s, c, Done).(store := m.(attempts :=
      m.attempts[a := FinishAttempt(m.attempts[a], f.attemptStatus, f.transaction, f.error, now)]))
  }

  function After(s: State, c: nat, step: Step): State
    requires Enabled(s, c, step)
  {
    match step
    case Begin(call, payer) => s.(callers := s.callers[c := Caller(call, payer, Ready)])
    case ClaimRecord(now) => AfterClaim(s, c, now)
    case StartAttempt(now) => AfterAttempt(s, c, now)
    case CallProvider => AfterCall(s, c)
    case ProviderReturns(reply) => At(s, c, Returned(s.callers[c].phase.id, s.callers[c].phase.attemptId, reply))
    case MarkRecord(now) => AfterMark(s, c, now)
    case EndAttempt(now) => AfterEnd(s, c, now)
    case Crash => At(s, c, Done)
  }

  ghost predicate Runs(s: State, steps: seq<(nat, Step)>)
    decreases |steps|
  {
    steps == [] || (Enabled(s, steps[0].0, steps[0].1) && Runs(After(s, steps[0].0, steps[0].1), steps[1..]))
  }

  ghost function EndState(s: State, steps: seq<(nat, Step)>): State
    requires Runs(s, steps)
    decreases |steps|
  {
    if steps == [] then s else EndState(After(s, steps[0].0, steps[0].1), steps[1..])
  }

  // ---------------------------------------------------------------- the invariant

  /** The call has claimed its record and not yet submitted it. */
  predicate AboutToSubmit(p: Phase) {
    p.Claimant? || p.Attempted?
  }

  predicate OwnerOk(s: State, k: Caller) {
    && (AboutToSubmit(k.phase) ==>
          && k.phase.id in s.store.objects && s.store.objects[k.phase.id].call == k.call
          && RawKeyOf(k.call) !in s.submissions)
    && (k.phase.Calling? || k.phase.Returned? ==>
          k.phase.id in s.store.objects && s.store.objects[k.phase.id].call == k.call)
  }

  ghost predicate OwnersOk(s: State) {
    forall c | c in s.callers :: OwnerOk(s, s.callers[c])
  }

  ghost predicate OwnersApart(s: State) {
    forall c, d | c in s.callers && d in s.callers && AboutToSubmit(s.callers[c].phase)
                  && AboutToSubmit(s.callers[d].phase) && s.callers[c].phase.id == s.callers[d].phase.id :: c == d
  }

  ghost predicate SubmittedOnce(s: State) {
    forall key :: s.submissions[key] <= 1 && (key in s.submissions ==> key in s.store.index)
  }

  ghost predicate Owned(s: State) {
    OwnersOk(s) && OwnersApart(s) && SubmittedOnce(s)
  }

  ghost predicate Inv(s: State) {
    MemoryOk(s.store) && Owned(s)
  }

  // ---------------------------------------------------------------- the store stays in order

  lemma {:induction false} AttemptsDoNotMatter(m: Memory, m': Memory)
    requires MemoryOk(m) && m'.records == m.records && m'.index == m.index && m'.objects == m.objects
    requires m'.nextRecord == m.nextRecord
    ensures MemoryOk(m')
  {
    forall id | id in m'.objects ensures Named(m', id) { assert Named(m, id); }
    forall k | k in m'.records ensures Listed(m', k) { assert Listed(m, k); }
    forall k | k in m'.index ensures Indexed(m', k) { assert Indexed(m, k); }
  }

  lemma {:induction false} StepKeepsStore(s: State, c: nat, step: Step)
    requires MemoryOk(s.store) && OwnersOk(s) && Enabled(s, c, step)
    ensures MemoryOk(After(s, c, step).store)
  {
    if step.ClaimRecord? {
      ClaimKeepsMemoryOk(s.store, s.callers[c].call, step.now);
    } else if step.MarkRecord? {
      InPlaceKeepsMemoryOk(s.store, AfterMark(s, c, step.now).store, s.callers[c].phase.id);
    } else {
      AttemptsDoNotMatter(s.store, After(s, c, step).store);
    }
  }

  /** What an orderly store says about a call that it does not know. */
  lemma {:induction false} UnknownCall(m: Memory, call: Call)
    requires MemoryOk(m) && MemoryFind(m, call).None?
    ensures m.nextRecord !in m.objects && RawKeyOf(call) !in m.index
  {
    MemoryFindExact(m, call);
    assert m.nextRecord in m.objects ==> Named(m, m.nextRecord);
  }

  /** Records with one replay key are one record, and their key is in the index. */
  lemma {:induction false} OneRecordPerKey(m: Memory, i: nat, j: nat)
    requires MemoryOk(m) && i in m.objects && j in m.objects &&
        RawKeyOf(m.objects[i].call) == RawKeyOf(m.objects[j].call)
    ensures i == j && RawKeyOf(m.objects[i].call) in m.index
  {
    assert Named(m, i) && Named(m, j);
  }

  // ---------------------------------------------------------------- claims and submissions

  /** Records keep their identity, and no replay key leaves the index. */
  ghost predicate Grows(m: Memory, m': Memory) {
    && (forall id | id in m.objects :: id in m'.objects && m'.objects[id].call == m.objects[id].call)
    && (forall key | key in m.index :: key in m'.index)
  }

  /** One call moves, without a new claim or submission. */
  lemma {:induction false} MoveKeepsOwned(s: State, t: State, c: nat)
    requires Owned(s) && c in t.callers && t.callers == s.callers[c := t.callers[c]] && t.submissions == s.submissions
    requires Grows(s.store, t.store) && OwnerOk(t, t.callers[c])
    requires AboutToSubmit(t.callers[c].phase) ==>
               c in s.callers && AboutToSubmit(s.callers[c].phase) && t.callers[c].phase.id == s.callers[c].phase.id
    ensures Owned(t)
  {
    forall d | d in t.callers ensures OwnerOk(t, t.callers[d]) {
      if d != c { assert OwnerOk(s, s.callers[d]); }
    }
  }

  /** A claim that is granted is of a record that is new, under a replay key that nobody has submitted. */
  lemma {:induction false} GrantKeepsOwned(s: State, c: nat, now: Time)
    requires Owned(s) && c in s.callers && MemoryFind(s.store, s.callers[c].call).None?
    requires s.store.nextRecord !in s.store.objects && RawKeyOf(s.callers[c].call) !in s.store.index
    ensures Owned(AfterClaim(s, c, now))
  {
    var t := AfterClaim(s, c, now);
    forall d | d in t.callers
      ensures OwnerOk(t, t.callers[d])
      ensures d != c && AboutToSubmit(t.callers[d].phase) ==> t.callers[d].phase.id != s.store.nextRecord
    {
      if d != c { assert OwnerOk(s, s.callers[d]); }
    }
  }

  lemma {:induction false} DuplicateKeepsOwned(s: State, c: nat, now: Time)
    requires Owned(s) && c in s.callers && MemoryFind(s.store, s.callers[c].call).Some?
    ensures Owned(AfterClaim(s, c, now))
  {
    MoveKeepsOwned(s, AfterClaim(s, c, now), c);
  }

  /** Two claimants of one replay key would be claimants of one record. */
  lemma {:induction false} SubmissionKeepsOwned(s: State, c: nat)
    requires MemoryOk(s.store) && Owned(s) && c in s.callers && s.callers[c].phase.Attempted?
    ensures Owned(AfterCall(s, c))
  {
    var t, k := AfterCall(s, c), s.callers[c];
    assert OwnerOk(s, k);
    OneRecordPerKey(s.store, k.phase.id, k.phase.id);
    forall d | d in t.callers ensures OwnerOk(t, t.callers[d]) {
      if d != c { OtherOutlivesSubmission(s, c, d); }
    }
  }

  lemma {:induction false} OtherOutlivesSubmission(s: State, c: nat, d: nat)
    requires MemoryOk(s.store) && OwnersOk(s) && OwnersApart(s) && c in s.callers && d in s.callers && c != d
    requires s.callers[c].phase.Attempted?
    ensures OwnerOk(AfterCall(s, c), s.callers[d])
  {
    var k, l := s.callers[c], s.callers[d];
    assert OwnerOk(s, k) && OwnerOk(s, l);
    if AboutToSubmit(l.phase) && RawKeyOf(l.call) == RawKeyOf(k.call) {
      OneRecordPerKey(s.store, k.phase.id, l.phase.id);
    }
  }

  lemma {:induction false} OtherStepKeepsOwned(s: State, c: nat, step: Step)
    requires Owned(s) && Enabled(s, c, step) && !step.ClaimRecord? && !step.CallProvider?
    ensures Owned(After(s, c, step))
  {
    if c in s.callers { assert OwnerOk(s, s.callers[c]); }
    MoveKeepsOwned(s, After(s, c, step), c);
  }

  lemma {:induction false} StepKeepsOwned(s: State, c: nat, step: Step)
    requires Inv(s) && Enabled(s, c, step)
    ensures Owned(After(s, c, step))
  {
    if step.ClaimRecord? {
      if MemoryFind(s.store, s.callers[c].call).None? {
        UnknownCall(s.store, s.callers[c].call);
        GrantKeepsOwned(s, c, step.now);
      } else {
        DuplicateKeepsOwned(s, c, step.now);
      }
    } else if step.CallProvider? {
      SubmissionKeepsOwned(s, c);
    } else {
      OtherStepKeepsOwned(s, c, step);
    }
  }

  lemma {:induction false} StepKeepsInv(s: State, c: nat, step: Step)
    requires Inv(s) && Enabled(s, c, step)
    ensures Inv(After(s, c, step))
  {
    StepKeepsStore(s, c, step);
    StepKeepsOwned(s, c, step);
  }

  lemma {:induction false} RunKeepsInv(s: State, steps: seq<(nat, Step)>)
    requires Inv(s) && Runs(s, steps)
    ensures Inv(EndState(s, steps))
    decreases |steps|
  {
    if steps != [] {
      StepKeepsInv(s, steps[0].0, steps[0].1);
      RunKeepsInv(After(s, steps[0].0, steps[0].1), steps[1..]);
    }
  }

  /** How often a run calls the provider for a replay key. */
  ghost function ProviderCalls(s: State, steps: seq<(nat, Step)>, key: RawKey): nat
    requires Runs(s, steps)
    decreases |steps|
  {
    if steps == [] then 0
    else
      var (c, step) := steps[0];
      (if step.CallProvider? && RawKeyOf(s.callers[c].call) == key then 1 else 0)
      + ProviderCalls(After(s, c, step), steps[1..], key)
  }

  lemma {:induction false} SubmissionsAreCalls(s: State, steps: seq<(nat, Step)>, key: RawKey)
    requires Runs(s, steps)
    ensures EndState(s, steps).submissions[key] == s.submissions[key] + ProviderCalls(s, steps, key)
    decreases |steps|
  {
    if steps != [] { SubmissionsAreCalls(After(s, steps[0].0, steps[0].1), steps[1..], key); }
  }

  /** However the calls interleave and crash, the provider is called at most once per replay key, across profiles. */
  lemma {:induction false} MemoryAtMostOneSubmission(steps: seq<(nat, Step)>, key: RawKey)
    requires Runs(INITIAL, steps)
    ensures ProviderCalls(INITIAL, steps, key) <= 1
  {
    RunKeepsInv(INITIAL, steps);
    SubmissionsAreCalls(INITIAL, steps, key);
  }
}
