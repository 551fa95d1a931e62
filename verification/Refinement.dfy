/** The interleaved claim steps, run without interruption, do what the database store's claim does in one go. */
module Refinement {
  import opened Wrappers
  import opened Settlement
  import opened Rows
  import opened Protocol
  import opened Stores
  import opened StoresExactly

  function TablesOf(s: State): Tables {
    Tables(s.rows, s.attempts, s.nextRecord, s.nextAttempt)
  }

  predicate Alone(s: State, c: nat) {
    && c in s.callers && s.callers[c].phase.Ready?
    && (forall d | d in s.callers && d != c :: !InTransaction(s.callers[d].phase))
    && forall id | id in s.rows :: id < s.nextRecord
  }

  /** A step of the claim itself, without a crash after its commit. */
  predicate ClaimsOn(step: ClaimStep) {
    !step.Begin? && !step.AnswerCached? && (step.CommitDuplicate? ==> step.answered)
  }

  /** Steps of one caller's claim and of nobody else. */
  predicate ClaimOnly(steps: seq<Step>, c: nat) {
    forall k | 0 <= k < |steps| :: steps[k].Claiming? && steps[k].c == c && ClaimsOn(steps[k].claim)
  }

  /** A run of one caller's claim leads from one state to another. */
  ghost predicate Leads(cfg: Config, c: nat, s: State, t: State) {
    exists steps | Runs(cfg, s, steps) && ClaimOnly(steps, c) :: EndState(cfg, s, steps) == t
  }

  lemma LeadsNowhere(cfg: Config, c: nat, s: State)
    ensures Leads(cfg, c, s, s)
  {
    assert Runs(cfg, s, []) && ClaimOnly([], c) && EndState(cfg, s, []) == s;
  }

  lemma {:induction false} LeadsOn(cfg: Config, s: State, c: nat, step: ClaimStep, t: State)
    requires CanClaim(cfg, s, c, step) && ClaimsOn(step) && Leads(cfg, c, AfterClaiming(cfg, s, c, step), t)
    ensures Leads(cfg, c, s, t)
  {
    var next := AfterClaiming(cfg, s, c, step);
    var rest :| Runs(cfg, next, rest) && ClaimOnly(rest, c) && EndState(cfg, next, rest) == t;
    var steps := [Step.Claiming(c, step)] + rest;
    assert steps[0] == Step.Claiming(c, step) && steps[1..] == rest;
    assert Runs(cfg, s, steps) && ClaimOnly(steps, c) && EndState(cfg, s, steps) == t;
  }

  // ---------------------------------------------------------------- the three ways through a claim

  /** A row with the same replay key is found under the lock. */
  lemma DuplicateRun(cfg: Config, s: State, c: nat, id: nat, stamp: Time)
    requires Alone(s, c) && SameReplay(s, id, c) && stamp <= s.clock
    ensures Leads(cfg, c, s, AfterDuplicate(s, c, id, stamp))
  {
    var s1 := AfterTakeLock(s, c);
    var s2 := AfterLookUp(s1, c, Some(id));
    var s3 := AfterCommitDuplicate(s2, c, stamp, true);
    assert s3 == AfterDuplicate(s, c, id, stamp) by {
      assert s3.callers == AfterDuplicate(s, c, id, stamp).callers;
    }
    LeadsNowhere(cfg, c, s3);
    LeadsOn(cfg, s2, c, CommitDuplicate(stamp, true), s3);
    LeadsOn(cfg, s1, c, LookUp(Some(id)), s3);
    LeadsOn(cfg, s, c, TakeLock, s3);
  }

  /** The end of a duplicate claim: the counter goes up and the caller has the cached answer. */
  function AfterDuplicate(s: State, c: nat, id: nat, stamp: Time): State
    requires c in s.callers && id in s.rows
  {
    Answered(s, c, Existing(id, s.rows[id]), CachedSettlement(s.rows[id]))
      .(rows := s.rows[id := BumpDuplicate(s.rows[id], stamp)])
  }

  predicate NoReplay(s: State, c: nat) {
    forall id | id in s.rows :: !SameReplay(s, id, c)
  }

  /** No such row is found under the lock: the claim goes on to insert. */
  lemma MissRun(cfg: Config, s: State, c: nat, end: State)
    requires Alone(s, c) && NoReplay(s, c) && Leads(cfg, c, At(s, c, Missed), end)
    ensures Leads(cfg, c, s, end)
  {
    var s1 := AfterTakeLock(s, c);
    assert NoReplay(s1, c);
    var s2 := AfterLookUp(s1, c, None);
    assert s2 == At(s, c, Missed) by {
      assert s2.callers == At(s, c, Missed).callers;
    }
    LeadsOn(cfg, s1, c, LookUp(None), end);
    LeadsOn(cfg, s, c, TakeLock, end);
  }

  /** The unique key is taken: the conflicting row is read back. */
  lemma ConflictRun(cfg: Config, s: State, c: nat, id: nat, stamp: Time)
    requires Alone(s, c) && SameProfile(s, id, c) && stamp <= s.clock
    ensures Leads(cfg, c, At(s, c, Missed), AfterDuplicate(s, c, id, stamp).(nextRecord := s.nextRecord + 1))
  {
    var s2 := At(s, c, Missed);
    assert SameProfile(s2, id, c);
    var s3 := AfterInsert(s2, c, stamp);
    assert s3.callers[c].phase == Conflicted && SameProfile(s3, id, c);
    var s4 := AfterReadConflict(s3, c, id);
    var s5 := AfterCommitDuplicate(s4, c, stamp, true);
    assert s5 == AfterDuplicate(s, c, id, stamp).(nextRecord := s.nextRecord + 1) by {
      assert s5.callers == AfterDuplicate(s, c, id, stamp).callers;
    }
    LeadsNowhere(cfg, c, s5);
    LeadsOn(cfg, s4, c, CommitDuplicate(stamp, true), s5);
    LeadsOn(cfg, s3, c, ReadConflict(id), s5);
    LeadsOn(cfg, s2, c, Insert(stamp), s5);
  }

  predicate NoProfile(s: State, c: nat) {
    forall id | id in s.rows :: !SameProfile(s, id, c)
  }

  /** The end of a fresh claim: record and attempt are in, and the caller may submit. */
  function AfterFresh(s: State, c: nat, stamp: Time): State
    requires c in s.callers
  {
    var record := NewRecord(s.callers[c].call, stamp);
    At(s, c, HasClaim(s.nextRecord, record, s.nextAttempt))
      .(rows := s.rows[s.nextRecord := record],
        attempts := s.attempts[s.nextAttempt := NewAttempt(s.nextRecord, stamp)],
        nextRecord := s.nextRecord + 1, nextAttempt := s.nextAttempt + 1)
  }

  /** The state between insertion and commit. */
  function Pending(s: State, c: nat, stamp: Time): State
    requires c in s.callers
  {
    At(s, c, Inserted(s.nextRecord, NewRecord(s.callers[c].call, stamp))).(nextRecord := s.nextRecord + 1)
  }

  lemma FreshRun(cfg: Config, s: State, c: nat, stamp: Time)
    requires Alone(s, c) && NoProfile(s, c) && stamp <= s.clock
    ensures Leads(cfg, c, At(s, c, Missed), AfterFresh(s, c, stamp))
  {
    var s2 := At(s, c, Missed);
    assert NoProfile(s2, c);
    assert AfterInsert(s2, c, stamp) == Pending(s, c, stamp) by {
      assert AfterInsert(s2, c, stamp).callers == Pending(s, c, stamp).callers;
    }
    CommitRun(cfg, s, c, stamp);
    LeadsOn(cfg, s2, c, Insert(stamp), AfterFresh(s, c, stamp));
  }

  lemma CommitRun(cfg: Config, s: State, c: nat, stamp: Time)
    requires c in s.callers
    ensures Leads(cfg, c, Pending(s, c, stamp), AfterFresh(s, c, stamp))
  {
    var s3 := Pending(s, c, stamp);
    var s4 := AfterStartAttempt(s3, c);
    var s5 := AfterCommitClaim(s4, c);
    assert s5 == AfterFresh(s, c, stamp) by {
      assert s5.callers == AfterFresh(s, c, stamp).callers;
    }
    LeadsNowhere(cfg, c, s5);
    LeadsOn(cfg, s4, c, CommitClaim, s5);
    LeadsOn(cfg, s3, c, StartAttempt, s5);
  }

  // ---------------------------------------------------------------- the steps refine the claim

  /** The caller has what the claim returned: its fresh record, or the cached answer of the row found. */
  predicate Got(s: State, c: nat, claim: Claiming<Tables>) {
    && c in s.callers
    && if claim.claim == Claimed then
         s.callers[c].phase.HasClaim? && s.callers[c].phase.id == claim.id &&
             s.callers[c].phase.snapshot == claim.record
       else
         && s.callers[c].phase.Done? && |s.answers| > 0
         && s.answers[|s.answers| - 1].outcome == CachedSettlement(claim.record)
  }

  lemma StepsRefineClaim(cfg: Config, s: State, c: nat, stamp: Time)
    requires Alone(s, c) && stamp <= s.clock
    ensures exists end | Leads(cfg, c, s, end) ::
              var claim := TablesClaim(TablesOf(s), s.callers[c].call, stamp);
              TablesOf(end) == claim.store && Got(end, c, claim)
  {
    var t, call := TablesOf(s), s.callers[c].call;
    var claim := TablesClaim(t, call, stamp);
    FirstForExact(t, ReplayKeyOf(call), 0);
    FirstOfProfileExact(t, ProfileKeyOf(call), 0);
    var first, taken := FirstFor(t, ReplayKeyOf(call), 0), FirstOfProfile(t, ProfileKeyOf(call), 0);
    if first.Some? {
      DuplicateRun(cfg, s, c, first.value, stamp);
      assert TablesOf(AfterDuplicate(s, c, first.value, stamp)) == claim.store;
      assert Got(AfterDuplicate(s, c, first.value, stamp), c, claim);
    } else {
      NothingFirst(s, c);
      if taken.Some? {
        ConflictRun(cfg, s, c, taken.value, stamp);
        var end := AfterDuplicate(s, c, taken.value, stamp).(nextRecord := s.nextRecord + 1);
        MissRun(cfg, s, c, end);
        assert TablesOf(end) == claim.store && Got(end, c, claim);
      } else {
        NothingTaken(s, c);
        FreshRun(cfg, s, c, stamp);
        MissRun(cfg, s, c, AfterFresh(s, c, stamp));
        assert TablesOf(AfterFresh(s, c, stamp)) == claim.store && Got(AfterFresh(s, c, stamp), c, claim);
      }
    }
  }

  lemma NothingFirst(s: State, c: nat)
    requires Alone(s, c) && FirstFor(TablesOf(s), ReplayKeyOf(s.callers[c].call), 0).None?
    ensures NoReplay(s, c)
  {
    FirstForExact(TablesOf(s), ReplayKeyOf(s.callers[c].call), 0);
    forall id | id in s.rows ensures !SameReplay(s, id, c) {
      assert !RowFor(TablesOf(s), id, ReplayKeyOf(s.callers[c].call));
    }
  }

  lemma NothingTaken(s: State, c: nat)
    requires Alone(s, c) && FirstOfProfile(TablesOf(s), ProfileKeyOf(s.callers[c].call), 0).None?
    ensures NoProfile(s, c)
  {
    FirstOfProfileExact(TablesOf(s), ProfileKeyOf(s.callers[c].call), 0);
    forall id | id in s.rows ensures !SameProfile(s, id, c) {
      assert !RowOfProfile(TablesOf(s), id, ProfileKeyOf(s.callers[c].call));
    }
  }

  // ---------------------------------------------------------------- every undisturbed run

  ghost predicate Ended(t: Tables, c: nat, call: Call, s: State) {
    exists stamp :: TablesOf(s) == TablesClaim(t, call, stamp).store && Got(s, c, TablesClaim(t, call, stamp))
  }

  /** Where a claim that started from tables `t` stands, in every phase. */
  ghost predicate Along(t: Tables, c: nat, call: Call, s: State) {
    && c in s.callers && s.callers[c].call == call
    && match s.callers[c].phase
       case Ready => TablesOf(s) == t
       case Locked => TablesOf(s) == t
       case FoundRow(id, snapshot) =>
         && TablesFind(t, call) == Some(id) && snapshot == t.rows[id]
         && TablesOf(s) == (if Conflicts(t, call) then t.(nextRecord := t.nextRecord + 1) else t)
       case Missed => TablesOf(s) == t && FirstFor(t, ReplayKeyOf(call), 0).None?
       case Conflicted => TablesOf(s) == t.(nextRecord := t.nextRecord + 1) && Conflicts(t, call)
       case Inserted(id, pending) =>
         && TablesOf(s) == t.(nextRecord := t.nextRecord + 1) && TablesFind(t, call).None?
         && id == t.nextRecord && pending == NewRecord(call, pending.createdAt)
       case WithAttempt(id, pending, attemptId, attempt) =>
         && TablesOf(s) == t.(nextRecord := t.nextRecord + 1, nextAttempt := t.nextAttempt + 1)
         && TablesFind(t, call).None? && id == t.nextRecord && pending == NewRecord(call, pending.createdAt)
         && attemptId == t.nextAttempt && attempt == NewAttempt(id, pending.createdAt)
       case HasClaim(_, _, _) => Ended(t, c, call, s)
       case Done => Ended(t, c, call, s)
       case _ => false
  }

  lemma {:induction false} LookUpAlong(t: Tables, c: nat, call: Call, s: State, found: Option<nat>)
    requires Unique(t) && Along(t, c, call, s) && CanLookUp(s, c, found)
    ensures Along(t, c, call, AfterLookUp(s, c, found))
  {
    FirstForExact(t, ReplayKeyOf(call), 0);
    if found.Some? {
      assert RowFor(t, found.value, ReplayKeyOf(call));
      assert FirstFor(t, ReplayKeyOf(call), 0) == found;
    } else {
      assert forall id | id in t.rows :: RowFor(t, id, ReplayKeyOf(call)) <==> SameReplay(s, id, c);
    }
  }

  lemma {:induction false} InsertAlong(t: Tables, c: nat, call: Call, s: State, stamp: Time)
    requires Unique(t) && Along(t, c, call, s) && CanInsert(s, c, stamp)
    ensures Along(t, c, call, AfterInsert(s, c, stamp))
  {
    FirstOfProfileExact(t, ProfileKeyOf(call), 0);
    assert forall id | id in t.rows :: RowOfProfile(t, id, ProfileKeyOf(call)) <==> SameProfile(s, id, c);
  }

  lemma {:induction false} ReadConflictAlong(t: Tables, c: nat, call: Call, s: State, id: nat)
    requires Unique(t) && Along(t, c, call, s) && CanReadConflict(s, c, id)
    ensures Along(t, c, call, AfterReadConflict(s, c, id))
  {
    FirstForExact(t, ReplayKeyOf(call), 0);
    FirstOfProfileExact(t, ProfileKeyOf(call), 0);
    assert id in t.rows && id < t.nextRecord;
    assert RowFor(t, id, ReplayKeyOf(call)) <==> SameReplay(s, id, c);
    assert RowOfProfile(t, id, ProfileKeyOf(call));
  }

  lemma {:induction false} NoRetryAlong(t: Tables, c: nat, call: Call, s: State)
    requires Unique(t) && Along(t, c, call, s)
    ensures !CanRetryClaim(s, c)
  {
    if s.callers[c].phase.Conflicted? {
      FirstOfProfileExact(t, ProfileKeyOf(call), 0);
      assert SameProfile(s, FirstOfProfile(t, ProfileKeyOf(call), 0).value, c);
    }
  }

  lemma {:induction false} DuplicateAlong(t: Tables, c: nat, call: Call, s: State, stamp: Time)
    requires Along(t, c, call, s) && CanCommitDuplicate(s, c, stamp)
    ensures Along(t, c, call, AfterCommitDuplicate(s, c, stamp, true))
  {
    var s' := AfterCommitDuplicate(s, c, stamp, true);
    assert TablesOf(s') == TablesClaim(t, call, stamp).store && Got(s', c, TablesClaim(t, call, stamp));
  }

  lemma {:induction false} CommitAlong(t: Tables, c: nat, call: Call, s: State)
    requires Along(t, c, call, s) && CanCommitClaim(s, c)
    ensures Along(t, c, call, AfterCommitClaim(s, c))
  {
    var s', stamp := AfterCommitClaim(s, c), s.callers[c].phase.pending.createdAt;
    assert TablesOf(s') == TablesClaim(t, call, stamp).store && Got(s', c, TablesClaim(t, call, stamp));
  }

  lemma {:induction false} StepAlong(cfg: Config, t: Tables, c: nat, call: Call, s: State, step: ClaimStep)
    requires Unique(t) && Along(t, c, call, s) && CanClaim(cfg, s, c, step) && ClaimsOn(step)
    ensures Along(t, c, call, AfterClaiming(cfg, s, c, step))
  {
    NoRetryAlong(t, c, call, s);
    if step.LookUp? { LookUpAlong(t, c, call, s, step.found); }
    if step.CommitDuplicate? { DuplicateAlong(t, c, call, s, step.stamp); }
    if step.Insert? { InsertAlong(t, c, call, s, step.stamp); }
    if step.ReadConflict? { ReadConflictAlong(t, c, call, s, step.id); }
    if step.CommitClaim? { CommitAlong(t, c, call, s); }
  }

  lemma {:induction false} RunAlong(cfg: Config, t: Tables, c: nat, call: Call, s: State, steps: seq<Step>)
    requires Unique(t) && Along(t, c, call, s) && Runs(cfg, s, steps) && ClaimOnly(steps, c)
    ensures Along(t, c, call, EndState(cfg, s, steps))
    decreases |steps|
  {
    if steps != [] {
      StepAlong(cfg, t, c, call, s, steps[0].claim);
      RunAlong(cfg, t, c, call, After(cfg, s, steps[0]), steps[1..]);
    }
  }

  /** Every undisturbed run of a caller's claim that comes to an end has done what the store's claim does. */
  lemma UndisturbedClaim(cfg: Config, s: State, c: nat, steps: seq<Step>)
    requires c in s.callers && s.callers[c].phase.Ready? && Unique(TablesOf(s))
    requires Runs(cfg, s, steps) && ClaimOnly(steps, c)
    ensures var end := EndState(cfg, s, steps);
            && c in end.callers
            && (end.callers[c].phase.HasClaim? || end.callers[c].phase.Done? ==>
                  Ended(TablesOf(s), c, s.callers[c].call, end))
  {
    RunAlong(cfg, TablesOf(s), c, s.callers[c].call, s, steps);
  }
}
