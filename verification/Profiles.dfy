/**
 * The uniqueness constraint on (seller, profile, fingerprint) holds in every run, so look-ups by either key are exact.
 */
module Profiles {
  import opened Wrappers
  import opened Settlement
  import opened Rows
  import opened Protocol
  import opened Effects
  import opened ClaimSafety
  import opened Invariants
  import opened SettlementTheorems
  import opened StoresExactly
  import opened Refinement

  predicate PendingFor(s: State, c: nat, key: ProfileKey) {
    c in s.callers && HoldsPending(s.callers[c].phase) && ProfileKeyOf(s.callers[c].call) == key
  }

  predicate StoredFor(s: State, id: nat, key: ProfileKey) {
    id in s.rows && ProfileKeyOf(s.rows[id].call) == key
  }

  /** A profile key has one row or one pending row, and not both. */
  ghost predicate OneEach(s: State) {
    && (forall key, i, j | StoredFor(s, i, key) && StoredFor(s, j, key) :: i == j)
    && (forall key, c, d | PendingFor(s, c, key) && PendingFor(s, d, key) :: c == d)
    && (forall key, i, c | StoredFor(s, i, key) && PendingFor(s, c, key) :: false)
  }

  /** Rows keep their identity, and nobody starts to hold a pending row. */
  ghost predicate NothingNew(s: State, t: State) {
    && (forall key, i | StoredFor(t, i, key) :: StoredFor(s, i, key))
    && (forall key, c | PendingFor(t, c, key) :: PendingFor(s, c, key))
  }

  lemma {:induction false} NothingNewKeeps(s: State, t: State)
    requires OneEach(s) && NothingNew(s, t)
    ensures OneEach(t)
  {
  }

  lemma {:induction false} InsertKeepsProfiles(s: State, c: nat, stamp: Time)
    requires OneEach(s) && CanInsert(s, c, stamp)
    ensures OneEach(AfterInsert(s, c, stamp))
  {
    var t := AfterInsert(s, c, stamp);
    forall key, i | StoredFor(t, i, key) ensures StoredFor(s, i, key) {}
    forall key, d | PendingFor(t, d, key) && d != c ensures PendingFor(s, d, key) &&
        ProfileKeyOf(s.callers[c].call) != key {}
    forall i | StoredFor(s, i, ProfileKeyOf(s.callers[c].call)) ensures SameProfile(s, i, c) {}
  }

  lemma {:induction false} CommitKeepsProfiles(s: State, c: nat)
    requires OneEach(s) && CanCommitClaim(s, c) && s.callers[c].phase.pending.call == s.callers[c].call
    ensures OneEach(AfterCommitClaim(s, c))
  {
    var t, id, mine := AfterCommitClaim(s, c), s.callers[c].phase.id, ProfileKeyOf(s.callers[c].call);
    assert PendingFor(s, c, mine);
    forall key, i | StoredFor(t, i, key) && i != id ensures StoredFor(s, i, key) {}
    forall key, d | PendingFor(t, d, key) ensures PendingFor(s, d, key) && d != c {}
  }

  lemma {:induction false} ClaimingAddsNothing(cfg: Config, s: State, c: nat, claim: ClaimStep)
    requires CanClaim(cfg, s, c, claim) && !claim.Insert? && !claim.CommitClaim?
    ensures NothingNew(s, AfterClaiming(cfg, s, c, claim))
  {
  }

  lemma {:induction false} SettlingAddsNothing(cfg: Config, s: State, c: nat, settle: SettleStep)
    requires CanSettle(cfg, s, c, settle)
    ensures NothingNew(s, AfterSettling(cfg, s, c, settle))
  {
    var t := AfterSettling(cfg, s, c, settle);
    if settle.FinaliseRecord? {
      FinaliseEffect(cfg, s, c, settle.stamp, settle.answered);
      if SettlerTouch(s, t, c) { SettlerTouchKeepsIdentities(s, t, c); }
    }
  }

  lemma {:induction false} LeasedAddsNothing(s: State, t: State)
    requires LeasedEffect(s, t)
    ensures NothingNew(s, t)
  {
    LeasedEffectKeepsIdentities(s, t);
  }

  lemma {:induction false} StepKeepsProfiles(cfg: Config, s: State, step: Step)
    requires OneEach(s) && CallersOk(s) && Enabled(cfg, s, step)
    ensures OneEach(After(cfg, s, step))
  {
    var t := After(cfg, s, step);
    match step
    case Tick(_) => NothingNewKeeps(s, t);
    case Claiming(c, claim) =>
      if claim.Insert? {
        InsertKeepsProfiles(s, c, claim.stamp);
      } else if claim.CommitClaim? {
        assert CallerOk(s, s.callers[c]);
        CommitKeepsProfiles(s, c);
      } else {
        ClaimingAddsNothing(cfg, s, c, claim);
        NothingNewKeeps(s, t);
      }
    case Settling(c, settle) =>
      SettlingAddsNothing(cfg, s, c, settle);
      NothingNewKeeps(s, t);
    case Reconciling(w, work) =>
      ReconcilingEffect(cfg, s, w, work);
      LeasedAddsNothing(s, t);
      NothingNewKeeps(s, t);
    case Operating(owner, id, stamp, action) =>
      OperatingEffect(s, owner, id, stamp, action);
      LeasedAddsNothing(s, t);
      NothingNewKeeps(s, t);
  }

  lemma {:induction false} RunKeepsProfiles(cfg: Config, s: State, steps: seq<Step>)
    requires Inv(cfg, s) && OneEach(s) && Runs(cfg, s, steps)
    ensures OneEach(EndState(cfg, s, steps))
    decreases |steps|
  {
    if steps != [] {
      StepKeepsInv(cfg, s, steps[0]);
      StepKeepsProfiles(cfg, s, steps[0]);
      RunKeepsProfiles(cfg, After(cfg, s, steps[0]), steps[1..]);
    }
  }

  /** In every reachable state, replay keys and profile keys are each on one row at most. */
  lemma KeysAreUnique(cfg: Config, clock: Time, steps: seq<Step>)
    requires Runs(cfg, Initial(clock), steps)
    ensures Unique(TablesOf(EndState(cfg, Initial(clock), steps)))
  {
    Reachable(cfg, clock, steps);
    InitialInv(cfg, clock);
    RunKeepsProfiles(cfg, Initial(clock), steps);
    var s := EndState(cfg, Initial(clock), steps);
    forall i, j | i in s.rows && j in s.rows && ProfileKeyOf(s.rows[i].call) == ProfileKeyOf(s.rows[j].call)
        ensures i == j {
      assert StoredFor(s, i, ProfileKeyOf(s.rows[i].call)) && StoredFor(s, j, ProfileKeyOf(s.rows[i].call));
    }
  }

  /** So from any reachable state, every undisturbed claim that comes to an end has done what the store's claim does. */
  lemma ClaimsRefineStore(cfg: Config, clock: Time, past: seq<Step>, c: nat, steps: seq<Step>)
    requires Runs(cfg, Initial(clock), past)
    requires var s := EndState(cfg, Initial(clock), past);
             c in s.callers && s.callers[c].phase.Ready? && Runs(cfg, s, steps) && ClaimOnly(steps, c)
    ensures var s := EndState(cfg, Initial(clock), past);
            var end := EndState(cfg, s, steps);
            && c in end.callers
            && (end.callers[c].phase.HasClaim? || end.callers[c].phase.Done? ==>
                  Ended(TablesOf(s), c, s.callers[c].call, end))
  {
    KeysAreUnique(cfg, clock, past);
    UndisturbedClaim(cfg, EndState(cfg, Initial(clock), past), c, steps);
  }
}
