/**
 * What goes wrong when two reconcilers share a name, whatever the name: a run in which one of them fails a record
 * that has only just become UNKNOWN, although its own setting says to wait.
 */
module SharedNames {
  import opened Wrappers
  import opened Settlement
  import opened Rows
  import opened Reconciliation
  import opened Protocol
  import opened Ledger
  import opened SettlementTheorems
  import Refinement

  const CALL := Call("s", "p", "f", "x", None, None)

  /** A run of this owner with a lease of one tick, and this wait before it touches UNKNOWN records. */
  function Named(name: string, wait: Time): Run {
    Run(name, 1, 0, 0, wait, 0, 0)
  }

  function Leased(name: string, row: Record): Record {
    row.(owner := Some(name), leaseUntil := Some(1), reconciliationAttempts := row.reconciliationAttempts + 1)
  }

  /** At time zero, record 1 is this row, and came to its status at `since`. */
  predicate Stage(s: State, row: Record, since: Option<Time>) {
    s.clock == 0 && 1 in s.rows && s.rows[1] == row && Since(s.history, 1) == since
  }

  predicate HoldsRow(s: State, w: nat, run: Run, snapshot: Record) {
    && w in s.workers && s.workers[w].run == run
    && s.workers[w].holding.Some? && s.workers[w].holding.value.id == 1 &&
        s.workers[w].holding.value.snapshot == snapshot
  }

  predicate Untouched(s: State, t: State, v: nat) {
    (v in t.workers <==> v in s.workers) && (v in s.workers ==> t.workers[v] == s.workers[v])
  }

  predicate Free(s: State, w: nat) {
    w in s.workers ==> s.workers[w].holding.None?
  }

  // ---------------------------------------------------------------- runs under given names

  ghost predicate Leads(cfg: Config, names: nat -> string, s: State, t: State) {
    exists steps | Runs(cfg, s, steps) && AllNamed(names, steps) :: EndState(cfg, s, steps) == t
  }

  lemma {:induction false} LeadsBy(cfg: Config, names: nat -> string, r: State, s: State, step: Step)
    requires Leads(cfg, names, r, s) && Enabled(cfg, s, step) && StepNamed(names, step)
    ensures Leads(cfg, names, r, After(cfg, s, step))
  {
    var past :| Runs(cfg, r, past) && AllNamed(names, past) && EndState(cfg, r, past) == s;
    var next := After(cfg, s, step);
    assert [step][1..] == [] && Runs(cfg, next, []) && Runs(cfg, s, [step]) && EndState(cfg, s, [step]) == next;
    RunBoth(cfg, r, past, [step]);
    NamedBoth(names, past, [step]);
  }

  lemma {:induction false} LeadsFurther(cfg: Config, names: nat -> string, r: State, s: State, steps: seq<Step>)
    requires Leads(cfg, names, r, s) && Runs(cfg, s, steps) && AllNamed(names, steps)
    ensures Leads(cfg, names, r, EndState(cfg, s, steps))
  {
    var past :| Runs(cfg, r, past) && AllNamed(names, past) && EndState(cfg, r, past) == s;
    RunBoth(cfg, r, past, steps);
    NamedBoth(names, past, steps);
  }

  lemma {:induction false} NamedBoth(names: nat -> string, first: seq<Step>, second: seq<Step>)
    requires AllNamed(names, first) && AllNamed(names, second)
    ensures AllNamed(names, first + second)
  {
    forall k | 0 <= k < |first + second| ensures StepNamed(names, (first + second)[k]) {
      if k < |first| {
        assert (first + second)[k] == first[k];
      } else {
        assert (first + second)[k] == second[k - |first|];
      }
    }
  }

  lemma {:induction false} RunBoth(cfg: Config, s: State, first: seq<Step>, second: seq<Step>)
    requires Runs(cfg, s, first) && Runs(cfg, EndState(cfg, s, first), second)
    ensures Runs(cfg, s, first + second)
    ensures EndState(cfg, s, first + second) == EndState(cfg, EndState(cfg, s, first), second)
    decreases |first|
  {
    if first == [] {
      assert first + second == second;
    } else {
      RunBoth(cfg, After(cfg, s, first[0]), first[1..], second);
      assert (first + second)[0] == first[0] && (first + second)[1..] == first[1..] + second;
    }
  }

  // ---------------------------------------------------------------- one move at a time

  /** A worker starts a run and claims the record. */
  lemma {:induction false} Claims(cfg: Config, names: nat -> string, r: State, s: State, w: nat, v: nat, wait: Time,
                                  row: Record, since: Option<Time>) returns (t: State)
    requires v != w && Leads(cfg, names, r, s) && names(w) != ""
    requires Stage(s, row, since) && Free(s, w) && row.leaseUntil.None? && row.updatedAt == 0
    requires row.status in {SettleInProgress, Submitted, Unknown} && Named(names(w), wait).StaleBefore(row.status) == 0
    ensures Leads(cfg, names, r, t) && Stage(t, Leased(names(w), row), since)
    ensures HoldsRow(t, w, Named(names(w), wait), Leased(names(w), row)) && Untouched(s, t, v)
    ensures t.callers == s.callers && t.attempts == s.attempts
  {
    var run := Named(names(w), wait);
    var s1 := AfterStartRun(s, w, run);
    LeadsBy(cfg, names, r, s, Reconciling(w, StartRun(run)));
    t := AfterClaimRow(cfg, s1, w, 1, row.status, 0);
    LeadsBy(cfg, names, r, s1, Reconciling(w, ClaimRow(1, row.status, 0)));
  }

  /** A worker writes what a reply leads to. */
  lemma {:induction false} Writes(cfg: Config, names: nat -> string, r: State, s: State, w: nat, v: nat, run: Run,
                                  snapshot: Record, reply: ReconcileReply, row: Record, since: Option<Time>,
                                  status: Status) returns (t: State)
    requires v != w && Leads(cfg, names, r, s) && run == Named(run.owner, run.staleUnknownAfter)
    requires Stage(s, Leased(run.owner, row), since) && HoldsRow(s, w, run, snapshot)
    requires row.status in ReconcilerSources(status)
    requires Decide(run, snapshot, reply).Write? && Decide(run, snapshot, reply).status == status
    ensures Leads(cfg, names, r, t) && Free(t, w) && 1 in t.rows && Unleased(t.rows[1], status)
    ensures Stage(t, t.rows[1], Some(0)) && Untouched(s, t, v)
    ensures t.history.Then? && t.history.before == s.history && t.history.event.StatusWrite?
    ensures t.history.event.id == 1 && t.history.event.to == status && t.history.event.at == 0
    ensures var e := t.history.event;
            e.writer.Reconciler? && e.writer.run == run && e.writer.claimed.status == snapshot.status
  {
    t := AfterApplyReply(cfg, s, w, reply, 0);
    LeadsBy(cfg, names, r, s, Reconciling(w, ApplyReply(reply, 0)));
  }

  predicate Unleased(row: Record, status: Status) {
    row.status == status && row.leaseUntil.None? && row.updatedAt == 0
  }

  /** The settler hears that its payment is submitted, and stores that. */
  lemma {:induction false} Submits(cfg: Config, names: nat -> string, r: State, s: State, name: string)
      returns (t: State)
    requires Leads(cfg, names, r, s) && Stage(s, Leased(name, NewRecord(CALL, 0)), None)
    requires 0 in s.callers && 1 in s.attempts && s.callers[0].phase == HasClaim(1, NewRecord(CALL, 0), 1)
    ensures Leads(cfg, names, r, t) && t.workers == s.workers && 1 in t.rows
    ensures Stage(t, t.rows[1], Some(0)) && Unleased(t.rows[1], Submitted)
  {
    var reply := ProviderReplied(false, Some(ProviderSubmitted), None, None, None);
    var s1 := AfterCallProvider(s, 0);
    LeadsBy(cfg, names, r, s, Settling(0, CallProvider));
    var s2 := AfterProviderReturns(s1, 0, reply);
    LeadsBy(cfg, names, r, s1, Settling(0, ProviderReturns(reply)));
    t := AfterFinalise(cfg, s2, 0, 0, true);
    LeadsBy(cfg, names, r, s2, Settling(0, FinaliseRecord(0, true)));
  }

  /** A settle call claims the payment. */
  lemma {:induction false} Begins(cfg: Config, names: nat -> string) returns (t: State)
    ensures Leads(cfg, names, Initial(0), t) && Stage(t, NewRecord(CALL, 0), None) && t.workers == map[]
    ensures 0 in t.callers && t.callers[0].phase == HasClaim(1, NewRecord(CALL, 0), 1) && 1 in t.attempts
  {
    var r := Initial(0);
    assert Runs(cfg, r, []) && AllNamed(names, []) && EndState(cfg, r, []) == r;
    var s := AfterBegin(r, 0, CALL, None);
    LeadsBy(cfg, names, r, r, Step.Claiming(0, Begin(CALL, None)));
    t := Refinement.AfterFresh(s, 0, 0);
    Refinement.FreshRun(cfg, s, 0, 0);
    Refinement.MissRun(cfg, s, 0, t);
    var steps :| Runs(cfg, s, steps) && Refinement.ClaimOnly(steps, 0) && EndState(cfg, s, steps) == t;
    LeadsFurther(cfg, names, r, s, steps);
  }

  // ---------------------------------------------------------------- the run

  /** The last event fails record 1 sooner than the failing reconciler's own setting allows. */
  predicate Hurried(delay: nat, h: History) {
    && h.Then? && h.event.StatusWrite? && h.event.to == SettleFailed && h.event.writer.Reconciler?
    && h.event.writer.claimed.status == Submitted
    && !KeptFor(h.before, h.event.id, h.event.at, h.event.writer.run.staleUnknownAfter, delay)
  }

  const NEW: Record := NewRecord(CALL, 0)

  predicate FirstHolds(s: State, name: string, x: nat, y: nat) {
    && Stage(s, Leased(name, NEW), None) && HoldsRow(s, y, Named(name, 0), Leased(name, NEW)) && Free(s, x)
    && 0 in s.callers && s.callers[0].phase == HasClaim(1, NEW, 1) && 1 in s.attempts
  }

  lemma {:induction false} FirstClaims(cfg: Config, names: nat -> string, x: nat, y: nat) returns (t: State)
    requires x != y && names(y) != ""
    ensures Leads(cfg, names, Initial(0), t) && FirstHolds(t, names(y), x, y)
  {
    var s := Begins(cfg, names);
    t := Claims(cfg, names, Initial(0), s, y, x, 0, NEW, None);
  }

  predicate FirstLost(s: State, row: Record, name: string, x: nat, y: nat) {
    && Unleased(row, Submitted) && Stage(s, row, Some(0))
    && HoldsRow(s, y, Named(name, 0), Leased(name, NEW)) && Free(s, x)
  }

  lemma {:induction false} FirstLoses(cfg: Config, names: nat -> string, r: State, s: State, name: string, x: nat,
      y: nat)
    returns (t: State, row: Record)
    requires Leads(cfg, names, r, s) && FirstHolds(s, name, x, y)
    ensures Leads(cfg, names, r, t) && FirstLost(t, row, name, x, y)
  {
    t := Submits(cfg, names, r, s, name);
    row := t.rows[1];
  }

  /** Both reconcilers hold the record: one as it was in progress, the other, under the same lease, as SUBMITTED. */
  predicate BothHold(s: State, row: Record, wait: Time, name: string, x: nat, y: nat) {
    && Unleased(row, Submitted) && Stage(s, Leased(name, row), Some(0))
    && HoldsRow(s, x, Named(name, wait), Leased(name, row)) && HoldsRow(s, y, Named(name, 0), Leased(name, NEW))
  }

  lemma {:induction false} SecondClaims(cfg: Config, names: nat -> string, r: State, s: State, row: Record, wait: Time,
                                        x: nat, y: nat) returns (t: State)
    requires x != y && names(x) != "" && Leads(cfg, names, r, s) && FirstLost(s, row, names(x), x, y)
    ensures Leads(cfg, names, r, t) && BothHold(t, row, wait, names(x), x, y)
  {
    t := Claims(cfg, names, r, s, x, y, wait, row, Some(0));
  }

  predicate MadeUnknown(s: State, row: Record, now: Record, wait: Time, name: string, x: nat, y: nat) {
    && row.status == Submitted && Unleased(now, Unknown) && Stage(s, now, Some(0))
    && HoldsRow(s, x, Named(name, wait), Leased(name, row)) && Free(s, y)
  }

  lemma {:induction false} FirstWrites(cfg: Config, names: nat -> string, r: State, s: State, row: Record, wait: Time,
                                       name: string, x: nat, y: nat) returns (t: State, now: Record)
    requires x != y && Leads(cfg, names, r, s) && BothHold(s, row, wait, name, x, y)
    ensures Leads(cfg, names, r, t) && MadeUnknown(t, row, now, wait, name, x, y)
  {
    t := Writes(cfg, names, r, s, y, x, Named(name, 0), Leased(name, NEW),
                ReconcileReplied(OutcomeUnknown, None, None, None), row, Some(0), Unknown);
    now := t.rows[1];
  }

  lemma {:induction false} FirstClaimsAgain(cfg: Config, names: nat -> string, r: State, s: State, row: Record,
                                            now: Record, wait: Time, x: nat, y: nat) returns (t: State)
    requires x != y && names(y) != "" && Leads(cfg, names, r, s) && MadeUnknown(s, row, now, wait, names(y), x, y)
    ensures Leads(cfg, names, r, t) && Stage(t, Leased(names(y), now), Some(0))
    ensures HoldsRow(t, x, Named(names(y), wait), Leased(names(y), row))
  {
    t := Claims(cfg, names, r, s, y, x, 0, now, Some(0));
  }

  lemma {:induction false} SecondFails(cfg: Config, names: nat -> string, r: State, s: State, row: Record, now: Record,
                                       wait: Time, name: string, x: nat, y: nat) returns (t: State)
    requires x != y && Leads(cfg, names, r, s) && Stage(s, Leased(name, now), Some(0))
    requires HoldsRow(s, x, Named(name, wait), Leased(name, row))
    requires row.status == Submitted && now.status == Unknown && wait > cfg.delay
    ensures Leads(cfg, names, r, t) && Hurried(cfg.delay, t.history)
  {
    t := Writes(cfg, names, r, s, x, y, Named(name, wait), Leased(name, row),
                ReconcileReplied(OutcomeFailedFinal, None, None, None), now, Some(0), SettleFailed);
  }

  /**
   * For any two slots with one name: reconciler y claims the record in progress; the settler submits it; reconciler x
   * claims it as SUBMITTED; reconciler y, under the same name and lease, marks it UNKNOWN and claims it once more,
   * having no wait of its own; reconciler x then fails it on the strength of that lease.
   */
  lemma {:induction false} SharedNamesHurry(cfg: Config, names: nat -> string, x: nat, y: nat)
      returns (steps: seq<Step>)
    requires x != y && names(x) == names(y) != ""
    ensures Runs(cfg, Initial(0), steps) && AllNamed(names, steps)
    ensures Hurried(cfg.delay, EndState(cfg, Initial(0), steps).history)
  {
    var r, wait, name := Initial(0), cfg.delay + 1, names(x);
    var s1 := FirstClaims(cfg, names, x, y);
    var s2, row := FirstLoses(cfg, names, r, s1, name, x, y);
    var s3 := SecondClaims(cfg, names, r, s2, row, wait, x, y);
    var s4, now := FirstWrites(cfg, names, r, s3, row, wait, name, x, y);
    var s5 := FirstClaimsAgain(cfg, names, r, s4, row, now, wait, x, y);
    var s6 := SecondFails(cfg, names, r, s5, row, now, wait, name, x, y);
    steps :| Runs(cfg, r, steps) && AllNamed(names, steps) && EndState(cfg, r, steps) == s6;
  }

  /** Every failure in every run under these names waits, exactly when no two slots share a name. */
  lemma {:induction false} FailuresWaitExactly(cfg: Config, names: nat -> string)
    ensures FailuresAlwaysWait(cfg, names) <==> Distinct(names)
  {
    if Distinct(names) {
      forall clock, steps, before, e | Fails(cfg, names, clock, steps, before, e)
        ensures KeptFor(before, e.id, e.at, e.writer.run.staleUnknownAfter, cfg.delay)
      {
        FailuresWait(cfg, names, clock, steps, before, e);
      }
    } else {
      var x, y :| names(x) == names(y) != "" && x != y;
      var steps := SharedNamesHurry(cfg, names, x, y);
      var h := EndState(cfg, Initial(0), steps).history;
      assert Then(h.before, h.event) == h;
      assert Fails(cfg, names, 0, steps, h.before, h.event);
    }
  }
}
