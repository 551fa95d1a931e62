/** Claims are conserved in every run of the protocol: each committed claim is a row, or a duplicate counted on one. */
module Conservation {
  import opened Wrappers
  import opened Settlement
  import opened Rows
  import opened Reconciliation
  import opened Protocol
  import opened ClaimSafety
  import opened Invariants
  import Stores

  predicate CommitsClaim(step: Step) {
    step.Claiming? && (step.claim.CommitClaim? || step.claim.CommitDuplicate?)
  }

  /** The claim transactions that a run committed. */
  function Commits(steps: seq<Step>): nat {
    if steps == [] then 0 else (if CommitsClaim(steps[0]) then 1 else 0) + Commits(steps[1..])
  }

  // ---------------------------------------------------------------- sums over rows

  /** The same rows with the same duplicate counts. */
  ghost predicate SameCounts(rows: map<nat, Record>, after: map<nat, Record>) {
    && after.Keys == rows.Keys
    && forall id | id in rows :: after[id].duplicateClaims == rows[id].duplicateClaims
  }

  lemma {:induction false} SameCountsSameSum(rows: map<nat, Record>, after: map<nat, Record>, bound: nat)
    requires SameCounts(rows, after)
    ensures Stores.Duplicates(after, bound) == Stores.Duplicates(rows, bound)
  {
    if bound > 0 { SameCountsSameSum(rows, after, bound - 1); }
  }

  lemma {:induction false} BoundGrows(rows: map<nat, Record>, bound: nat, later: nat)
    requires Stores.AllBelow(rows, bound) && bound <= later
    ensures Stores.AllBelow(rows, later) && Stores.Duplicates(rows, later) == Stores.Duplicates(rows, bound)
  {
    if bound < later { BoundGrows(rows, bound, later - 1); }
  }

  lemma {:induction false} SteadyAccounts(rows: map<nat, Record>, after: map<nat, Record>, bound: nat, later: nat,
      claims: nat)
    requires Stores.Accounts(rows, bound, claims) && SameCounts(rows, after) && bound <= later
    ensures Stores.Accounts(after, later, claims)
  {
    SameCountsSameSum(rows, after, bound);
    assert Stores.AllBelow(after, bound);
    BoundGrows(after, bound, later);
    assert |after| == |after.Keys| == |rows.Keys| == |rows|;
  }

  lemma {:induction false} FreshAccounts(rows: map<nat, Record>, id: nat, row: Record, bound: nat, claims: nat)
    requires Stores.Accounts(rows, bound, claims) && id !in rows && id < bound && row.duplicateClaims == 0
    ensures Stores.Accounts(rows[id := row], bound, claims + 1)
  {
    Stores.DuplicatesMove(rows, id, row, bound);
  }

  // ---------------------------------------------------------------- steps

  lemma {:induction false} ClaimingSteady(cfg: Config, s: State, c: nat, claim: ClaimStep)
    requires CanClaim(cfg, s, c, claim) && !claim.CommitClaim? && !claim.CommitDuplicate?
    ensures var t := AfterClaiming(cfg, s, c, claim); SameCounts(s.rows, t.rows) && s.nextRecord <= t.nextRecord
  {
  }

  lemma {:induction false} SettlingSteady(cfg: Config, s: State, c: nat, settle: SettleStep)
    requires CanSettle(cfg, s, c, settle)
    ensures var t := AfterSettling(cfg, s, c, settle); SameCounts(s.rows, t.rows) && s.nextRecord <= t.nextRecord
  {
  }

  lemma {:induction false} ReconcilingSteady(cfg: Config, s: State, w: nat, work: WorkStep)
    requires CanReconcile(cfg, s, w, work)
    ensures var t := AfterReconciling(cfg, s, w, work); SameCounts(s.rows, t.rows) && s.nextRecord <= t.nextRecord
  {
  }

  lemma {:induction false} OperatingSteady(s: State, owner: string, id: nat, stamp: Time, action: OperatorStep)
    requires id in s.rows
    ensures var t := AfterOperating(s, owner, id, stamp, action);
            SameCounts(s.rows, t.rows) && s.nextRecord <= t.nextRecord
  {
  }

  lemma {:induction false} StepAccounts(cfg: Config, s: State, step: Step, claims: nat)
    requires CallersOk(s) && Enabled(cfg, s, step) && Stores.Accounts(s.rows, s.nextRecord, claims)
    ensures var t := After(cfg, s, step);
            Stores.Accounts(t.rows, t.nextRecord, claims + if CommitsClaim(step) then 1 else 0)
  {
    var t := After(cfg, s, step);
    if CommitsClaim(step) {
      CommitAccounts(cfg, s, step.c, step.claim, claims);
    } else {
      if step.Claiming? { ClaimingSteady(cfg, s, step.c, step.claim); }
      if step.Settling? { SettlingSteady(cfg, s, step.c, step.settle); }
      if step.Reconciling? { ReconcilingSteady(cfg, s, step.w, step.work); }
      if step.Operating? { OperatingSteady(s, step.owner, step.id, step.stamp, step.action); }
      SteadyAccounts(s.rows, t.rows, s.nextRecord, t.nextRecord, claims);
    }
  }

  lemma {:induction false} CommitAccounts(cfg: Config, s: State, c: nat, claim: ClaimStep, claims: nat)
    requires CallersOk(s) && CanClaim(cfg, s, c, claim) && (claim.CommitClaim? || claim.CommitDuplicate?)
    requires Stores.Accounts(s.rows, s.nextRecord, claims)
    ensures var t := AfterClaiming(cfg, s, c, claim); Stores.Accounts(t.rows, t.nextRecord, claims + 1)
  {
    var p := s.callers[c].phase;
    assert CallerOk(s, s.callers[c]);
    if claim.CommitClaim? {
      FreshAccounts(s.rows, p.id, p.pending, s.nextRecord, claims);
    } else {
      Stores.ReplacingAccounts(s.rows, p.id, BumpDuplicate(s.rows[p.id], claim.stamp), s.nextRecord, claims);
    }
  }

  lemma {:induction false} RunAccounts(cfg: Config, s: State, steps: seq<Step>, claims: nat)
    requires Inv(cfg, s) && Runs(cfg, s, steps) && Stores.Accounts(s.rows, s.nextRecord, claims)
    ensures var t := EndState(cfg, s, steps); Stores.Accounts(t.rows, t.nextRecord, claims + Commits(steps))
    decreases |steps|
  {
    if steps != [] {
      StepKeepsInv(cfg, s, steps[0]);
      StepAccounts(cfg, s, steps[0], claims);
      RunAccounts(cfg, After(cfg, s, steps[0]), steps[1..], claims + if CommitsClaim(steps[0]) then 1 else 0);
    }
  }

  /** In every run, the claims committed are the rows plus the duplicates counted on them. */
  lemma {:induction false} ProtocolConservesClaims(cfg: Config, clock: Time, steps: seq<Step>)
    requires Runs(cfg, Initial(clock), steps)
    ensures var s := EndState(cfg, Initial(clock), steps);
            Commits(steps) == |s.rows| + Stores.Duplicates(s.rows, s.nextRecord) &&
                Stores.AllBelow(s.rows, s.nextRecord)
  {
    InitialInv(cfg, clock);
    assert Stores.Duplicates(map[], 0) == 0;
    BoundGrows(map[], 0, 1);
    RunAccounts(cfg, Initial(clock), steps, 0);
  }
}
