/**
 * One reconciler run over the database store, and the loop that repeats runs. Between any two of its statements other
 * actors may change the tables in any legal way.
 */
module Reconciler {
  import opened Wrappers
  import opened Settlement
  import opened Rows
  import opened Reconciliation
  import opened Tally
  import opened Candidates
  import Scan
  import Stores
  import StoreObjects

  type Tables = Stores.Tables

  /**
   * One candidate of a scan, with the status the scan saw, and what the run meets on its way: the tables as others have
   * left them before the claim and before the write, the provider's reply, the clock, and failures of the store itself.
   */
  datatype Encounter = Encounter(
    id: nat, seen: Status,
    before: Tables, claimStamp: Time, claimFails: bool,
    reply: ReconcileReply,
    between: Tables, writeStamp: Time, writeFails: bool)

  /** The scan lists three statuses. */
  predicate Candidate(e: Encounter) {
    e.seen in {SettleInProgress, Submitted, Unknown}
  }

  // ---------------------------------------------------------------- one candidate, on tables

  /** Others move the tables on, as far as that is legal. */
  function Becomes(t: Tables, next: Tables): (r: Tables)
    ensures Legal(t.rows, r.rows)
  {
    if Legal(t.rows, next.rows) then next else t
  }

  function ClaimIn(run: Run, t: Tables, e: Encounter): Option<Record> {
    if e.id in t.rows
    then ReconcilerClaim(t.rows[e.id], run.owner, run.Lease(), {e.seen}, Some(run.StaleBefore(e.seen)), e.claimStamp)
    else None
  }

  function WriteIn(run: Run, t: Tables, e: Encounter, d: Decision): Option<Record> {
    if d.Write? && !e.writeFails && e.id in t.rows
    then FencedWrite(t.rows[e.id], d.status, d.transaction, d.payer, d.error, run.owner, run.Lease(), e.writeStamp)
    else None
  }

  /** What became of a candidate: its turn, the tables its write found, and the tables it left. */
  datatype Visit = Visit(id: nat, turn: Turn, found: Tables, left: Tables)

  /** From the claimed row on: the decision, and its write on the tables as they are by then. */
  function Act(run: Run, t: Tables, e: Encounter, row: Record): Visit {
    var d := Decide(run, row, e.reply);
    var after := WriteIn(run, t, e, d);
    Visit(e.id, Turn(ClaimedAs(row), e.reply, after.Some?), t,
          if after.None? then t
          else t.(rows := t.rows[e.id := after.value],
                  attempts := CloseStarted(t.attempts, e.id, d.status, d.transaction, d.error, e.writeStamp)))
  }

  function VisitOf(run: Run, t: Tables, e: Encounter): Visit {
    var t1 := Becomes(t, e.before);
    var row := ClaimIn(run, t1, e);
    if e.claimFails then Visit(e.id, Turn(ClaimRaised, e.reply, false), t1, t1)
    else if row.None? then Visit(e.id, Turn(NotClaimed, e.reply, false), t1, t1)
    else Act(run, Becomes(t1.(rows := t1.rows[e.id := row.value]), e.between), e, row.value)
  }

  /** This visit's own write moved its row to a status: read off the tables before and after it. */
  predicate MovedTo(v: Visit, status: Status) {
    v.id in v.found.rows && v.id in v.left.rows
    && v.found.rows[v.id].status != status && v.left.rows[v.id].status == status
  }

  /** What a visit wrote is what the reply and the claimed record call for; the rest of the row stays, but its lease. */
  predicate WrittenAsTold(run: Run, v: Visit, status: Status) {
    && v.turn.claim.ClaimedAs? && v.id in v.found.rows && v.id in v.left.rows
    && var before, after := v.found.rows[v.id], v.left.rows[v.id];
       && CalledFor(run, v.turn.claim.record, v.turn.reply, status, ContentOf(after))
       && after == before.(status := status, transaction := after.transaction, payer := after.payer,
                           error := after.error, owner := None, leaseUntil := None, updatedAt := after.updatedAt)
  }

  /** A visit changes the status of at most its own row, as its turn says, to what it was told. */
  ghost predicate Honest(run: Run, v: Visit) {
    && v.found.rows.Keys == v.left.rows.Keys
    && (forall id | id in v.found.rows && id != v.id :: v.left.rows[id] == v.found.rows[id])
    && (forall status :: Written(run, v.turn) == Some(status) <==> MovedTo(v, status))
    && (Written(run, v.turn).Some? ==> WrittenAsTold(run, v, Written(run, v.turn).value))
    && (Written(run, v.turn).None? ==> v.left == v.found)
  }

  /** Failures and reviews are of UNKNOWN rows, and UNKNOWN is written over what was in progress or submitted. */
  predicate FromRightStatus(v: Visit) {
    && (MovedTo(v, SettleFailed) || MovedTo(v, ManualReview) ==> v.found.rows[v.id].status == Unknown)
    && (MovedTo(v, Unknown) ==> v.found.rows[v.id].status in {SettleInProgress, Submitted})
    && (MovedTo(v, Settled) ==> v.found.rows[v.id].status in {SettleInProgress, Submitted, Unknown})
    && !MovedTo(v, Submitted) && !MovedTo(v, SettleInProgress)
  }

  /** What is decided on a row fits the status it was claimed in. */
  lemma DecisionFits(run: Run, row: Record, reply: ReconcileReply)
    requires row.status in {SettleInProgress, Submitted, Unknown}
    ensures var d := Decide(run, row, reply);
            d.Write? ==>
              && d.status in {Settled, SettleFailed, Unknown, ManualReview}
              && (d.status == SettleFailed ==> row.status != SettleInProgress)
              && (d.status == ManualReview ==> row.status == Unknown)
  {
  }

  lemma FencedWriteMoves(row: Record, status: Status, transaction: Option<string>, payer: Option<string>,
                         error: Option<Reason>, owner: string, lease: Time, stamp: Time)
    ensures var w := FencedWrite(row, status, transaction, payer, error, owner, lease, stamp);
            w.Some? ==> row.status in ReconcilerSources(status) && row.status != status == w.value.status
  {
  }

  lemma ActIsHonest(run: Run, t: Tables, e: Encounter, row: Record)
    requires row.status in {SettleInProgress, Submitted, Unknown}
    requires e.id in t.rows && Rank(row.status) <= Rank(t.rows[e.id].status)
    ensures Honest(run, Act(run, t, e, row)) && FromRightStatus(Act(run, t, e, row))
  {
    var d := Decide(run, row, e.reply);
    DecisionFits(run, row, e.reply);
    if d.Write? {
      DecidesExactly(run, row, e.reply, d.status, Content(d.transaction, d.payer, d.error));
      FencedWriteMoves(t.rows[e.id], d.status, d.transaction, d.payer, d.error, run.owner, run.Lease(), e.writeStamp);
    }
  }

  /** The turn of a visit says what it did to the tables, whatever others did meanwhile. */
  lemma VisitIsHonest(run: Run, t: Tables, e: Encounter)
    requires Candidate(e)
    ensures Honest(run, VisitOf(run, t, e)) && FromRightStatus(VisitOf(run, t, e))
  {
    var t1 := Becomes(t, e.before);
    var row := ClaimIn(run, t1, e);
    if !e.claimFails && row.Some? {
      var t2 := t1.(rows := t1.rows[e.id := row.value]);
      assert e.id in t2.rows && t2.rows[e.id].status == row.value.status == e.seen;
      ActIsHonest(run, Becomes(t2, e.between), e, row.value);
    }
  }

  /** Nobody else touches the record's row before the claim or between claim and write, and the store does not fail. */
  predicate Alone(run: Run, t: Tables, e: Encounter) {
    && Becomes(t, e.before) == t && !e.claimFails && !e.writeFails
    && (ClaimIn(run, t, e).Some? ==>
          var claimed := t.(rows := t.rows[e.id := ClaimIn(run, t, e).value]);
          Becomes(claimed, e.between) == claimed)
  }

  /** The row as the scan saw it, stale by the run's own setting, and under no lease. */
  predicate Due(run: Run, row: Record, e: Encounter) {
    && row.status == e.seen && (row.leaseUntil.Some? ==> row.leaseUntil.value <= e.claimStamp)
    && row.updatedAt <= run.now - (match e.seen
                                   case SettleInProgress => run.staleInProgressAfter
                                   case Submitted => run.staleSubmittedAfter
                                   case _ => run.staleUnknownAfter)
  }

  lemma DueIsClaimed(run: Run, t: Tables, e: Encounter)
    requires Candidate(e)
    ensures ClaimIn(run, t, e).Some? <==> e.id in t.rows && Due(run, t.rows[e.id], e)
  {
  }

  ghost predicate Wanted(run: Run, row: Record, reply: ReconcileReply, status: Status) {
    exists content :: CalledFor(run, row, reply, status, content)
  }

  lemma {:induction false} WantedIsDecided(run: Run, row: Record, reply: ReconcileReply, status: Status)
    ensures var d := Decide(run, row, reply); Wanted(run, row, reply, status) <==> d.Write? && d.status == status
  {
    var d := Decide(run, row, reply);
    if d.Write? {
      DecidesExactly(run, row, reply, d.status, Content(d.transaction, d.payer, d.error));
    }
    forall content | CalledFor(run, row, reply, status, content) ensures d.Write? && d.status == status {
      DecidesExactly(run, row, reply, status, content);
    }
  }

  /** On the row as it was claimed, a decision is stored while the lease lasts, save a failure of a SUBMITTED one. */
  lemma LeasedRowTakes(run: Run, t: Tables, e: Encounter, row: Record, status: Status)
    requires row.status in {SettleInProgress, Submitted, Unknown} && e.id in t.rows && t.rows[e.id] == row
    requires row.owner == Some(run.owner) && row.leaseUntil == Some(run.Lease()) && !e.writeFails
    ensures var d := Decide(run, row, e.reply);
            MovedTo(Act(run, t, e, row), status) <==>
            && d.Write? && d.status == status && e.writeStamp < run.Lease()
            && !(status == SettleFailed && row.status == Submitted)
  {
    DecisionFits(run, row, e.reply);
  }

  /** A claim changes nothing that the decision looks at. */
  lemma SameDecision(run: Run, row: Record, claimed: Record, reply: ReconcileReply)
    requires claimed == row.(owner := claimed.owner, leaseUntil := claimed.leaseUntil,
                             reconciliationAttempts := claimed.reconciliationAttempts)
    ensures Decide(run, claimed, reply) == Decide(run, row, reply)
  {
  }

  /**
   * Left alone, a visit claims its record exactly when it is due; and it writes exactly what the reply and the record
   * call for, while the lease lasts, save a failure of a SUBMITTED record.
   */
  lemma {:induction false} UndisturbedVisit(run: Run, t: Tables, e: Encounter, status: Status)
    requires Candidate(e) && Alone(run, t, e)
    ensures var v := VisitOf(run, t, e);
            && (Won(v.turn) <==> e.id in t.rows && Due(run, t.rows[e.id], e))
            && (Won(v.turn) ==>
                  (MovedTo(v, status) <==> && Wanted(run, t.rows[e.id], e.reply, status)
                                           && e.writeStamp < run.now + run.leaseSeconds
                                           && !(status == SettleFailed && e.seen == Submitted)))
  {
    var row := ClaimIn(run, t, e);
    DueIsClaimed(run, t, e);
    if row.Some? {
      var claimed := t.(rows := t.rows[e.id := row.value]);
      SameDecision(run, t.rows[e.id], row.value, e.reply);
      WantedIsDecided(run, t.rows[e.id], e.reply, status);
      assert VisitOf(run, t, e) == Act(run, claimed, e, row.value);
      LeasedRowTakes(run, claimed, e, row.value, status);
    }
  }

  /**
   * A SUBMITTED record reported as finally failed, and SUBMITTED still when its write comes, stays so: an error, not a
   * failure.
   */
  lemma SubmittedFailureIsRefused(run: Run, t: Tables, e: Encounter)
    requires var v := VisitOf(run, t, e);
             && Won(v.turn) && v.turn.claim.record.status == Submitted
             && v.id in v.found.rows && v.found.rows[v.id].status == Submitted
    requires e.reply.ReconcileReplied? && e.reply.status == OutcomeFailedFinal
    ensures var v := VisitOf(run, t, e);
            && v.left == v.found && Written(run, v.turn).None?
            && ErrorsOf(run, v.turn) == 1 && !Aborts(run, v.turn)
  {
  }

  // ---------------------------------------------------------------- one candidate, on the store

  /** Others at work on the same tables. */
  method Meanwhile(store: StoreObjects.PostgresSettlementStore, next: Tables)
    modifies store
    ensures store.View() == Becomes(old(store.View()), next)
  {
    if Legal(store.rows, next.rows) {
      store.rows, store.attempts := next.rows, next.attempts;
      store.nextRecord, store.nextAttempt := next.nextRecord, next.nextAttempt;
    }
  }

  method Claim(store: StoreObjects.PostgresSettlementStore, run: Run, e: Encounter) returns (claim: ClaimReply)
    modifies store
    ensures var t := Becomes(old(store.View()), e.before);
            var row := ClaimIn(run, t, e);
            && (claim == if e.claimFails then ClaimRaised else if row.None? then NotClaimed else ClaimedAs(row.value))
            && (store.View() == if claim.ClaimedAs? then t.(rows := t.rows[e.id := row.value]) else t)
  {
    Meanwhile(store, e.before);
    if e.claimFails {
      return ClaimRaised;
    }
    var row := store.ClaimReconciliationRecord(e.id, run.owner, run.Lease(), {e.seen}, Some(run.StaleBefore(e.seen)),
                                               e.claimStamp);
    claim := if row.None? then NotClaimed else ClaimedAs(row.value);
  }

  method Mark(store: StoreObjects.PostgresSettlementStore, run: Run, e: Encounter, d: Decision) returns (stored: bool)
    requires d.Write? && d.status in {Settled, SettleFailed, Unknown, ManualReview}
    modifies store
    ensures var t := old(store.View());
            var after := WriteIn(run, t, e, d);
            && stored == after.Some?
            && (store.View() ==
                if after.None? then t
                else t.(rows := t.rows[e.id := after.value],
                        attempts := CloseStarted(t.attempts, e.id, d.status, d.transaction, d.error, e.writeStamp)))
  {
    if e.writeFails {
      return false;
    }
    stored := store.UpdateReconciliationRecord(e.id, d.status, d.transaction, d.payer, d.error,
                                               run.owner, run.Lease(), e.writeStamp);
  }

  /**
   * The branches on the provider's reply, for a record just claimed: what is counted, and whether an exception
   * escapes.
   */
  method Book(run: Run, turn: Turn, s: Stats) returns (aborted: bool, after: Stats)
    requires Won(turn)
    ensures aborted == Aborts(run, turn)
    ensures !aborted ==> Counts(run, turn, s, after)
  {
    var record, decision := turn.claim.record, Decide(run, turn.claim.record, turn.reply);
    aborted, after := false, s.(claimed := s.claimed + 1);
    match turn.reply {
      case NotRegistered =>
        if decision.Write? && !turn.stored {
          aborted := true;
        } else {
          after := Counted(after, decision);
        }
      case ReconcileRaised =>
        after := after.(errors := after.errors + 1);
        if record.status == SettleInProgress {
          if turn.stored {
            after := after.(markedUnknown := after.markedUnknown + 1);
          } else {
            after := after.(errors := after.errors + 1);
          }
        }
      case ReconcileReplied(_, _, _, _) =>
        if decision.MissingProof? || (decision.Write? && !turn.stored) {
          after := after.(errors := after.errors + 1);
        } else {
          after := Counted(after, decision);
        }
    }
  }

  /** The write that a reply leads to, if any. */
  method Work(store: StoreObjects.PostgresSettlementStore, run: Run, e: Encounter, record: Record) returns (turn: Turn)
    requires record.status in {SettleInProgress, Submitted, Unknown}
    modifies store
    ensures store.View() == Act(run, old(store.View()), e, record).left
    ensures turn == Act(run, old(store.View()), e, record).turn
  {
    DecisionFits(run, record, e.reply);
    var decision := Decide(run, record, e.reply);
    var stored := false;
    if decision.Write? {
      stored := Mark(store, run, e, decision);
    }
    turn := Turn(ClaimedAs(record), e.reply, stored);
  }

  method Take(store: StoreObjects.PostgresSettlementStore, run: Run, e: Encounter, s: Stats)
    returns (aborted: bool, after: Stats, ghost visit: Visit)
    requires Candidate(e)
    modifies store
    ensures visit == VisitOf(run, old(store.View()), e) && store.View() == visit.left
    ensures aborted == Aborts(run, visit.turn)
    ensures !aborted ==> Counts(run, visit.turn, s, after)
  {
    visit := VisitOf(run, store.View(), e);
    aborted, after := false, s;
    var claim := Claim(store, run, e);
    match claim {
      case ClaimRaised =>
        aborted := true;
      case NotClaimed =>
        after := after.(skipped := after.skipped + 1);
      case ClaimedAs(record) =>
        Meanwhile(store, e.between);
        var turn := Work(store, run, e, record);
        aborted, after := Book(run, turn, s);
    }
  }

  // ---------------------------------------------------------------- one run

  function Turns(visits: seq<Visit>): (r: seq<Turn>)
    ensures |r| == |visits| && forall i | 0 <= i < |r| :: r[i] == visits[i].turn
  {
    seq(|visits|, i requires 0 <= i < |visits| => visits[i].turn)
  }

  function LeftBy(t: Tables, visits: seq<Visit>): Tables {
    if visits == [] then t else visits[|visits| - 1].left
  }

  /** The visits of a run, one candidate after the other, from tables `t`. */
  ghost predicate Follow(run: Run, t: Tables, encounters: seq<Encounter>, visits: seq<Visit>) {
    && |visits| <= |encounters|
    && forall i | 0 <= i < |visits| :: visits[i] == VisitOf(run, LeftBy(t, visits[..i]), encounters[i])
  }

  function CountMoves(visits: seq<Visit>, status: Status): nat {
    Count(visits, (v: Visit) => MovedTo(v, status))
  }

  /** The outcome counters are the status changes that the run made in the tables. */
  ghost predicate CountsMoves(s: Stats, visits: seq<Visit>) {
    && s.settled == CountMoves(visits, Settled) && s.failed == CountMoves(visits, SettleFailed)
    && s.markedUnknown == CountMoves(visits, Unknown) && s.manualReview == CountMoves(visits, ManualReview)
  }

  ghost predicate AllHonest(run: Run, visits: seq<Visit>) {
    forall i | 0 <= i < |visits| :: Honest(run, visits[i]) && FromRightStatus(visits[i])
  }

  lemma {:induction false} WritesAreMoves(run: Run, visits: seq<Visit>, status: Status)
    requires AllHonest(run, visits)
    ensures CountWrites(run, Turns(visits), status) == CountMoves(visits, status)
  {
    if visits != [] {
      var n := |visits| - 1;
      WritesAreMoves(run, visits[..n], status);
      assert Turns(visits)[..n] == Turns(visits[..n]);
      assert Honest(run, visits[n]);
    }
  }

  /** The visits of a completed run, and the sums its statistics satisfy. */
  ghost predicate RunAdds(run: Run, visits: seq<Visit>, s: Stats) {
    && NoAborts(run, Turns(visits)) && Tallies(run, Turns(visits), s)
    && s.scanned == |visits| == s.claimed + s.skipped
    && Accounted(s) == s.claimed + Count(Turns(visits), RaisedInProgress)
    && CountsMoves(s, visits) && AllHonest(run, visits)
  }

  lemma CompletedRunAdds(run: Run, visits: seq<Visit>, s: Stats)
    requires NoAborts(run, Turns(visits)) && Tallies(run, Turns(visits), s) && AllHonest(run, visits)
    requires s.scanned == |visits|
    ensures RunAdds(run, visits, s)
  {
    ScannedIsClaimedOrSkipped(run, Turns(visits));
    WorkIsAccounted(run, Turns(visits), s);
    WritesAreMoves(run, visits, Settled);
    WritesAreMoves(run, visits, SettleFailed);
    WritesAreMoves(run, visits, Unknown);
    WritesAreMoves(run, visits, ManualReview);
  }

  /** The candidates of a run, one after the other. */
  method Process(store: StoreObjects.PostgresSettlementStore, run: Run, encounters: seq<Encounter>)
    returns (returned: bool, stats: Stats, ghost visits: seq<Visit>)
    requires forall i | 0 <= i < |encounters| :: Candidate(encounters[i])
    modifies store
    ensures store.View() == LeftBy(old(store.View()), visits)
    ensures Follow(run, old(store.View()), encounters, visits)
    ensures returned <==> |visits| == |encounters| && NoAborts(run, Turns(visits))
    ensures !returned ==> visits != [] && Aborts(run, visits[|visits| - 1].turn)
    ensures returned ==> RunAdds(run, visits, stats)
  {
    stats, visits := NO_STATS.(scanned := |encounters|), [];
    ghost var start := store.View();
    for i := 0 to |encounters|
      invariant |visits| == i && stats.scanned == |encounters|
      invariant store.View() == LeftBy(start, visits)
      invariant UnderWay(run, start, encounters, visits, stats)
    {
      ghost var before, done := stats, visits;
      var aborted;
      ghost var visit;
      aborted, stats, visit := Take(store, run, encounters[i], stats);
      visits := done + [visit];
      FollowOneMore(run, start, encounters, done, visit);
      if aborted {
        return false, stats, visits;
      }
      OneVisitMore(run, start, encounters, done, visit, before, stats);
    }
    returned := true;
    CompletedRunAdds(run, visits, stats);
  }

  /** What a run knows after some of its candidates. */
  ghost predicate UnderWay(run: Run, t: Tables, encounters: seq<Encounter>, visits: seq<Visit>, s: Stats) {
    && Follow(run, t, encounters, visits) && AllHonest(run, visits)
    && NoAborts(run, Turns(visits)) && Tallies(run, Turns(visits), s)
  }

  lemma {:induction false} TurnsOneMore(run: Run, visits: seq<Visit>, v: Visit, s: Stats, after: Stats)
    requires NoAborts(run, Turns(visits)) && Tallies(run, Turns(visits), s)
    requires !Aborts(run, v.turn) && Counts(run, v.turn, s, after)
    ensures NoAborts(run, Turns(visits + [v])) && Tallies(run, Turns(visits + [v]), after)
  {
    TallyOneMore(run, Turns(visits), v.turn, s, after);
    assert Turns(visits + [v]) == Turns(visits) + [v.turn];
  }

  lemma {:induction false} OneVisitMore(run: Run, t: Tables, encounters: seq<Encounter>, visits: seq<Visit>, v: Visit,
      s: Stats, after: Stats)
    requires UnderWay(run, t, encounters, visits, s) && |visits| < |encounters| && Candidate(encounters[|visits|])
    requires v == VisitOf(run, LeftBy(t, visits), encounters[|visits|])
    requires !Aborts(run, v.turn) && Counts(run, v.turn, s, after)
    ensures UnderWay(run, t, encounters, visits + [v], after)
  {
    FollowOneMore(run, t, encounters, visits, v);
    VisitIsHonest(run, LeftBy(t, visits), encounters[|visits|]);
    HonestOneMore(run, visits, v);
    TurnsOneMore(run, visits, v, s, after);
  }

  lemma {:induction false} HonestOneMore(run: Run, visits: seq<Visit>, v: Visit)
    requires AllHonest(run, visits) && Honest(run, v) && FromRightStatus(v)
    ensures AllHonest(run, visits + [v])
  {
    forall i | 0 <= i < |visits + [v]| ensures Honest(run, (visits + [v])[i]) && FromRightStatus((visits + [v])[i]) {
      if i < |visits| { assert (visits + [v])[i] == visits[i]; }
    }
  }

  lemma FollowOneMore(run: Run, t: Tables, encounters: seq<Encounter>, visits: seq<Visit>, v: Visit)
    requires Follow(run, t, encounters, visits) && |visits| < |encounters|
    requires v == VisitOf(run, LeftBy(t, visits), encounters[|visits|])
    ensures Follow(run, t, encounters, visits + [v])
  {
    var longer := visits + [v];
    forall i | 0 <= i < |longer| ensures longer[i] == VisitOf(run, LeftBy(t, longer[..i]), encounters[i]) {
      if i < |visits| {
        assert longer[..i] == visits[..i];
      } else {
        assert longer[..i] == visits;
      }
    }
  }

  // ---------------------------------------------------------------- the scan of a run

  /** The three queries of a scan, each after others have moved the tables on; or a scan that fails. */
  datatype ScanScript = ScanScript(limit: int, fails: bool, before: seq<Tables>, stamps: seq<Time>)

  predicate ScriptOk(script: ScanScript) {
    |script.before| == 3 && |script.stamps| == 3
  }

  const SCANNED := [SettleInProgress, Submitted, Unknown]

  /** The tables that query `k` reads. */
  function ReadBy(t: Tables, script: ScanScript, k: nat): Tables
    requires ScriptOk(script) && k < 3
  {
    Becomes(if k == 0 then t else ReadBy(t, script, k - 1), script.before[k])
  }

  ghost predicate BucketAt(run: Run, t: Tables, script: ScanScript, k: nat, bucket: seq<Seen>)
    requires ScriptOk(script) && k < 3 && script.limit > 0
  {
    BucketOf(ReadBy(t, script, k).rows, SCANNED[k], run.StaleBefore(SCANNED[k]), script.stamps[k], script.limit, bucket)
  }

  ghost predicate BucketsAt(run: Run, t: Tables, script: ScanScript, buckets: seq<seq<Seen>>)
    requires ScriptOk(script) && script.limit > 0
  {
    |buckets| == 3 && forall k | 0 <= k < 3 :: BucketAt(run, t, script, k, buckets[k])
  }

  /** Nothing changed while the scan went on. */
  predicate Undisturbed(t: Tables, script: ScanScript)
    requires ScriptOk(script)
  {
    ReadBy(t, script, 0) == t && ReadBy(t, script, 1) == t && ReadBy(t, script, 2) == t
  }

  function EligibleFor(run: Run, t: Tables, script: ScanScript, k: nat): set<nat>
    requires ScriptOk(script) && k < 3
  {
    EligibleIds(t.rows, SCANNED[k], run.StaleBefore(SCANNED[k]), script.stamps[k])
  }

  method ScanStore(store: StoreObjects.PostgresSettlementStore, run: Run, script: ScanScript)
    returns (found: seq<Seen>, ghost buckets: seq<seq<Seen>>)
    requires ScriptOk(script)
    modifies store
    ensures script.limit <= 0 ==> found == [] && store.View() == old(store.View())
    ensures script.limit > 0 ==>
              && BucketsAt(run, old(store.View()), script, buckets) && found == Scan.Merged(buckets, script.limit)
              && store.View() == ReadBy(old(store.View()), script, 2)
  {
    found, buckets := [], [];
    if script.limit <= 0 {
      return;
    }
    ghost var start := store.View();
    Meanwhile(store, script.before[0]);
    var first := ReadBucket(store.rows, SettleInProgress, run.StaleBefore(SettleInProgress), script.stamps[0],
        script.limit);
    assert BucketAt(run, start, script, 0, first);
    Meanwhile(store, script.before[1]);
    var second := ReadBucket(store.rows, Submitted, run.StaleBefore(Submitted), script.stamps[1], script.limit);
    assert BucketAt(run, start, script, 1, second);
    Meanwhile(store, script.before[2]);
    var third := ReadBucket(store.rows, Unknown, run.StaleBefore(Unknown), script.stamps[2], script.limit);
    assert BucketAt(run, start, script, 2, third);
    buckets := [first, second, third];
    found := Scan.ScanCandidates([first, second, third], script.limit);
  }

  lemma {:induction false} FoundAreCandidates(run: Run, t: Tables, script: ScanScript, buckets: seq<seq<Seen>>)
    requires ScriptOk(script) && script.limit > 0 && BucketsAt(run, t, script, buckets)
    ensures forall i | 0 <= i < |Scan.Merged(buckets, script.limit)| ::
              Scan.Merged(buckets, script.limit)[i].status in {SettleInProgress, Submitted, Unknown}
  {
    forall p: Scan.Pick | Scan.Holds(buckets, p)
      ensures buckets[p.bucket][p.position].status in {SettleInProgress, Submitted, Unknown}
    {
      assert BucketAt(run, t, script, p.bucket, buckets[p.bucket]);
    }
    MergedStatuses(buckets, script.limit, {SettleInProgress, Submitted, Unknown});
  }

  /** An undisturbed scan finds as many eligible records as the limit allows, and none of them twice. */
  lemma {:induction false} UndisturbedScan(run: Run, t: Tables, script: ScanScript, buckets: seq<seq<Seen>>)
    requires ScriptOk(script) && script.limit > 0 && BucketsAt(run, t, script, buckets) && Undisturbed(t, script)
    ensures NoIdTwice(Scan.Merged(buckets, script.limit))
    ensures |Scan.Merged(buckets, script.limit)|
         == Scan.Min(script.limit, |EligibleFor(run, t, script, 0)| + |EligibleFor(run, t, script, 1)|
                                   + |EligibleFor(run, t, script, 2)|)
  {
    assert BucketAt(run, t, script, 0, buckets[0]) && BucketAt(run, t, script, 1, buckets[1])
        && BucketAt(run, t, script, 2, buckets[2]);
    forall p: Scan.Pick, q: Scan.Pick | Scan.Holds(buckets, p) && Scan.Holds(buckets, q) && p != q
      ensures buckets[p.bucket][p.position].id != buckets[q.bucket][q.position].id
    {
      BucketIdsApart(run, t, script, buckets, p, q);
    }
    ScanRepeatsNoId(buckets, script.limit);
    Scan.ScanLength(buckets, script.limit);
    CutsAgree(script.limit, |EligibleFor(run, t, script, 0)|, |EligibleFor(run, t, script, 1)|,
              |EligibleFor(run, t, script, 2)|);
  }

  lemma {:induction false} BucketIdsApart(run: Run, t: Tables, script: ScanScript, buckets: seq<seq<Seen>>,
                                          p: Scan.Pick, q: Scan.Pick)
    requires ScriptOk(script) && script.limit > 0 && BucketsAt(run, t, script, buckets) && Undisturbed(t, script)
    requires Scan.Holds(buckets, p) && Scan.Holds(buckets, q) && p != q
    ensures buckets[p.bucket][p.position].id != buckets[q.bucket][q.position].id
  {
    var a, b := buckets[p.bucket], buckets[q.bucket];
    assert BucketAt(run, t, script, p.bucket, a) && BucketAt(run, t, script, q.bucket, b);
    if p.bucket != q.bucket {
      StatusesApart(t.rows, a, b, SCANNED[p.bucket], SCANNED[q.bucket], run.StaleBefore(SCANNED[p.bucket]),
                    run.StaleBefore(SCANNED[q.bucket]), script.stamps[p.bucket], script.stamps[q.bucket], script.limit,
                    p.position, q.position);
    }
  }

  /** What one candidate's turn meets, apart from the candidate itself. */
  datatype Happening = Happening(
    before: Tables, claimStamp: Time, claimFails: bool, reply: ReconcileReply,
    between: Tables, writeStamp: Time, writeFails: bool)

  function EncounterOf(seen: Seen, h: Happening): Encounter {
    Encounter(seen.id, seen.status, h.before, h.claimStamp, h.claimFails, h.reply, h.between, h.writeStamp,
        h.writeFails)
  }

  function EncountersOf(found: seq<Seen>, happenings: nat -> Happening): (r: seq<Encounter>)
    ensures |r| == |found| && forall i | 0 <= i < |r| :: r[i] == EncounterOf(found[i], happenings(i))
  {
    seq(|found|, i requires 0 <= i < |found| => EncounterOf(found[i], happenings(i)))
  }

  /** What a scan of tables `t` found, and the tables it ended on. */
  ghost predicate ScanFound(run: Run, t: Tables, script: ScanScript, found: seq<Seen>, start: Tables)
    requires ScriptOk(script)
  {
    if script.fails || script.limit <= 0 then found == [] && start == t
    else
      && start == ReadBy(t, script, 2)
      && exists buckets | BucketsAt(run, t, script, buckets) :: found == Scan.Merged(buckets, script.limit)
  }

  function ResultOf(returned: bool, stats: Stats): Option<Stats> {
    if returned then Some(stats) else None
  }

  /**
   * A run from tables `entry`: what its scan found, the visits that followed from the tables it left, whether the run
   * completed, and its sums if it did.
   */
  ghost predicate Ran(run: Run, script: ScanScript, happenings: nat -> Happening, entry: Tables, found: seq<Seen>,
                      start: Tables, visits: seq<Visit>, result: Option<Stats>)
  {
    && ScriptOk(script) && ScanFound(run, entry, script, found, start)
    && Follow(run, start, EncountersOf(found, happenings), visits)
    && (result.Some? <==> !script.fails && |visits| == |found| && NoAborts(run, Turns(visits)))
    && (result.Some? ==> RunAdds(run, visits, result.value) && result.value.scanned == |found|)
  }

  /** One run: the scan, then its candidates. */
  method RunOnce(store: StoreObjects.PostgresSettlementStore, run: Run, script: ScanScript,
                 happenings: nat -> Happening)
    returns (returned: bool, stats: Stats, ghost found: seq<Seen>, ghost start: Tables, ghost visits: seq<Visit>)
    requires ScriptOk(script)
    modifies store
    ensures Ran(run, script, happenings, old(store.View()), found, start, visits, ResultOf(returned, stats))
    ensures store.View() == LeftBy(start, visits)
  {
    returned, stats, found, start, visits := false, NO_STATS, [], store.View(), [];
    if script.fails {
      return;
    }
    var candidates;
    ghost var buckets;
    candidates, buckets := ScanStore(store, run, script);
    found, start := candidates, store.View();
    if script.limit > 0 { FoundAreCandidates(run, old(store.View()), script, buckets); }
    var encounters := EncountersOf(candidates, happenings);
    forall i | 0 <= i < |encounters| ensures Candidate(encounters[i]) {
      assert encounters[i].seen == candidates[i].status;
    }
    returned, stats, visits := Process(store, run, encounters);
  }
}
