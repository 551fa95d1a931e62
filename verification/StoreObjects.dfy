/** The stores as the mutable objects that the engine and the reconciler call. */
module StoreObjects {
  import opened Wrappers
  import opened Settlement
  import opened Rows
  import opened Stores

  /** What an operator asks of a record. */
  datatype ControlAction = ReconciliationClaim | ReconciliationRelease | ReconciliationManualReview

  datatype AuditedChange = AuditedChange(record: Record, before: bool, after: bool)

  class InMemorySettlementStore {
    var records: map<ProfileKey, nat>
    var index: map<RawKey, ProfileKey>
    var objects: map<nat, Record>
    var attempts: map<nat, Attempt>
    var nextRecord: nat
    var nextAttempt: nat

    function View(): Memory
      reads this
    {
      Memory(records, index, objects, attempts, nextRecord, nextAttempt)
    }

    ghost predicate Valid()
      reads this
    {
      MemoryOk(View())
    }

    constructor ()
      ensures Valid() && View() == EMPTY_MEMORY
    {
      records, index, objects, attempts, nextRecord, nextAttempt := map[], map[], map[], map[], 1, 1;
    }

    method ClaimForSettlement(call: Call, now: Time) returns (id: nat, record: Record, claim: Claim)
      requires Valid()
      modifies this
      ensures Valid()
      ensures Claiming(View(), id, record, claim) == MemoryClaim(old(View()), call, now)
    {
      ClaimKeepsMemoryOk(View(), call, now);
      var key := ProfileKeyOf(call);
      if key in records {
        assert Listed(View(), key);
        id := records[key];
        record, claim := ClaimAgain(id, now);
        return;
      }
      var replay := RawKeyOf(call);
      if replay in index {
        assert Indexed(View(), replay);
        id := records[index[replay]];
        record, claim := ClaimAgain(id, now);
        return;
      }
      id, record, claim := nextRecord, NewRecord(call, now), Claimed;
      nextRecord := nextRecord + 1;
      objects := objects[id := record];
      records := records[key := id];
      index := index[replay := key];
    }

    /** A claim that finds a record: its duplicate counter goes up, and the claim says how it stands. */
    method ClaimAgain(id: nat, now: Time) returns (record: Record, claim: Claim)
      requires id in objects
      modifies this`objects
      ensures View() == MemoryDuplicate(old(View()), id, now)
      ensures record == objects[id] && claim == ClaimForStatus(old(objects[id].status))
    {
      claim := ClaimForStatus(objects[id].status);
      objects := objects[id := BumpDuplicate(objects[id], now)];
      record := objects[id];
    }

    method StartSettleAttempt(id: nat, now: Time) returns (attemptId: nat)
      modifies this`attempts, this`nextAttempt
      ensures attemptId == old(nextAttempt) && nextAttempt == old(nextAttempt) + 1
      ensures attempts == old(attempts)[attemptId := NewAttempt(id, now)]
    {
      attemptId := nextAttempt;
      nextAttempt := nextAttempt + 1;
      attempts := attempts[attemptId := NewAttempt(id, now)];
    }

    method FinishSettleAttempt(attemptId: nat, status: AttemptStatus, transaction: Option<string>,
                               error: Option<Reason>, now: Time)
      modifies this`attempts
      ensures attempts == if attemptId in old(attempts)
                          then old(attempts)[attemptId :=
                                 FinishAttempt(old(attempts)[attemptId], status, transaction, error, now)]
                          else old(attempts)
    {
      if attemptId in attempts {
        attempts := attempts[attemptId := FinishAttempt(attempts[attemptId], status, transaction, error, now)];
      }
    }

    /** mark_settled, mark_submitted, mark_settle_failed and mark_unknown, as the engine picks among them. */
    method Mark(id: nat, f: Finalisation, now: Time)
      requires id in objects
      modifies this`objects
      ensures objects == old(objects)[id := MemoryMark(old(objects)[id], f, now)]
    {
      var row := objects[id];
      if f.status == Settled || f.status == Submitted {
        row := row.(status := f.status, transaction := f.transaction, payer := f.payer);
      } else {
        row := row.(status := f.status, error := f.error);
      }
      objects := objects[id := row.(updatedAt := now)];
    }

    /** What the engine does with a claim of its own once the provider has replied. */
    method FinishClaim(id: nat, record: Record, x: Settle) returns (outcome: SettleOutcome)
      requires id in objects && objects[id] == record
      modifies this
      ensures View() == MemoryFinish(old(View()), id, record, x)
      ensures outcome == FinalisationFor(record, x.reply, x.payloadPayer).outcome
    {
      var attemptId := StartSettleAttempt(id, x.claimedAt);
      var f := FinalisationFor(record, x.reply, x.payloadPayer);
      Mark(id, f, x.finishedAt);
      FinishSettleAttempt(attemptId, f.attemptStatus, f.transaction, f.error, x.finishedAt);
      outcome := f.outcome;
    }

    /** One settle call of the engine against this store, with the provider's reply given. */
    method Settle(x: Settle) returns (claim: Claim, outcome: SettleOutcome)
      requires Valid()
      modifies this
      ensures Valid()
      ensures (View(), claim, outcome) == MemorySettle(old(View()), x)
      ensures var found := MemoryFind(old(View()), x.call);
              var id := if found.Some? then found.value else old(nextRecord);
              id in objects && Meant(x, Seen(old(objects), found), claim, outcome, objects[id])
    {
      SettleKeepsMemoryOk(View(), x);
      MemorySettleMeans(View(), x);
      var id, record;
      id, record, claim := ClaimForSettlement(x.call, x.claimedAt);
      if claim != Claimed {
        return claim, CachedSettlement(record);
      }
      outcome := FinishClaim(id, record, x);
    }
  }

  class PostgresSettlementStore {
    var rows: map<nat, Record>
    var attempts: map<nat, Attempt>
    var nextRecord: nat
    var nextAttempt: nat

    function View(): Tables
      reads this
    {
      Tables(rows, attempts, nextRecord, nextAttempt)
    }

    constructor ()
      ensures View() == EMPTY_TABLES
    {
      rows, attempts, nextRecord, nextAttempt := map[], map[], 1, 1;
    }

    /** The claim transaction, undisturbed. */
    method ClaimAndStartSettleAttempt(call: Call, now: Time)
      returns (id: nat, record: Record, claim: Claim, attemptId: Option<nat>)
      modifies this
      ensures Claiming(View(), id, record, claim) == TablesClaim(old(View()), call, now)
      ensures attemptId == if claim == Claimed then Some(old(nextAttempt)) else None
    {
      FirstForExact(View(), ReplayKeyOf(call), 0);
      FirstOfProfileExact(View(), ProfileKeyOf(call), 0);
      var found := FirstFor(View(), ReplayKeyOf(call), 0);
      if found.None? {
        found := FirstOfProfile(View(), ProfileKeyOf(call), 0);
        id, record := nextRecord, NewRecord(call, now);
        nextRecord := nextRecord + 1;
        if found.None? {
          rows := rows[id := record];
          attemptId := Some(nextAttempt);
          attempts := attempts[nextAttempt := NewAttempt(id, now)];
          nextAttempt := nextAttempt + 1;
          return id, record, Claimed, attemptId;
        }
      }
      id, record := found.value, rows[found.value];
      rows := rows[id := BumpDuplicate(record, now)];
      claim, attemptId := ClaimForStatus(record.status), None;
    }

    /** The settler's compare-and-swap; nothing changes when the status is not an expected one. */
    method MarkRecordAndFinishSettleAttempt(id: nat, attemptId: nat, f: Finalisation, stamp: Time) returns (done: bool)
      modifies this`rows, this`attempts
      ensures done == (id in old(rows) && Finalise(old(rows)[id], f, stamp).Some?)
      ensures done ==> rows == old(rows)[id := Finalise(old(rows)[id], f, stamp).value]
      ensures done ==> attempts == if attemptId in old(attempts)
                                   then old(attempts)[attemptId := FinishAttempt(old(attempts)[attemptId],
                                          f.attemptStatus, f.transaction, f.error, stamp)]
                                   else old(attempts)
      ensures !done ==> rows == old(rows) && attempts == old(attempts)
    {
      if id !in rows || rows[id].status !in SettlerSources(f.status) {
        return false;
      }
      rows := rows[id := Rewritten(rows[id], f.status, f.transaction, f.payer, f.error, stamp)];
      if attemptId in attempts {
        attempts := attempts[attemptId :=
          FinishAttempt(attempts[attemptId], f.attemptStatus, f.transaction, f.error, stamp)];
      }
      done := true;
    }

    method ClaimReconciliationRecord(id: nat, owner: string, until: Time, eligible: set<Status>,
                                     staleBefore: Option<Time>, stamp: Time) returns (claimed: Option<Record>)
      modifies this`rows
      ensures claimed == if id in old(rows)
                         then ReconcilerClaim(old(rows)[id], owner, until, eligible, staleBefore, stamp) else None
      ensures rows == if claimed.Some? then old(rows)[id := claimed.value] else old(rows)
    {
      claimed := None;
      if id in rows && rows[id].status in eligible && (staleBefore.None? || rows[id].updatedAt <= staleBefore.value)
         && LeaseFree(rows[id], stamp)
      {
        var row := rows[id].(owner := Some(owner), leaseUntil := Some(until));
        row := row.(reconciliationAttempts := row.reconciliationAttempts + 1);
        rows := rows[id := row];
        claimed := Some(row);
      }
    }

    method ReleaseReconciliationRecord(id: nat, owner: string, stamp: Time) returns (released: Option<Record>)
      modifies this`rows
      ensures released == if id in old(rows) then Release(old(rows)[id], owner, stamp) else None
      ensures rows == if released.Some? then old(rows)[id := released.value] else old(rows)
    {
      released := None;
      if id in rows && rows[id].owner == Some(owner) {
        rows := rows[id := rows[id].(owner := None, leaseUntil := None, updatedAt := stamp)];
        released := Some(rows[id]);
      }
    }

    /** The fenced update behind every reconciler mark. */
    method UpdateReconciliationRecord(id: nat, status: Status, transaction: Option<string>, payer: Option<string>,
                                      error: Option<Reason>, owner: string, lease: Time, stamp: Time)
                                          returns (done: bool)
      requires status in {Settled, SettleFailed, Unknown, ManualReview}
      modifies this`rows, this`attempts
      ensures done == (id in old(rows)
                       && FencedWrite(old(rows)[id], status, transaction, payer, error, owner, lease, stamp).Some?)
      ensures done ==>
                && rows == old(rows)[id :=
                     FencedWrite(old(rows)[id], status, transaction, payer, error, owner, lease, stamp).value]
                && attempts == CloseStarted(old(attempts), id, status, transaction, error, stamp)
      ensures !done ==> rows == old(rows) && attempts == old(attempts)
    {
      done := id in rows && rows[id].status in ReconcilerSources(status) && rows[id].owner == Some(owner)
              && rows[id].leaseUntil == Some(lease) && lease > stamp;
      if done {
        rows := rows[id := Rewritten(rows[id], status, transaction, payer, error, stamp)];
        attempts := CloseStarted(attempts, id, status, transaction, error, stamp);
      }
    }

    /**
     * An operator's action on a locked row, with the lease flags its audit event records. A manual review is audited
     * as leased afterwards although the lease is gone.
     */
    method ApplyControlAction(action: ControlAction, id: nat, owner: string, until: Time, activeStaleBefore: Time,
                              stamp: Time) returns (change: Option<AuditedChange>)
      modifies this`rows, this`attempts
      ensures id !in old(rows) ==> change.None?
      ensures id in old(rows) ==>
                var row := match action
                           case ReconciliationClaim =>
                               OperatorClaim(old(rows)[id], owner, until, activeStaleBefore, stamp)
                           case ReconciliationRelease => Release(old(rows)[id], owner, stamp)
                           case ReconciliationManualReview => OperatorReview(old(rows)[id], owner, stamp);
                && (change.Some? <==> row.Some?)
                && (change.Some? ==>
                      && rows == old(rows)[id := row.value] && change.value.record == row.value
                      && change.value.before == (old(rows)[id].owner.Some? && old(rows)[id].owner.value != "")
                      && change.value.after == !action.ReconciliationRelease?)
      ensures change.None? ==> rows == old(rows) && attempts == old(attempts)
      ensures change.Some? ==>
                attempts == if action.ReconciliationManualReview?
                            then CloseStarted(old(attempts), id, ManualReview, old(rows)[id].transaction,
                                              Some(ManualReviewOperatorRequested), stamp)
                            else old(attempts)
    {
      if id !in rows {
        return None;
      }
      var record := rows[id];
      var before := record.owner.Some? && record.owner.value != "";
      var updated := record.(updatedAt := stamp);
      match action {
        case ReconciliationClaim =>
          var active := record.status == Submitted || record.status == SettleInProgress;
          if (!active && record.status != Unknown && record.status != ManualReview)
             || (active && record.updatedAt > activeStaleBefore)
             || (record.leaseUntil.Some? && record.leaseUntil.value > stamp)
          {
            return None;
          }
          updated := updated.(owner := Some(owner), leaseUntil := Some(until),
                              reconciliationAttempts := updated.reconciliationAttempts + 1);
        case ReconciliationRelease =>
          if record.owner != Some(owner) {
            return None;
          }
          updated := updated.(owner := None, leaseUntil := None);
        case ReconciliationManualReview =>
          if record.status != Unknown || record.owner != Some(owner)
             || record.leaseUntil.None? || record.leaseUntil.value <= stamp
          {
            return None;
          }
          updated := updated.(status := ManualReview, error := Some(ManualReviewOperatorRequested),
                              owner := None, leaseUntil := None);
          attempts := CloseStarted(attempts, id, ManualReview, record.transaction, Some(ManualReviewOperatorRequested),
                                   stamp);
      }
      rows := rows[id := updated];
      change := Some(AuditedChange(updated, before, !action.ReconciliationRelease?));
    }

    /** One settle call of the engine against this store, undisturbed, with the provider's reply given. */
    method Settle(x: Settle) returns (claim: Claim, outcome: SettleOutcome)
      modifies this
      ensures (View(), claim, outcome) == TablesSettle(old(View()), x)
      ensures var found := TablesFind(old(View()), x.call);
              var id := if found.Some? then found.value else old(nextRecord);
              id in rows && Meant(x, Seen(old(rows), found), claim, outcome, rows[id])
    {
      TablesSettleMeans(View(), x);
      var id, record, attemptId;
      id, record, claim, attemptId := ClaimAndStartSettleAttempt(x.call, x.claimedAt);
      if claim != Claimed {
        return claim, CachedSettlement(record);
      }
      var f := FinalisationFor(record, x.reply, x.payloadPayer);
      var done := MarkRecordAndFinishSettleAttempt(id, attemptId.value, f, x.finishedAt);
      outcome := f.outcome;
    }
  }
}
