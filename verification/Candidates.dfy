/** The reconciler's candidate queries and the scan that merges them, on the rows of the store. */
module Candidates {
  import opened Wrappers
  import opened Settlement
  import opened Rows
  import Scan

  type RowMap = map<nat, Record>

  predicate Eligible(rows: RowMap, id: nat, status: Status, staleBefore: Time, stamp: Time) {
    id in rows && rows[id].status == status && rows[id].updatedAt <= staleBefore && LeaseFree(rows[id], stamp)
  }

  function EligibleIds(rows: RowMap, status: Status, staleBefore: Time, stamp: Time): set<nat> {
    set id | id in rows && Eligible(rows, id, status, staleBefore, stamp)
  }

  /** The order of the query: by update time, then by id. */
  predicate Older(rows: RowMap, i: nat, j: nat)
    requires i in rows && j in rows
  {
    rows[i].updatedAt < rows[j].updatedAt || (rows[i].updatedAt == rows[j].updatedAt && i < j)
  }

  predicate AllIn(rows: RowMap, ids: seq<nat>) {
    forall i | 0 <= i < |ids| :: ids[i] in rows
  }

  predicate Sorted(rows: RowMap, ids: seq<nat>)
    requires AllIn(rows, ids)
  {
    forall i, j | 0 <= i < j < |ids| :: Older(rows, ids[i], ids[j])
  }

  /** The ids are of these rows, oldest first, and no row left out is older than one taken. */
  ghost predicate OldestOf(rows: RowMap, all: set<nat>, ids: seq<nat>) {
    && (forall id | id in all :: id in rows) && (forall i | 0 <= i < |ids| :: ids[i] in all)
    && AllIn(rows, ids) && Sorted(rows, ids)
    && forall id, i | id in all && id !in ids && 0 <= i < |ids| :: Older(rows, ids[i], id)
  }

  /** The oldest of some rows. */
  method FindOldest(rows: RowMap, ids: set<nat>) returns (oldest: nat)
    requires ids != {} && forall id | id in ids :: id in rows
    ensures oldest in ids && forall id | id in ids && id != oldest :: Older(rows, oldest, id)
  {
    oldest :| oldest in ids;
    var rest := ids - {oldest};
    ghost var seen := {oldest};
    while rest != {}
      invariant ids == seen + rest && oldest in seen
      invariant forall id | id in seen && id != oldest :: Older(rows, oldest, id)
      decreases |rest|
    {
      var id :| id in rest;
      rest, seen := rest - {id}, seen + {id};
      if Older(rows, id, oldest) {
        oldest := id;
      }
    }
  }

  /**
   * SELECT ... ORDER BY updated_at, id LIMIT: the oldest of the eligible rows, as many as there are up to the limit.
   */
  method ListCandidates(rows: RowMap, status: Status, staleBefore: Time, stamp: Time, limit: nat)
      returns (ids: seq<nat>)
    ensures OldestOf(rows, EligibleIds(rows, status, staleBefore, stamp), ids)
    ensures |ids| == Scan.Min(limit, |EligibleIds(rows, status, staleBefore, stamp)|)
    ensures forall i, j | 0 <= i < j < |ids| :: ids[i] != ids[j]
  {
    var all := EligibleIds(rows, status, staleBefore, stamp);
    var rest := all;
    ids := [];
    while |ids| < limit && rest != {}
      invariant |ids| <= limit && |ids| + |rest| == |all|
      invariant forall id :: id in all <==> id in ids || id in rest
      invariant forall id | id in rest :: id !in ids
      invariant OldestOf(rows, all, ids)
      invariant forall i, j | 0 <= i < j < |ids| :: ids[i] != ids[j]
      decreases |rest|
    {
      var oldest := FindOldest(rows, rest);
      TakeOldest(rows, all, rest, ids, oldest);
      ids, rest := ids + [oldest], rest - {oldest};
    }
  }

  lemma {:induction false} TakeOldest(rows: RowMap, all: set<nat>, rest: set<nat>, ids: seq<nat>, oldest: nat)
    requires OldestOf(rows, all, ids) && oldest in rest && rest <= all
    requires forall id :: id in all <==> id in ids || id in rest
    requires forall id | id in rest :: id !in ids
    requires forall id | id in rest && id != oldest :: Older(rows, oldest, id)
    ensures OldestOf(rows, all, ids + [oldest])
  {
    var longer := ids + [oldest];
    forall i | 0 <= i < |longer| ensures longer[i] in all && longer[i] in rows {
      if i < |ids| { assert longer[i] == ids[i]; }
    }
    forall i, j | 0 <= i < j < |longer| ensures Older(rows, longer[i], longer[j]) {
      assert longer[i] == ids[i];
      if j < |ids| { assert longer[j] == ids[j]; }
    }
    forall id, i | id in all && id !in longer && 0 <= i < |longer| ensures Older(rows, longer[i], id) {
      assert id !in ids && id != oldest;
      if i < |ids| { assert longer[i] == ids[i]; }
    }
  }

  // ---------------------------------------------------------------- the merged scan

  /** A candidate as the scan returns it. */
  datatype Seen = Seen(id: nat, status: Status)

  function Tagged(ids: seq<nat>, status: Status): (r: seq<Seen>)
    ensures |r| == |ids| && forall i | 0 <= i < |r| :: r[i] == Seen(ids[i], status)
  {
    seq(|ids|, i requires 0 <= i < |ids| => Seen(ids[i], status))
  }

  function Ids(bucket: seq<Seen>): (r: seq<nat>)
    ensures |r| == |bucket| && forall i | 0 <= i < |r| :: r[i] == bucket[i].id
  {
    seq(|bucket|, i requires 0 <= i < |bucket| => bucket[i].id)
  }

  /** A bucket of the scan: the oldest eligible rows of one status, in the order of the query, each of them once. */
  ghost predicate BucketOf(rows: RowMap, status: Status, staleBefore: Time, stamp: Time, limit: nat,
      bucket: seq<Seen>) {
    var all := EligibleIds(rows, status, staleBefore, stamp);
    && OldestOf(rows, all, Ids(bucket)) && |bucket| == Scan.Min(limit, |all|)
    && (forall i | 0 <= i < |bucket| :: bucket[i].status == status)
    && forall i, j | 0 <= i < j < |bucket| :: bucket[i].id != bucket[j].id
  }

  method ReadBucket(rows: RowMap, status: Status, staleBefore: Time, stamp: Time, limit: nat)
      returns (bucket: seq<Seen>)
    ensures BucketOf(rows, status, staleBefore, stamp, limit, bucket)
  {
    var ids := ListCandidates(rows, status, staleBefore, stamp, limit);
    bucket := Tagged(ids, status);
    assert Ids(bucket) == ids;
  }

  /** No id is in two places of the buckets. */
  ghost predicate IdsApart(buckets: seq<seq<Seen>>) {
    forall p: Scan.Pick, q: Scan.Pick | Scan.Holds(buckets, p) && Scan.Holds(buckets, q) && p != q ::
      buckets[p.bucket][p.position].id != buckets[q.bucket][q.position].id
  }

  predicate NoIdTwice(found: seq<Seen>) {
    forall i, j | 0 <= i < j < |found| :: found[i].id != found[j].id
  }

  lemma {:induction false} ScanRepeatsNoId(buckets: seq<seq<Seen>>, limit: nat)
    requires IdsApart(buckets)
    ensures NoIdTwice(Scan.Merged(buckets, limit))
  {
    var picks, found := Scan.FirstPlaces(buckets, limit), Scan.Merged(buckets, limit);
    forall i, j | 0 <= i < j < |found| ensures found[i].id != found[j].id {
      Scan.PlacesDiffer(buckets, limit, i, j);
      assert Scan.Holds(buckets, picks[i]) && Scan.Holds(buckets, picks[j]);
    }
  }

  /** Buckets of different statuses read from the same rows have no id in common. */
  lemma {:induction false} StatusesApart(rows: RowMap, a: seq<Seen>, b: seq<Seen>, s: Status, t: Status, staleA: Time,
                                         staleB: Time, stampA: Time, stampB: Time, limit: nat, i: nat, j: nat)
    requires s != t && BucketOf(rows, s, staleA, stampA, limit, a) && BucketOf(rows, t, staleB, stampB, limit, b)
    requires i < |a| && j < |b|
    ensures a[i].id != b[j].id
  {
    assert Ids(a)[i] in EligibleIds(rows, s, staleA, stampA) && Ids(b)[j] in EligibleIds(rows, t, staleB, stampB);
  }

  /** Cutting every bucket at the limit does not change where the whole scan is cut. */
  lemma {:induction false} CutsAgree(limit: nat, a: nat, b: nat, c: nat)
    ensures Scan.Min(limit, Scan.Min(limit, a) + Scan.Min(limit, b) + Scan.Min(limit, c)) == Scan.Min(limit, a + b + c)
  {
  }

  lemma {:induction false} MergedStatuses(buckets: seq<seq<Seen>>, limit: nat, allowed: set<Status>)
    requires forall p: Scan.Pick | Scan.Holds(buckets, p) :: buckets[p.bucket][p.position].status in allowed
    ensures forall i | 0 <= i < |Scan.Merged(buckets, limit)| :: Scan.Merged(buckets, limit)[i].status in allowed
  {
    var picks := Scan.FirstPlaces(buckets, limit);
    forall i | 0 <= i < |picks| ensures Scan.Merged(buckets, limit)[i].status in allowed {
      assert Scan.Holds(buckets, picks[i]);
    }
  }
}
