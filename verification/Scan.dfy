/** The reconciler's scan: a round-robin merge of three status buckets, cut off at a limit. */
module Scan {

  /** A place in the scan: the `position`-th record of a bucket. */
  datatype Pick = Pick(bucket: nat, position: nat)

  /** Round-robin order: position by position, and within one position bucket by bucket. */
  predicate Before(p: Pick, q: Pick) {
    p.position < q.position || (p.position == q.position && p.bucket < q.bucket)
  }

  predicate Holds<T>(buckets: seq<seq<T>>, p: Pick) {
    p.bucket < |buckets| && p.position < |buckets[p.bucket]|
  }

  /** The places at one position, among the first `count` buckets. */
  function Level<T>(buckets: seq<seq<T>>, position: nat, count: nat): seq<Pick>
    requires count <= |buckets|
  {
    if count == 0 then [] else Level(buckets, position, count - 1) + PlaceIn(buckets, position, count - 1)
  }

  /** The place at one position of one bucket, if the bucket is that long. */
  function PlaceIn<T>(buckets: seq<seq<T>>, position: nat, bucket: nat): seq<Pick>
    requires bucket < |buckets|
  {
    if position < |buckets[bucket]| then [Pick(bucket, position)] else []
  }

  /** All places at the positions below `n`, in round-robin order. */
  function Levels<T>(buckets: seq<seq<T>>, n: nat): seq<Pick> {
    if n == 0 then [] else Levels(buckets, n - 1) + Level(buckets, n - 1, |buckets|)
  }

  function Min(a: nat, b: nat): nat {
    if a <= b then a else b
  }

  function FirstPlaces<T>(buckets: seq<seq<T>>, limit: nat): (picks: seq<Pick>)
    ensures forall i | 0 <= i < |picks| :: Holds(buckets, picks[i])
  {
    LevelsHold(buckets, limit);
    var all := Levels(buckets, limit);
    all[..Min(limit, |all|)]
  }

  function Records<T>(buckets: seq<seq<T>>, picks: seq<Pick>): seq<T>
    requires forall i | 0 <= i < |picks| :: Holds(buckets, picks[i])
  {
    seq(|picks|, i requires 0 <= i < |picks| && Holds(buckets, picks[i]) => buckets[picks[i].bucket][picks[i].position])
  }

  /** What the scan returns. */
  function Merged<T>(buckets: seq<seq<T>>, limit: nat): seq<T> {
    Records(buckets, FirstPlaces(buckets, limit))
  }

  // ---------------------------------------------------------------- levels

  predicate InOrder(picks: seq<Pick>) {
    forall i, j | 0 <= i < j < |picks| :: Before(picks[i], picks[j])
  }

  lemma {:induction false} InLeft(a: seq<Pick>, b: seq<Pick>, p: Pick)
    requires p in a
    ensures p in a + b
  {
    var i :| 0 <= i < |a| && a[i] == p;
    assert (a + b)[i] == p;
  }

  lemma {:induction false} InRight(a: seq<Pick>, b: seq<Pick>, p: Pick)
    requires p in b
    ensures p in a + b
  {
    var i :| 0 <= i < |b| && b[i] == p;
    assert (a + b)[|a| + i] == p;
  }

  /** Every place is at this position, in one of the first buckets, and holds a record. */
  predicate AllAt<T>(buckets: seq<seq<T>>, picks: seq<Pick>, position: nat, count: nat) {
    forall i | 0 <= i < |picks| :: Holds(buckets, picks[i]) && picks[i].position == position && picks[i].bucket < count
  }

  lemma {:induction false} AllAtJoin<T>(buckets: seq<seq<T>>, a: seq<Pick>, b: seq<Pick>, position: nat, count: nat)
    requires AllAt(buckets, a, position, count) && AllAt(buckets, b, position, count + 1)
    ensures AllAt(buckets, a + b, position, count + 1)
  {
  }

  lemma {:induction false} LevelHolds<T>(buckets: seq<seq<T>>, position: nat, count: nat)
    requires count <= |buckets|
    ensures AllAt(buckets, Level(buckets, position, count), position, count)
  {
    if count > 0 {
      LevelHolds(buckets, position, count - 1);
      AllAtJoin(buckets, Level(buckets, position, count - 1), PlaceIn(buckets, position, count - 1), position,
          count - 1);
    }
  }

  lemma {:induction false} OrderExtends(a: seq<Pick>, b: seq<Pick>)
    requires InOrder(a) && InOrder(b)
    requires forall i, j | 0 <= i < |a| && 0 <= j < |b| :: Before(a[i], b[j])
    ensures InOrder(a + b)
  {
    forall i, j | 0 <= i < j < |a + b| ensures Before((a + b)[i], (a + b)[j]) {
      if j < |a| {
        assert (a + b)[i] == a[i] && (a + b)[j] == a[j];
      } else if |a| <= i {
        assert (a + b)[i] == b[i - |a|] && (a + b)[j] == b[j - |a|];
      } else {
        assert (a + b)[i] == a[i] && (a + b)[j] == b[j - |a|];
      }
    }
  }

  lemma {:induction false} LevelInOrder<T>(buckets: seq<seq<T>>, position: nat, count: nat)
    requires count <= |buckets|
    ensures InOrder(Level(buckets, position, count))
  {
    if count > 0 {
      LevelInOrder(buckets, position, count - 1);
      LevelHolds(buckets, position, count - 1);
      OrderExtends(Level(buckets, position, count - 1), PlaceIn(buckets, position, count - 1));
    }
  }

  lemma {:induction false} LevelComplete<T>(buckets: seq<seq<T>>, position: nat, count: nat, bucket: nat)
    requires bucket < count <= |buckets| && position < |buckets[bucket]|
    ensures Pick(bucket, position) in Level(buckets, position, count)
  {
    var rest, last := Level(buckets, position, count - 1), PlaceIn(buckets, position, count - 1);
    if bucket == count - 1 {
      InRight(rest, last, Pick(bucket, position));
    } else {
      LevelComplete(buckets, position, count - 1, bucket);
      InLeft(rest, last, Pick(bucket, position));
    }
  }

  predicate AllBelow<T>(buckets: seq<seq<T>>, picks: seq<Pick>, n: nat) {
    forall i | 0 <= i < |picks| :: Holds(buckets, picks[i]) && picks[i].position < n
  }

  lemma {:induction false} AllBelowJoin<T>(buckets: seq<seq<T>>, a: seq<Pick>, b: seq<Pick>, n: nat)
    requires AllBelow(buckets, a, n) && AllAt(buckets, b, n, |buckets|)
    ensures AllBelow(buckets, a + b, n + 1)
  {
  }

  lemma {:induction false} LevelsHold<T>(buckets: seq<seq<T>>, n: nat)
    ensures AllBelow(buckets, Levels(buckets, n), n)
  {
    if n > 0 {
      LevelsHold(buckets, n - 1);
      LevelHolds(buckets, n - 1, |buckets|);
      AllBelowJoin(buckets, Levels(buckets, n - 1), Level(buckets, n - 1, |buckets|), n - 1);
    }
  }

  lemma {:induction false} LevelsInOrder<T>(buckets: seq<seq<T>>, n: nat)
    ensures InOrder(Levels(buckets, n))
  {
    if n > 0 {
      LevelsInOrder(buckets, n - 1);
      LevelInOrder(buckets, n - 1, |buckets|);
      LevelsHold(buckets, n - 1);
      LevelHolds(buckets, n - 1, |buckets|);
      OrderExtends(Levels(buckets, n - 1), Level(buckets, n - 1, |buckets|));
    }
  }

  lemma {:induction false} LevelsComplete<T>(buckets: seq<seq<T>>, n: nat, p: Pick)
    requires Holds(buckets, p) && p.position < n
    ensures p in Levels(buckets, n)
  {
    var rest, last := Levels(buckets, n - 1), Level(buckets, n - 1, |buckets|);
    if p.position < n - 1 {
      LevelsComplete(buckets, n - 1, p);
      InLeft(rest, last, p);
    } else {
      LevelComplete(buckets, n - 1, |buckets|, p.bucket);
      InRight(rest, last, p);
    }
  }

  lemma {:induction false} LevelsGrow<T>(buckets: seq<seq<T>>, m: nat, n: nat)
    requires m <= n
    ensures Levels(buckets, m) <= Levels(buckets, n)
    decreases n - m
  {
    if m < n {
      LevelsGrow(buckets, m, n - 1);
      PrefixGrows(Levels(buckets, m), Levels(buckets, n - 1), Level(buckets, n - 1, |buckets|));
    }
  }

  lemma {:induction false} PrefixGrows(a: seq<Pick>, b: seq<Pick>, c: seq<Pick>)
    requires a <= b
    ensures a <= b + c
  {
  }

  /** Once no bucket reaches a position, there is nothing further on. */
  lemma {:induction false} LevelsEnd<T>(buckets: seq<seq<T>>, position: nat, n: nat)
    requires position <= n && NoneReaches(buckets, position)
    ensures Levels(buckets, n) == Levels(buckets, position)
  {
    LevelsGrow(buckets, position, n);
    forall m: nat | position <= m < n ensures Vacant(buckets, m) {
      EmptyLevel(buckets, m, |buckets|);
    }
    SizesEnd(buckets, position, n);
    WholePrefix(Levels(buckets, position), Levels(buckets, n));
  }

  lemma {:induction false} SizesEnd<T>(buckets: seq<seq<T>>, position: nat, n: nat)
    requires position <= n && forall m: nat | position <= m < n :: Vacant(buckets, m)
    ensures |Levels(buckets, n)| == |Levels(buckets, position)|
  {
    if n > position {
      SizesEnd(buckets, position, n - 1);
      assert Vacant(buckets, n - 1);
    }
  }

  predicate Vacant<T>(buckets: seq<seq<T>>, position: nat) {
    |Level(buckets, position, |buckets|)| == 0
  }

  lemma {:induction false} WholePrefix(a: seq<Pick>, b: seq<Pick>)
    requires a <= b && |a| == |b|
    ensures a == b
  {
  }

  predicate NoneReaches<T>(buckets: seq<seq<T>>, position: nat) {
    forall b | 0 <= b < |buckets| :: |buckets[b]| <= position
  }

  lemma {:induction false} AddNothing(a: seq<Pick>, b: seq<Pick>)
    requires |b| == 0
    ensures a + b == a
  {
  }

  lemma {:induction false} EmptyLevel<T>(buckets: seq<seq<T>>, position: nat, count: nat)
    requires count <= |buckets| && NoneReaches(buckets, position)
    ensures |Level(buckets, position, count)| == 0
  {
    if count > 0 {
      EmptyLevel(buckets, position, count - 1);
      assert |buckets[count - 1]| <= position;
    }
  }

  lemma {:induction false} LevelOfThree<T>(buckets: seq<seq<T>>, position: nat)
    requires |buckets| == 3
    ensures |Level(buckets, position, 3)|
         == (if position < |buckets[0]| then 1 else 0) + (if position < |buckets[1]| then 1 else 0)
            + (if position < |buckets[2]| then 1 else 0)
  {
    assert |Level(buckets, position, 0)| == 0;
    assert |Level(buckets, position, 1)| == if position < |buckets[0]| then 1 else 0;
    assert |Level(buckets, position, 2)| == |Level(buckets, position, 1)| + if position < |buckets[1]| then 1 else 0;
  }

  lemma {:induction false} LevelsCount<T>(buckets: seq<seq<T>>, n: nat)
    requires |buckets| == 3
    ensures |Levels(buckets, n)| == Min(|buckets[0]|, n) + Min(|buckets[1]|, n) + Min(|buckets[2]|, n)
  {
    if n > 0 {
      LevelsCount(buckets, n - 1);
      LevelOfThree(buckets, n - 1);
    }
  }

  // ---------------------------------------------------------------- what the scan returns

  function Total<T>(buckets: seq<seq<T>>): nat
    requires |buckets| == 3
  {
    |buckets[0]| + |buckets[1]| + |buckets[2]|
  }

  /** The scan returns as many records as the limit allows and the buckets have. */
  lemma {:induction false} ScanLength<T>(buckets: seq<seq<T>>, limit: nat)
    requires |buckets| == 3
    ensures |Merged(buckets, limit)| == Min(limit, Total(buckets))
  {
    LevelsCount(buckets, limit);
  }

  /**
   * Each bucket is taken from the front: with a record, every older record of its bucket is taken too, and before it.
   */
  lemma {:induction false} OldestFirst<T>(buckets: seq<seq<T>>, limit: nat, i: nat, older: nat)
    requires i < |FirstPlaces(buckets, limit)| && older < FirstPlaces(buckets, limit)[i].position
    ensures var picks := FirstPlaces(buckets, limit);
            exists k :: 0 <= k < i && picks[k] == Pick(picks[i].bucket, older)
  {
    var all, picks := Levels(buckets, limit), FirstPlaces(buckets, limit);
    LevelsHold(buckets, limit);
    LevelsInOrder(buckets, limit);
    assert picks[i] == all[i];
    var p := Pick(picks[i].bucket, older);
    LevelsComplete(buckets, limit, p);
    var k :| 0 <= k < |all| && all[k] == p;
    assert k < i;
    assert picks[k] == p;
  }

  lemma {:induction false} LevelsBounded<T>(buckets: seq<seq<T>>, n: nat)
    requires |buckets| == 3
    ensures |Levels(buckets, n)| <= 3 * n
  {
    if n > 0 {
      LevelsBounded(buckets, n - 1);
      LevelOfThree(buckets, n - 1);
    }
  }

  /** The first n levels are taken whole when three times n fits the limit. */
  lemma {:induction false} EarlyLevelsTaken<T>(buckets: seq<seq<T>>, n: nat, limit: nat)
    requires |buckets| == 3 && 3 * n <= limit
    ensures Levels(buckets, n) <= FirstPlaces(buckets, limit)
  {
    LevelsBounded(buckets, n);
    LevelsGrow(buckets, n, limit);
  }

  /** No bucket is starved: each gets a third of the limit, or everything it has. */
  lemma {:induction false} Fair<T>(buckets: seq<seq<T>>, limit: nat, bucket: nat, position: nat)
    requires |buckets| == 3 && bucket < 3
    requires position < Min(|buckets[bucket]|, limit / 3)
    ensures Pick(bucket, position) in FirstPlaces(buckets, limit)
  {
    var p, early := Pick(bucket, position), Levels(buckets, position + 1);
    LevelsComplete(buckets, position + 1, p);
    EarlyLevelsTaken(buckets, position + 1, limit);
    InPrefix(early, FirstPlaces(buckets, limit), p);
  }

  lemma {:induction false} InPrefix(a: seq<Pick>, b: seq<Pick>, p: Pick)
    requires a <= b && p in a
    ensures p in b
  {
    var i :| 0 <= i < |a| && a[i] == p;
    assert b[i] == p;
  }

  /** The records of all buckets are different: within a bucket, and from bucket to bucket. */
  ghost predicate AllDistinct<T(!new)>(buckets: seq<seq<T>>) {
    forall p: Pick, q: Pick | Holds(buckets, p) && Holds(buckets, q) && p != q ::
      buckets[p.bucket][p.position] != buckets[q.bucket][q.position]
  }

  /** The places of a scan are all different. */
  lemma {:induction false} PlacesDiffer<T>(buckets: seq<seq<T>>, limit: nat, i: nat, j: nat)
    requires i < j < |FirstPlaces(buckets, limit)|
    ensures FirstPlaces(buckets, limit)[i] != FirstPlaces(buckets, limit)[j]
  {
    LevelsInOrder(buckets, limit);
    var all := Levels(buckets, limit);
    assert FirstPlaces(buckets, limit)[i] == all[i] && FirstPlaces(buckets, limit)[j] == all[j];
    assert Before(all[i], all[j]);
  }

  lemma {:induction false} NoRecordTwice<T(!new)>(buckets: seq<seq<T>>, limit: nat)
    requires AllDistinct(buckets)
    ensures forall i, j | 0 <= i < j < |Merged(buckets, limit)| ::
        Merged(buckets, limit)[i] != Merged(buckets, limit)[j]
  {
    var picks := FirstPlaces(buckets, limit);
    forall i, j | 0 <= i < j < |picks| ensures Merged(buckets, limit)[i] != Merged(buckets, limit)[j] {
      PlacesDiffer(buckets, limit, i, j);
      assert Holds(buckets, picks[i]) && Holds(buckets, picks[j]);
    }
  }

  // ---------------------------------------------------------------- the loop

  ghost predicate Scanned<T>(buckets: seq<seq<T>>, places: seq<Pick>, records: seq<T>) {
    && (forall i | 0 <= i < |places| :: Holds(buckets, places[i]))
    && records == Records(buckets, places)
  }

  lemma {:induction false} ScanOne<T>(buckets: seq<seq<T>>, places: seq<Pick>, records: seq<T>, p: Pick)
    requires Scanned(buckets, places, records) && Holds(buckets, p)
    ensures Scanned(buckets, places + [p], records + [buckets[p.bucket][p.position]])
  {
  }

  /** A scan that has its limit in hand part way through a level has what the full merge would be cut to. */
  lemma {:induction false} CutOff<T>(buckets: seq<seq<T>>, places: seq<Pick>, index: nat, b: nat, limit: nat)
    requires b <= |buckets| && index < limit
    requires places == Levels(buckets, index) + Level(buckets, index, b) && |places| == limit
    ensures places == FirstPlaces(buckets, limit)
  {
    PartOfNextLevels(buckets, index, b);
    LevelsGrow(buckets, index + 1, limit);
    PrefixIsCut(places, Levels(buckets, index + 1), Levels(buckets, limit));
    assert FirstPlaces(buckets, limit) == Levels(buckets, limit)[..limit];
  }

  lemma {:induction false} PartOfNextLevels<T>(buckets: seq<seq<T>>, index: nat, b: nat)
    requires b <= |buckets|
    ensures Levels(buckets, index) + Level(buckets, index, b) <= Levels(buckets, index + 1)
  {
    LevelPrefix(buckets, index, b, |buckets|);
    PrefixUnder(Levels(buckets, index), Level(buckets, index, b), Level(buckets, index, |buckets|));
  }

  lemma {:induction false} PrefixUnder(before: seq<Pick>, a: seq<Pick>, b: seq<Pick>)
    requires a <= b
    ensures before + a <= before + b
  {
  }

  lemma {:induction false} PrefixIsCut(places: seq<Pick>, some: seq<Pick>, all: seq<Pick>)
    requires places <= some <= all
    ensures places == all[..|places|]
  {
  }

  /** A scan that ran out of positions, or out of records, below its limit has all there is. */
  lemma {:induction false} Exhausted<T>(buckets: seq<seq<T>>, places: seq<Pick>, index: nat, limit: nat)
    requires places == Levels(buckets, index) && |places| < limit && index <= limit
    requires index == limit || NoneReaches(buckets, index)
    ensures places == FirstPlaces(buckets, limit)
  {
    if index < limit { LevelsEnd(buckets, index, limit); }
  }

  lemma {:induction false} LevelPrefix<T>(buckets: seq<seq<T>>, position: nat, b: nat, count: nat)
    requires b <= count <= |buckets|
    ensures Level(buckets, position, b) <= Level(buckets, position, count)
    decreases count - b
  {
    if b < count {
      LevelPrefix(buckets, position, b, count - 1);
      PrefixGrows(Level(buckets, position, b), Level(buckets, position, count - 1),
          PlaceIn(buckets, position, count - 1));
    }
  }

  lemma {:induction false} Rejoin(a: seq<Pick>, b: seq<Pick>, c: seq<Pick>)
    ensures a + (b + c) == (a + b) + c
  {
  }

  /** The inner loop: one record of every bucket that is long enough, until the limit is in hand. */
  method ScanLevel<T>(buckets: seq<seq<T>>, limit: nat, index: nat, records: seq<T>)
    returns (after: seq<T>, madeProgress: bool, full: bool)
    requires index < limit && |Levels(buckets, index)| < limit && Scanned(buckets, Levels(buckets, index), records)
    ensures full ==> after == Merged(buckets, limit)
    ensures !full ==> |Levels(buckets, index + 1)| < limit && Scanned(buckets, Levels(buckets, index + 1), after)
    ensures !full && !madeProgress ==> NoneReaches(buckets, index)
  {
    after, madeProgress, full := records, false, false;
    ghost var places := Levels(buckets, index);
    AddNothing(places, Level(buckets, index, 0));
    for b := 0 to |buckets|
      invariant places == Levels(buckets, index) + Level(buckets, index, b) && |places| < limit
      invariant Scanned(buckets, places, after)
      invariant !madeProgress ==> forall d | 0 <= d < b :: |buckets[d]| <= index
    {
      Rejoin(Levels(buckets, index), Level(buckets, index, b), PlaceIn(buckets, index, b));
      if index < |buckets[b]| {
        ScanOne(buckets, places, after, Pick(b, index));
        places := places + [Pick(b, index)];
        after := after + [buckets[b][index]];
        madeProgress := true;
        if |after| >= limit {
          CutOff(buckets, places, index, b + 1, limit);
          return after, true, true;
        }
      } else {
        AddNothing(places, PlaceIn(buckets, index, b));
      }
    }
  }

  method ScanCandidates<T>(buckets: seq<seq<T>>, limit: int) returns (records: seq<T>)
    ensures limit <= 0 ==> records == []
    ensures limit > 0 ==> records == Merged(buckets, limit)
  {
    records := [];
    if limit <= 0 {
      return;
    }
    for index := 0 to limit
      invariant |Levels(buckets, index)| < limit && Scanned(buckets, Levels(buckets, index), records)
    {
      var madeProgress, full;
      records, madeProgress, full := ScanLevel(buckets, limit, index, records);
      if full {
        return;
      }
      if !madeProgress {
        LevelsEnd(buckets, index, index + 1);
        Exhausted(buckets, Levels(buckets, index), index, limit);
        return;
      }
    }
    Exhausted(buckets, Levels(buckets, limit), limit, limit);
  }
}
