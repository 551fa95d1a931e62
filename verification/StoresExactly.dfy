/** For which calls the two settlement stores give the same answers: an exact condition. */
module StoresExactly {
  import opened Wrappers
  import opened Settlement
  import opened Rows
  import opened Stores

  // ---------------------------------------------------------------- the condition

  /** One replay key to the database and two to the in-memory index, from two profiles. */
  predicate Pair(x: Call, y: Call) {
    ReplayKeyOf(x) == ReplayKeyOf(y) && RawKeyOf(x) != RawKeyOf(y) && ProfileKeyOf(x) != ProfileKeyOf(y)
  }

  /** A call that one store finds by its profile and the other by its replay key, on different records. */
  predicate Triple(x: Call, y: Call, z: Call) {
    && ProfileKeyOf(x) == ProfileKeyOf(z) != ProfileKeyOf(y)
    && ReplayKeyOf(y) == ReplayKeyOf(z) != ReplayKeyOf(x)
  }

  ghost predicate NeverParts(calls: set<Call>) {
    && (forall x, y | x in calls && y in calls :: !Pair(x, y))
    && (forall x, y, z | x in calls && y in calls && z in calls :: !Triple(x, y, z))
  }

  ghost predicate From(calls: set<Call>, xs: seq<Settle>) {
    forall i | 0 <= i < |xs| :: xs[i].call in calls
  }

  /** The stores answer every sequence of settle calls alike. */
  ghost predicate AnswerAlike(calls: set<Call>) {
    forall xs | From(calls, xs) :: MemoryRun(EMPTY_MEMORY, xs).1 == TablesRun(EMPTY_TABLES, xs).1
  }

  // ---------------------------------------------------------------- the same records, under different ids

  ghost predicate Unique(t: Tables) {
    && (forall i | i in t.rows :: i < t.nextRecord)
    && (forall i, j | i in t.rows && j in t.rows && ReplayKeyOf(t.rows[i].call) == ReplayKeyOf(t.rows[j].call) ::
        i == j)
    && (forall i, j | i in t.rows && j in t.rows && ProfileKeyOf(t.rows[i].call) == ProfileKeyOf(t.rows[j].call) ::
        i == j)
  }

  /** The row's profile leads to the same record in memory. */
  predicate Twin(m: Memory, row: Record) {
    var p := ProfileKeyOf(row.call);
    p in m.records && m.records[p] in m.objects && m.objects[m.records[p]] == row
  }

  ghost predicate Twinned(calls: set<Call>, m: Memory, t: Tables) {
    forall i | i in t.rows :: Twin(m, t.rows[i]) && t.rows[i].call in calls
  }

  ghost predicate Covered(m: Memory, t: Tables) {
    forall p | p in m.records :: HasProfileRow(t, p)
  }

  ghost predicate HasProfileRow(t: Tables, p: ProfileKey) {
    exists i :: RowOfProfile(t, i, p)
  }

  ghost predicate Alike(calls: set<Call>, m: Memory, t: Tables) {
    MemoryOk(m) && Unique(t) && Twinned(calls, m, t) && Covered(m, t)
  }

  /** Both stores come to the same record, or to none. */
  predicate SameFound(m: Memory, t: Tables, call: Call) {
    var a, b := MemoryFind(m, call), TablesFind(t, call);
    (a.Some? <==> b.Some?) && (a.Some? ==> a.value in m.objects && m.objects[a.value] == t.rows[b.value])
  }

  lemma ProfileRow(calls: set<Call>, m: Memory, t: Tables, p: ProfileKey) returns (i: nat)
    requires Alike(calls, m, t) && p in m.records
    ensures RowOfProfile(t, i, p) && m.records[p] in m.objects && m.objects[m.records[p]] == t.rows[i]
  {
    assert HasProfileRow(t, p);
    i :| RowOfProfile(t, i, p);
    assert Twin(m, t.rows[i]);
  }

  lemma FoundAlike(calls: set<Call>, m: Memory, t: Tables, call: Call)
    requires Alike(calls, m, t) && NeverParts(calls) && call in calls
    ensures SameFound(m, t, call)
  {
    FirstForExact(t, ReplayKeyOf(call), 0);
    FirstOfProfileExact(t, ProfileKeyOf(call), 0);
    var p := ProfileKeyOf(call);
    if p in m.records {
      FoundByProfile(calls, m, t, call);
    } else {
      assert forall i | i in t.rows :: Twin(m, t.rows[i]);
      assert FirstOfProfile(t, p, 0).None?;
      if RawKeyOf(call) in m.index {
        FoundByIndex(calls, m, t, call);
      } else {
        FoundNowhere(calls, m, t, call);
      }
    }
  }

  lemma FoundByProfile(calls: set<Call>, m: Memory, t: Tables, call: Call)
    requires Alike(calls, m, t) && NeverParts(calls) && call in calls && ProfileKeyOf(call) in m.records
    ensures SameFound(m, t, call)
  {
    var p, key := ProfileKeyOf(call), ReplayKeyOf(call);
    FirstForExact(t, key, 0);
    FirstOfProfileExact(t, p, 0);
    var a := ProfileRow(calls, m, t, p);
    assert a < t.nextRecord;
    var b := FirstFor(t, key, 0);
    if b.Some? && b.value != a {
      assert ProfileKeyOf(t.rows[b.value].call) != p;
      assert Triple(t.rows[a].call, t.rows[b.value].call, call);
      assert false;
    }
    assert b.None? ==> FirstOfProfile(t, p, 0) == Some(a);
  }

  lemma FoundByIndex(calls: set<Call>, m: Memory, t: Tables, call: Call)
    requires Alike(calls, m, t) && ProfileKeyOf(call) !in m.records && RawKeyOf(call) in m.index
    ensures SameFound(m, t, call)
  {
    var key := ReplayKeyOf(call);
    FirstForExact(t, key, 0);
    assert Indexed(m, RawKeyOf(call));
    var b := ProfileRow(calls, m, t, m.index[RawKeyOf(call)]);
    assert RowFor(t, b, key) && b < t.nextRecord;
    assert FirstFor(t, key, 0) == Some(b);
  }

  lemma FoundNowhere(calls: set<Call>, m: Memory, t: Tables, call: Call)
    requires Alike(calls, m, t) && NeverParts(calls) && call in calls
    requires ProfileKeyOf(call) !in m.records && RawKeyOf(call) !in m.index
    ensures FirstFor(t, ReplayKeyOf(call), 0).None?
  {
    FirstForExact(t, ReplayKeyOf(call), 0);
    var b := FirstFor(t, ReplayKeyOf(call), 0);
    if b.Some? {
      var row := t.rows[b.value];
      assert Twin(m, row);
      assert Named(m, m.records[ProfileKeyOf(row.call)]);
      assert Pair(row.call, call);
    }
  }

  // ---------------------------------------------------------------- one settle call

  /** The same record is rewritten in both, with its identity kept. */
  lemma {:induction false} RewritingTwins(calls: set<Call>, m: Memory, t: Tables, k: nat, i: nat, row: Record,
      m': Memory, t': Tables)
    requires Unique(t) && Twinned(calls, m, t) && k in m.objects && i in t.rows && row.call == t.rows[i].call
    requires ProfileKeyOf(row.call) in m.records && m.records[ProfileKeyOf(row.call)] == k
    requires m'.records == m.records && m'.objects == m.objects[k := row]
    requires forall p, q | p in m.records && q in m.records && m.records[p] == m.records[q] :: p == q
    requires t'.rows == t.rows[i := row] && t'.nextRecord >= t.nextRecord
    ensures Unique(t') && Twinned(calls, m', t')
  {
    forall j | j in t'.rows ensures Twin(m', t'.rows[j]) && t'.rows[j].call in calls {
      assert Twin(m, t.rows[j]);
    }
  }

  lemma {:induction false} RewritingCovers(m: Memory, t: Tables, i: nat, row: Record, m': Memory, t': Tables)
    requires Covered(m, t) && m'.records == m.records && i in t.rows && row.call == t.rows[i].call
    requires t'.rows == t.rows[i := row]
    ensures Covered(m', t')
  {
    forall p | p in m'.records ensures HasProfileRow(t', p) {
      assert HasProfileRow(t, p);
      var j :| RowOfProfile(t, j, p);
      assert RowOfProfile(t', j, p);
    }
  }

  /** A record for a payment new to both is inserted in both. */
  lemma {:induction false} InsertingTwins(calls: set<Call>, m: Memory, t: Tables, row: Record, m': Memory, t': Tables)
    requires Unique(t) && Twinned(calls, m, t) && row.call in calls && m.nextRecord !in m.objects
    requires forall i | i in t.rows ::
               ReplayKeyOf(t.rows[i].call) != ReplayKeyOf(row.call) &&
                   ProfileKeyOf(t.rows[i].call) != ProfileKeyOf(row.call)
    requires m'.records == m.records[ProfileKeyOf(row.call) := m.nextRecord]
    requires m'.objects == m.objects[m.nextRecord := row]
    requires t'.rows == t.rows[t.nextRecord := row] && t'.nextRecord == t.nextRecord + 1
    ensures Unique(t') && Twinned(calls, m', t')
  {
    forall j | j in t'.rows ensures Twin(m', t'.rows[j]) && t'.rows[j].call in calls {
      if j != t.nextRecord { assert Twin(m, t.rows[j]); }
    }
  }

  lemma {:induction false} InsertingCovers(m: Memory, t: Tables, row: Record, m': Memory, t': Tables)
    requires Covered(m, t) && Unique(t) && m'.records == m.records[ProfileKeyOf(row.call) := m.nextRecord]
    requires t'.rows == t.rows[t.nextRecord := row]
    ensures Covered(m', t')
  {
    forall p | p in m'.records ensures HasProfileRow(t', p) {
      if p == ProfileKeyOf(row.call) {
        assert RowOfProfile(t', t.nextRecord, p);
      } else {
        assert HasProfileRow(t, p);
        var j :| RowOfProfile(t, j, p);
        assert RowOfProfile(t', j, p);
      }
    }
  }

  lemma {:induction false} RecordsInjective(m: Memory)
    requires MemoryOk(m)
    ensures forall p, q | p in m.records && q in m.records && m.records[p] == m.records[q] :: p == q
    ensures forall k | k in m.objects :: Named(m, k)
    ensures m.nextRecord !in m.objects
  {
    forall p, q | p in m.records && q in m.records && m.records[p] == m.records[q] ensures p == q {
      assert Listed(m, p) && Listed(m, q);
    }
    assert m.nextRecord in m.objects ==> Named(m, m.nextRecord);
  }

  predicate SameAnswer(m: Memory, t: Tables, x: Settle) {
    MemorySettle(m, x).1 == TablesSettle(t, x).1 && MemorySettle(m, x).2 == TablesSettle(t, x).2
  }

  /** What a settle call that finds a record does to either store. */
  lemma {:induction false} DuplicateEffect(m: Memory, t: Tables, x: Settle)
    requires SameFound(m, t, x.call) && MemoryFind(m, x.call).Some?
    ensures var k, i := MemoryFind(m, x.call).value, TablesFind(t, x.call).value;
            var row := BumpDuplicate(t.rows[i], x.claimedAt);
            var m', t' := MemorySettle(m, x).0, TablesSettle(t, x).0;
            && m'.records == m.records && m'.objects == m.objects[k := row]
            && t'.rows == t.rows[i := row] && t'.nextRecord >= t.nextRecord
    ensures SameAnswer(m, t, x)
  {
  }

  lemma {:induction false} DuplicateAlike(calls: set<Call>, m: Memory, t: Tables, x: Settle)
    requires Alike(calls, m, t) && SameFound(m, t, x.call) && MemoryFind(m, x.call).Some?
    ensures Alike(calls, MemorySettle(m, x).0, TablesSettle(t, x).0) && SameAnswer(m, t, x)
  {
    var k, i := MemoryFind(m, x.call).value, TablesFind(t, x.call).value;
    var row := BumpDuplicate(t.rows[i], x.claimedAt);
    var m', t' := MemorySettle(m, x).0, TablesSettle(t, x).0;
    DuplicateEffect(m, t, x);
    RecordsInjective(m);
    assert Named(m, k);
    SettleKeepsMemoryOk(m, x);
    RewritingTwins(calls, m, t, k, i, row, m', t');
    RewritingCovers(m, t, i, row, m', t');
  }

  /** The record that a fresh settle call leaves. */
  function FinishedRow(x: Settle): Record {
    var record := NewRecord(x.call, x.claimedAt);
    var f := FinalisationFor(record, x.reply, x.payloadPayer);
    Rewritten(record, f.status, f.transaction, f.payer, f.error, x.finishedAt)
  }

  lemma {:induction false} FreshEffect(m: Memory, t: Tables, x: Settle)
    requires MemoryFind(m, x.call).None? && TablesFind(t, x.call).None?
    ensures var m', t' := MemorySettle(m, x).0, TablesSettle(t, x).0;
            && m'.records == m.records[ProfileKeyOf(x.call) := m.nextRecord]
            && m'.index == m.index[RawKeyOf(x.call) := ProfileKeyOf(x.call)]
            && m'.objects == m.objects[m.nextRecord := FinishedRow(x)] && m'.nextRecord == m.nextRecord + 1
            && t'.rows == t.rows[t.nextRecord := FinishedRow(x)] && t'.nextRecord == t.nextRecord + 1
    ensures FinishedRow(x).call == x.call && SameAnswer(m, t, x)
  {
    MarksAgree(x);
  }

  lemma {:induction false} FoundNothing(t: Tables, call: Call)
    requires Unique(t) && TablesFind(t, call).None?
    ensures forall i | i in t.rows ::
              ReplayKeyOf(t.rows[i].call) != ReplayKeyOf(call) && ProfileKeyOf(t.rows[i].call) != ProfileKeyOf(call)
  {
    FirstForExact(t, ReplayKeyOf(call), 0);
    FirstOfProfileExact(t, ProfileKeyOf(call), 0);
    forall i | i in t.rows
      ensures ReplayKeyOf(t.rows[i].call) != ReplayKeyOf(call) && ProfileKeyOf(t.rows[i].call) != ProfileKeyOf(call)
    {
      assert !RowFor(t, i, ReplayKeyOf(call)) && !RowOfProfile(t, i, ProfileKeyOf(call));
    }
  }

  lemma {:induction false} FreshAlike(calls: set<Call>, m: Memory, t: Tables, x: Settle)
    requires Alike(calls, m, t) && SameFound(m, t, x.call) && MemoryFind(m, x.call).None? && x.call in calls
    ensures Alike(calls, MemorySettle(m, x).0, TablesSettle(t, x).0) && SameAnswer(m, t, x)
  {
    var m', t' := MemorySettle(m, x).0, TablesSettle(t, x).0;
    FreshEffect(m, t, x);
    RecordsInjective(m);
    FoundNothing(t, x.call);
    SettleKeepsMemoryOk(m, x);
    InsertingTwins(calls, m, t, FinishedRow(x), m', t');
    InsertingCovers(m, t, FinishedRow(x), m', t');
  }

  lemma {:induction false} RunsAlike(calls: set<Call>, xs: seq<Settle>)
    requires NeverParts(calls) && From(calls, xs)
    ensures Alike(calls, MemoryRun(EMPTY_MEMORY, xs).0, TablesRun(EMPTY_TABLES, xs).0)
    ensures MemoryRun(EMPTY_MEMORY, xs).1 == TablesRun(EMPTY_TABLES, xs).1
  {
    if xs != [] {
      var rest, x := xs[..|xs| - 1], xs[|xs| - 1];
      RunsAlike(calls, rest);
      var m, t := MemoryRun(EMPTY_MEMORY, rest).0, TablesRun(EMPTY_TABLES, rest).0;
      FoundAlike(calls, m, t, x.call);
      if MemoryFind(m, x.call).Some? {
        DuplicateAlike(calls, m, t, x);
      } else {
        FreshAlike(calls, m, t, x);
      }
    }
  }

  // ---------------------------------------------------------------- where they part

  /** A settle call at time zero whose provider settles it with the given transaction. */
  function Settling(call: Call, transaction: string): Settle {
    Settle(call, 0, None, ProviderReplied(true, None, Some(transaction), None, None), 0)
  }

  lemma {:induction false} OneAnswerEach(xs: seq<Settle>)
    ensures |MemoryRun(EMPTY_MEMORY, xs).1| == |xs| == |TablesRun(EMPTY_TABLES, xs).1|
  {
    if xs != [] { OneAnswerEach(xs[..|xs| - 1]); }
  }

  /** Runs that differ on one more call differ. */
  lemma PartAtLast(xs: seq<Settle>, x: Settle)
    requires var m, t := MemorySettle(MemoryRun(EMPTY_MEMORY, xs).0, x), TablesSettle(TablesRun(EMPTY_TABLES, xs).0, x);
             m.1 != t.1 || m.2 != t.2
    ensures MemoryRun(EMPTY_MEMORY, xs + [x]).1 != TablesRun(EMPTY_TABLES, xs + [x]).1
  {
    OneAnswerEach(xs);
    assert (xs + [x])[..|xs|] == xs;
    var m, t := MemorySettle(MemoryRun(EMPTY_MEMORY, xs).0, x), TablesSettle(TablesRun(EMPTY_TABLES, xs).0, x);
    assert MemoryRun(EMPTY_MEMORY, xs + [x]).1[|xs|] == (m.1, m.2);
    assert TablesRun(EMPTY_TABLES, xs + [x]).1[|xs|] == (t.1, t.2);
  }

  function SettledRow(call: Call, transaction: string): Record {
    FinishedRow(Settling(call, transaction))
  }

  /** Both stores after one call. */
  lemma AfterOne(x: Call)
    ensures var xs := [Settling(x, "a")];
            var m, t := MemoryRun(EMPTY_MEMORY, xs).0, TablesRun(EMPTY_TABLES, xs).0;
            && m.records == map[ProfileKeyOf(x) := 1] && m.index == map[RawKeyOf(x) := ProfileKeyOf(x)]
            && m.objects == map[1 := SettledRow(x, "a")] && m.nextRecord == 2
            && t.rows == map[1 := SettledRow(x, "a")] && t.nextRecord == 2
  {
    var xs := [Settling(x, "a")];
    assert xs[..0] == [];
    FirstForExact(EMPTY_TABLES, ReplayKeyOf(x), 0);
    FirstOfProfileExact(EMPTY_TABLES, ProfileKeyOf(x), 0);
    FreshEffect(EMPTY_MEMORY, EMPTY_TABLES, Settling(x, "a"));
  }

  /** The second call of such a pair is a duplicate to the database and a fresh claim in memory. */
  lemma PairParts(x: Call, y: Call)
    requires Pair(x, y)
    ensures var xs := [Settling(x, "a"), Settling(y, "b")];
            MemoryRun(EMPTY_MEMORY, xs).1 != TablesRun(EMPTY_TABLES, xs).1
  {
    var xs := [Settling(x, "a")];
    var t := TablesRun(EMPTY_TABLES, xs).0;
    AfterOne(x);
    FirstForExact(t, ReplayKeyOf(y), 0);
    assert RowFor(t, 1, ReplayKeyOf(y));
    PartAtLast(xs, Settling(y, "b"));
    assert xs + [Settling(y, "b")] == [Settling(x, "a"), Settling(y, "b")];
  }

  /** Both stores after two calls that have nothing in common. */
  lemma AfterTwo(x: Call, y: Call)
    requires ProfileKeyOf(x) != ProfileKeyOf(y) && ReplayKeyOf(x) != ReplayKeyOf(y)
    ensures var xs := [Settling(x, "a"), Settling(y, "b")];
            var m, t := MemoryRun(EMPTY_MEMORY, xs).0, TablesRun(EMPTY_TABLES, xs).0;
            && m.records == map[ProfileKeyOf(x) := 1, ProfileKeyOf(y) := 2]
            && m.objects == map[1 := SettledRow(x, "a"), 2 := SettledRow(y, "b")]
            && t.rows == map[1 := SettledRow(x, "a"), 2 := SettledRow(y, "b")] && t.nextRecord == 3
  {
    var one, xs := [Settling(x, "a")], [Settling(x, "a"), Settling(y, "b")];
    var t := TablesRun(EMPTY_TABLES, one).0;
    AfterOne(x);
    assert xs[..1] == one;
    FirstForExact(t, ReplayKeyOf(y), 0);
    FirstOfProfileExact(t, ProfileKeyOf(y), 0);
    FreshEffect(MemoryRun(EMPTY_MEMORY, one).0, t, Settling(y, "b"));
  }

  /**
   * The third call of such a triple is answered from the first call's record in memory, from the second's in the
   * database.
   */
  lemma TripleParts(x: Call, y: Call, z: Call)
    requires Triple(x, y, z)
    ensures var xs := [Settling(x, "a"), Settling(y, "b"), Settling(z, "c")];
            MemoryRun(EMPTY_MEMORY, xs).1 != TablesRun(EMPTY_TABLES, xs).1
  {
    var xs := [Settling(x, "a"), Settling(y, "b")];
    AfterTwo(x, y);
    LastOfTriple(x, y, z, MemoryRun(EMPTY_MEMORY, xs).0, TablesRun(EMPTY_TABLES, xs).0);
    PartAtLast(xs, Settling(z, "c"));
    assert xs + [Settling(z, "c")] == [Settling(x, "a"), Settling(y, "b"), Settling(z, "c")];
  }

  lemma LastOfTriple(x: Call, y: Call, z: Call, m: Memory, t: Tables)
    requires Triple(x, y, z) && m.records == map[ProfileKeyOf(x) := 1, ProfileKeyOf(y) := 2]
    requires m.objects == map[1 := SettledRow(x, "a"), 2 := SettledRow(y, "b")]
    requires t.rows == map[1 := SettledRow(x, "a"), 2 := SettledRow(y, "b")] && t.nextRecord == 3
    ensures MemorySettle(m, Settling(z, "c")).2.transaction == Some("a")
    ensures TablesSettle(t, Settling(z, "c")).2.transaction == Some("b")
  {
    FirstForExact(t, ReplayKeyOf(z), 0);
    assert RowFor(t, 2, ReplayKeyOf(z)) && !RowFor(t, 1, ReplayKeyOf(z));
    assert MemoryFind(m, z) == Some(1) && TablesFind(t, z) == Some(2);
  }

  lemma {:induction false} PartedCallsDiffer(calls: set<Call>) returns (xs: seq<Settle>)
    requires !NeverParts(calls)
    ensures From(calls, xs) && MemoryRun(EMPTY_MEMORY, xs).1 != TablesRun(EMPTY_TABLES, xs).1
  {
    if x, y :| x in calls && y in calls && Pair(x, y) {
      PairParts(x, y);
      xs := [Settling(x, "a"), Settling(y, "b")];
    } else {
      var x, y, z :| x in calls && y in calls && z in calls && Triple(x, y, z);
      TripleParts(x, y, z);
      xs := [Settling(x, "a"), Settling(y, "b"), Settling(z, "c")];
    }
  }

  /** The stores answer alike, whatever the sequence of calls, exactly when there is no such pair and no such triple. */
  lemma {:induction false} AnswerAlikeExactly(calls: set<Call>)
    ensures AnswerAlike(calls) <==> NeverParts(calls)
  {
    if NeverParts(calls) {
      forall xs | From(calls, xs) ensures MemoryRun(EMPTY_MEMORY, xs).1 == TablesRun(EMPTY_TABLES, xs).1 {
        RunsAlike(calls, xs);
      }
    } else {
      var xs := PartedCallsDiffer(calls);
    }
  }

  /** Fixed terms leave no such pair and no such triple. */
  lemma FixedTermsNeverPart(terms: string -> Terms, calls: set<Call>)
    requires forall x | x in calls :: Fixed(terms, x)
    ensures NeverParts(calls)
  {
    forall x, y | x in calls && y in calls && x.fingerprint == y.fingerprint
      ensures Terms(x.provider, x.scheme, x.network) == Terms(y.provider, y.scheme, y.network)
    {
      assert Fixed(terms, x) && Fixed(terms, y);
    }
  }
}
