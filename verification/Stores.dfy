/** The two settlement stores, one settle call at a time, as functions of their whole state. */
module Stores {
  import opened Wrappers
  import opened Settlement
  import opened Rows
  import Outcomes

  /** The in-memory replay key tells an absent scheme from an empty one. */
  datatype RawKey = RawKey(
    seller: string, provider: string, scheme: Option<string>, network: Option<string>, fingerprint: string)

  function RawKeyOf(call: Call): RawKey {
    RawKey(call.seller, call.provider, call.scheme, call.network, call.fingerprint)
  }

  /**
   * The in-memory store. Its dictionaries hold references: `objects` are the record objects by record id, `records`
   * the dictionary from profile keys to them, and `index` the replay index.
   */
  datatype Memory = Memory(
    records: map<ProfileKey, nat>,
    index: map<RawKey, ProfileKey>,
    objects: map<nat, Record>,
    attempts: map<nat, Attempt>,
    nextRecord: nat,
    nextAttempt: nat)

  const EMPTY_MEMORY := Memory(map[], map[], map[], map[], 1, 1)

  /** The database store: two tables and their sequences. */
  datatype Tables = Tables(rows: map<nat, Record>, attempts: map<nat, Attempt>, nextRecord: nat, nextAttempt: nat)

  const EMPTY_TABLES := Tables(map[], map[], 1, 1)

  // ---------------------------------------------------------------- in-memory claim

  datatype Claiming<S> = Claiming(store: S, id: nat, record: Record, claim: Claim)

  /** The record object's two dictionary entries lead back to it. */
  ghost predicate Named(m: Memory, id: nat) {
    && id in m.objects && id < m.nextRecord
    && ProfileKeyOf(m.objects[id].call) in m.records && m.records[ProfileKeyOf(m.objects[id].call)] == id
    && RawKeyOf(m.objects[id].call) in m.index &&
        m.index[RawKeyOf(m.objects[id].call)] == ProfileKeyOf(m.objects[id].call)
  }

  ghost predicate Listed(m: Memory, k: ProfileKey) {
    k in m.records && m.records[k] in m.objects && ProfileKeyOf(m.objects[m.records[k]].call) == k
  }

  ghost predicate Indexed(m: Memory, k: RawKey) {
    k in m.index && Listed(m, m.index[k]) && RawKeyOf(m.objects[m.records[m.index[k]]].call) == k
  }

  /** The dictionaries hold exactly the record objects. */
  ghost predicate MemoryOk(m: Memory) {
    && (forall id | id in m.objects :: Named(m, id))
    && (forall k | k in m.records :: Listed(m, k))
    && (forall k | k in m.index :: Indexed(m, k))
  }

  function Dereference(m: Memory, k: ProfileKey): Option<nat> {
    if k in m.records && m.records[k] in m.objects then Some(m.records[k]) else None
  }

  /** By profile first, then across profiles through the replay index. */
  function MemoryFind(m: Memory, call: Call): Option<nat> {
    var own := Dereference(m, ProfileKeyOf(call));
    if own.Some? then own
    else if RawKeyOf(call) in m.index then Dereference(m, m.index[RawKeyOf(call)])
    else None
  }

  function MemoryDuplicate(m: Memory, id: nat, now: Time): Memory
    requires id in m.objects
  {
    m.(objects := m.objects[id := BumpDuplicate(m.objects[id], now)])
  }

  function MemoryInsert(m: Memory, call: Call, now: Time): Memory {
    m.(records := m.records[ProfileKeyOf(call) := m.nextRecord],
       index := m.index[RawKeyOf(call) := ProfileKeyOf(call)],
       objects := m.objects[m.nextRecord := NewRecord(call, now)],
       nextRecord := m.nextRecord + 1)
  }

  function MemoryClaim(m: Memory, call: Call, now: Time): Claiming<Memory> {
    var found := MemoryFind(m, call);
    if found.Some? then
      var after := MemoryDuplicate(m, found.value, now);
      Claiming(after, found.value, after.objects[found.value], ClaimForStatus(m.objects[found.value].status))
    else
      Claiming(MemoryInsert(m, call, now), m.nextRecord, NewRecord(call, now), Claimed)
  }

  // ---------------------------------------------------------------- database claim

  predicate RowFor(t: Tables, id: nat, key: ReplayKey) {
    id in t.rows && ReplayKeyOf(t.rows[id].call) == key
  }

  predicate RowOfProfile(t: Tables, id: nat, key: ProfileKey) {
    id in t.rows && ProfileKeyOf(t.rows[id].call) == key
  }

  /** ORDER BY id LIMIT 1 over the ids from `id` up. */
  function FirstFor(t: Tables, key: ReplayKey, id: nat): Option<nat>
    decreases t.nextRecord - id
  {
    if id >= t.nextRecord then None
    else if RowFor(t, id, key) then Some(id)
    else FirstFor(t, key, id + 1)
  }

  function FirstOfProfile(t: Tables, key: ProfileKey, id: nat): Option<nat>
    decreases t.nextRecord - id
  {
    if id >= t.nextRecord then None
    else if RowOfProfile(t, id, key) then Some(id)
    else FirstOfProfile(t, key, id + 1)
  }

  lemma {:induction false} FirstForExact(t: Tables, key: ReplayKey, id: nat)
    ensures FirstFor(t, key, id).Some? ==>
              && RowFor(t, FirstFor(t, key, id).value, key) && id <= FirstFor(t, key, id).value
              && forall j: nat | id <= j < FirstFor(t, key, id).value :: !RowFor(t, j, key)
    ensures FirstFor(t, key, id).None? ==> forall j: nat | id <= j < t.nextRecord :: !RowFor(t, j, key)
    decreases t.nextRecord - id
  {
    if id < t.nextRecord { FirstForExact(t, key, id + 1); }
  }

  lemma {:induction false} FirstOfProfileExact(t: Tables, key: ProfileKey, id: nat)
    ensures FirstOfProfile(t, key, id).Some? ==>
              && RowOfProfile(t, FirstOfProfile(t, key, id).value, key) && id <= FirstOfProfile(t, key, id).value
              && forall j: nat | id <= j < FirstOfProfile(t, key, id).value :: !RowOfProfile(t, j, key)
    ensures FirstOfProfile(t, key, id).None? ==> forall j: nat | id <= j < t.nextRecord :: !RowOfProfile(t, j, key)
    decreases t.nextRecord - id
  {
    if id < t.nextRecord { FirstOfProfileExact(t, key, id + 1); }
  }

  /** The replay look-up, and failing that the row whose unique key the insert runs into. */
  function TablesFind(t: Tables, call: Call): (found: Option<nat>)
    ensures found.Some? ==> found.value in t.rows
  {
    FirstForExact(t, ReplayKeyOf(call), 0);
    FirstOfProfileExact(t, ProfileKeyOf(call), 0);
    var first := FirstFor(t, ReplayKeyOf(call), 0);
    if first.Some? then first else FirstOfProfile(t, ProfileKeyOf(call), 0)
  }

  predicate Conflicts(t: Tables, call: Call) {
    FirstFor(t, ReplayKeyOf(call), 0).None? && FirstOfProfile(t, ProfileKeyOf(call), 0).Some?
  }

  function TablesDuplicate(t: Tables, id: nat, now: Time): Tables
    requires id in t.rows
  {
    t.(rows := t.rows[id := BumpDuplicate(t.rows[id], now)])
  }

  function TablesInsert(t: Tables, call: Call, now: Time): Tables {
    t.(rows := t.rows[t.nextRecord := NewRecord(call, now)],
       attempts := t.attempts[t.nextAttempt := NewAttempt(t.nextRecord, now)],
       nextRecord := t.nextRecord + 1, nextAttempt := t.nextAttempt + 1)
  }

  /** A conflicting insert spends a sequence value as well. */
  function TablesClaim(t: Tables, call: Call, now: Time): Claiming<Tables> {
    var found := TablesFind(t, call);
    if found.Some? then
      var after := TablesDuplicate(t, found.value, now);
      Claiming(if Conflicts(t, call) then after.(nextRecord := t.nextRecord + 1) else after,
               found.value, t.rows[found.value], ClaimForStatus(t.rows[found.value].status))
    else
      Claiming(TablesInsert(t, call, now), t.nextRecord, NewRecord(call, now), Claimed)
  }

  // ---------------------------------------------------------------- one settle call

  datatype Settle = Settle(call: Call, claimedAt: Time, payloadPayer: Option<string>, reply: ProviderReply,
      finishedAt: Time)

  /** The marks the in-memory store makes: it leaves alone the fields that a status does not concern. */
  function MemoryMark(row: Record, f: Finalisation, stamp: Time): Record {
    match f.status
    case Settled | Submitted =>
        row.(status := f.status, transaction := f.transaction, payer := f.payer, updatedAt := stamp)
    case _ => row.(status := f.status, error := f.error, updatedAt := stamp)
  }

  /** From the claimed record on: the attempt, the mark and the end of the attempt. */
  function MemoryFinish(m: Memory, id: nat, record: Record, x: Settle): Memory {
    var f := FinalisationFor(record, x.reply, x.payloadPayer);
    var finished := FinishAttempt(NewAttempt(id, x.claimedAt), f.attemptStatus, f.transaction, f.error, x.finishedAt);
    m.(objects := m.objects[id := MemoryMark(record, f, x.finishedAt)],
       attempts := m.attempts[m.nextAttempt := finished],
       nextAttempt := m.nextAttempt + 1)
  }

  function MemorySettle(m: Memory, x: Settle): (Memory, Claim, SettleOutcome) {
    var c := MemoryClaim(m, x.call, x.claimedAt);
    if c.claim != Claimed then (c.store, c.claim, CachedSettlement(c.record))
    else (MemoryFinish(c.store, c.id, c.record, x), c.claim, FinalisationFor(c.record, x.reply, x.payloadPayer).outcome)
  }

  function TablesSettle(t: Tables, x: Settle): (Tables, Claim, SettleOutcome) {
    var c := TablesClaim(t, x.call, x.claimedAt);
    if c.claim != Claimed then (c.store, c.claim, CachedSettlement(c.record))
    else
      var f := FinalisationFor(c.record, x.reply, x.payloadPayer);
      var a := t.nextAttempt;
      (c.store.(rows := c.store.rows[c.id := Rewritten(c.record, f.status, f.transaction, f.payer, f.error,
          x.finishedAt)],
                attempts := c.store.attempts[a :=
                  FinishAttempt(c.store.attempts[a], f.attemptStatus, f.transaction, f.error, x.finishedAt)]),
       c.claim, f.outcome)
  }

  // ---------------------------------------------------------------- what a settle call means

  /**
   * A call that found a record is told how it stands, from the record alone, and is counted on it. Any other call gets
   * the claim, repeats the provider's reply, and leaves a record of its own that says what the reply said.
   */
  predicate Meant(x: Settle, found: Option<Record>, claim: Claim, outcome: SettleOutcome, row: Record) {
    if found.Some? then
      && Outcomes.ToldAs(claim, found.value.status) && Outcomes.Shows(outcome, found.value)
      && row == found.value.(duplicateClaims := found.value.duplicateClaims + 1, lastDuplicateAt := Some(x.claimedAt))
    else
      && claim == Claimed && Outcomes.Repeats(outcome, x.reply, x.payloadPayer)
      && row.call == x.call && row.createdAt == x.claimedAt && row.updatedAt == x.finishedAt
      && Outcomes.Leaves(NO_CONTENT, x.reply, x.payloadPayer, row.status, ContentOf(row))
  }

  lemma SettlingMeans(x: Settle, record: Record)
    requires record == NewRecord(x.call, x.claimedAt)
    ensures var f := FinalisationFor(record, x.reply, x.payloadPayer);
            && Meant(x, None, Claimed, f.outcome, MemoryMark(record, f, x.finishedAt))
            && Meant(x, None, Claimed, f.outcome,
                     Rewritten(record, f.status, f.transaction, f.payer, f.error, x.finishedAt))
  {
    var f := FinalisationFor(record, x.reply, x.payloadPayer);
    Outcomes.WritesExactly(record, x.reply, x.payloadPayer, f.status, Content(f.transaction, f.payer, f.error));
    Outcomes.AnswersExactly(record, x.reply, x.payloadPayer, f.outcome);
  }

  lemma FindingMeans(x: Settle, record: Record)
    ensures Meant(x, Some(record), ClaimForStatus(record.status), CachedSettlement(record),
                  BumpDuplicate(record, x.claimedAt))
    ensures CachedSettlement(BumpDuplicate(record, x.claimedAt)) == CachedSettlement(record)
  {
    Outcomes.ClaimsExactly(ClaimForStatus(record.status), record.status);
    Outcomes.AnswersExactly(record, x.reply, x.payloadPayer, CachedSettlement(record));
  }

  /** The attempt that goes with a record: closed with its outcome. */
  function Closed(id: nat, x: Settle, row: Record): Attempt {
    Attempt(id, AttemptImage(row.status), x.claimedAt, Some(x.finishedAt), row.transaction, row.error)
  }

  function Seen(rows: map<nat, Record>, found: Option<nat>): Option<Record> {
    if found.Some? && found.value in rows then Some(rows[found.value]) else None
  }

  lemma MemorySettleMeans(m: Memory, x: Settle)
    ensures var (after, claim, outcome) := MemorySettle(m, x);
            var found := MemoryFind(m, x.call);
            var id := if found.Some? then found.value else m.nextRecord;
            && id in after.objects && (forall j | j in m.objects && j != id :: j in after.objects
                                                                     && after.objects[j] == m.objects[j])
            && Meant(x, Seen(m.objects, found), claim, outcome, after.objects[id])
            && (after.attempts == if found.Some? then m.attempts
                                  else m.attempts[m.nextAttempt := Closed(id, x, after.objects[id])])
  {
    var found := MemoryFind(m, x.call);
    if found.Some? {
      FindingMeans(x, m.objects[found.value]);
    } else {
      SettlingMeans(x, NewRecord(x.call, x.claimedAt));
    }
  }

  lemma TablesSettleMeans(t: Tables, x: Settle)
    ensures var (after, claim, outcome) := TablesSettle(t, x);
            var found := TablesFind(t, x.call);
            var id := if found.Some? then found.value else t.nextRecord;
            && id in after.rows && (forall j | j in t.rows && j != id :: j in after.rows && after.rows[j] == t.rows[j])
            && Meant(x, Seen(t.rows, found), claim, outcome, after.rows[id])
            && (after.attempts == if found.Some? then t.attempts
                                  else t.attempts[t.nextAttempt := Closed(id, x, after.rows[id])])
  {
    var found := TablesFind(t, x.call);
    if found.Some? {
      FindingMeans(x, t.rows[found.value]);
    } else {
      SettlingMeans(x, NewRecord(x.call, x.claimedAt));
    }
  }

  // ---------------------------------------------------------------- the replay index

  lemma MemoryFindExact(m: Memory, call: Call)
    requires MemoryOk(m)
    ensures MemoryFind(m, call).Some? ==>
              var row := m.objects[MemoryFind(m, call).value];
              ProfileKeyOf(row.call) == ProfileKeyOf(call) || RawKeyOf(row.call) == RawKeyOf(call)
    ensures MemoryFind(m, call).None? ==>
              && ProfileKeyOf(call) !in m.records && RawKeyOf(call) !in m.index
              && forall id | id in m.objects ::
                   ProfileKeyOf(m.objects[id].call) != ProfileKeyOf(call) &&
                       RawKeyOf(m.objects[id].call) != RawKeyOf(call)
  {
  }

  /** Updates of record objects that keep their identity disturb no dictionary. */
  lemma InPlaceKeepsMemoryOk(m: Memory, after: Memory, id: nat)
    requires MemoryOk(m) && id in m.objects && id in after.objects && after.objects[id].call == m.objects[id].call
    requires after.objects == m.objects[id := after.objects[id]]
    requires after.records == m.records && after.index == m.index && after.nextRecord == m.nextRecord
    ensures MemoryOk(after)
  {
    forall j | j in after.objects ensures Named(after, j) { assert Named(m, j); }
    forall k | k in after.records ensures Listed(after, k) { assert Listed(m, k); }
    forall k | k in after.index ensures Indexed(after, k) { assert Indexed(m, k); }
  }

  lemma InsertKeepsMemoryOk(m: Memory, call: Call, now: Time)
    requires MemoryOk(m) && MemoryFind(m, call).None?
    ensures MemoryOk(MemoryInsert(m, call, now))
  {
    MemoryFindExact(m, call);
    var after := MemoryInsert(m, call, now);
    assert m.nextRecord !in m.objects by {
      assert m.nextRecord in m.objects ==> Named(m, m.nextRecord);
    }
    forall j | j in after.objects ensures Named(after, j) {
      if j != m.nextRecord { assert Named(m, j); }
    }
    forall k | k in after.records ensures Listed(after, k) {
      if k != ProfileKeyOf(call) { assert Listed(m, k); }
    }
    forall k | k in after.index ensures Indexed(after, k) {
      if k != RawKeyOf(call) { assert Indexed(m, k); }
    }
  }

  lemma ClaimKeepsMemoryOk(m: Memory, call: Call, now: Time)
    requires MemoryOk(m)
    ensures MemoryOk(MemoryClaim(m, call, now).store)
  {
    if MemoryFind(m, call).Some? {
      InPlaceKeepsMemoryOk(m, MemoryClaim(m, call, now).store, MemoryFind(m, call).value);
    } else {
      InsertKeepsMemoryOk(m, call, now);
    }
  }

  lemma SettleKeepsMemoryOk(m: Memory, x: Settle)
    requires MemoryOk(m)
    ensures MemoryOk(MemorySettle(m, x).0)
  {
    ClaimKeepsMemoryOk(m, x.call, x.claimedAt);
    ClaimedRowIsIn(m, x.call, x.claimedAt);
    var c := MemoryClaim(m, x.call, x.claimedAt);
    if c.claim == Claimed {
      FinishKeepsMemoryOk(c.store, c.id, c.record, x);
    }
  }

  lemma ClaimedRowIsIn(m: Memory, call: Call, now: Time)
    ensures var c := MemoryClaim(m, call, now); c.id in c.store.objects && c.store.objects[c.id].call == c.record.call
  {
  }

  lemma FinishKeepsMemoryOk(m: Memory, id: nat, record: Record, x: Settle)
    requires MemoryOk(m) && id in m.objects && m.objects[id].call == record.call
    ensures MemoryOk(MemoryFinish(m, id, record, x))
  {
    InPlaceKeepsMemoryOk(m, MemoryFinish(m, id, record, x), id);
  }

  function MemoryRun(m: Memory, xs: seq<Settle>): (Memory, seq<(Claim, SettleOutcome)>) {
    if xs == [] then (m, [])
    else
      var (before, answers) := MemoryRun(m, xs[..|xs| - 1]);
      var (after, claim, outcome) := MemorySettle(before, xs[|xs| - 1]);
      (after, answers + [(claim, outcome)])
  }

  lemma {:induction false} RunKeepsMemoryOk(m: Memory, xs: seq<Settle>)
    requires MemoryOk(m)
    ensures MemoryOk(MemoryRun(m, xs).0)
  {
    if xs != [] {
      RunKeepsMemoryOk(m, xs[..|xs| - 1]);
      SettleKeepsMemoryOk(MemoryRun(m, xs[..|xs| - 1]).0, xs[|xs| - 1]);
    }
  }

  /** What a scan of all records would find for a replay key. */
  ghost predicate ScanFinds(m: Memory, k: RawKey, id: nat) {
    id in m.objects && RawKeyOf(m.objects[id].call) == k
  }

  /** After any settle calls, the replay index answers exactly as a linear scan of the records would. */
  lemma IndexIsScan(xs: seq<Settle>, k: RawKey)
    ensures var m := MemoryRun(EMPTY_MEMORY, xs).0;
            if k in m.index
            then m.index[k] in m.records && forall id :: ScanFinds(m, k, id) <==> id == m.records[m.index[k]]
            else forall id :: !ScanFinds(m, k, id)
  {
    var m := MemoryRun(EMPTY_MEMORY, xs).0;
    RunKeepsMemoryOk(EMPTY_MEMORY, xs);
    if k in m.index { assert Indexed(m, k); }
    forall id | ScanFinds(m, k, id) ensures k in m.index && id == m.records[m.index[k]] {
      assert Named(m, id);
    }
  }

  // ---------------------------------------------------------------- agreement of the stores

  /** The same records, attempts and sequences. */
  ghost predicate Same(m: Memory, t: Tables) {
    && m.objects == t.rows && m.attempts == t.attempts
    && m.nextRecord == t.nextRecord && m.nextAttempt == t.nextAttempt
  }

  ghost predicate RowsFixed(terms: string -> Terms, t: Tables) {
    forall id | id in t.rows :: Fixed(terms, t.rows[id].call)
  }

  /** With fixed terms, looking by profile first or by replay key first comes to the same record. */
  lemma SameFind(terms: string -> Terms, m: Memory, t: Tables, call: Call)
    requires Same(m, t) && MemoryOk(m) && RowsFixed(terms, t) && Fixed(terms, call)
    ensures TablesFind(t, call) == MemoryFind(m, call)
    ensures !Conflicts(t, call)
  {
    MemoryFindExact(m, call);
    FirstForExact(t, ReplayKeyOf(call), 0);
    FirstOfProfileExact(t, ProfileKeyOf(call), 0);
    forall id | RowFor(t, id, ReplayKeyOf(call)) || RowOfProfile(t, id, ProfileKeyOf(call))
      ensures MemoryFind(m, call) == Some(id) && RowFor(t, id, ReplayKeyOf(call))
    {
      assert Fixed(terms, t.rows[id].call) && Named(m, id);
      assert RawKeyOf(t.rows[id].call) == RawKeyOf(call);
      if ProfileKeyOf(call) in m.records {
        assert Listed(m, ProfileKeyOf(call)) && Named(m, m.records[ProfileKeyOf(call)]);
      }
    }
    if MemoryFind(m, call).Some? {
      var id := MemoryFind(m, call).value;
      assert Named(m, id);
      assert RowFor(t, id, ReplayKeyOf(call)) || RowOfProfile(t, id, ProfileKeyOf(call));
    }
  }

  /** One settle call on stores that agree on what it finds. */
  lemma SameSettle(terms: string -> Terms, m: Memory, t: Tables, x: Settle)
    requires Same(m, t) && RowsFixed(terms, t) && Fixed(terms, x.call)
    requires TablesFind(t, x.call) == MemoryFind(m, x.call) && !Conflicts(t, x.call)
    ensures Same(MemorySettle(m, x).0, TablesSettle(t, x).0) && RowsFixed(terms, TablesSettle(t, x).0)
    ensures MemorySettle(m, x).1 == TablesSettle(t, x).1 && MemorySettle(m, x).2 == TablesSettle(t, x).2
  {
    MarksAgree(x);
  }

  /** On the fresh record of a claim, the in-memory marks and the database update write the same record. */
  lemma MarksAgree(x: Settle)
    ensures var row := NewRecord(x.call, x.claimedAt);
            var f := FinalisationFor(row, x.reply, x.payloadPayer);
            MemoryMark(row, f, x.finishedAt) == Rewritten(row, f.status, f.transaction, f.payer, f.error, x.finishedAt)
  {
  }

  function TablesRun(t: Tables, xs: seq<Settle>): (Tables, seq<(Claim, SettleOutcome)>) {
    if xs == [] then (t, [])
    else
      var (before, answers) := TablesRun(t, xs[..|xs| - 1]);
      var (after, claim, outcome) := TablesSettle(before, xs[|xs| - 1]);
      (after, answers + [(claim, outcome)])
  }

  /**
   * Where a fingerprint fixes provider, scheme and network, the two stores give the same claims and answers for every
   * sequence of settle calls, and end with the same records, attempts and sequences.
   */
  lemma {:induction false} StoresAgree(terms: string -> Terms, xs: seq<Settle>)
    requires forall i | 0 <= i < |xs| :: Fixed(terms, xs[i].call)
    ensures MemoryRun(EMPTY_MEMORY, xs).1 == TablesRun(EMPTY_TABLES, xs).1
    ensures Same(MemoryRun(EMPTY_MEMORY, xs).0, TablesRun(EMPTY_TABLES, xs).0)
    ensures RowsFixed(terms, TablesRun(EMPTY_TABLES, xs).0)
  {
    if xs != [] {
      var rest, x := xs[..|xs| - 1], xs[|xs| - 1];
      StoresAgree(terms, rest);
      RunKeepsMemoryOk(EMPTY_MEMORY, rest);
      SameFind(terms, MemoryRun(EMPTY_MEMORY, rest).0, TablesRun(EMPTY_TABLES, rest).0, x.call);
      SameSettle(terms, MemoryRun(EMPTY_MEMORY, rest).0, TablesRun(EMPTY_TABLES, rest).0, x);
    }
  }

  // ---------------------------------------------------------------- a repeated call

  /** The second answer says what the first one said, as far as it says anything definite. */
  predicate Echoes(first: SettleOutcome, second: SettleOutcome) {
    && second.duplicate && second.status == first.status && second.success == first.success
    && (first.status in {ProviderSettled, ProviderSubmitted} ==>
          second.transaction == first.transaction && second.payer == first.payer)
    && (first.status == ProviderFailedFinal ==> second.error == first.error)
  }

  /** A record finalised from a reply is answered from later as the reply was answered. */
  lemma CachedEchoesFresh(record: Record, reply: ProviderReply, payloadPayer: Option<string>, stamp: Time)
    ensures var f := FinalisationFor(record, reply, payloadPayer);
            && Outcomes.Repeats(f.outcome, reply, payloadPayer)
            && Echoes(f.outcome, CachedSettlement(Rewritten(record, f.status, f.transaction, f.payer, f.error, stamp)))
  {
    Outcomes.AnswersExactly(record, reply, payloadPayer, FinalisationFor(record, reply, payloadPayer).outcome);
  }

  lemma FreshRowIsFirst(t: Tables, after: Tables, key: ReplayKey, row: Record, id: nat)
    requires FirstFor(t, key, id).None? && id <= t.nextRecord && ReplayKeyOf(row.call) == key
    requires after.rows == t.rows[t.nextRecord := row] && after.nextRecord == t.nextRecord + 1
    ensures FirstFor(after, key, id) == Some(t.nextRecord)
    decreases t.nextRecord - id
  {
    if id < t.nextRecord {
      assert RowFor(after, id, key) <==> RowFor(t, id, key);
      FreshRowIsFirst(t, after, key, row, id + 1);
    }
  }

  /** Repeating a settle call that got the claim, from any profile of the seller, gets the first call's answer again. */
  lemma RepeatGetsTheAnswer(t: Tables, x: Settle, y: Settle)
    requires TablesSettle(t, x).1 == Claimed && ReplayKeyOf(y.call) == ReplayKeyOf(x.call)
    ensures var second := TablesSettle(TablesSettle(t, x).0, y);
            && second.1 != Claimed && Echoes(TablesSettle(t, x).2, second.2)
            && Outcomes.Repeats(TablesSettle(t, x).2, x.reply, x.payloadPayer)
  {
    var after, key := TablesSettle(t, x).0, ReplayKeyOf(x.call);
    var record := NewRecord(x.call, x.claimedAt);
    var f := FinalisationFor(record, x.reply, x.payloadPayer);
    var row := Rewritten(record, f.status, f.transaction, f.payer, f.error, x.finishedAt);
    assert after.rows == t.rows[t.nextRecord := row];
    FreshRowIsFirst(t, after, key, row, 0);
    CachedEchoesFresh(record, x.reply, x.payloadPayer, x.finishedAt);
  }

  // ---------------------------------------------------------------- conservation of claims

  /** Duplicates counted on the records with ids below `bound`. */
  function Duplicates(rows: map<nat, Record>, bound: nat): nat {
    if bound == 0 then 0
    else Duplicates(rows, bound - 1) + if bound - 1 in rows then rows[bound - 1].duplicateClaims else 0
  }

  function Counted(rows: map<nat, Record>, id: nat): nat {
    if id in rows then rows[id].duplicateClaims else 0
  }

  /** Replacing one record moves the total by what that record's own count moves. */
  lemma {:induction false} DuplicatesMove(rows: map<nat, Record>, id: nat, row: Record, bound: nat)
    ensures Duplicates(rows[id := row], bound)
         == Duplicates(rows, bound) + (if id < bound then row.duplicateClaims - Counted(rows, id) else 0)
  {
    if bound > 0 { DuplicatesMove(rows, id, row, bound - 1); }
  }

  predicate AllBelow(rows: map<nat, Record>, bound: nat) {
    forall id | id in rows :: id < bound
  }

  /** Claims so far: one per record, and one per duplicate counted on a record. */
  predicate Accounts(rows: map<nat, Record>, bound: nat, claims: nat) {
    AllBelow(rows, bound) && claims == |rows| + Duplicates(rows, bound)
  }

  lemma ReplacingAccounts(rows: map<nat, Record>, id: nat, row: Record, bound: nat, claims: nat)
    requires Accounts(rows, bound, claims) && id in rows && row.duplicateClaims >= rows[id].duplicateClaims
    ensures Accounts(rows[id := row], bound, claims + (row.duplicateClaims - rows[id].duplicateClaims))
  {
    DuplicatesMove(rows, id, row, bound);
    assert rows[id := row].Keys == rows.Keys;
    assert |rows[id := row].Keys| == |rows.Keys|;
  }

  lemma InsertingAccounts(rows: map<nat, Record>, row: Record, bound: nat, claims: nat)
    requires Accounts(rows, bound, claims) && row.duplicateClaims == 0
    ensures Accounts(rows[bound := row], bound + 1, claims + 1)
  {
    DuplicatesMove(rows, bound, row, bound);
    assert bound !in rows;
    assert rows[bound := row].Keys == rows.Keys + {bound};
    assert |rows[bound := row].Keys| == |rows.Keys| + 1;
  }

  lemma SettleAccounts(m: Memory, x: Settle, claims: nat)
    requires Accounts(m.objects, m.nextRecord, claims)
    ensures var after := MemorySettle(m, x).0; Accounts(after.objects, after.nextRecord, claims + 1)
  {
    var found := MemoryFind(m, x.call);
    if found.Some? {
      ReplacingAccounts(m.objects, found.value, BumpDuplicate(m.objects[found.value], x.claimedAt), m.nextRecord,
          claims);
    } else {
      var c := MemoryClaim(m, x.call, x.claimedAt);
      InsertingAccounts(m.objects, c.record, m.nextRecord, claims);
      ReplacingAccounts(c.store.objects, c.id, MemorySettle(m, x).0.objects[c.id], c.store.nextRecord, claims + 1);
    }
  }

  /** Over any settle calls, every claim is accounted for: as a record, or as a duplicate counted on one. */
  lemma {:induction false} ClaimsConserved(xs: seq<Settle>)
    ensures var m := MemoryRun(EMPTY_MEMORY, xs).0; Accounts(m.objects, m.nextRecord, |xs|)
  {
    if xs != [] {
      ClaimsConserved(xs[..|xs| - 1]);
      SettleAccounts(MemoryRun(EMPTY_MEMORY, xs[..|xs| - 1]).0, xs[|xs| - 1], |xs| - 1);
    }
  }
}
