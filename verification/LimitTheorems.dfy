/** Runs of rate-limited requests: the two limiters agree, limits hold, and reported counts are exact. */
module LimitTheorems {
  import opened Wrappers
  import opened Limits
  import opened LimitMeaning

  /**
   * One request with its buckets and hash tag, the caller's clock reading, and when the Redis server executes the
   * script.
   */
  datatype Arrival = Arrival(request: Request, buckets: seq<Bucket>, tag: string, now: real, at: real)

  predicate Genuine(a: Arrival) {
    a.buckets == Buckets(a.request) && a.tag == HashTag(a.request)
  }

  predicate AllGenuine(run: seq<Arrival>) {
    forall i | 0 <= i < |run| :: Genuine(run[i])
  }

  predicate AllDistinct(run: seq<Arrival>) {
    forall i | 0 <= i < |run| :: Distinct(run[i].buckets)
  }

  lemma GenuineIsDistinct(run: seq<Arrival>)
    requires AllGenuine(run)
    ensures AllDistinct(run)
  {
    forall i | 0 <= i < |run| ensures Distinct(run[i].buckets) {
      assert Genuine(run[i]);
      BucketKeysDistinct(run[i].request);
    }
  }

  function MemoryState(run: seq<Arrival>): Counters {
    if run == [] then map[]
    else
      var last := run[|run| - 1];
      MemoryAfter(MemoryState(run[..|run| - 1]), last.buckets, Window(last.now))
  }

  function RedisState(run: seq<Arrival>): Server {
    if run == [] then map[]
    else
      var last := run[|run| - 1];
      RedisAfter(RedisState(run[..|run| - 1]), last.tag, last.buckets,
                 WholeSecondWindow(last.now), last.at)
  }

  function MemoryAnswer(run: seq<Arrival>, i: nat): Decision
    requires i < |run|
  {
    MemoryDecision(MemoryState(run[..i]), run[i].buckets, Window(run[i].now))
  }

  function RedisAnswer(run: seq<Arrival>, i: nat): Decision
    requires i < |run|
  {
    RedisDecision(RedisState(run[..i]), run[i].tag, run[i].buckets,
                  WholeSecondWindow(run[i].now), run[i].at)
  }

  // ---------------------------------------------------------------- the limiters agree

  /** Request `i` was admitted by the in-memory limiter and counted against `key` in window `w`. */
  predicate CountedAt(run: seq<Arrival>, i: nat, key: string, w: int)
    requires i < |run|
  {
    MemoryAnswer(run, i).allowed && Uses(run[i].buckets, key) && Window(run[i].now) == w
  }

  /** When the script first counted `key` in window `w`. */
  function FirstUse(run: seq<Arrival>, key: string, w: int): Option<real> {
    if run == [] then None
    else
      var earlier := FirstUse(run[..|run| - 1], key, w);
      if earlier.Some? then earlier
      else if CountedAt(run, |run| - 1, key, w) then Some(run[|run| - 1].at)
      else None
  }

  predicate OneTag(run: seq<Arrival>, tag: string) {
    forall i | 0 <= i < |run| :: run[i].tag == tag && run[i].now >= 0.0
  }

  /** Scripts asked for in one window run within a minute of each other, inside that window or after it. */
  predicate Timely(run: seq<Arrival>) {
    forall i, j | 0 <= i < j < |run| && Window(run[i].now) == Window(run[j].now) :: run[j].at <= run[i].at + 60.0
  }

  /** The server holds exactly the counters, each in a key that lives for a minute from its first use. */
  ghost predicate Mirrors(run: seq<Arrival>, c: Counters, server: Server, tag: string) {
    && (forall slot | slot in server :: slot.tag == tag)
    && forall key: string, w: int :: MirrorsAt(c, server, Slot(tag, key, w), FirstUse(run, key, w))
  }

  predicate MirrorsAt(c: Counters, server: Server, slot: Slot, first: Option<real>) {
    if first.Some? then
      && slot in server && server[slot].value == CountOf(c, slot.key, slot.window) > 0
      && server[slot].expires == Some(first.value + 60.0)
    else slot !in server && CountOf(c, slot.key, slot.window) == 0
  }

  /** The server's reading is the counter exactly while the key's minute lasts. */
  lemma ReadingIsExact(run: seq<Arrival>, c: Counters, server: Server, tag: string, key: string, w: int, at: real)
    requires Mirrors(run, c, server, tag)
    ensures GetValue(server, Slot(tag, key, w), at) == CountOf(c, key, w)
            <==> (FirstUse(run, key, w).Some? ==> at <= FirstUse(run, key, w).value + 60.0)
  {
    assert MirrorsAt(c, server, Slot(tag, key, w), FirstUse(run, key, w));
  }

  /** Every key that a request reads was first used within the last minute, if at all. */
  predicate KeysAlive(run: seq<Arrival>, buckets: seq<Bucket>, w: int, at: real) {
    forall i | 0 <= i < |buckets| ::
      FirstUse(run, buckets[i].key, w).Some? ==> at <= FirstUse(run, buckets[i].key, w).value + 60.0
  }

  lemma MirrorsReads(run: seq<Arrival>, c: Counters, server: Server, tag: string, buckets: seq<Bucket>, w: int,
      at: real)
    requires Mirrors(run, c, server, tag) && KeysAlive(run, buckets, w, at)
    ensures Values(server, tag, buckets, w, at) == Counts(c, buckets, w)
  {
    forall i | 0 <= i < |buckets|
      ensures GetValue(server, Slot(tag, buckets[i].key, w), at) == CountOf(c, buckets[i].key, w)
    {
      ReadingIsExact(run, c, server, tag, buckets[i].key, w, at);
    }
  }

  /** Every key counts something and expires, and those of these buckets are still alive. */
  predicate ServerSound(server: Server, tag: string, buckets: seq<Bucket>, w: int, at: real) {
    && (forall slot | slot in server :: server[slot].value > 0 && server[slot].expires.Some?)
    && forall i | 0 <= i < |buckets| ::
         Slot(tag, buckets[i].key, w) in server ==> Alive(server, Slot(tag, buckets[i].key, w), at)
  }

  /** An admission's effect on a key of the server, alive or new: one more, and a minute from the first use. */
  lemma {:induction false} IncrAllSlot(server: Server, tag: string, buckets: seq<Bucket>, w: int, at: real, slot: Slot)
    requires Distinct(buckets)
    requires ServerSound(server, tag, buckets, w, at)
    ensures var after := IncrAll(server, tag, buckets, w, at);
            if slot.tag == tag && slot.window == w && Uses(buckets, slot.key) then
              && slot in after
              && after[slot] == if slot in server then server[slot].(value := server[slot].value + 1)
                                else Entry(1, Some(at + 60.0))
            else (slot in after <==> slot in server) && (slot in server ==> after[slot] == server[slot])
  {
    if buckets != [] {
      var rest, last := buckets[..|buckets| - 1], buckets[|buckets| - 1];
      IncrAllSlot(server, tag, rest, w, at, slot);
      IncrAllSlot(server, tag, rest, w, at, Slot(tag, last.key, w));
      assert Uses(buckets, slot.key) <==> Uses(rest, slot.key) || last.key == slot.key;
      assert !Uses(rest, last.key);
    }
  }

  lemma LeastLeftUnique(buckets: seq<Bucket>, counts: seq<nat>, r: int, s: int)
    requires |counts| == |buckets| && IsLeastLeft(buckets, counts, r) && IsLeastLeft(buckets, counts, s)
    ensures r == s
  {
  }

  /** The script admits exactly when every bucket it reads has room. */
  lemma {:induction false} RedisMeaning(server: Server, tag: string, buckets: seq<Bucket>, w: int, at: real)
    ensures RedisDecision(server, tag, buckets, w, at).allowed <==> Admits(buckets, Values(server, tag, buckets, w, at))
  {
  }

  lemma {:induction false} RedisRemaining(server: Server, tag: string, buckets: seq<Bucket>, w: int, at: real)
    requires Distinct(buckets) && buckets != [] && Admits(buckets, Values(server, tag, buckets, w, at))
    ensures var r := RedisDecision(server, tag, buckets, w, at).remaining;
            r.Some? && IsLeastLeft(buckets, Values(server, tag, buckets, w, at), r.value)
  {
    AdmissionPassMeaning(server, tag, buckets, w, at);
    var pass := AdmissionPass(server, tag, buckets, w, at);
    var i :| 0 <= i < |buckets| && pass.limit.value == buckets[i].limit;
    assert Values(server, tag, buckets, w, at)[i] < buckets[i].limit;
  }

  /** On equal readings the two limiters give the same answer. */
  lemma {:induction false} SameReadingsSameAnswer(c: Counters, server: Server, tag: string, buckets: seq<Bucket>,
      w: int, at: real)
    requires Distinct(buckets)
    requires Values(server, tag, buckets, w, at) == Counts(c, buckets, w)
    ensures var m, r := MemoryDecision(c, buckets, w), RedisDecision(server, tag, buckets, w, at);
            m.allowed == r.allowed && (m.allowed ==> m.remaining == r.remaining)
  {
    var m, r := MemoryDecision(c, buckets, w), RedisDecision(server, tag, buckets, w, at);
    MemoryMeaning(c, buckets, w);
    RedisMeaning(server, tag, buckets, w, at);
    if buckets != [] && m.allowed {
      RedisRemaining(server, tag, buckets, w, at);
      LeastLeftUnique(buckets, Counts(c, buckets, w), m.remaining.value, r.remaining.value);
    }
  }

  lemma FirstUseOneMore(run: seq<Arrival>, a: Arrival, key: string, w: int)
    ensures var earlier := FirstUse(run, key, w);
            FirstUse(run + [a], key, w) ==
            if earlier.Some? then earlier
            else if MemoryDecision(MemoryState(run), a.buckets, Window(a.now)).allowed && Uses(a.buckets, key) &&
                Window(a.now) == w
            then Some(a.at)
            else None
  {
    assert (run + [a])[..|run|] == run;
  }

  /** What the mirror says of the server alone. */
  lemma {:induction false} MirroredServer(run: seq<Arrival>, c: Counters, server: Server, tag: string,
      buckets: seq<Bucket>, w: int, at: real)
    requires Mirrors(run, c, server, tag) && KeysAlive(run, buckets, w, at)
    ensures ServerSound(server, tag, buckets, w, at)
  {
    forall slot | slot in server ensures server[slot].value > 0 && server[slot].expires.Some? {
      assert MirrorsAt(c, server, Slot(tag, slot.key, slot.window), FirstUse(run, slot.key, slot.window));
    }
    forall i | 0 <= i < |buckets| && Slot(tag, buckets[i].key, w) in server
      ensures Alive(server, Slot(tag, buckets[i].key, w), at)
    {
      assert MirrorsAt(c, server, Slot(tag, buckets[i].key, w), FirstUse(run, buckets[i].key, w));
    }
  }

  lemma {:induction false} AdmissionMirrorsAt(c: Counters, server: Server, tag: string, buckets: seq<Bucket>, w: int,
                                              at: real, slot: Slot, first: Option<real>, first': Option<real>)
    requires Distinct(buckets) && slot.tag == tag && MirrorsAt(c, server, slot, first)
    requires first' == if first.Some? then first else if slot.window == w && Uses(buckets, slot.key) then Some(at)
        else None
    requires ServerSound(server, tag, buckets, w, at)
    ensures MirrorsAt(IncrementAll(c, buckets, w), IncrAll(server, tag, buckets, w, at), slot, first')
  {
    IncrAllSlot(server, tag, buckets, w, at, slot);
    IncrementAllCounts(c, buckets, w, slot.key, slot.window);
    SlotMirrors(c, IncrementAll(c, buckets, w), server, IncrAll(server, tag, buckets, w, at), slot, first, first',
                slot.window == w && Uses(buckets, slot.key), at);
  }

  /** A slot that is counted once more, or left alone, still mirrors its counter. */
  lemma {:induction false} SlotMirrors(c: Counters, c': Counters, server: Server, server': Server, slot: Slot,
                                       first: Option<real>, first': Option<real>, used: bool, at: real)
    requires MirrorsAt(c, server, slot, first)
    requires CountOf(c', slot.key, slot.window) == CountOf(c, slot.key, slot.window) + if used then 1 else 0
    requires first' == if first.Some? then first else if used then Some(at) else None
    requires if used then
               && slot in server'
               && server'[slot] == if slot in server then server[slot].(value := server[slot].value + 1)
                                   else Entry(1, Some(at + 60.0))
             else (slot in server' <==> slot in server) && (slot in server ==> server'[slot] == server[slot])
    ensures MirrorsAt(c', server', slot, first')
  {
  }

  lemma {:induction false} AdmissionMirrors(run: seq<Arrival>, c: Counters, server: Server, a: Arrival, w: int)
    requires Distinct(a.buckets) && c == MemoryState(run) && Mirrors(run, c, server, a.tag) && w == Window(a.now)
    requires KeysAlive(run, a.buckets, w, a.at) && MemoryDecision(c, a.buckets, w).allowed
    ensures Mirrors(run + [a], IncrementAll(c, a.buckets, w), IncrAll(server, a.tag, a.buckets, w, a.at), a.tag)
  {
    var c', server' := IncrementAll(c, a.buckets, w), IncrAll(server, a.tag, a.buckets, w, a.at);
    MirroredServer(run, c, server, a.tag, a.buckets, w, a.at);
    forall slot | slot in server' ensures slot.tag == a.tag {
      IncrAllSlot(server, a.tag, a.buckets, w, a.at, slot);
    }
    forall key: string, v: int ensures MirrorsAt(c', server', Slot(a.tag, key, v), FirstUse(run + [a], key, v)) {
      assert MirrorsAt(c, server, Slot(a.tag, key, v), FirstUse(run, key, v));
      FirstUseOneMore(run, a, key, v);
      AdmissionMirrorsAt(c, server, a.tag, a.buckets, w, a.at, Slot(a.tag, key, v),
                         FirstUse(run, key, v), FirstUse(run + [a], key, v));
    }
  }

  lemma {:induction false} RefusalMirrors(run: seq<Arrival>, c: Counters, server: Server, a: Arrival)
    requires c == MemoryState(run) && Mirrors(run, c, server, a.tag)
    requires !MemoryDecision(c, a.buckets, Window(a.now)).allowed
    ensures Mirrors(run + [a], c, server, a.tag)
  {
    forall key: string, v: int ensures MirrorsAt(c, server, Slot(a.tag, key, v), FirstUse(run + [a], key, v)) {
      assert MirrorsAt(c, server, Slot(a.tag, key, v), FirstUse(run, key, v));
      FirstUseOneMore(run, a, key, v);
    }
  }

  lemma {:induction false} StepAgrees(run: seq<Arrival>, c: Counters, server: Server, a: Arrival)
    requires Distinct(a.buckets) && c == MemoryState(run) && Mirrors(run, c, server, a.tag)
    requires KeysAlive(run, a.buckets, Window(a.now), a.at)
    ensures var w := Window(a.now);
            var m, r := MemoryDecision(c, a.buckets, w), RedisDecision(server, a.tag, a.buckets, w, a.at);
            && m.allowed == r.allowed && (m.allowed ==> m.remaining == r.remaining)
            && Mirrors(run + [a], MemoryAfter(c, a.buckets, w), RedisAfter(server, a.tag, a.buckets, w, a.at), a.tag)
  {
    var w := Window(a.now);
    MirrorsReads(run, c, server, a.tag, a.buckets, w, a.at);
    SameReadingsSameAnswer(c, server, a.tag, a.buckets, w, a.at);
    MemoryMeaning(c, a.buckets, w);
    if MemoryDecision(c, a.buckets, w).allowed {
      AdmissionMirrors(run, c, server, a, w);
    } else {
      RefusalMirrors(run, c, server, a);
    }
  }

  lemma {:induction false} FirstUseIsEarlier(run: seq<Arrival>, key: string, w: int)
    ensures FirstUse(run, key, w).Some? ==>
              exists i | 0 <= i < |run| :: Window(run[i].now) == w && FirstUse(run, key, w).value == run[i].at
  {
    if run != [] {
      var n := |run| - 1;
      FirstUseIsEarlier(run[..n], key, w);
      if FirstUse(run[..n], key, w).Some? {
        var i :| 0 <= i < n && Window(run[..n][i].now) == w && FirstUse(run[..n], key, w).value == run[..n][i].at;
        assert run[..n][i] == run[i];
      }
    }
  }

  lemma TimelyKeysLive(run: seq<Arrival>, i: nat)
    requires Timely(run) && i < |run|
    ensures KeysAlive(run[..i], run[i].buckets, Window(run[i].now), run[i].at)
  {
    forall k | 0 <= k < |run[i].buckets|
      ensures var first := FirstUse(run[..i], run[i].buckets[k].key, Window(run[i].now));
              first.Some? ==> run[i].at <= first.value + 60.0
    {
      FirstUseIsEarlier(run[..i], run[i].buckets[k].key, Window(run[i].now));
      assert forall j | 0 <= j < i :: run[..i][j] == run[j];
    }
  }

  lemma {:induction false} StatesOneMore(run: seq<Arrival>, a: Arrival)
    requires a.now >= 0.0
    ensures MemoryState(run + [a]) == MemoryAfter(MemoryState(run), a.buckets, Window(a.now))
    ensures RedisState(run + [a]) == RedisAfter(RedisState(run), a.tag, a.buckets, Window(a.now), a.at)
  {
    assert (run + [a])[..|run|] == run;
    WindowsAgree(a.now);
  }

  lemma {:induction false} NothingMirrors(tag: string)
    ensures Mirrors([], MemoryState([]), RedisState([]), tag)
  {
  }

  lemma {:induction false} StatesStillMirror(run: seq<Arrival>, before: seq<Arrival>, a: Arrival, tag: string)
    requires run == before + [a] && a.tag == tag && a.now >= 0.0
    requires Mirrors(before, MemoryState(before), RedisState(before), tag)
    requires Distinct(a.buckets) && KeysAlive(before, a.buckets, Window(a.now), a.at)
    ensures Mirrors(run, MemoryState(run), RedisState(run), tag)
  {
    StepAgrees(before, MemoryState(before), RedisState(before), a);
    StatesOneMore(before, a);
  }

  lemma {:induction false} StatesMirror(run: seq<Arrival>, tag: string)
    requires OneTag(run, tag) && Timely(run) && AllDistinct(run)
    ensures Mirrors(run, MemoryState(run), RedisState(run), tag)
  {
    if run == [] {
      NothingMirrors(tag);
    } else {
      var n := |run| - 1;
      TimelyPrefix(run, tag, n);
      StatesMirror(run[..n], tag);
      TimelyKeysLive(run, n);
      StatesStillMirror(run, run[..n], run[n], tag);
    }
  }

  lemma TimelyPrefix(run: seq<Arrival>, tag: string, n: nat)
    requires OneTag(run, tag) && Timely(run) && AllDistinct(run) && n <= |run|
    ensures OneTag(run[..n], tag) && Timely(run[..n]) && AllDistinct(run[..n])
  {
  }

  /**
   * Within one hash tag the Redis limiter admits exactly the requests the in-memory one does, and reports the same
   * count, in any order of windows, as long as the scripts of one window run within a minute.
   */
  lemma LimitersAgree(run: seq<Arrival>, tag: string, i: nat)
    requires OneTag(run, tag) && Timely(run) && AllGenuine(run) && i < |run|
    ensures MemoryAnswer(run, i).allowed == RedisAnswer(run, i).allowed
    ensures MemoryAnswer(run, i).allowed ==> MemoryAnswer(run, i).remaining == RedisAnswer(run, i).remaining
  {
    GenuineIsDistinct(run);
    TimelyPrefix(run, tag, i);
    StatesMirror(run[..i], tag);
    TimelyKeysLive(run, i);
    WindowsAgree(run[i].now);
    StepAgrees(run[..i], MemoryState(run[..i]), RedisState(run[..i]), run[i]);
  }

  /** In particular when every script runs inside the window it was asked for, because a key outlives its window. */
  lemma PromptIsTimely(run: seq<Arrival>)
    requires forall i | 0 <= i < |run| :: run[i].now <= run[i].at < 60.0 * Window(run[i].now) as real + 60.0
    ensures Timely(run)
  {
    forall i, j | 0 <= i < j < |run| && Window(run[i].now) == Window(run[j].now) ensures run[j].at <= run[i].at + 60.0 {
      InWindow(run[i].now, Window(run[i].now));
    }
  }

  // ---------------------------------------------------------------- limits hold

  function Admissions(run: seq<Arrival>, key: string, w: int): nat {
    if run == [] then 0
    else Admissions(run[..|run| - 1], key, w) + if CountedAt(run, |run| - 1, key, w) then 1 else 0
  }

  /** One check adds one to the counters it uses exactly when it admits. */
  lemma CheckCounts(c: Counters, buckets: seq<Bucket>, window: int, key: string, w: int)
    requires Distinct(buckets)
    ensures CountOf(MemoryAfter(c, buckets, window), key, w)
         == CountOf(c, key, w)
            + if MemoryDecision(c, buckets, window).allowed && Uses(buckets, key) && window == w then 1 else 0
  {
    MemoryMeaning(c, buckets, window);
    IncrementAllCounts(c, buckets, window, key, w);
  }

  /** Conservation: a counter is the number of admissions, so a refused request has consumed nothing from any bucket. */
  lemma {:induction false} AdmissionsAreCounted(run: seq<Arrival>, key: string, w: int)
    requires AllDistinct(run)
    ensures CountOf(MemoryState(run), key, w) == Admissions(run, key, w)
  {
    if run != [] {
      var n := |run| - 1;
      AdmissionsAreCounted(run[..n], key, w);
      CheckCounts(MemoryState(run[..n]), run[n].buckets, Window(run[n].now), key, w);
    }
  }

  predicate OnePolicy(run: seq<Arrival>, policy: Policy) {
    forall i | 0 <= i < |run| :: run[i].request.policy == policy
  }

  function LimitOn(policy: Policy, key: string): nat {
    var limit := LimitOfKind(policy, KindOf(key));
    if limit.Some? then Max(limit.value, 0) else 0
  }

  lemma AtMostLimitPerWindow(run: seq<Arrival>, policy: Policy, key: string, w: int)
    requires AllGenuine(run) && OnePolicy(run, policy)
    ensures Admissions(run, key, w) <= LimitOn(policy, key)
  {
    GenuineIsDistinct(run);
    forall i, b | 0 <= i < |run| && b in run[i].buckets && b.key == key
      ensures b.limit <= LimitOn(policy, key)
    {
      assert Genuine(run[i]);
      KeyDeterminesLimit(run[i].request, b);
    }
    AtMostWhereLimited(run, key, LimitOn(policy, key), w);
  }

  lemma {:induction false} AtMostWhereLimited(run: seq<Arrival>, key: string, limit: nat, w: int)
    requires AllDistinct(run)
    requires forall i, b | 0 <= i < |run| && b in run[i].buckets && b.key == key :: b.limit <= limit
    ensures Admissions(run, key, w) <= limit
  {
    if run != [] {
      var n := |run| - 1;
      AtMostWhereLimited(run[..n], key, limit, w);
      if CountedAt(run, n, key, w) {
        AdmissionsAreCounted(run[..n], key, w);
        AdmittedHadRoom(MemoryState(run[..n]), run[n].buckets, w, key, limit);
      }
    }
  }

  lemma AdmittedHadRoom(c: Counters, buckets: seq<Bucket>, w: int, key: string, limit: nat)
    requires Distinct(buckets) && Uses(buckets, key) && MemoryDecision(c, buckets, w).allowed
    requires forall b | b in buckets && b.key == key :: b.limit <= limit
    ensures CountOf(c, key, w) < limit
  {
    MemoryMeaning(c, buckets, w);
    var i :| 0 <= i < |buckets| && buckets[i].key == key;
    assert Counts(c, buckets, w)[i] < buckets[i].limit;
    assert buckets[i] in buckets;
  }

  predicate CountedBetween(run: seq<Arrival>, i: nat, key: string, t: real)
    requires i < |run|
  {
    MemoryAnswer(run, i).allowed && Uses(run[i].buckets, key) && t <= run[i].now <= t + 60.0
  }

  function AdmissionsBetween(run: seq<Arrival>, key: string, t: real): nat {
    if run == [] then 0
    else AdmissionsBetween(run[..|run| - 1], key, t) + if CountedBetween(run, |run| - 1, key, t) then 1 else 0
  }

  lemma {:induction false} SpanTouchesTwoWindows(run: seq<Arrival>, key: string, t: real)
    ensures AdmissionsBetween(run, key, t) <= Admissions(run, key, Window(t)) + Admissions(run, key, Window(t) + 1)
  {
    if run != [] {
      var n := |run| - 1;
      SpanTouchesTwoWindows(run[..n], key, t);
      InWindow(t, Window(t));
      InWindow(run[n].now, Window(t));
      InWindow(run[n].now, Window(t) + 1);
    }
  }

  /** Across a window boundary the worst case is two full windows in sixty seconds. */
  lemma AtMostTwiceInAMinute(run: seq<Arrival>, policy: Policy, key: string, t: real)
    requires AllGenuine(run) && OnePolicy(run, policy)
    ensures AdmissionsBetween(run, key, t) <= 2 * LimitOn(policy, key)
  {
    SpanTouchesTwoWindows(run, key, t);
    AtMostLimitPerWindow(run, policy, key, Window(t));
    AtMostLimitPerWindow(run, policy, key, Window(t) + 1);
  }

  // ---------------------------------------------------------------- reported counts are exact

  /** The counters after `n` more identical requests in one window. */
  function Repeat(c: Counters, buckets: seq<Bucket>, w: int, n: nat): Counters {
    if n == 0 then c else MemoryAfter(Repeat(c, buckets, w, n - 1), buckets, w)
  }

  lemma {:induction false} StillRoom(buckets: seq<Bucket>, counts: seq<nat>, now: seq<nat>, r: int, n: nat)
    requires |counts| == |now| == |buckets| && IsLeastLeft(buckets, counts, r) && n <= r
    requires forall i | 0 <= i < |buckets| :: now[i] == counts[i] + n
    ensures Admits(buckets, now)
  {
  }

  lemma {:induction false} AdmittedCounts(c: Counters, buckets: seq<Bucket>, w: int)
    requires Distinct(buckets) && Admits(buckets, Counts(c, buckets, w))
    ensures forall i | 0 <= i < |buckets| ::
              Counts(MemoryAfter(c, buckets, w), buckets, w)[i] == Counts(c, buckets, w)[i] + 1
  {
    CountsAfter(c, buckets, w);
  }

  lemma {:induction false} RepeatCounts(c: Counters, buckets: seq<Bucket>, w: int, n: nat, r: int)
    requires buckets != [] && Distinct(buckets) && IsLeastLeft(buckets, Counts(c, buckets, w), r) && n <= r + 1
    ensures forall i | 0 <= i < |buckets| ::
              Counts(Repeat(c, buckets, w, n), buckets, w)[i] == Counts(c, buckets, w)[i] + n
  {
    if n > 0 {
      var before := Repeat(c, buckets, w, n - 1);
      RepeatCounts(c, buckets, w, n - 1, r);
      StillRoom(buckets, Counts(c, buckets, w), Counts(before, buckets, w), r, n - 1);
      AdmittedCounts(before, buckets, w);
    }
  }

  /** The `n`-th identical request of a window is admitted exactly while `n` does not exceed the places left. */
  lemma RepeatAdmitted(c: Counters, buckets: seq<Bucket>, w: int, n: nat, r: int)
    requires buckets != [] && Distinct(buckets) && IsLeastLeft(buckets, Counts(c, buckets, w), r) && n <= r + 1
    ensures MemoryDecision(Repeat(c, buckets, w, n), buckets, w).allowed <==> n <= r
  {
    RepeatCounts(c, buckets, w, n, r);
    var state := Repeat(c, buckets, w, n);
    MemoryMeaning(state, buckets, w);
    var i :| 0 <= i < |buckets| && buckets[i].limit - Counts(c, buckets, w)[i] - 1 == r;
    assert Counts(state, buckets, w)[i] == Counts(c, buckets, w)[i] + n;
    if n <= r {
      forall j | 0 <= j < |buckets| ensures Counts(state, buckets, w)[j] < buckets[j].limit {
        assert r <= buckets[j].limit - Counts(c, buckets, w)[j] - 1;
      }
    }
  }

  /** An admission that reports `r` remaining is followed by exactly `r` more admissions of the same request. */
  lemma RemainingIsExact(c: Counters, a: Arrival, w: int, r: int, n: nat)
    requires Genuine(a) && n <= r
    requires MemoryDecision(c, a.buckets, w).allowed && MemoryDecision(c, a.buckets, w).remaining == Some(r)
    ensures MemoryDecision(Repeat(MemoryAfter(c, a.buckets, w), a.buckets, w, n), a.buckets, w).allowed <==> n < r
  {
    BucketKeysDistinct(a.request);
    ExactForDistinct(c, a.buckets, w, r, n);
  }

  lemma ExactForDistinct(c: Counters, buckets: seq<Bucket>, w: int, r: int, n: nat)
    requires Distinct(buckets) && n <= r
    requires MemoryDecision(c, buckets, w).allowed && MemoryDecision(c, buckets, w).remaining == Some(r)
    ensures MemoryDecision(Repeat(MemoryAfter(c, buckets, w), buckets, w, n), buckets, w).allowed <==> n < r
  {
    MemoryMeaning(c, buckets, w);
    RepeatAdmitted(c, buckets, w, n + 1, r);
    RepeatShift(c, buckets, w, n);
  }

  lemma {:induction false} RepeatShift(c: Counters, buckets: seq<Bucket>, w: int, n: nat)
    ensures Repeat(MemoryAfter(c, buckets, w), buckets, w, n) == Repeat(c, buckets, w, n + 1)
  {
    if n > 0 { RepeatShift(c, buckets, w, n - 1); }
  }

  lemma {:induction false} RefusalChangesNothing(c: Counters, buckets: seq<Bucket>, w: int)
    requires Distinct(buckets) && !MemoryDecision(c, buckets, w).allowed
    ensures MemoryAfter(c, buckets, w) == c
  {
    MemoryMeaning(c, buckets, w);
  }

  lemma {:induction false} RepeatFixed(c: Counters, buckets: seq<Bucket>, w: int, n: nat)
    requires MemoryAfter(c, buckets, w) == c
    ensures Repeat(c, buckets, w, n) == c
  {
    if n > 0 { RepeatFixed(c, buckets, w, n - 1); }
  }

  /** A refused request changes no counter, so its refusal lasts for the whole window. */
  lemma {:induction false} RefusalLasts(c: Counters, buckets: seq<Bucket>, w: int, n: nat)
    requires Distinct(buckets) && !MemoryDecision(c, buckets, w).allowed
    ensures Repeat(c, buckets, w, n) == c
  {
    RefusalChangesNothing(c, buckets, w);
    RepeatFixed(c, buckets, w, n);
  }

  // ---------------------------------------------------------------- where the limiters part

  /** The server no longer knows what was counted in a key: other tags have other keys, and a key lives for a minute. */
  predicate Forgotten(run: seq<Arrival>, tag: string, a: Arrival, key: string) {
    a.tag != tag || LateFor(a, FirstUse(run, key, Window(a.now)))
  }

  predicate LateFor(a: Arrival, first: Option<real>) {
    first.Some? && a.at > first.value + 60.0
  }

  /** What the script reads of a key after a timely run of one tag. */
  lemma {:induction false} ReadingAfter(run: seq<Arrival>, tag: string, a: Arrival, key: string)
    requires OneTag(run, tag) && Timely(run) && AllDistinct(run)
    ensures GetValue(RedisState(run), Slot(a.tag, key, Window(a.now)), a.at)
         == if Forgotten(run, tag, a, key) then 0 else CountOf(MemoryState(run), key, Window(a.now))
  {
    StatesMirror(run, tag);
    assert MirrorsAt(MemoryState(run), RedisState(run), Slot(tag, key, Window(a.now)),
        FirstUse(run, key, Window(a.now)));
  }

  predicate FullAt(c: Counters, b: Bucket, w: int) {
    CountOf(c, b.key, w) >= b.limit
  }

  lemma {:induction false} MemoryAdmitsExactly(c: Counters, buckets: seq<Bucket>, w: int)
    requires Distinct(buckets)
    ensures MemoryDecision(c, buckets, w).allowed <==> forall i | 0 <= i < |buckets| :: !FullAt(c, buckets[i], w)
  {
    MemoryMeaning(c, buckets, w);
    assert forall i | 0 <= i < |buckets| :: Counts(c, buckets, w)[i] == CountOf(c, buckets[i].key, w);
  }

  /**
   * A bucket has room on the server exactly when it is not full in memory, or would have room if it were new and is
   * forgotten.
   */
  predicate RoomOnServer(run: seq<Arrival>, tag: string, a: Arrival, b: Bucket) {
    !FullAt(MemoryState(run), b, Window(a.now)) || (b.limit > 0 && Forgotten(run, tag, a, b.key))
  }

  lemma {:induction false} RedisAdmitsExactly(run: seq<Arrival>, tag: string, a: Arrival)
    requires OneTag(run, tag) && Timely(run) && AllDistinct(run)
    ensures RedisDecision(RedisState(run), a.tag, a.buckets, Window(a.now), a.at).allowed
            <==> forall i | 0 <= i < |a.buckets| :: RoomOnServer(run, tag, a, a.buckets[i])
  {
    var w, server := Window(a.now), RedisState(run);
    RedisMeaning(server, a.tag, a.buckets, w, a.at);
    var values := Values(server, a.tag, a.buckets, w, a.at);
    forall i | 0 <= i < |a.buckets|
      ensures values[i] < a.buckets[i].limit <==> RoomOnServer(run, tag, a, a.buckets[i])
    {
      ReadingAfter(run, tag, a, a.buckets[i].key);
    }
  }

  /**
   * Exactly where the limiters part: after any timely run of one tag, they differ on whether a request is admitted
   * precisely when the in-memory limiter refuses it and every bucket that is full in memory has a positive limit and is
   * forgotten by the server (the request carries another tag, as for two sellers behind one address, or its script runs
   * more than a minute after the first one counted in that bucket and window). Redis then admits what memory refuses.
   */
  lemma {:induction false} PartOnTagOrLateness(run: seq<Arrival>, tag: string, a: Arrival)
    requires OneTag(run, tag) && Timely(run) && AllDistinct(run) && Distinct(a.buckets) && a.now >= 0.0
    ensures var m, r := MemoryAnswer(run + [a], |run|), RedisAnswer(run + [a], |run|);
            m.allowed != r.allowed <==>
            && !m.allowed
            && forall i | 0 <= i < |a.buckets| && FullAt(MemoryState(run), a.buckets[i], Window(a.now)) ::
                 a.buckets[i].limit > 0 && Forgotten(run, tag, a, a.buckets[i].key)
  {
    assert (run + [a])[..|run|] == run && (run + [a])[|run|] == a;
    WindowsAgree(a.now);
    MemoryAdmitsExactly(MemoryState(run), a.buckets, Window(a.now));
    RedisAdmitsExactly(run, tag, a);
  }
}
