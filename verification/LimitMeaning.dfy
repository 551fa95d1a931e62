/** What one check means, in either limiter: which requests are admitted, what remains, and what is counted. */
module LimitMeaning {
  import opened Wrappers
  import opened Limits

  /** Whole seconds or not, both limiters see the same window. */
  lemma WindowsAgree(now: real)
    requires now >= 0.0
    ensures Window(now) == WholeSecondWindow(now)
  {
  }

  lemma InWindow(now: real, w: int)
    ensures Window(now) == w <==> 60.0 * w as real <= now < 60.0 * w as real + 60.0
  {
  }

  // ---------------------------------------------------------------- bucket keys

  /** The last two letters of a key, which tell the scopes apart. */
  function Tail(key: string): string {
    if |key| < 2 then "" else key[|key| - 2..]
  }

  lemma {:induction false} TailOfJoin(front: string, scope: string)
    requires |scope| >= 2
    ensures Tail(front + scope) == Tail(scope)
  {
    var key := front + scope;
    assert key[|key| - 2..] == scope[|scope| - 2..];
  }

  lemma {:induction false} KeyShape(text: string, scope: string)
    requires |scope| >= 2
    ensures |IpKey(text, scope)| > 0 && IpKey(text, scope)[0] == 'i' && Tail(IpKey(text, scope)) == Tail(scope)
    ensures |SellerKey(text, scope)| > 0 && SellerKey(text, scope)[0] == 's' &&
        Tail(SellerKey(text, scope)) == Tail(scope)
  {
    TailOfJoin("ip:" + SafeKeyPart(text) + ":", scope);
    TailOfJoin("seller_account:" + SafeKeyPart(text) + ":", scope);
  }

  datatype Kind = IpAll | IpInvalid | SellerAll | SellerScope(endpoint: Endpoint)

  /** Which bucket a key belongs to, read off the key alone. */
  function KindOf(key: string): Kind {
    if |key| == 0 then IpAll
    else if key[0] == 'i' then (if Tail(key) == "ll" then IpAll else IpInvalid)
    else if Tail(key) == "ll" then SellerAll
    else if Tail(key) == "ed" then SellerScope(Supported)
    else if Tail(key) == "fy" then SellerScope(Verify)
    else if Tail(key) == "le" then SellerScope(Settle)
    else SellerScope(Invalid)
  }

  lemma {:induction false} IpKinds(host: string)
    ensures KindOf(IpKey(host, "all")) == IpAll && KindOf(IpKey(host, "invalid")) == IpInvalid
  {
    KeyShape(host, "all");
    KeyShape(host, "invalid");
    assert Tail("all") == "ll";
    assert Tail("invalid") == "id";
  }

  lemma {:induction false} SellerAllKind(seller: string)
    ensures KindOf(SellerKey(seller, "all")) == SellerAll
  {
    KeyShape(seller, "all");
    assert Tail("all") == "ll";
  }

  lemma {:induction false} SellerScopeKind(seller: string, endpoint: Endpoint)
    ensures KindOf(SellerKey(seller, ScopeOf(endpoint))) == SellerScope(endpoint)
  {
    KeyShape(seller, ScopeOf(endpoint));
    match endpoint {
      case Supported => assert Tail("supported") == "ed";
      case Verify => assert Tail("verify") == "fy";
      case Settle => assert Tail("settle") == "le";
      case Invalid => assert Tail("invalid") == "id";
    }
  }

  function LimitOfKind(policy: Policy, kind: Kind): Option<int> {
    match kind
    case IpAll => policy.ip
    case IpInvalid => policy.invalid
    case SellerAll => policy.seller
    case SellerScope(Supported) => policy.supported
    case SellerScope(Verify) => policy.verify
    case SellerScope(Settle) => policy.settle
    case SellerScope(Invalid) => policy.invalid
  }

  lemma BucketKinds(r: Request)
    ensures KindOf(IpKey(Text(r.host), "all")) == IpAll
    ensures KindOf(SellerKey(Text(r.seller), ScopeOf(r.endpoint))) == SellerScope(r.endpoint)
    ensures KindOf(SellerKey(Text(r.seller), "all")) == SellerAll
    ensures KindOf(IpKey(Text(r.host), "invalid")) == IpInvalid
  {
    IpKinds(Text(r.host));
    SellerAllKind(Text(r.seller));
    SellerScopeKind(Text(r.seller), r.endpoint);
  }

  lemma JoinKinds(a: seq<Bucket>, b: seq<Bucket>, c: seq<Bucket>, d: seq<Bucket>)
    requires forall x | x in a :: KindOf(x.key) == IpAll
    requires forall x | x in b :: KindOf(x.key).SellerScope?
    requires forall x | x in c :: KindOf(x.key) == SellerAll
    requires forall x | x in d :: KindOf(x.key) == IpInvalid
    requires |a| <= 1 && |b| <= 1 && |c| <= 1 && |d| <= 1
    ensures Distinct(a + b + c + d)
  {
  }

  lemma BucketKeysDistinct(r: Request)
    ensures Distinct(Buckets(r))
  {
    BucketKinds(r);
    JoinKinds(BucketIf(Present(r.host), IpKey(Text(r.host), "all"), r.policy.ip),
              BucketIf(Present(r.seller), SellerKey(Text(r.seller), ScopeOf(r.endpoint)),
                  LimitFor(r.policy, r.endpoint)),
              BucketIf(Present(r.seller) && r.endpoint != Invalid, SellerKey(Text(r.seller), "all"), r.policy.seller),
              BucketIf(Present(r.host) && r.endpoint == Invalid, IpKey(Text(r.host), "invalid"), r.policy.invalid));
  }

  /** One policy gives one limit to every key, whatever the request. */
  lemma KeyDeterminesLimit(r: Request, b: Bucket)
    requires b in Buckets(r)
    ensures LimitOfKind(r.policy, KindOf(b.key)) == Some(b.limit)
  {
    BucketKinds(r);
    OneOfFour(b, BucketIf(Present(r.host), IpKey(Text(r.host), "all"), r.policy.ip),
              BucketIf(Present(r.seller), SellerKey(Text(r.seller), ScopeOf(r.endpoint)),
                  LimitFor(r.policy, r.endpoint)),
              BucketIf(Present(r.seller) && r.endpoint != Invalid, SellerKey(Text(r.seller), "all"), r.policy.seller),
              BucketIf(Present(r.host) && r.endpoint == Invalid, IpKey(Text(r.host), "invalid"), r.policy.invalid));
  }

  lemma OneOfFour(x: Bucket, a: seq<Bucket>, b: seq<Bucket>, c: seq<Bucket>, d: seq<Bucket>)
    requires x in a + b + c + d
    ensures x in a || x in b || x in c || x in d
  {
  }

  // ---------------------------------------------------------------- the in-memory check

  predicate Uses(buckets: seq<Bucket>, key: string) {
    exists i | 0 <= i < |buckets| :: buckets[i].key == key
  }

  /** An admission adds one to each of its buckets in its window, and touches nothing else. */
  lemma {:induction false} IncrementAllCounts(c: Counters, buckets: seq<Bucket>, window: int, key: string, w: int)
    requires Distinct(buckets)
    ensures CountOf(IncrementAll(c, buckets, window), key, w)
         == CountOf(c, key, w) + if w == window && Uses(buckets, key) then 1 else 0
  {
    if buckets != [] {
      var rest, last := buckets[..|buckets| - 1], buckets[|buckets| - 1];
      IncrementAllCounts(c, rest, window, key, w);
      IncrementAllCounts(c, rest, window, last.key, window);
      assert Uses(buckets, key) <==> Uses(rest, key) || last.key == key;
    }
  }

  lemma CountsAfter(c: Counters, buckets: seq<Bucket>, window: int)
    requires Distinct(buckets)
    ensures forall i | 0 <= i < |buckets| ::
              Counts(IncrementAll(c, buckets, window), buckets, window)[i] == Counts(c, buckets, window)[i] + 1
  {
    forall i | 0 <= i < |buckets|
      ensures Counts(IncrementAll(c, buckets, window), buckets, window)[i] == Counts(c, buckets, window)[i] + 1
    {
      IncrementAllCounts(c, buckets, window, buckets[i].key, window);
    }
  }

  lemma {:induction false} NothingRefused(decisions: seq<Decision>)
    requires forall i | 0 <= i < |decisions| :: decisions[i].allowed
    ensures Refusals(decisions) == []
  {
    if decisions != [] { NothingRefused(decisions[..|decisions| - 1]); }
  }

  /** Refusals exist exactly when some bucket has no room. */
  lemma RefusedWhenFull(buckets: seq<Bucket>, counts: seq<nat>)
    requires |counts| == |buckets|
    ensures Refusals(Decisions(buckets, counts, false)) == [] <==> Admits(buckets, counts)
  {
    var ds := Decisions(buckets, counts, false);
    if !Admits(buckets, counts) {
      var i :| 0 <= i < |buckets| && counts[i] >= buckets[i].limit;
      assert !ds[i].allowed;
      assert ds[i] in Refusals(ds);
    } else {
      NothingRefused(ds);
    }
  }

  /** The limit reported is that of a bucket with that many places left, the smallest of them. */
  ghost predicate NamesTightest(buckets: seq<Bucket>, counts: seq<nat>, d: Decision)
    requires |counts| == |buckets|
  {
    && d.limit.Some? && d.remaining.Some?
    && (exists i | 0 <= i < |buckets| ::
          buckets[i].limit == d.limit.value && buckets[i].limit - counts[i] - 1 == d.remaining.value)
    && forall i | 0 <= i < |buckets| && buckets[i].limit - counts[i] - 1 == d.remaining.value ::
         d.limit.value <= buckets[i].limit
  }

  /** The limit reported with a refusal is that of a full bucket. */
  ghost predicate NamesRefused(buckets: seq<Bucket>, counts: seq<nat>, d: Decision)
    requires |counts| == |buckets|
  {
    && d.retryAfter == 60 && d.resetAfter == Some(60) && d.remaining == Some(0) && d.rateLimited
    && exists i | 0 <= i < |buckets| :: d.limit == Some(buckets[i].limit) && counts[i] >= buckets[i].limit
  }

  /**
   * The consumed decisions of an admission are all positive, and the tightest reports the least number of places left.
   */
  lemma TightestIsLeastLeft(buckets: seq<Bucket>, counts: seq<nat>, after: seq<nat>)
    requires buckets != [] && |counts| == |after| == |buckets| && Admits(buckets, counts)
    requires forall i | 0 <= i < |buckets| :: after[i] == counts[i] + 1
    ensures var d := MostRestrictive(Decisions(buckets, after, true));
            && d.allowed && d.remaining.Some? && IsLeastLeft(buckets, counts, d.remaining.value)
            && NamesTightest(buckets, counts, d) && d.retryAfter == 0 && d.resetAfter == Some(60) && !d.rateLimited
  {
    var ds := Decisions(buckets, after, true);
    forall i | 0 <= i < |buckets|
      ensures ds[i] == Decision(true, 0, Some(buckets[i].limit), Some(buckets[i].limit - counts[i] - 1), Some(60),
                                false)
    {
    }
    NothingRefused(ds);
    var d := Tightest(ds);
    var k :| 0 <= k < |ds| && ds[k] == d;
    forall i | 0 <= i < |buckets|
      ensures d.remaining.value <= buckets[i].limit - counts[i] - 1
      ensures buckets[i].limit - counts[i] - 1 == d.remaining.value ==> d.limit.value <= buckets[i].limit
    {
      assert ds[i] in ds;
      assert !TighterThan(ds[i], d);
    }
    assert buckets[k].limit == d.limit.value;
  }

  lemma MemoryMeaning(c: Counters, buckets: seq<Bucket>, window: int)
    requires Distinct(buckets)
    ensures var d := MemoryDecision(c, buckets, window);
            && (d.allowed <==> Admits(buckets, Counts(c, buckets, window)))
            && (d.allowed && buckets != [] ==>
                  d.remaining.Some? && IsLeastLeft(buckets, Counts(c, buckets, window), d.remaining.value))
            && (d.allowed ==> d.retryAfter == 0 && !d.rateLimited)
            && (d.allowed && buckets != [] ==>
                  NamesTightest(buckets, Counts(c, buckets, window), d) && d.resetAfter == Some(60))
            && (!d.allowed ==> NamesRefused(buckets, Counts(c, buckets, window), d))
  {
    var counts := Counts(c, buckets, window);
    if buckets != [] {
      RefusedWhenFull(buckets, counts);
      if Admits(buckets, counts) {
        CountsAfter(c, buckets, window);
        TightestIsLeastLeft(buckets, counts, Counts(IncrementAll(c, buckets, window), buckets, window));
      } else {
        RefusalMeaning(buckets, counts);
      }
    }
  }

  lemma RefusalMeaning(buckets: seq<Bucket>, counts: seq<nat>)
    requires |counts| == |buckets| && !Admits(buckets, counts)
    ensures var d := MostRestrictive(Refusals(Decisions(buckets, counts, false)));
            !d.allowed && NamesRefused(buckets, counts, d)
  {
    RefusedWhenFull(buckets, counts);
    var rejected := Refusals(Decisions(buckets, counts, false));
    forall d | d in rejected ensures !d.allowed && NamesRefused(buckets, counts, d) {
      RefusedDecision(buckets, counts, d);
    }
    RestrictiveIsOneOf(rejected);
  }

  lemma RefusedDecision(buckets: seq<Bucket>, counts: seq<nat>, d: Decision)
    requires |counts| == |buckets| && d in Decisions(buckets, counts, false) && !d.allowed
    ensures NamesRefused(buckets, counts, d)
  {
    var i :| 0 <= i < |buckets| && Decisions(buckets, counts, false)[i] == d;
    assert counts[i] >= buckets[i].limit;
  }

  lemma RestrictiveIsOneOf(rejected: seq<Decision>)
    requires rejected != [] && forall d | d in rejected :: !d.allowed
    ensures MostRestrictive(rejected) in rejected
  {
  }

  // ---------------------------------------------------------------- the Redis script

  /** INCR adds one to a live key and starts a dead one at one; a key created here expires after a minute. */
  lemma IncrSlotValue(server: Server, slot: Slot, at: real)
    ensures GetValue(IncrSlot(server, slot, at), slot, at) == GetValue(server, slot, at) + 1
    ensures forall s | s != slot :: (s in IncrSlot(server, slot, at) <==> s in server)
    ensures forall s | s != slot && s in server :: IncrSlot(server, slot, at)[s] == server[s]
  {
  }

  lemma {:induction false} IncrAllValue(server: Server, tag: string, buckets: seq<Bucket>, window: int, at: real,
      key: string)
    requires Distinct(buckets)
    ensures GetValue(IncrAll(server, tag, buckets, window, at), Slot(tag, key, window), at)
         == GetValue(server, Slot(tag, key, window), at) + if Uses(buckets, key) then 1 else 0
  {
    if buckets != [] {
      var rest, last := buckets[..|buckets| - 1], buckets[|buckets| - 1];
      IncrAllValue(server, tag, rest, window, at, key);
      IncrAllValue(server, tag, rest, window, at, last.key);
      IncrSlotValue(IncrAll(server, tag, rest, window, at), Slot(tag, last.key, window), at);
      assert Uses(buckets, key) <==> Uses(rest, key) || last.key == key;
    }
  }

  /** An admission that reports the least number of places left, and a bucket's limit. */
  ghost predicate Reports(buckets: seq<Bucket>, counts: seq<nat>, pass: Pass)
    requires |counts| == |buckets|
  {
    && pass.retryAfter == 0 && pass.limit.Some? && IsLeastLeft(buckets, counts, pass.remaining)
    && exists i | 0 <= i < |buckets| :: pass.limit.value == buckets[i].limit
  }

  /** The script's running minimum is the least number of places left. */
  lemma {:induction false} AdmissionPassMeaning(server: Server, tag: string, buckets: seq<Bucket>, window: int,
      at: real)
    requires Distinct(buckets) && buckets != []
    ensures Reports(buckets, Values(server, tag, buckets, window, at), AdmissionPass(server, tag, buckets, window, at))
  {
    var n := |buckets| - 1;
    var rest, last, counts := buckets[..n], buckets[n], Values(server, tag, buckets, window, at);
    IncrAllValue(server, tag, buckets, window, at, last.key);
    assert GetValue(IncrAll(server, tag, buckets, window, at), Slot(tag, last.key, window), at) == counts[n] + 1;
    var before := AdmissionPass(server, tag, rest, window, at);
    if rest != [] {
      AdmissionPassMeaning(server, tag, rest, window, at);
      assert Values(server, tag, rest, window, at) == counts[..n];
      ReportsOneMore(buckets, counts, before);
    } else {
      ReportsOne(buckets, counts);
    }
  }

  lemma ReportsOne(buckets: seq<Bucket>, counts: seq<nat>)
    requires |counts| == |buckets| == 1
    ensures Reports(buckets, counts, AdmissionStep(buckets[0].limit, counts[0] + 1, Pass(0, None, 0)))
  {
  }

  lemma ReportsOneMore(buckets: seq<Bucket>, counts: seq<nat>, before: Pass)
    requires |counts| == |buckets| > 0 && Reports(buckets[..|buckets| - 1], counts[..|buckets| - 1], before)
    ensures Reports(buckets, counts, AdmissionStep(buckets[|buckets| - 1].limit, counts[|buckets| - 1] + 1, before))
  {
  }

  /**
   * What a refusal reports: a full bucket with the smallest limit of them, and what that bucket has left; nothing if
   * none is full.
   */
  ghost predicate NamesFull(buckets: seq<Bucket>, counts: seq<nat>, pass: Pass)
    requires |counts| == |buckets|
  {
    if pass.limit.None? then Admits(buckets, counts)
    else
      && (exists i | 0 <= i < |buckets| ::
            counts[i] >= buckets[i].limit == pass.limit.value && pass.remaining == buckets[i].limit - counts[i])
      && forall i | 0 <= i < |buckets| && counts[i] >= buckets[i].limit :: pass.limit.value <= buckets[i].limit
  }

  lemma {:induction false} RefusalPassMeaning(server: Server, tag: string, buckets: seq<Bucket>, window: int, at: real)
    ensures NamesFull(buckets, Values(server, tag, buckets, window, at), RefusalPass(server, tag, buckets, window, at))
    ensures RefusalPass(server, tag, buckets, window, at).limit.None? <==>
            Admits(buckets, Values(server, tag, buckets, window, at))
  {
    if buckets != [] {
      var n := |buckets| - 1;
      RefusalPassMeaning(server, tag, buckets[..n], window, at);
      assert Values(server, tag, buckets[..n], window, at) == Values(server, tag, buckets, window, at)[..n];
      NamesFullOneMore(buckets, Values(server, tag, buckets, window, at),
                       RefusalPass(server, tag, buckets[..n], window, at),
                           RefusalPass(server, tag, buckets, window, at));
    }
  }

  lemma NamesFullOneMore(buckets: seq<Bucket>, counts: seq<nat>, before: Pass, after: Pass)
    requires |counts| == |buckets| > 0 && NamesFull(buckets[..|buckets| - 1], counts[..|buckets| - 1], before)
    requires var limit, value := buckets[|buckets| - 1].limit, counts[|buckets| - 1];
             if value < limit then after == before
             else
               if before.limit.None? || limit < before.limit.value then
                 after.limit == Some(limit) && after.remaining == limit - value
               else after.limit == before.limit && after.remaining == before.remaining
    ensures NamesFull(buckets, counts, after) && (after.limit.None? <==> Admits(buckets, counts))
  {
    var n := |buckets| - 1;
    assert forall i | 0 <= i < n :: buckets[..n][i] == buckets[i] && counts[..n][i] == counts[i];
  }

  /** The wait of one full bucket: what its key has to live, or a whole window where that is not known. */
  function WaitFor(server: Server, slot: Slot, at: real): int {
    var ttl := TimeToLive(server, slot, at);
    if ttl < 0 then 60 else ttl
  }

  /** The wait reported with a refusal is the longest of the full buckets. */
  lemma {:induction false} RefusalWaitsLongest(server: Server, tag: string, buckets: seq<Bucket>, window: int, at: real)
    ensures var wait := RefusalPass(server, tag, buckets, window, at).retryAfter;
            && (forall b | b in buckets && GetValue(server, Slot(tag, b.key, window), at) >= b.limit ::
                  WaitFor(server, Slot(tag, b.key, window), at) <= wait)
            && (wait == 0 || exists b | b in buckets ::
                  GetValue(server, Slot(tag, b.key, window), at) >= b.limit
                  && WaitFor(server, Slot(tag, b.key, window), at) == wait)
            && wait >= 0
  {
    if buckets != [] {
      var n := |buckets| - 1;
      RefusalWaitsLongest(server, tag, buckets[..n], window, at);
      assert forall b :: b in buckets <==> b in buckets[..n] || b == buckets[n];
    }
  }

  /** A key's time to live, within half a second. */
  lemma LivesFor(server: Server, slot: Slot, at: real)
    requires Alive(server, slot, at) && server[slot].expires.Some?
    ensures var left := server[slot].expires.value - at;
            TimeToLive(server, slot, at) as real - 0.5 <= left < TimeToLive(server, slot, at) as real + 0.5
  {
  }

  /** What the client makes of the script's reply. */
  lemma {:induction false} RedisReports(server: Server, tag: string, buckets: seq<Bucket>, window: int, at: real)
    requires buckets != [] && Distinct(buckets)
    ensures var d, counts := RedisDecision(server, tag, buckets, window, at), Values(server, tag, buckets, window, at);
            && d.rateLimited == !d.allowed
            && (d.allowed ==> d.retryAfter == 0 && d.resetAfter == Some(60))
            && (!d.allowed && d.retryAfter > 0 ==> d.resetAfter == Some(d.retryAfter))
            && (!d.allowed ==> d.retryAfter == RefusalPass(server, tag, buckets, window, at).retryAfter)
            && (!d.allowed && d.limit.Some? ==>
                  d.remaining.Some? && NamesFull(buckets, counts, Pass(0, d.limit, d.remaining.value)))
  {
    RefusalPassMeaning(server, tag, buckets, window, at);
    AdmissionPassMeaning(server, tag, buckets, window, at);
  }

  // ---------------------------------------------------------------- hash tags

  /** The party whose requests go to one server node: the seller, and failing that the address. */
  predicate SameTagged(r: Request, q: Request) {
    if Present(r.seller) || Present(q.seller) then
      Present(r.seller) && Present(q.seller) && SafeKeyPart(r.seller.value) == SafeKeyPart(q.seller.value)
    else if Present(r.host) || Present(q.host) then
      Present(r.host) && Present(q.host) && SafeKeyPart(r.host.value) == SafeKeyPart(q.host.value)
    else true
  }

  lemma {:induction false} SameRest(front: string, x: string, y: string)
    requires front + x == front + y
    ensures x == y
  {
    assert (front + x)[|front|..] == x && (front + y)[|front|..] == y;
  }

  lemma {:induction false} TagStart(r: Request)
    ensures |HashTag(r)| > 0
    ensures HashTag(r)[0] == if Present(r.seller) then 's' else if Present(r.host) then 'i' else 'a'
  {
  }

  lemma {:induction false} TagsExactly(r: Request, q: Request)
    ensures HashTag(r) == HashTag(q) <==> SameTagged(r, q)
  {
    TagStart(r);
    TagStart(q);
    if HashTag(r) == HashTag(q) {
      if Present(r.seller) {
        SameRest("seller_account.", SafeKeyPart(r.seller.value), SafeKeyPart(q.seller.value));
      } else if Present(r.host) {
        SameRest("ip.", SafeKeyPart(r.host.value), SafeKeyPart(q.host.value));
      }
    }
  }
}
