/** What a policy's fields mean for requests: which buckets a request has, who shares them, and how many pass. */
module LimitPolicy {
  import opened Wrappers
  import opened Limits
  import opened LimitMeaning
  import opened LimitTheorems

  // ---------------------------------------------------------------- the buckets of a request, field by field

  /** A seller's bucket under this scope: the seller is known and the policy sets this limit for it. */
  predicate SellerBucket(r: Request, b: Bucket, scope: string, limit: Option<int>) {
    r.seller.Some? && r.seller.value != "" && limit == Some(b.limit) && b.key == SellerKey(r.seller.value, scope)
  }

  predicate AddressBucket(r: Request, b: Bucket, scope: string, limit: Option<int>) {
    r.host.Some? && r.host.value != "" && limit == Some(b.limit) && b.key == IpKey(r.host.value, scope)
  }

  /** Every request counts against its address; what else it counts against depends on the endpoint. */
  predicate HasBucket(r: Request, b: Bucket) {
    || AddressBucket(r, b, "all", r.policy.ip)
    || match r.endpoint
       case Supported =>
         SellerBucket(r, b, "supported", r.policy.supported) || SellerBucket(r, b, "all", r.policy.seller)
       case Verify => SellerBucket(r, b, "verify", r.policy.verify) || SellerBucket(r, b, "all", r.policy.seller)
       case Settle => SellerBucket(r, b, "settle", r.policy.settle) || SellerBucket(r, b, "all", r.policy.seller)
       case Invalid =>
         SellerBucket(r, b, "invalid", r.policy.invalid) || AddressBucket(r, b, "invalid", r.policy.invalid)
  }

  lemma {:induction false} InOneOfFour(x: Bucket, a: seq<Bucket>, b: seq<Bucket>, c: seq<Bucket>, d: seq<Bucket>)
    ensures x in a + b + c + d <==> x in a || x in b || x in c || x in d
  {
  }

  /** The buckets of a request are exactly these. */
  lemma {:induction false} BucketsExactly(r: Request, b: Bucket)
    ensures b in Buckets(r) <==> HasBucket(r, b)
  {
    InOneOfFour(b, BucketIf(Present(r.host), IpKey(Text(r.host), "all"), r.policy.ip),
                BucketIf(Present(r.seller), SellerKey(Text(r.seller), ScopeOf(r.endpoint)),
                         LimitFor(r.policy, r.endpoint)),
                BucketIf(Present(r.seller) && r.endpoint != Invalid, SellerKey(Text(r.seller), "all"), r.policy.seller),
                BucketIf(Present(r.host) && r.endpoint == Invalid, IpKey(Text(r.host), "invalid"), r.policy.invalid));
  }

  // ---------------------------------------------------------------- who shares a bucket

  /** A sanitised name keeps its safe letters where they are, and is at most 128 long. */
  lemma {:induction false} SafePartMeans(value: string)
    ensures |SafeKeyPart(value)| == if |value| <= 128 then |value| else 128
    ensures forall i | 0 <= i < |SafeKeyPart(value)| ::
              SafeKeyPart(value)[i] == if SafeChar(value[i]) then value[i] else '_'
  {
  }

  lemma {:induction false} SamePart(front: string, x: string, y: string, back: string)
    requires front + x + ":" + back == front + y + ":" + back
    ensures x == y
  {
    var s, t := front + x + ":" + back, front + y + ":" + back;
    assert |x| == |y|;
    assert s[|front|..|front| + |x|] == x && t[|front|..|front| + |y|] == y;
  }

  predicate SameParty(x: Option<string>, y: Option<string>) {
    Present(x) && Present(y) && SafeKeyPart(x.value) == SafeKeyPart(y.value)
  }

  predicate KeyOfKind(r: Request, key: string, kind: Kind) {
    match kind
    case IpAll => Present(r.host) && key == IpKey(r.host.value, "all")
    case IpInvalid => Present(r.host) && key == IpKey(r.host.value, "invalid")
    case SellerAll => Present(r.seller) && key == SellerKey(r.seller.value, "all")
    case SellerScope(endpoint) => Present(r.seller) && key == SellerKey(r.seller.value, ScopeOf(endpoint))
  }

  lemma {:induction false} BucketHasKind(r: Request, b: Bucket) returns (kind: Kind)
    requires HasBucket(r, b)
    ensures KeyOfKind(r, b.key, kind)
  {
    if AddressBucket(r, b, "all", r.policy.ip) {
      kind := IpAll;
    } else if SellerBucket(r, b, "all", r.policy.seller) {
      kind := SellerAll;
    } else if r.endpoint == Invalid && AddressBucket(r, b, "invalid", r.policy.invalid) {
      kind := IpInvalid;
    } else {
      kind := SellerScope(r.endpoint);
    }
  }

  lemma {:induction false} KindIsRead(r: Request, key: string, kind: Kind)
    requires KeyOfKind(r, key, kind)
    ensures KindOf(key) == kind
  {
    match kind
    case IpAll => IpKinds(r.host.value);
    case IpInvalid => IpKinds(r.host.value);
    case SellerAll => SellerAllKind(r.seller.value);
    case SellerScope(endpoint) => SellerScopeKind(r.seller.value, endpoint);
  }

  lemma {:induction false} KeyHasKind(r: Request, key: string)
    requires Uses(Buckets(r), key)
    ensures KeyOfKind(r, key, KindOf(key))
  {
    var i :| 0 <= i < |Buckets(r)| && Buckets(r)[i].key == key;
    var b := Buckets(r)[i];
    BucketsExactly(r, b);
    var kind := BucketHasKind(r, b);
    KindIsRead(r, key, kind);
  }

  /** Two requests share a bucket only through one seller or one address, up to what sanitising makes equal. */
  lemma {:induction false} SharedOnlyByParty(r: Request, q: Request, key: string)
    requires Uses(Buckets(r), key) && Uses(Buckets(q), key)
    ensures SameParty(r.seller, q.seller) || SameParty(r.host, q.host)
  {
    KeyHasKind(r, key);
    KeyHasKind(q, key);
    match KindOf(key)
    case IpAll => SamePart("ip:", SafeKeyPart(r.host.value), SafeKeyPart(q.host.value), "all");
    case IpInvalid => SamePart("ip:", SafeKeyPart(r.host.value), SafeKeyPart(q.host.value), "invalid");
    case SellerAll => SamePart("seller_account:", SafeKeyPart(r.seller.value), SafeKeyPart(q.seller.value), "all");
    case SellerScope(endpoint) =>
      SamePart("seller_account:", SafeKeyPart(r.seller.value), SafeKeyPart(q.seller.value), ScopeOf(endpoint));
  }

  // ---------------------------------------------------------------- how many requests pass

  /** Requests of a seller to one of these endpoints, or from an address, that were admitted in a window. */
  datatype Group =
    | BySeller(seller: string, endpoints: set<Endpoint>)
    | ByAddress(host: string, endpoints: set<Endpoint>)

  predicate InGroup(r: Request, g: Group) {
    match g
    case BySeller(seller, endpoints) => r.seller == Some(seller) && r.endpoint in endpoints
    case ByAddress(host, endpoints) => r.host == Some(host) && r.endpoint in endpoints
  }

  function Admitted(run: seq<Arrival>, g: Group, w: int): nat {
    if run == [] then 0
    else
      var n := |run| - 1;
      Admitted(run[..n], g, w)
      + if InGroup(run[n].request, g) && MemoryAnswer(run, n).allowed && Window(run[n].now) == w then 1 else 0
  }

  lemma {:induction false} AdmittedAreCounted(run: seq<Arrival>, g: Group, key: string, w: int)
    requires forall i | 0 <= i < |run| && InGroup(run[i].request, g) :: Uses(run[i].buckets, key)
    ensures Admitted(run, g, w) <= Admissions(run, key, w)
  {
    if run != [] { AdmittedAreCounted(run[..|run| - 1], g, key, w); }
  }

  /** A group whose members all have the bucket with this key and limit is held to that limit. */
  lemma {:induction false} GroupIsLimited(run: seq<Arrival>, policy: Policy, g: Group, b: Bucket, w: int)
    requires AllGenuine(run) && OnePolicy(run, policy)
    requires forall i | 0 <= i < |run| && InGroup(run[i].request, g) :: HasBucket(run[i].request, b)
    requires LimitOfKind(policy, KindOf(b.key)) == Some(b.limit)
    ensures Admitted(run, g, w) <= Max(b.limit, 0)
  {
    forall i | 0 <= i < |run| && InGroup(run[i].request, g) ensures Uses(run[i].buckets, b.key) {
      BucketsExactly(run[i].request, b);
      assert Genuine(run[i]);
    }
    AdmittedAreCounted(run, g, b.key, w);
    AtMostLimitPerWindow(run, policy, b.key, w);
  }

  lemma {:induction false} SellersAreLimited(run: seq<Arrival>, policy: Policy, seller: string, endpoint: Endpoint,
                                             limit: int, w: int)
    requires AllGenuine(run) && OnePolicy(run, policy) && seller != ""
    requires LimitOfKind(policy, SellerScope(endpoint)) == Some(limit)
    ensures Admitted(run, BySeller(seller, {endpoint}), w) <= Max(limit, 0)
  {
    SellerScopeKind(seller, endpoint);
    GroupIsLimited(run, policy, BySeller(seller, {endpoint}), Bucket(SellerKey(seller, ScopeOf(endpoint)), limit), w);
  }

  lemma {:induction false} SellerIsLimited(run: seq<Arrival>, policy: Policy, seller: string, w: int)
    requires AllGenuine(run) && OnePolicy(run, policy) && seller != "" && policy.seller.Some?
    ensures Admitted(run, BySeller(seller, {Supported, Verify, Settle}), w) <= Max(policy.seller.value, 0)
  {
    SellerAllKind(seller);
    GroupIsLimited(run, policy, BySeller(seller, {Supported, Verify, Settle}),
                   Bucket(SellerKey(seller, "all"), policy.seller.value), w);
  }

  lemma {:induction false} AddressIsLimited(run: seq<Arrival>, policy: Policy, host: string, w: int)
    requires AllGenuine(run) && OnePolicy(run, policy) && host != "" && policy.ip.Some?
    ensures Admitted(run, ByAddress(host, {Supported, Verify, Settle, Invalid}), w) <= Max(policy.ip.value, 0)
  {
    IpKinds(host);
    GroupIsLimited(run, policy, ByAddress(host, {Supported, Verify, Settle, Invalid}),
                   Bucket(IpKey(host, "all"), policy.ip.value), w);
  }

  lemma {:induction false} InvalidIsLimited(run: seq<Arrival>, policy: Policy, host: string, w: int)
    requires AllGenuine(run) && OnePolicy(run, policy) && host != "" && policy.invalid.Some?
    ensures Admitted(run, ByAddress(host, {Invalid}), w) <= Max(policy.invalid.value, 0)
  {
    IpKinds(host);
    GroupIsLimited(run, policy, ByAddress(host, {Invalid}), Bucket(IpKey(host, "invalid"), policy.invalid.value), w);
  }

  /** In any window, each seller and each address gets at most what the policy's own field for it says. */
  lemma {:induction false} PolicyIsKept(run: seq<Arrival>, policy: Policy, seller: string, host: string, w: int)
    requires AllGenuine(run) && OnePolicy(run, policy) && seller != "" && host != ""
    ensures policy.settle.Some? ==> Admitted(run, BySeller(seller, {Settle}), w) <= Max(policy.settle.value, 0)
    ensures policy.verify.Some? ==> Admitted(run, BySeller(seller, {Verify}), w) <= Max(policy.verify.value, 0)
    ensures policy.supported.Some? ==> Admitted(run, BySeller(seller, {Supported}), w) <= Max(policy.supported.value, 0)
    ensures policy.invalid.Some? ==>
              && Admitted(run, BySeller(seller, {Invalid}), w) <= Max(policy.invalid.value, 0)
              && Admitted(run, ByAddress(host, {Invalid}), w) <= Max(policy.invalid.value, 0)
    ensures policy.seller.Some? ==>
              Admitted(run, BySeller(seller, {Supported, Verify, Settle}), w) <= Max(policy.seller.value, 0)
    ensures policy.ip.Some? ==>
              Admitted(run, ByAddress(host, {Supported, Verify, Settle, Invalid}), w) <= Max(policy.ip.value, 0)
  {
    if policy.settle.Some? { SellersAreLimited(run, policy, seller, Settle, policy.settle.value, w); }
    if policy.verify.Some? { SellersAreLimited(run, policy, seller, Verify, policy.verify.value, w); }
    if policy.supported.Some? { SellersAreLimited(run, policy, seller, Supported, policy.supported.value, w); }
    if policy.invalid.Some? {
      SellersAreLimited(run, policy, seller, Invalid, policy.invalid.value, w);
      InvalidIsLimited(run, policy, host, w);
    }
    if policy.seller.Some? { SellerIsLimited(run, policy, seller, w); }
    if policy.ip.Some? { AddressIsLimited(run, policy, host, w); }
  }

  // ---------------------------------------------------------------- one check

  /** Every bucket of the request has room for one more. */
  ghost predicate HasRoom(r: Request, count: string -> nat) {
    forall b: Bucket | HasBucket(r, b) :: count(b.key) < b.limit
  }

  predicate UsesKey(r: Request, key: string) {
    Uses(Buckets(r), key)
  }

  lemma {:induction false} RoomIsAdmission(r: Request, counts: seq<nat>, count: string -> nat)
    requires |counts| == |Buckets(r)| && forall i | 0 <= i < |counts| :: counts[i] == count(Buckets(r)[i].key)
    ensures Admits(Buckets(r), counts) <==> HasRoom(r, count)
  {
    var buckets := Buckets(r);
    if Admits(buckets, counts) {
      forall b: Bucket | HasBucket(r, b) ensures count(b.key) < b.limit {
        BucketsExactly(r, b);
        var i :| 0 <= i < |buckets| && buckets[i] == b;
      }
    }
    if HasRoom(r, count) {
      forall i | 0 <= i < |buckets| ensures counts[i] < buckets[i].limit {
        BucketsExactly(r, buckets[i]);
      }
    }
  }

  /** The in-memory check admits exactly when there is room, and then counts the request once in each of its buckets. */
  lemma {:induction false} MemoryCheckMeans(c: Counters, r: Request, window: int, key: string, w: int)
    ensures MemoryDecision(c, Buckets(r), window).allowed <==> HasRoom(r, k => CountOf(c, k, window))
    ensures CountOf(MemoryAfter(c, Buckets(r), window), key, w)
         == CountOf(c, key, w)
            + if MemoryDecision(c, Buckets(r), window).allowed && UsesKey(r, key) && window == w then 1 else 0
  {
    BucketKeysDistinct(r);
    MemoryMeaning(c, Buckets(r), window);
    RoomIsAdmission(r, Counts(c, Buckets(r), window), k => CountOf(c, k, window));
    CheckCounts(c, Buckets(r), window, key, w);
  }

  /** And so does the script, by what the server still holds. */
  lemma {:induction false} RedisCheckMeans(server: Server, r: Request, window: int, at: real)
    ensures RedisDecision(server, HashTag(r), Buckets(r), window, at).allowed <==>
            HasRoom(r, k => GetValue(server, Slot(HashTag(r), k, window), at))
  {
    RedisMeaning(server, HashTag(r), Buckets(r), window, at);
    RoomIsAdmission(r, Values(server, HashTag(r), Buckets(r), window, at),
                    k => GetValue(server, Slot(HashTag(r), k, window), at));
  }
}
