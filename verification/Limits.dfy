/**
 * Fixed-window rate limiting: the buckets of a request, and the in-memory and Redis forms of one check as functions.
 */
module Limits {
  import opened Wrappers

  datatype Endpoint = Supported | Verify | Settle | Invalid

  datatype Policy = Policy(
    seller: Option<int>, supported: Option<int>, verify: Option<int>,
    settle: Option<int>, invalid: Option<int>, ip: Option<int>)

  datatype Request = Request(endpoint: Endpoint, seller: Option<string>, host: Option<string>, policy: Policy)

  /** A counted resource; every window lasts 60 seconds. */
  datatype Bucket = Bucket(key: string, limit: int)

  datatype Decision = Decision(
    allowed: bool, retryAfter: int, limit: Option<int>, remaining: Option<int>,
    resetAfter: Option<int>, rateLimited: bool)

  const UNLIMITED := Decision(true, 0, None, None, None, false)

  function Max(a: int, b: int): int {
    if a >= b then a else b
  }

  // ---------------------------------------------------------------- the buckets of a request

  predicate Present(text: Option<string>) {
    text.Some? && text.value != ""
  }

  predicate SafeChar(c: char) {
    'a' <= c <= 'z' || 'A' <= c <= 'Z' || '0' <= c <= '9' || c == '_' || c == '-' || c == '.'
  }

  function SafeKeyPart(value: string): string {
    var kept := seq(|value|, i requires 0 <= i < |value| => if SafeChar(value[i]) then value[i] else '_');
    if |kept| <= 128 then kept else kept[..128]
  }

  function ScopeOf(endpoint: Endpoint): string {
    match endpoint
    case Supported => "supported"
    case Verify => "verify"
    case Settle => "settle"
    case Invalid => "invalid"
  }

  function LimitFor(policy: Policy, endpoint: Endpoint): Option<int> {
    match endpoint
    case Supported => policy.supported
    case Verify => policy.verify
    case Settle => policy.settle
    case Invalid => policy.invalid
  }

  function IpKey(host: string, scope: string): string {
    "ip:" + SafeKeyPart(host) + ":" + scope
  }

  function SellerKey(seller: string, scope: string): string {
    "seller_account:" + SafeKeyPart(seller) + ":" + scope
  }

  /** A bucket that applies only under a guard and only when its limit is set. */
  function BucketIf(applies: bool, key: string, limit: Option<int>): seq<Bucket> {
    if applies && limit.Some? then [Bucket(key, limit.value)] else []
  }

  function Text(text: Option<string>): string {
    if text.Some? then text.value else ""
  }

  function Buckets(r: Request): seq<Bucket> {
    BucketIf(Present(r.host), IpKey(Text(r.host), "all"), r.policy.ip)
    + BucketIf(Present(r.seller), SellerKey(Text(r.seller), ScopeOf(r.endpoint)), LimitFor(r.policy, r.endpoint))
    + BucketIf(Present(r.seller) && r.endpoint != Invalid, SellerKey(Text(r.seller), "all"), r.policy.seller)
    + BucketIf(Present(r.host) && r.endpoint == Invalid, IpKey(Text(r.host), "invalid"), r.policy.invalid)
  }

  function HashTag(r: Request): string {
    if Present(r.seller) then "seller_account." + SafeKeyPart(r.seller.value)
    else if Present(r.host) then "ip." + SafeKeyPart(r.host.value)
    else "anonymous"
  }

  predicate Distinct(buckets: seq<Bucket>) {
    forall i, j | 0 <= i < j < |buckets| :: buckets[i].key != buckets[j].key
  }

  // ---------------------------------------------------------------- decisions

  /** The window of a moment, as the in-memory limiter computes it. */
  function Window(now: real): int {
    (now / 60.0).Floor
  }

  /** The window of a moment, as the Redis limiter computes it from whole seconds. */
  function WholeSecondWindow(now: real): int {
    now.Floor / 60
  }

  function DecisionFor(bucket: Bucket, count: int, consumed: bool): Decision {
    var allowed := if consumed then count <= bucket.limit else count < bucket.limit;
    var remaining := if consumed then bucket.limit - count else bucket.limit - count - 1;
    Decision(allowed, if allowed then 0 else 60, Some(bucket.limit), Some(Max(remaining, 0)), Some(60), !allowed)
  }

  function Decisions(buckets: seq<Bucket>, counts: seq<nat>, consumed: bool): (r: seq<Decision>)
    requires |counts| == |buckets|
    ensures |r| == |buckets|
  {
    seq(|buckets|, i requires 0 <= i < |buckets| => DecisionFor(buckets[i], counts[i], consumed))
  }

  function Refusals(decisions: seq<Decision>): (r: seq<Decision>)
    ensures forall d :: d in r <==> d in decisions && !d.allowed
  {
    if decisions == [] then []
    else
      var last := decisions[|decisions| - 1];
      Refusals(decisions[..|decisions| - 1]) + if last.allowed then [] else [last]
  }

  /** The ordering of the least generous decision: by remaining count, then by limit, absent values last. */
  predicate TighterThan(a: Decision, b: Decision) {
    || Below(a.remaining, b.remaining)
    || (a.remaining == b.remaining && Below(a.limit, b.limit))
  }

  predicate Below(a: Option<int>, b: Option<int>) {
    a.Some? && (b.None? || a.value < b.value)
  }

  /** The first decision no other is tighter than. */
  function Tightest(decisions: seq<Decision>): (r: Decision)
    requires decisions != []
    ensures r in decisions
    ensures forall d | d in decisions :: !TighterThan(d, r)
  {
    if |decisions| == 1 then decisions[0]
    else
      var best, last := Tightest(decisions[..|decisions| - 1]), decisions[|decisions| - 1];
      assert decisions == decisions[..|decisions| - 1] + [last];
      if TighterThan(last, best) then last else best
  }

  /** The first decision with the longest wait. */
  function LongestWait(decisions: seq<Decision>): (r: Decision)
    requires decisions != []
    ensures r in decisions
    ensures forall d | d in decisions :: d.retryAfter <= r.retryAfter
  {
    if |decisions| == 1 then decisions[0]
    else
      var best, last := LongestWait(decisions[..|decisions| - 1]), decisions[|decisions| - 1];
      assert decisions == decisions[..|decisions| - 1] + [last];
      if last.retryAfter > best.retryAfter then last else best
  }

  function MostRestrictive(decisions: seq<Decision>): Decision {
    if decisions == [] then UNLIMITED
    else
      var rejected := Refusals(decisions);
      if rejected != [] then LongestWait(rejected) else Tightest(decisions)
  }

  // ---------------------------------------------------------------- what both limiters must mean

  /** Every bucket has room for one more. */
  predicate Admits(buckets: seq<Bucket>, counts: seq<nat>)
    requires |counts| == |buckets|
  {
    forall i | 0 <= i < |buckets| :: counts[i] < buckets[i].limit
  }

  /** `r` is the smallest number of places left in any bucket once this request has taken its own. */
  ghost predicate IsLeastLeft(buckets: seq<Bucket>, counts: seq<nat>, r: int)
    requires |counts| == |buckets|
  {
    && (exists i | 0 <= i < |buckets| :: buckets[i].limit - counts[i] - 1 == r)
    && forall i | 0 <= i < |buckets| :: r <= buckets[i].limit - counts[i] - 1
  }

  // ---------------------------------------------------------------- the in-memory form

  type Counters = map<(string, int), nat>

  function CountOf(c: Counters, key: string, window: int): nat {
    if (key, window) in c then c[(key, window)] else 0
  }

  function Counts(c: Counters, buckets: seq<Bucket>, window: int): (r: seq<nat>)
    ensures |r| == |buckets|
  {
    seq(|buckets|, i requires 0 <= i < |buckets| => CountOf(c, buckets[i].key, window))
  }

  function Increment(c: Counters, key: string, window: int): Counters {
    c[(key, window) := CountOf(c, key, window) + 1]
  }

  function IncrementAll(c: Counters, buckets: seq<Bucket>, window: int): Counters {
    if buckets == [] then c
    else Increment(IncrementAll(c, buckets[..|buckets| - 1], window), buckets[|buckets| - 1].key, window)
  }

  function MemoryDecision(c: Counters, buckets: seq<Bucket>, window: int): Decision {
    if buckets == [] then UNLIMITED
    else
      var rejected := Refusals(Decisions(buckets, Counts(c, buckets, window), false));
      if rejected != [] then MostRestrictive(rejected)
      else MostRestrictive(Decisions(buckets, Counts(IncrementAll(c, buckets, window), buckets, window), true))
  }

  function MemoryAfter(c: Counters, buckets: seq<Bucket>, window: int): Counters {
    if Admits(buckets, Counts(c, buckets, window)) then IncrementAll(c, buckets, window) else c
  }

  // ---------------------------------------------------------------- the Redis form

  /** A Redis key: hash tag, bucket key and window. */
  datatype Slot = Slot(tag: string, key: string, window: int)

  datatype Entry = Entry(value: nat, expires: Option<real>)

  type Server = map<Slot, Entry>

  /** What the script returns: status, wait, limit, remaining. */
  datatype Reply = Reply(allowed: bool, retryAfter: int, limit: int, remaining: int)

  predicate Alive(server: Server, slot: Slot, at: real) {
    slot in server && (server[slot].expires.Some? ==> at <= server[slot].expires.value)
  }

  function GetValue(server: Server, slot: Slot, at: real): nat {
    if Alive(server, slot, at) then server[slot].value else 0
  }

  /** Seconds to live, rounded; -1 without an expiry, -2 without a key. */
  function TimeToLive(server: Server, slot: Slot, at: real): int {
    if !Alive(server, slot, at) then -2
    else if server[slot].expires.None? then -1
    else (server[slot].expires.value - at + 0.5).Floor
  }

  function Incr(server: Server, slot: Slot, at: real): Server {
    server[slot := if Alive(server, slot, at) then server[slot].(value := server[slot].value + 1) else Entry(1, None)]
  }

  function Expire(server: Server, slot: Slot, at: real, seconds: int): Server {
    if Alive(server, slot, at) then server[slot := server[slot].(expires := Some(at + seconds as real))] else server
  }

  /** INCR, with EXPIRE on the first increment. */
  function IncrSlot(server: Server, slot: Slot, at: real): Server {
    var next := Incr(server, slot, at);
    if GetValue(next, slot, at) == 1 then Expire(next, slot, at, 60) else next
  }

  function IncrAll(server: Server, tag: string, buckets: seq<Bucket>, window: int, at: real): Server {
    if buckets == [] then server
    else
      IncrSlot(IncrAll(server, tag, buckets[..|buckets| - 1], window, at),
          Slot(tag, buckets[|buckets| - 1].key, window), at)
  }

  function Values(server: Server, tag: string, buckets: seq<Bucket>, window: int, at: real): (r: seq<nat>)
    ensures |r| == |buckets|
  {
    seq(|buckets|, i requires 0 <= i < |buckets| => GetValue(server, Slot(tag, buckets[i].key, window), at))
  }

  /** What a loop of the script has gathered: the wait, and the limit and remaining count it would report. */
  datatype Pass = Pass(retryAfter: int, limit: Option<int>, remaining: int)

  /** The first loop: over full buckets, the longest wait and the smallest limit. */
  function RefusalPass(server: Server, tag: string, buckets: seq<Bucket>, window: int, at: real): Pass {
    if buckets == [] then Pass(0, None, 0)
    else
      RefusalStep(server, Slot(tag, buckets[|buckets| - 1].key, window), buckets[|buckets| - 1].limit, at,
                  RefusalPass(server, tag, buckets[..|buckets| - 1], window, at))
  }

  function RefusalStep(server: Server, slot: Slot, limit: int, at: real, pass: Pass): Pass {
    if GetValue(server, slot, at) < limit then pass
    else
      var ttl := TimeToLive(server, slot, at);
      var wait := Max(pass.retryAfter, if ttl < 0 then 60 else ttl);
      if pass.limit.None? || limit < pass.limit.value then Pass(wait, Some(limit), limit - GetValue(server, slot, at))
      else pass.(retryAfter := wait)
  }

  /** The second loop: increments every bucket and keeps the first smallest remaining count. */
  function AdmissionPass(server: Server, tag: string, buckets: seq<Bucket>, window: int, at: real): Pass {
    if buckets == [] then Pass(0, None, 0)
    else
      var last := buckets[|buckets| - 1];
      var next := IncrAll(server, tag, buckets, window, at);
      AdmissionStep(last.limit, GetValue(next, Slot(tag, last.key, window), at),
                    AdmissionPass(server, tag, buckets[..|buckets| - 1], window, at))
  }

  function AdmissionStep(limit: int, value: int, pass: Pass): Pass {
    if pass.limit.None? || limit - value < pass.remaining then Pass(0, Some(limit), limit - value) else pass
  }

  function OrZero(limit: Option<int>): int {
    if limit.Some? then limit.value else 0
  }

  function ScriptReply(server: Server, tag: string, buckets: seq<Bucket>, window: int, at: real): Reply {
    var admitted := Admits(buckets, Values(server, tag, buckets, window, at));
    var pass := if admitted then AdmissionPass(server, tag, buckets, window, at)
                else RefusalPass(server, tag, buckets, window, at);
    Reply(admitted, pass.retryAfter, OrZero(pass.limit), pass.remaining)
  }

  function ScriptAfter(server: Server, tag: string, buckets: seq<Bucket>, window: int, at: real): Server {
    if Admits(buckets, Values(server, tag, buckets, window, at)) then IncrAll(server, tag, buckets, window, at)
        else server
  }

  /** How the client reads the script's reply. */
  function DecisionOf(reply: Reply): Decision {
    var limit := if reply.limit > 0 then Some(reply.limit) else None;
    Decision(reply.allowed, reply.retryAfter, limit, if limit.Some? then Some(reply.remaining) else None,
             Some(if reply.retryAfter > 0 then reply.retryAfter else 60), !reply.allowed)
  }

  function RedisDecision(server: Server, tag: string, buckets: seq<Bucket>, window: int, at: real): Decision {
    if buckets == [] then UNLIMITED else DecisionOf(ScriptReply(server, tag, buckets, window, at))
  }

  function RedisAfter(server: Server, tag: string, buckets: seq<Bucket>, window: int, at: real): Server {
    if buckets == [] then server else ScriptAfter(server, tag, buckets, window, at)
  }
}
