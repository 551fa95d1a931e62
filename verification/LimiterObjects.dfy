/** The two rate limiters as objects that update their counters in place. */
module LimiterObjects {
  import opened Wrappers
  import opened Limits
  import opened LimitMeaning
  import opened LimitPolicy

  class InMemoryFixedWindowRateLimiter {
    var counters: Counters

    constructor ()
      ensures counters == map[]
    {
      counters := map[];
    }

    method Check(request: Request, now: real) returns (d: Decision)
      modifies this
      ensures d == MemoryDecision(old(counters), Buckets(request), Window(now))
      ensures counters == MemoryAfter(old(counters), Buckets(request), Window(now))
      ensures var before := old(counters); d.allowed <==> HasRoom(request, key => CountOf(before, key, Window(now)))
      ensures forall key, w :: CountOf(counters, key, w) == CountOf(old(counters), key, w)
                + if d.allowed && UsesKey(request, key) && w == Window(now) then 1 else 0
    {
      var buckets := Buckets(request);
      ghost var before := counters;
      d := CheckBuckets(buckets, Window(now));
      MemoryCheckMeans(before, request, Window(now), "", 0);
      forall key, w
        ensures CountOf(counters, key, w) == CountOf(before, key, w)
                  + if d.allowed && UsesKey(request, key) && w == Window(now) then 1 else 0
      {
        MemoryCheckMeans(before, request, Window(now), key, w);
      }
    }

    /** Reads every bucket before it writes any: a refusal leaves the counters alone. */
    method CheckBuckets(buckets: seq<Bucket>, window: int) returns (d: Decision)
      modifies this
      ensures d == MemoryDecision(old(counters), buckets, window)
      ensures counters == MemoryAfter(old(counters), buckets, window)
    {
      if buckets == [] {
        return UNLIMITED;
      }
      ghost var before := counters;
      var rejected := Refusals(Decisions(buckets, Counts(counters, buckets, window), false));
      RefusedWhenFull(buckets, Counts(counters, buckets, window));
      if rejected != [] {
        return MostRestrictive(rejected);
      }
      for i := 0 to |buckets|
        invariant counters == IncrementAll(before, buckets[..i], window)
      {
        assert buckets[..i + 1][..i] == buckets[..i];
        counters := Increment(counters, buckets[i].key, window);
      }
      assert buckets[..|buckets|] == buckets;
      d := MostRestrictive(Decisions(buckets, Counts(counters, buckets, window), true));
    }
  }

  /** The Redis server with the limiter's script; the script runs without interruption at one moment. */
  class RedisFixedWindowRateLimiter {
    var server: Server

    constructor ()
      ensures server == map[]
    {
      server := map[];
    }

    method Check(request: Request, now: real, at: real) returns (d: Decision)
      requires now >= 0.0
      modifies this
      ensures d == RedisDecision(old(server), HashTag(request), Buckets(request), WholeSecondWindow(now), at)
      ensures server == RedisAfter(old(server), HashTag(request), Buckets(request), WholeSecondWindow(now), at)
      ensures var before, tag, w := old(server), HashTag(request), WholeSecondWindow(now);
              d.allowed <==> HasRoom(request, key => GetValue(before, Slot(tag, key, w), at))
    {
      var buckets := Buckets(request);
      RedisCheckMeans(server, request, WholeSecondWindow(now), at);
      if buckets == [] {
        return UNLIMITED;
      }
      var reply := RunScript(HashTag(request), buckets, WholeSecondWindow(now), at);
      d := DecisionOf(reply);
    }

    method RunScript(tag: string, buckets: seq<Bucket>, window: int, at: real) returns (reply: Reply)
      modifies this
      ensures reply == ScriptReply(old(server), tag, buckets, window, at)
      ensures server == ScriptAfter(old(server), tag, buckets, window, at)
    {
      RefusalPassMeaning(server, tag, buckets, window, at);
      var refused, pass := FindFull(tag, buckets, window, at);
      if refused {
        return Reply(false, pass.retryAfter, OrZero(pass.limit), pass.remaining);
      }
      pass := TakePlaces(tag, buckets, window, at);
      reply := Reply(true, 0, OrZero(pass.limit), pass.remaining);
      AdmissionWaitsNot(old(server), tag, buckets, window, at);
    }

    /** The script's first loop, which only reads. */
    method FindFull(tag: string, buckets: seq<Bucket>, window: int, at: real) returns (refused: bool, pass: Pass)
      ensures pass == RefusalPass(server, tag, buckets, window, at)
      ensures refused == pass.limit.Some?
    {
      refused, pass := false, Pass(0, None, 0);
      for i := 0 to |buckets|
        invariant pass == RefusalPass(server, tag, buckets[..i], window, at)
        invariant refused == pass.limit.Some?
      {
        var slot, limit := Slot(tag, buckets[i].key, window), buckets[i].limit;
        assert buckets[..i + 1][..i] == buckets[..i];
        var current := GetValue(server, slot, at);
        if current >= limit {
          refused := true;
          var ttl := TimeToLive(server, slot, at);
          if ttl < 0 {
            ttl := 60;
          }
          if ttl > pass.retryAfter {
            pass := pass.(retryAfter := ttl);
          }
          if pass.limit.None? || limit < pass.limit.value {
            pass := pass.(limit := Some(limit), remaining := limit - current);
          }
        }
      }
      assert buckets[..|buckets|] == buckets;
    }

    /** The script's second loop: INCR on every key, EXPIRE on the first increment. */
    method TakePlaces(tag: string, buckets: seq<Bucket>, window: int, at: real) returns (pass: Pass)
      modifies this
      ensures server == IncrAll(old(server), tag, buckets, window, at)
      ensures pass == AdmissionPass(old(server), tag, buckets, window, at)
    {
      pass := Pass(0, None, 0);
      for i := 0 to |buckets|
        invariant server == IncrAll(old(server), tag, buckets[..i], window, at)
        invariant pass == AdmissionPass(old(server), tag, buckets[..i], window, at)
      {
        var slot, limit := Slot(tag, buckets[i].key, window), buckets[i].limit;
        assert buckets[..i + 1][..i] == buckets[..i];
        server := Incr(server, slot, at);
        var current := GetValue(server, slot, at);
        if current == 1 {
          server := Expire(server, slot, at, 60);
        }
        var left := limit - current;
        if pass.limit.None? || left < pass.remaining {
          pass := Pass(0, Some(limit), left);
        }
      }
      assert buckets[..|buckets|] == buckets;
    }
  }

  lemma {:induction false} AdmissionWaitsNot(server: Server, tag: string, buckets: seq<Bucket>, window: int, at: real)
    ensures AdmissionPass(server, tag, buckets, window, at).retryAfter == 0
  {
    if buckets != [] { AdmissionWaitsNot(server, tag, buckets[..|buckets| - 1], window, at); }
  }
}
