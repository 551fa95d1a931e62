/** The prime sieve of the external seller: slices of a byte array overwritten in place. */
module Sieve {
  ghost predicate Divides(m: int, k: int) {
    exists q :: k == m * q
  }

  ghost predicate IsPrime(p: int) {
    p >= 2 && forall d | 2 <= d < p :: !Divides(d, p)
  }

  ghost function PrimesUpTo(limit: int): set<int> {
    set p | 0 <= p <= limit && IsPrime(p)
  }

  // ---------------------------------------------------------------- extended slices

  /** The positions that `start : stop : step` selects. */
  function SliceIndices(start: nat, stop: nat, step: nat): set<nat>
    requires step > 0
  {
    set k: nat | start <= k < stop && OnStep(k, start, step)
  }

  predicate OnStep(k: nat, start: nat, step: nat)
    requires step > 0
  {
    (k - start) % step == 0
  }

  /** The replacement the sieve builds is exactly as long as the slice it replaces. */
  lemma {:induction false} ReplacementFits(start: nat, limit: nat, step: nat)
    requires step > 0 && start <= limit
    ensures (limit - start) / step + 1 == |SliceIndices(start, limit + 1, step)|
    decreases limit - start
  {
    var all := SliceIndices(start, limit + 1, step);
    if limit - start < step {
      forall k | k in all ensures k == start {
        SmallRemainder(k - start, step);
      }
      assert OnStep(start, start, step);
      assert start in all;
      assert all == {start};
      SmallRemainder(limit - start, step);
    } else {
      var rest := SliceIndices(start + step, limit + 1, step);
      ReplacementFits(start + step, limit, step);
      ShiftedQuotient(limit - start, step);
      assert OnStep(start, start, step);
      forall k ensures k in all <==> k == start || k in rest {
        if start <= k < start + step {
          SmallRemainder(k - start, step);
        } else if start + step <= k {
          ShiftedQuotient(k - start, step);
        }
      }
      assert all == {start} + rest;
    }
  }

  lemma SmallRemainder(x: nat, step: nat)
    requires x < step
    ensures x % step == x && x / step == 0
  {
  }

  lemma ShiftedQuotient(x: nat, step: nat)
    requires 0 < step <= x
    ensures (x - step) / step + 1 == x / step && (x - step) % step == x % step
  {
    Quotient(x - step, step, (x - step) / step, (x - step) % step);
    Quotient(x, step, (x - step) / step + 1, (x - step) % step);
  }

  lemma Quotient(x: nat, step: nat, q: nat, r: nat)
    requires step > 0 && x == step * q + r && r < step
    ensures x / step == q && x % step == r
  {
    var d := x / step - q;
    assert x == step * (x / step) + x % step;
    assert step * d == r - x % step;
    assert d >= 1 ==> step * d >= step;
    assert d <= -1 ==> step * d <= 0 - step;
  }

  lemma DividesIsRemainderZero(m: nat, k: nat)
    requires m > 0
    ensures Divides(m, k) <==> k % m == 0
  {
    if k % m == 0 {
      assert k == m * (k / m);
    }
    if Divides(m, k) {
      var q :| k == m * q;
      assert q < 0 ==> m * q < 0;
      Quotient(k, m, q, 0);
    }
  }

  /** From its square on, the slice of step `n` holds exactly the multiples of `n`. */
  lemma SliceHoldsMultiples(n: nat, k: nat)
    requires n > 0 && n * n <= k
    ensures (k - n * n) % n == 0 <==> Divides(n, k)
  {
    DividesIsRemainderZero(n, k - n * n);
    if Divides(n, k - n * n) {
      var q :| k - n * n == n * q;
      assert k == n * (q + n);
    }
    if Divides(n, k) {
      var q :| k == n * q;
      assert k - n * n == n * (q - n);
    }
  }

  /** Assigns `zeros` zero bytes to an extended slice; Python refuses a replacement of another length. */
  method ZeroSlice(sieve: array<nat>, start: nat, stop: nat, step: nat, zeros: nat) returns (ok: bool)
    requires step > 0 && stop <= sieve.Length
    modifies sieve
    ensures ok <==> zeros == |SliceIndices(start, stop, step)|
    ensures forall k | 0 <= k < sieve.Length ::
              sieve[k] == if ok && k in SliceIndices(start, stop, step) then 0 else old(sieve[k])
  {
    ok := zeros == |SliceIndices(start, stop, step)|;
    if ok {
      for k := 0 to stop
        invariant forall j | 0 <= j < sieve.Length ::
                    sieve[j] == if j < k && j in SliceIndices(start, stop, step) then 0 else old(sieve[j])
      {
        if k in SliceIndices(start, stop, step) {
          sieve[k] := 0;
        }
      }
    }
  }

  // ---------------------------------------------------------------- the sieve

  /** Crossed out once every factor below `n` has been treated. */
  ghost predicate Crossed(k: nat, n: nat) {
    k < 2 || exists m :: HasFactor(k, m, n)
  }

  ghost predicate HasFactor(k: nat, m: nat, n: nat) {
    2 <= m < n && m * m <= k && Divides(m, k)
  }

  lemma DividesTransitive(a: nat, b: nat, c: nat)
    requires Divides(a, b) && Divides(b, c)
    ensures Divides(a, c)
  {
    var p :| b == a * p;
    var q :| c == b * q;
    assert c == a * (p * q);
  }

  /** A crossed-out number need not be treated: its factor has crossed out its multiples already. */
  lemma CompositeAddsNothing(n: nat, k: nat)
    requires n >= 2 && Crossed(n, n) && n * n <= k && Divides(n, k)
    ensures Crossed(k, n)
  {
    var m: nat :| HasFactor(n, m, n);
    AtMostSquare(n);
    DividesTransitive(m, n, k);
    FactorStays(n, k, m);
  }

  lemma AtMostSquare(n: nat)
    ensures n <= n * n
  {
  }

  /** A factor found for a smaller number is one for a larger number it divides. */
  lemma FactorStays(small: nat, large: nat, m: nat)
    requires HasFactor(small, m, small) && small <= large && Divides(m, large)
    ensures HasFactor(large, m, small)
  {
  }

  /** One step of the outer loop, on the level of what is crossed out. */
  lemma CrossedOneMore(n: nat, k: nat)
    requires n >= 2
    ensures Crossed(k, n + 1) <==> Crossed(k, n) || (n * n <= k && Divides(n, k))
  {
    if n * n <= k && Divides(n, k) {
      assert HasFactor(k, n, n + 1);
    }
    if k >= 2 && Crossed(k, n) {
      var m :| HasFactor(k, m, n);
      assert HasFactor(k, m, n + 1);
    }
    if k >= 2 && Crossed(k, n + 1) {
      var m :| HasFactor(k, m, n + 1);
      if m != n { assert HasFactor(k, m, n); }
    }
  }

  /** What is left when the outer loop ends is prime, and nothing else is. */
  lemma LeftOverIsPrime(k: nat, n: nat, limit: nat)
    requires k <= limit < n * n
    ensures Crossed(k, n) <==> !IsPrime(k)
  {
    if k >= 2 && Crossed(k, n) {
      var m :| HasFactor(k, m, n);
      assert 2 * m <= m * m;
    }
    if k >= 2 && !IsPrime(k) {
      var d :| 2 <= d < k && Divides(d, k);
      SmallFactor(k, d, n);
    }
  }

  lemma SmallFactor(k: nat, d: nat, n: nat)
    requires 2 <= d < k < n * n && Divides(d, k)
    ensures exists m :: HasFactor(k, m, n)
  {
    var q :| k == d * q;
    assert q <= 0 ==> d * q <= 0;
    assert q == 1 ==> d * q == d;
    var m := if d <= q then d else q;
    SquareFits(m, d, q);
    assert k == q * d;
    assert Divides(m, k);
    if n <= m { SquareFits(n, m, m); }
    assert HasFactor(k, m, n);
  }

  lemma SquareFits(m: nat, a: nat, b: nat)
    requires m <= a && m <= b
    ensures m * m <= a * b
  {
  }

  method PrimeCount(limit: int) returns (count: nat)
    ensures count == |PrimesUpTo(limit)|
  {
    if limit < 2 {
      assert PrimesUpTo(limit) == {};
      return 0;
    }
    var sieve := new nat[limit + 1](i => 1);
    sieve[0], sieve[1] := 0, 0;
    var n := 2;
    while n * n <= limit
      invariant n >= 2
      invariant sieve.Length == limit + 1
      invariant forall k | 0 <= k <= limit :: sieve[k] == if Crossed(k, n) then 0 else 1
      decreases limit - n
    {
      assert n <= n * n;
      if sieve[n] != 0 {
        CrossOut(sieve, limit, n);
      } else {
        forall k | 0 <= k <= limit ensures sieve[k] == if Crossed(k, n + 1) then 0 else 1 {
          CrossedOneMore(n, k);
          if n * n <= k && Divides(n, k) { CompositeAddsNothing(n, k); }
        }
      }
      n := n + 1;
    }
    forall k | 0 <= k <= limit ensures sieve[k] == if IsPrime(k) then 1 else 0 {
      LeftOverIsPrime(k, n, limit);
    }
    count := SumOf(sieve, limit);
  }

  /** The loop body for an uncrossed `n`; the replacement always fits the slice. */
  method CrossOut(sieve: array<nat>, limit: nat, n: nat)
    requires sieve.Length == limit + 1 && 2 <= n && n * n <= limit
    requires forall k | 0 <= k <= limit :: sieve[k] == if Crossed(k, n) then 0 else 1
    modifies sieve
    ensures forall k | 0 <= k <= limit :: sieve[k] == if Crossed(k, n + 1) then 0 else 1
  {
    var start, step := n * n, n;
    ghost var before := sieve[..];
    ReplacementFits(start, limit, step);
    var ok := ZeroSlice(sieve, start, limit + 1, step, (limit - start) / step + 1);
    assert ok;
    forall k: nat | k <= limit ensures sieve[k] == if Crossed(k, n + 1) then 0 else 1 {
      CrossedOneMore(n, k);
      if start <= k { SliceHoldsMultiples(n, k); }
      assert sieve[k] == if k in SliceIndices(start, limit + 1, step) then 0 else before[k];
    }
  }

  method SumOf(sieve: array<nat>, limit: nat) returns (count: nat)
    requires sieve.Length == limit + 1
    requires forall k | 0 <= k <= limit :: sieve[k] == if IsPrime(k) then 1 else 0
    ensures count == |PrimesUpTo(limit)|
  {
    count := 0;
    assert PrimesUpTo(-1) == {};
    for k := 0 to limit + 1
      invariant count == |PrimesUpTo(k - 1)|
    {
      count := count + sieve[k];
      assert PrimesUpTo(k) == if IsPrime(k) then PrimesUpTo(k - 1) + {k} else PrimesUpTo(k - 1);
    }
  }
}
