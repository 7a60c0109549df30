/** The smallest transform length with small prime factors, found by five nested loops that prune on the best so far. */
module FftGoodSize {

  const PRIMES: seq<nat> := [2, 3, 5, 7, 11]

  // ---- numbers with small prime factors ----

  ghost predicate Divides(d: nat, n: nat) {
    exists t: nat :: n == d * t
  }

  ghost predicate IsPrime(p: nat) {
    p >= 2 && forall d: nat :: Divides(d, p) ==> d == 1 || d == p
  }

  /** Every prime factor is 2, 3, 5, 7 or 11. */
  ghost predicate OnlySmallPrimes(n: nat) {
    n >= 1 && forall p: nat :: IsPrime(p) && Divides(p, n) ==> p in PRIMES
  }

  /** m is x times a product of the primes from the k-th on. */
  predicate Reach(k: nat, x: nat, m: nat)
    requires k <= 5 && x >= 1
    ensures Reach(k, x, m) ==> x <= m
    decreases m - x, 5 - k
  {
    x <= m && if k == 5 then x == m else Reach(k + 1, x, m) || Reach(k, x * PRIMES[k], m)
  }

  // ---- both descriptions agree ----

  lemma DividesProduct(d: nat, a: nat, b: nat)
    requires Divides(d, b)
    ensures Divides(d, a * b)
  {
    var t: nat :| b == d * t;
    assert a * (d * t) == d * (a * t);
  }

  lemma {:induction false} Split(q: nat, a: nat) returns (c: nat, r: nat)
    requires q > 0
    ensures a == q * c + r && r < q
  {
    if a < q {
      c, r := 0, a;
    } else {
      c, r := Split(q, a - q);
      c := c + 1;
    }
  }

  /** A prime of the list that divides a product divides a factor: checked on remainders. */
  lemma SmallPrimeSplits(q: nat, a: nat, b: nat)
    requires q in PRIMES && Divides(q, a * b)
    ensures Divides(q, a) || Divides(q, b)
  {
    var t: nat :| a * b == q * t;
    var c, r := Split(q, a);
    var d, s := Split(q, b);
    ProductOfSplits(q, c, r, d, s);
    assert r * s == q * (t - (c * b + r * d)) by {
      assert q * (t - (c * b + r * d)) == q * t - q * (c * b + r * d);
    }
    SmallResidues(q, r, s, t - (c * b + r * d));
  }

  lemma ProductOfSplits(q: nat, c: nat, r: nat, d: nat, s: nat)
    ensures (q * c + r) * (q * d + s) == q * (c * (q * d + s) + r * d) + r * s
  {
    var b := q * d + s;
    assert (q * c + r) * b == q * (c * b) + r * b;
    assert r * b == q * (r * d) + r * s;
    assert q * (c * b + r * d) == q * (c * b) + q * (r * d);
  }

  lemma SmallResidues(q: nat, r: nat, s: nat, u: int)
    requires q in PRIMES && r < q && s < q && r * s == q * u
    ensures r == 0 || s == 0
  {
    if r == 1 || r == 2 || r == 3 || r == 4 || r == 5 {
    } else if r == 6 || r == 7 || r == 8 || r == 9 || r == 10 {
    }
  }

  lemma Cancel(q: nat, a: nat, b: nat)
    requires q > 0 && q * a == q * b
    ensures a == b
  {
    assert q * (a - b) == 0;
  }

  /** Multiplying by a prime of the list brings in no other prime. */
  lemma TimesSmallPrime(q: nat, m: nat)
    requires q in PRIMES && OnlySmallPrimes(m)
    ensures OnlySmallPrimes(q * m)
  {
    hide IsPrime;
    forall p: nat | IsPrime(p) && Divides(p, q * m)
      ensures p in PRIMES
    {
      PrimeOfProduct(q, m, p);
    }
    assert q * m >= 1;
  }

  lemma PrimeOfProduct(q: nat, m: nat, p: nat)
    requires q in PRIMES && IsPrime(p) && Divides(p, q * m)
    ensures p == q || Divides(p, m)
  {
    hide Divides;
    var t := Quotient(p, q * m);
    DividesOwnProduct(q, m);
    SmallPrimeSplits(q, p, t);
    if !Divides(q, p) {
      PrimeStays(q, m, p, t);
    }
  }

  lemma Quotient(d: nat, n: nat) returns (t: nat)
    requires Divides(d, n)
    ensures n == d * t
  {
    t :| n == d * t;
  }

  lemma DividesOwnProduct(q: nat, m: nat)
    ensures Divides(q, q * m)
  {}

  lemma PrimeStays(q: nat, m: nat, p: nat, t: nat)
    requires q > 0 && q * m == p * t && Divides(q, t)
    ensures Divides(p, m)
  {
    var u: nat :| t == q * u;
    assert p * (q * u) == q * (p * u);
    Cancel(q, m, p * u);
  }

  lemma {:induction false} ReachedIsSmall(k: nat, x: nat, m: nat)
    requires k <= 5 && x >= 1 && Reach(k, x, m) && OnlySmallPrimes(x)
    ensures OnlySmallPrimes(m)
    decreases m - x, 5 - k
  {
    hide OnlySmallPrimes;
    if k < 5 {
      if Reach(k + 1, x, m) {
        ReachedIsSmall(k + 1, x, m);
      } else {
        TimesSmallPrime(PRIMES[k], x);
        assert PRIMES[k] * x == x * PRIMES[k];
        ReachedIsSmall(k, x * PRIMES[k], m);
      }
    }
  }

  lemma {:induction false} ReachScales(k: nat, x: nat, m: nat, q: nat)
    requires k <= 5 && x >= 1 && q >= 1 && Reach(k, x, m)
    ensures x * q >= 1 && Reach(k, x * q, m * q)
    decreases m - x, 5 - k
  {
    assert x * q <= m * q && x * q >= 1;
    if k < 5 {
      if Reach(k + 1, x, m) {
        ReachScales(k + 1, x, m, q);
      } else {
        ReachScales(k, x * PRIMES[k], m, q);
        assert x * PRIMES[k] * q == x * q * PRIMES[k];
      }
    }
  }

  lemma {:induction false} ReachOneMore(k: nat, j: nat, x: nat, m: nat)
    requires k <= j < 5 && x >= 1 && Reach(k, x, m)
    ensures Reach(k, x, m * PRIMES[j])
    decreases m - x, 5 - k
  {
    assert x <= m * PRIMES[j];
    if k == j {
      ReachScales(k, x, m, PRIMES[k]);
    } else if Reach(k + 1, x, m) {
      ReachOneMore(k + 1, j, x, m);
    } else {
      ReachOneMore(k, j, x * PRIMES[k], m);
    }
  }

  /** Every number above 1 has a prime factor. */
  lemma {:induction false} PrimeFactor(n: nat, d: nat) returns (p: nat)
    requires 2 <= d <= n && forall e: nat :: 2 <= e < d ==> !Divides(e, n)
    ensures IsPrime(p) && Divides(p, n)
    decreases n - d
  {
    if Divides(d, n) {
      p := d;
      var t: nat :| n == d * t;
      forall e: nat | Divides(e, d)
        ensures e == 1 || e == d
      {
        DividesProduct(e, t, d);
        assert t * d == n;
        DivisorAtMost(e, d);
      }
    } else {
      assert n == n * 1;
      p := PrimeFactor(n, d + 1);
    }
  }

  lemma DivisorAtMost(e: nat, d: nat)
    requires Divides(e, d) && d >= 1
    ensures 1 <= e <= d
  {
    var t: nat :| d == e * t;
    assert t >= 1;
    assert e * t >= e;
  }

  lemma {:induction false} SmallIsReached(n: nat)
    requires OnlySmallPrimes(n)
    ensures Reach(0, 1, n)
  {
    if n > 1 {
      var p := PrimeFactor(n, 2);
      var j :| 0 <= j < 5 && PRIMES[j] == p;
      var m: nat :| n == p * m;
      assert n == m * p;
      forall r: nat | IsPrime(r) && Divides(r, m)
        ensures r in PRIMES
      {
        DividesProduct(r, p, m);
        assert p * m == n;
      }
      assert 1 <= m < n;
      SmallIsReached(m);
      ReachOneMore(0, j, 1, m);
    }
  }

  lemma OneIsSmall()
    ensures OnlySmallPrimes(1)
  {}

  /** The loops' view of a number and its prime factors agree. */
  lemma ReachIffSmall(n: nat)
    ensures Reach(0, 1, n) <==> OnlySmallPrimes(n)
  {
    hide Reach;
    OneIsSmall();
    if Reach(0, 1, n) {
      ReachedIsSmall(0, 1, n);
    } else if OnlySmallPrimes(n) {
      SmallIsReached(n);
    }
  }

  // ---- the search ----

  /** Some number below 2n is reached: a power of two. */
  lemma {:induction false} PowerBetween(n: nat, x: nat) returns (m: nat)
    requires 1 <= x < 2 * n && Reach(0, 1, x)
    ensures n <= m < 2 * n && Reach(0, 1, m)
    decreases 2 * n - x
  {
    if x >= n {
      m := x;
    } else {
      ReachOneMore(0, 0, 1, x);
      m := PowerBetween(n, x * 2);
    }
  }

  /** Nothing reached from x, and large enough, is below best. */
  ghost predicate Covered(n: nat, k: nat, x: nat, best: nat)
    requires k <= 5 && x >= 1
  {
    forall m: nat :: n <= m && Reach(k, x, m) ==> best <= m
  }

  /** What is reached from x and not yet covered is reached from y. */
  ghost predicate Left(n: nat, k: nat, x: nat, y: nat, best: nat)
    requires k <= 5 && x >= 1 && y >= 1
  {
    forall m: nat :: n <= m && Reach(k, x, m) ==> best <= m || Reach(k, y, m)
  }

  lemma StepLeft(n: nat, k: nat, x: nat, y: nat, was: nat, best: nat)
    requires k < 5 && x >= 1 && y >= 1 && best <= was
    requires Left(n, k, x, y, was) && Covered(n, k + 1, y, best)
    ensures y * PRIMES[k] >= 1 && Left(n, k, x, y * PRIMES[k], best)
  {
    assert y * PRIMES[k] >= 1;
    forall m: nat | n <= m && Reach(k, x, m)
      ensures best <= m || Reach(k, y * PRIMES[k], m)
    {
      assert Reach(k, y, m) ==> Reach(k + 1, y, m) || Reach(k, y * PRIMES[k], m);
    }
  }

  lemma DoneLeft(n: nat, k: nat, x: nat, y: nat, best: nat)
    requires k <= 5 && x >= 1 && y >= best >= 1 && Left(n, k, x, y, best)
    ensures Covered(n, k, x, best)
  {}

  /** A candidate: at least n, at most 2n, and with small primes unless it is the starting bound. */
  ghost predicate Candidate(n: nat, best: nat) {
    n <= best <= 2 * n && (best == 2 * n || Reach(0, 1, best))
  }

  lemma CandidateFound(n: nat, x: nat, best: nat)
    requires n <= x < best && Candidate(n, best) && Reach(0, 1, x)
    ensures Candidate(n, x)
  {}

  /** What the outer loops reach, the inner ones multiply further. */
  lemma {:induction false} ReachDeeper(j: nat, x: nat, y: nat)
    requires j < 5 && x >= 1 && y == x * PRIMES[j] && Reach(0, 1, x)
    ensures Reach(0, 1, y)
  {
    ReachOneMore(0, j, 1, x);
  }

  /** The least size at least n with no prime factor above 11. */
  method FftNextGoodSize(n: int) returns (r: int)
    ensures n <= 6 ==> r == n
    ensures n >= 1 ==> r >= n && OnlySmallPrimes(r)
    ensures n >= 1 ==> forall m: nat :: n <= m && OnlySmallPrimes(m) ==> r <= m
  {
    hide Reach, OnlySmallPrimes, Covered, Left;
    if n <= 6 {
      if n >= 1 {
        SmallSizes(n);
      }
      return n;
    }
    var best: nat, f2: nat := 2 * n, 1;
    OneIsReached();
    AllLeft(n, 0, 1, best);
    while f2 < best
      invariant f2 >= 1 && Candidate(n, best) && Reach(0, 1, f2) && Left(n, 0, 1, f2, best)
      decreases 2 * n - f2
    {
      ghost var best2 := best;
      var f23: nat := f2;
      AllLeft(n, 1, f2, best);
      while f23 < best
        invariant f23 >= 1 && Candidate(n, best) && best <= best2 && Reach(0, 1, f23) && Left(n, 1, f2, f23, best)
        decreases 2 * n - f23
      {
        ghost var best23 := best;
        var f235: nat := f23;
        AllLeft(n, 2, f23, best);
        while f235 < best
          invariant f235 >= 1 && Candidate(n, best) && best <= best23 && Reach(0, 1, f235)
          invariant Left(n, 2, f23, f235, best)
          decreases 2 * n - f235
        {
          ghost var best235 := best;
          var f2357: nat := f235;
          AllLeft(n, 3, f235, best);
          while f2357 < best
            invariant f2357 >= 1 && Candidate(n, best) && best <= best235 && Reach(0, 1, f2357)
            invariant Left(n, 3, f235, f2357, best)
            decreases 2 * n - f2357
          {
            ghost var best2357 := best;
            var f235711: nat := f2357;
            AllLeft(n, 4, f2357, best);
            while f235711 < best
              invariant f235711 >= 1 && Candidate(n, best) && best <= best2357 && Reach(0, 1, f235711)
              invariant Left(n, 4, f2357, f235711, best)
              decreases 2 * n - f235711
            {
              ghost var best235711 := best;
              if f235711 >= n {
                CandidateFound(n, f235711, best);
              }
              best := if f235711 >= n then f235711 else best;
              OneCovered(n, f235711, best);
              StepLeft(n, 4, f2357, f235711, best235711, best);
              ReachDeeper(4, f235711, f235711 * 11);
              f235711 := f235711 * 11;
            }
            DoneLeft(n, 4, f2357, f235711, best);
            StepLeft(n, 3, f235, f2357, best2357, best);
            ReachDeeper(3, f2357, f2357 * 7);
            f2357 := f2357 * 7;
          }
          DoneLeft(n, 3, f235, f2357, best);
          StepLeft(n, 2, f23, f235, best235, best);
          ReachDeeper(2, f235, f235 * 5);
          f235 := f235 * 5;
        }
        DoneLeft(n, 2, f23, f235, best);
        StepLeft(n, 1, f2, f23, best23, best);
        ReachDeeper(1, f23, f23 * 3);
        f23 := f23 * 3;
      }
      DoneLeft(n, 1, f2, f23, best);
      StepLeft(n, 0, 1, f2, best2, best);
      ReachDeeper(0, f2, f2 * 2);
      f2 := f2 * 2;
    }
    DoneLeft(n, 0, 1, f2, best);
    BestIsLeast(n, best);
    return best;
  }

  lemma OneIsReached()
    ensures Reach(0, 1, 1)
  {
    assert Reach(5, 1, 1) && Reach(4, 1, 1) && Reach(3, 1, 1);
  }

  lemma AllLeft(n: nat, k: nat, x: nat, best: nat)
    requires k <= 5 && x >= 1
    ensures Left(n, k, x, x, best)
  {}

  lemma OneCovered(n: nat, x: nat, best: nat)
    requires x >= 1 && (x >= n ==> best <= x)
    ensures Covered(n, 5, x, best)
  {}

  lemma BestIsLeast(n: nat, best: nat)
    requires n >= 1 && Candidate(n, best) && Covered(n, 0, 1, best)
    ensures OnlySmallPrimes(best) && forall m: nat :: n <= m && OnlySmallPrimes(m) ==> best <= m
  {
    hide Reach, OnlySmallPrimes;
    OneIsReached();
    var p := PowerBetween(n, 1);
    assert best <= p;
    ReachIffSmall(best);
    forall m: nat | n <= m && OnlySmallPrimes(m)
      ensures best <= m
    {
      ReachIffSmall(m);
    }
  }

  lemma SmallSizes(n: nat)
    requires 1 <= n <= 6
    ensures OnlySmallPrimes(n)
  {
    hide OnlySmallPrimes;
    OneIsSmall();
    TimesSmallPrime(2, 1);
    TimesSmallPrime(3, 1);
    TimesSmallPrime(5, 1);
    TimesSmallPrime(2, 2);
    TimesSmallPrime(2, 3);
  }
}
