/** CPUSimulator: CPU-bound work that counts primes by trial division, and the random
    prime limit drawn once per job. The simulator's three fields are those of its
    CpuSimulationConfig. */
module CpuSimulator {
  import opened Config
  import opened RandomDraws

  /** 46339 is the largest odd i with i * i <= Integer.MAX_VALUE. For n below 46339 * 46339
      the guard `i * i <= n` of IsPrime never overflows, and for limits up to this bound the
      counting loop `n <= limit; n++` and `nextInt(min, max + 1)` stay within int range. */
  const MaxSafeLimit: int := 46339 * 46339 - 1

  /** The simulator can be built from the configuration and runs without int overflow. */
  predicate Usable(cfg: CpuSimulationConfig) {
    cfg.Valid() && cfg.maxPrimeLimit <= MaxSafeLimit
  }

  /** n is prime: at least 2 and without a divisor strictly between 1 and n. */
  ghost predicate IsPrimeSpec(n: int) {
    n >= 2 && forall d :: 2 <= d < n ==> n % d != 0
  }

  /** The number of primes in [2, limit]. */
  ghost function PrimeCount(limit: int): nat
    decreases limit
  {
    if limit < 2 then 0 else PrimeCount(limit - 1) + (if IsPrimeSpec(limit) then 1 else 0)
  }

  /** What countPrimesUpTo returns under the given configuration. */
  ghost function PrimesFound(cfg: CpuSimulationConfig, limit: int): nat {
    if cfg.enabled then PrimeCount(limit) else 0
  }

  /** generateRandomLimit: the minimum when the range is a single value, otherwise a
      uniform draw from [minPrimeLimit, maxPrimeLimit]. */
  function GenerateRandomLimit(cfg: CpuSimulationConfig, draw: nat): (r: int)
    requires Usable(cfg)
    ensures cfg.minPrimeLimit <= r <= cfg.maxPrimeLimit
    ensures cfg.minPrimeLimit == cfg.maxPrimeLimit ==> r == cfg.minPrimeLimit
  {
    if cfg.minPrimeLimit == cfg.maxPrimeLimit then cfg.minPrimeLimit
    else NextInt(cfg.minPrimeLimit, cfg.maxPrimeLimit + 1, draw)
  }

  lemma MulMonotone(a: int, b: int, c: int)
    requires 0 <= a && b <= c
    ensures a * b <= a * c
  {
  }

  /** Quotient and remainder are the only pair that rebuilds n with 0 <= r < e. */
  lemma DivModUnique(n: int, e: int, q: int, r: int)
    requires e > 0 && 0 <= r < e && n == e * q + r
    ensures n % e == r && n / e == q
  {
    var q', r' := n / e, n % e;
    assert e * q + r == e * q' + r';
    assert e * (q - q') == r' - r;
    if q > q' {
      MulMonotone(e, 1, q - q');
    } else if q < q' {
      MulMonotone(e, 1, q' - q);
    }
  }

  /** A multiple of e leaves no remainder when divided by e. */
  lemma MultipleHasNoRemainder(e: int, k: int)
    requires e > 0
    ensures (e * k) % e == 0
  {
    DivModUnique(e * k, e, k, 0);
  }

  /** An odd number has no even divisor. */
  lemma OddHasNoEvenDivisor(n: int, d: int)
    requires n > 0 && n % 2 == 1 && d >= 2 && d % 2 == 0
    ensures n % d != 0
  {
    var q, h := n / d, d / 2;
    assert d == 2 * h;
    if n % d == 0 {
      assert n == (2 * h) * q;
      assert n == 2 * (h * q);
      MultipleHasNoRemainder(2, h * q);
      assert false;
    }
  }

  /** A divisor d of n at or above i, where i * i > n, has a cofactor in [2, i) that also
      divides n: so trial division may stop once i * i > n. */
  lemma CofactorIsSmall(n: int, i: int, d: int)
    requires 2 <= i && n < i * i && i <= d < n && n % d == 0
    ensures 2 <= n / d < i && n % (n / d) == 0
  {
    var e := n / d;
    assert n == d * e;
    if e < 2 {
      MulMonotone(d, e, 1);
    }
    if e >= i {
      MulMonotone(e, i, d);
      MulMonotone(i, i, e);
    }
    MultipleHasNoRemainder(e, d);
  }

  /** A divisor below n proves that n is not prime; no divisor below i with i * i > n
      proves that it is. */
  lemma TrialDivisionDecides(n: int, i: int)
    requires 2 <= i && n < i * i && n >= 2
    requires forall d :: 2 <= d < i ==> n % d != 0
    ensures IsPrimeSpec(n)
  {
    forall d | 2 <= d < n
      ensures n % d != 0
    {
      if d >= i && n % d == 0 {
        CofactorIsSmall(n, i, d);
      }
    }
  }

  /** isPrime: trial division by 2 and then by the odd numbers i with i * i <= n. */
  method IsPrime(n: int) returns (b: bool)
    requires n <= MaxSafeLimit
    ensures b == IsPrimeSpec(n)
  {
    if n < 2 {
      return false;
    }
    if n == 2 {
      return true;
    }
    if n % 2 == 0 {
      assert n % 2 == 0 && 2 < n;
      return false;
    }
    var i := 3;
    while i * i <= n
      invariant 3 <= i && i % 2 == 1
      // so the guard's product i * i stays within int range
      invariant i <= 46339 && i * i <= IntMax
      invariant forall d :: 2 <= d < i ==> n % d != 0
      decreases n - i
    {
      MulMonotone(i, 1, i);
      if i >= 46339 {
        MulMonotone(i, 46339, i);
        MulMonotone(46339, 46339, i);
      }
      if n % i == 0 {
        assert i < i * i;
        return false;
      }
      OddHasNoEvenDivisor(n, i + 1);
      i := i + 2;
      MulMonotone(i, i, 46339);
      MulMonotone(46339, i, 46339);
    }
    TrialDivisionDecides(n, i);
    return true;
  }

  /** countPrimesUpTo: 0 when the simulation is disabled, otherwise the number of primes
      from 2 to limit, counted one candidate at a time. */
  method CountPrimesUpTo(cfg: CpuSimulationConfig, limit: int) returns (count: nat)
    requires cfg.enabled ==> limit <= MaxSafeLimit
    ensures count == PrimesFound(cfg, limit)
  {
    if !cfg.enabled {
      return 0;
    }
    count := 0;
    var n := 2;
    while n <= limit
      invariant 2 <= n && (n <= limit + 1 || n == 2)
      invariant count == PrimeCount(n - 1)
      decreases limit - n
    {
      var prime := IsPrime(n);
      if prime {
        count := count + 1;
      }
      n := n + 1;
    }
  }

  /** 2 is prime, and it is the only even prime. */
  lemma TwoIsTheOnlyEvenPrime(n: int)
    ensures IsPrimeSpec(2)
    ensures n % 2 == 0 && n != 2 ==> !IsPrimeSpec(n)
  {
    if n % 2 == 0 && n > 2 {
      assert n % 2 == 0;
    }
  }

  /** No primes below 2, so the count is 0 for every limit under 2. */
  lemma PrimeCountBelowTwo(limit: int)
    requires limit < 2
    ensures PrimeCount(limit) == 0
  {
  }

  /** The count never decreases as the limit grows. */
  lemma {:induction false} PrimeCountMonotone(a: int, b: int)
    requires a <= b
    ensures PrimeCount(a) <= PrimeCount(b)
    decreases b - a
  {
    if a < b {
      PrimeCountMonotone(a, b - 1);
    }
  }

  /** There are at most limit - 1 candidates in [2, limit]. */
  lemma {:induction false} PrimeCountBound(limit: int)
    ensures PrimeCount(limit) <= if limit < 2 then 0 else limit - 1
    decreases limit
  {
    if limit >= 2 {
      PrimeCountBound(limit - 1);
    }
  }

  /** The primes in [2, limit]. */
  ghost function PrimesUpTo(limit: int): set<int> {
    set n | 2 <= n <= limit && IsPrimeSpec(n)
  }

  /** The recursive count is the size of the set of primes it counts. */
  lemma {:induction false} PrimeCountIsCardinality(limit: int)
    ensures PrimeCount(limit) == |PrimesUpTo(limit)|
    decreases limit
  {
    if limit < 2 {
      assert PrimesUpTo(limit) == {};
    } else {
      PrimeCountIsCardinality(limit - 1);
      if IsPrimeSpec(limit) {
        assert PrimesUpTo(limit) == PrimesUpTo(limit - 1) + {limit};
      } else {
        assert PrimesUpTo(limit) == PrimesUpTo(limit - 1);
      }
    }
  }
}
