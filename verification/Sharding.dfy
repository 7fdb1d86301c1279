/** Experimental ND sharding: how cores are dealt over the dimensions (python/sim/ttnnsim.py) and which
    core each element is local to (python/sim/sharding.py). */
module Sharding {
  import opened Arith
  import opened Coords
  import opened Nodes
  import opened Wrappers

  // ----- Dealing the prime factors of num_cores -----

  predicate IsPrime(p: nat) { p >= 2 && forall d :: 2 <= d < p ==> p % d != 0 }

  /** The factors after the primes were multiplied round robin into `k` ones. */
  function Dealt(primes: seq<nat>, k: nat): (r: seq<nat>)
    requires k >= 1
    ensures |r| == k
  {
    if primes == [] then seq(k, _ => 1)
    else
      var n := |primes| - 1;
      var r := Dealt(primes[..n], k);
      r[n % k := r[n % k] * primes[n]]
  }

  /** The product of every k-th prime from number j on. */
  function EveryKth(primes: seq<nat>, k: nat, j: nat): nat
    requires k >= 1
  {
    if primes == [] then 1
    else
      var n := |primes| - 1;
      EveryKth(primes[..n], k, j) * if n % k == j then primes[n] else 1
  }

  /** Each factor is the product of every k-th prime. */
  lemma {:induction false} DealtAt(primes: seq<nat>, k: nat, j: nat)
    requires j < k
    ensures Dealt(primes, k)[j] == EveryKth(primes, k, j)
  {
    if primes != [] {
      DealtAt(primes[..|primes| - 1], k, j);
    }
  }

  lemma {:induction false} ScaleOne(s: seq<nat>, i: nat, x: nat)
    requires i < |s|
    ensures Size(s[i := s[i] * x]) == Size(s) * x
  {
    var t := s[i := s[i] * x];
    if i == 0 {
      assert t[1..] == s[1..];
      assert s[0] * x * Size(s[1..]) == s[0] * Size(s[1..]) * x;
    } else {
      ScaleOne(s[1..], i - 1, x);
      assert t[1..] == s[1..][i - 1 := s[1..][i - 1] * x];
      assert s[0] * (Size(s[1..]) * x) == s[0] * Size(s[1..]) * x;
    }
  }

  lemma SizeSnoc(s: seq<nat>, x: nat)
    ensures Size(s + [x]) == Size(s) * x
  {
    SizeAppend(s, [x]);
    SizeOne(x);
  }

  lemma {:induction false} DealtSize(primes: seq<nat>, k: nat)
    requires k >= 1
    ensures Size(Dealt(primes, k)) == Size(primes)
  {
    if primes == [] {
      OnesSize(k);
    } else {
      var n := |primes| - 1;
      DealtSize(primes[..n], k);
      ScaleOne(Dealt(primes[..n], k), n % k, primes[n]);
      SizeSnoc(primes[..n], primes[n]);
      assert primes == primes[..n] + [primes[n]];
    }
  }

  ghost predicate NoDivisorBelow(n: nat, p: nat) { forall d :: 2 <= d < p ==> n % d != 0 }

  lemma DividesTrans(d: nat, p: nat, n: nat)
    requires d >= 1 && p >= 1 && p % d == 0 && n % p == 0
    ensures n % d == 0
  {
    var (x, y) := (p / d, n / p);
    assert n == y * p && p == x * d;
    assert n == y * x * d;
    ProductDivides(y * x, d);
  }

  /** The smallest divisor is prime. */
  lemma SmallestDivisorPrime(n: nat, p: nat)
    requires p >= 2 && n % p == 0 && NoDivisorBelow(n, p)
    ensures IsPrime(p)
  {
    forall d | 2 <= d < p
      ensures p % d != 0
    {
      if p % d == 0 {
        DividesTrans(d, p, n);
      }
    }
  }

  /** Without a divisor up to its square root, n itself is prime. */
  lemma NoSmallDivisorPrime(n: nat, p: nat)
    requires n > 1 && p >= 2 && p * p > n && NoDivisorBelow(n, p)
    ensures IsPrime(n)
  {
    forall d | 2 <= d < n
      ensures n % d != 0
    {
      if n % d == 0 && d >= p {
        Cofactor(n, p, d);
      }
    }
  }

  /** A divisor above the square root has a cofactor below it. */
  lemma Cofactor(n: nat, p: nat, d: nat)
    requires n > 1 && p * p > n && p <= d < n && n % d == 0
    ensures 2 <= n / d < p && n % (n / d) == 0
  {
    var e := n / d;
    assert n == e * d && d * e == n;
    assert e != 1 && e != 0;
    ProductDivides(d, e);
    if e >= p {
      Squares(e, d, p);
    }
  }

  lemma Squares(e: nat, d: nat, p: nat)
    requires e >= p && d >= p
    ensures e * d >= p * p
  {
    assert e * d >= p * d;
    assert p * d >= p * p;
  }

  lemma QuotientKeeps(n: nat, p: nat)
    requires p >= 2 && n >= 1 && n % p == 0 && NoDivisorBelow(n, p)
    ensures 1 <= n / p < n && n / p * p == n && NoDivisorBelow(n / p, p)
  {
    var q := n / p;
    assert q * p == n && p * q == n;
    assert q * p >= q * 2;
    forall d | 2 <= d < p
      ensures q % d != 0
    {
      if q % d == 0 {
        ProductDivides(p, q);
        DividesTrans(d, q, p * q);
      }
    }
  }

  /** factors[i] *= x */
  function Scaled(factors: seq<nat>, i: nat, x: nat): (r: seq<nat>)
    requires i < |factors|
    ensures |r| == |factors|
  {
    factors[i := factors[i] * x]
  }

  /** Primes, smallest first. */
  ghost predicate AscendingPrimes(primes: seq<nat>)
  {
    && (forall j :: 0 <= j < |primes| ==> IsPrime(primes[j]))
    && (forall i, j :: 0 <= i < j < |primes| ==> primes[i] <= primes[j])
  }

  /** The factors are the primes of `cores`, smallest first, dealt round robin. */
  ghost predicate Shared(cores: nat, k: nat, factors: seq<nat>, primes: seq<nat>)
  {
    k >= 1 && factors == Dealt(primes, k) && Size(primes) == cores && AscendingPrimes(primes)
  }

  /** Trial division so far: `primes` are dealt into `factors`, `n` is left and has no divisor below p. */
  ghost predicate Split(cores: nat, k: nat, n: nat, p: nat, factors: seq<nat>, primes: seq<nat>)
  {
    && k >= 1 && n >= 1 && p >= 2 && NoDivisorBelow(n, p)
    && factors == Dealt(primes, k) && Size(primes) * n == cores
    && AscendingPrimes(primes) && forall j :: 0 <= j < |primes| ==> primes[j] <= p
  }

  lemma TakePrime(cores: nat, k: nat, n: nat, p: nat, factors: seq<nat>, primes: seq<nat>)
    requires Split(cores, k, n, p, factors, primes) && n % p == 0
    ensures 1 <= n / p < n
    ensures Split(cores, k, n / p, p, Scaled(factors, |primes| % k, p), primes + [p])
  {
    SmallestDivisorPrime(n, p);
    QuotientKeeps(n, p);
    assert (primes + [p])[..|primes|] == primes;
    SizeSnoc(primes, p);
    hide Size, IsPrime, NoDivisorBelow;
    MoveFactor(Size(primes), p, n / p, n);
  }

  lemma MoveFactor(a: nat, p: nat, q: nat, n: nat)
    requires q * p == n
    ensures a * p * q == a * n
  {
    assert a * p * q == a * (p * q);
  }

  lemma SquareAtLeast(p: nat)
    ensures p <= p * p
  {
  }

  lemma TakeRest(cores: nat, k: nat, n: nat, p: nat, factors: seq<nat>, primes: seq<nat>)
    requires Split(cores, k, n, p, factors, primes) && n > 1 && p * p > n
    ensures Shared(cores, k, Scaled(factors, |primes| % k, n), primes + [n])
  {
    NoSmallDivisorPrime(n, p);
    assert (primes + [n])[..|primes|] == primes;
    SizeSnoc(primes, n);
    assert n % n == 0;
  }

  lemma NothingLeft(cores: nat, k: nat, p: nat, factors: seq<nat>, primes: seq<nat>)
    requires Split(cores, k, 1, p, factors, primes)
    ensures Shared(cores, k, factors, primes)
  {
  }

  /** The trial division: it ends, and deals the primes of `cores`, smallest first, round robin. */
  method DealPrimes(cores: nat, k: nat) returns (factors: seq<nat>, ghost primes: seq<nat>)
    requires cores >= 1 && k >= 1
    ensures |factors| == k && Size(factors) == cores && Shared(cores, k, factors, primes)
  {
    primes := [];
    factors := seq(k, _ => 1);
    var (n, p, i) := (cores, 2, 0);
    assert Split(cores, k, n, p, factors, primes);
    hide Split, Shared, Dealt, Size, Scaled;
    while n > 1
      invariant Split(cores, k, n, p, factors, primes) && i == |primes|
      decreases n, n as int - p as int
    {
      SplitBounds(cores, k, n, p, factors, primes);
      if p * p > n {
        TakeRest(cores, k, n, p, factors, primes);
        factors := Scaled(factors, i % k, n);
        primes := primes + [n];
        SharedSize(cores, k, factors, primes);
        return;
      }
      if n % p == 0 {
        TakePrime(cores, k, n, p, factors, primes);
        factors := Scaled(factors, i % k, p);
        primes := primes + [p];
        n := n / p;
        i := i + 1;
      } else {
        SquareAtLeast(p);
        NextDivisor(cores, k, n, p, factors, primes);
        p := p + 1;
      }
    }
    SplitBounds(cores, k, n, p, factors, primes);
    NothingLeft(cores, k, p, factors, primes);
    SharedSize(cores, k, factors, primes);
  }

  lemma SplitBounds(cores: nat, k: nat, n: nat, p: nat, factors: seq<nat>, primes: seq<nat>)
    requires Split(cores, k, n, p, factors, primes)
    ensures n >= 1 && p >= 2 && k >= 1 && |factors| == k
  {
  }

  lemma SharedSize(cores: nat, k: nat, factors: seq<nat>, primes: seq<nat>)
    requires Shared(cores, k, factors, primes)
    ensures |factors| == k && Size(factors) == cores
  {
    DealtSize(primes, k);
  }

  lemma NextDivisor(cores: nat, k: nat, n: nat, p: nat, factors: seq<nat>, primes: seq<nat>)
    requires Split(cores, k, n, p, factors, primes) && n % p != 0
    ensures Split(cores, k, n, p + 1, factors, primes)
  {
  }

  /** `_distribute_cores_across_dims`: `k` factors whose product is `cores`, made of its primes when
      there are several; a single dimension takes all cores. */
  method DistributeCores(cores: nat, k: nat) returns (factors: seq<nat>, ghost primes: seq<nat>)
    requires cores >= 1
    ensures |factors| == k
    ensures k >= 1 ==> Size(factors) == cores
    ensures k == 1 ==> factors == [cores]
    ensures k >= 2 ==> Shared(cores, k, factors, primes)
  {
    if k == 0 {
      return [], [];
    }
    if k == 1 {
      SizeOne(cores);
      return [cores], [];
    }
    factors, primes := DealPrimes(cores, k);
  }

  // ----- The shard grid -----

  function Insert(x: nat, s: seq<nat>, desc: bool): (r: seq<nat>)
    ensures |r| == |s| + 1
  {
    if s == [] || (if desc then x >= s[0] else x <= s[0]) then [x] + s else [s[0]] + Insert(x, s[1..], desc)
  }

  /** sorted(s, reverse=desc) */
  function Sort(s: seq<nat>, desc: bool): (r: seq<nat>)
    ensures |r| == |s|
  {
    if s == [] then [] else Insert(s[|s| - 1], Sort(s[..|s| - 1], desc), desc)
  }

  ghost predicate Sorted(s: seq<nat>, desc: bool)
  {
    forall i, j :: 0 <= i < j < |s| ==> if desc then s[i] >= s[j] else s[i] <= s[j]
  }

  lemma {:induction false} InsertHas(x: nat, s: seq<nat>, desc: bool)
    ensures forall c :: c in Insert(x, s, desc) <==> c == x || c in s
  {
    if s == [] || (if desc then x >= s[0] else x <= s[0]) {
      assert Insert(x, s, desc) == [x] + s;
    } else {
      InsertHas(x, s[1..], desc);
      assert s == [s[0]] + s[1..];
      assert Insert(x, s, desc) == [s[0]] + Insert(x, s[1..], desc);
    }
  }

  lemma {:induction false} InsertKeeps(x: nat, s: seq<nat>, desc: bool)
    ensures multiset(Insert(x, s, desc)) == multiset(s) + multiset{x}
  {
    if s == [] || (if desc then x >= s[0] else x <= s[0]) {
      assert Insert(x, s, desc) == [x] + s;
    } else {
      InsertKeeps(x, s[1..], desc);
      assert s == [s[0]] + s[1..];
      assert Insert(x, s, desc) == [s[0]] + Insert(x, s[1..], desc);
    }
  }

  /** Sorting keeps every element as often as it was there. */
  lemma {:induction false} SortKeeps(s: seq<nat>, desc: bool)
    ensures multiset(Sort(s, desc)) == multiset(s)
  {
    if s != [] {
      var (head, last) := (s[..|s| - 1], s[|s| - 1]);
      SortKeeps(head, desc);
      hide Insert;
      InsertKeeps(last, Sort(head, desc), desc);
      assert s == head + [last];
    }
  }

  lemma {:induction false} InsertSize(x: nat, s: seq<nat>, desc: bool)
    ensures Size(Insert(x, s, desc)) == x * Size(s)
  {
    if s == [] || (if desc then x >= s[0] else x <= s[0]) {
      assert ([x] + s)[1..] == s;
    } else {
      InsertSize(x, s[1..], desc);
      var rest := Insert(x, s[1..], desc);
      assert ([s[0]] + rest)[1..] == rest;
      Commute(s[0], x, Size(s[1..]));
    }
  }

  lemma {:induction false} InsertSorted(x: nat, s: seq<nat>, desc: bool)
    requires Sorted(s, desc)
    ensures Sorted(Insert(x, s, desc), desc)
  {
    if s == [] || (if desc then x >= s[0] else x <= s[0]) {
      assert Insert(x, s, desc) == [x] + s;
    } else {
      var rest := Insert(x, s[1..], desc);
      assert Insert(x, s, desc) == [s[0]] + rest;
      InsertSorted(x, s[1..], desc);
      InsertHas(x, s[1..], desc);
      forall i | 0 <= i < |rest|
        ensures if desc then s[0] >= rest[i] else s[0] <= rest[i]
      {
        assert rest[i] in rest;
      }
    }
  }

  lemma {:induction false} InsertDistinct(x: nat, s: seq<nat>, desc: bool)
    requires Distinct(s) && x !in s
    ensures Distinct(Insert(x, s, desc))
  {
    if s == [] || (if desc then x >= s[0] else x <= s[0]) {
      ConsDistinct(x, s);
    } else {
      assert forall i :: 0 <= i < |s[1..]| ==> s[1..][i] == s[i + 1] && s[i + 1] != s[0];
      InsertDistinct(x, s[1..], desc);
      InsertHas(x, s[1..], desc);
      ConsDistinct(s[0], Insert(x, s[1..], desc));
    }
  }

  lemma ConsDistinct(x: nat, s: seq<nat>)
    requires Distinct(s) && x !in s
    ensures Distinct([x] + s)
  {
  }

  lemma Commute(a: nat, x: nat, m: nat)
    ensures a * (x * m) == x * (a * m)
  {
  }

  lemma {:induction false} SortHas(s: seq<nat>, desc: bool)
    ensures forall c :: c in Sort(s, desc) <==> c in s
  {
    if s != [] {
      var (head, last) := (s[..|s| - 1], s[|s| - 1]);
      SortHas(head, desc);
      hide Insert;
      InsertHas(last, Sort(head, desc), desc);
      assert s == head + [last];
    }
  }

  lemma {:induction false} SortSize(s: seq<nat>, desc: bool)
    ensures Size(Sort(s, desc)) == Size(s)
  {
    if s != [] {
      var (head, last) := (s[..|s| - 1], s[|s| - 1]);
      hide Insert, Size;
      assert Sort(s, desc) == Insert(last, Sort(head, desc), desc);
      hide Sort;
      SortSize(head, desc);
      InsertSize(last, Sort(head, desc), desc);
      SizeSnoc(head, last);
      assert s == head + [last];
    }
  }

  lemma {:induction false} SortSorted(s: seq<nat>, desc: bool)
    ensures Sorted(Sort(s, desc), desc)
  {
    if s != [] {
      SortSorted(s[..|s| - 1], desc);
      InsertSorted(s[|s| - 1], Sort(s[..|s| - 1], desc), desc);
    }
  }

  lemma {:induction false} SortDistinct(s: seq<nat>, desc: bool)
    requires Distinct(s)
    ensures Distinct(Sort(s, desc))
  {
    if s != [] {
      var (head, last) := (s[..|s| - 1], s[|s| - 1]);
      SortDistinct(head, desc);
      SortHas(head, desc);
      assert forall i :: 0 <= i < |head| ==> head[i] == s[i] && s[i] != last;
      InsertDistinct(last, Sort(head, desc), desc);
    }
  }

  /** shard_grid[dim] = factor for each zipped pair, over a list of ones. */
  function GridOf(n: nat, dims: seq<nat>, factors: seq<nat>): (r: seq<nat>)
    requires |dims| == |factors| && forall i :: 0 <= i < |dims| ==> dims[i] < n
    ensures |r| == n
  {
    if dims == [] then seq(n, _ => 1)
    else
      var m := |dims| - 1;
      GridOf(n, dims[..m], factors[..m])[dims[m] := factors[m]]
  }

  lemma {:induction false} UnusedIsOne(n: nat, dims: seq<nat>, factors: seq<nat>, d: nat)
    requires |dims| == |factors| && d < n && forall i :: 0 <= i < |dims| ==> dims[i] < n && dims[i] != d
    ensures GridOf(n, dims, factors)[d] == 1
  {
    if dims != [] {
      UnusedIsOne(n, dims[..|dims| - 1], factors[..|dims| - 1], d);
    }
  }

  lemma {:induction false} GridSizeIsProduct(n: nat, dims: seq<nat>, factors: seq<nat>)
    requires |dims| == |factors| && forall i :: 0 <= i < |dims| ==> dims[i] < n
    requires forall i, j :: 0 <= i < j < |dims| ==> dims[i] != dims[j]
    ensures Size(GridOf(n, dims, factors)) == Size(factors)
  {
    if dims == [] {
      OnesSize(n);
    } else {
      var m := |dims| - 1;
      GridSizeIsProduct(n, dims[..m], factors[..m]);
      UnusedIsOne(n, dims[..m], factors[..m], dims[m]);
      ScaleOne(GridOf(n, dims[..m], factors[..m]), dims[m], factors[m]);
      SizeSnoc(factors[..m], factors[m]);
      assert factors == factors[..m] + [factors[m]];
    }
  }

  /** Each listed dimension has its own factor, when no dimension is listed twice. */
  lemma {:induction false} GridAt(n: nat, dims: seq<nat>, factors: seq<nat>, i: nat)
    requires |dims| == |factors| && i < |dims| && forall j :: 0 <= j < |dims| ==> dims[j] < n
    requires Distinct(dims)
    ensures GridOf(n, dims, factors)[dims[i]] == factors[i]
  {
    var m := |dims| - 1;
    if i < m {
      GridAt(n, dims[..m], factors[..m], i);
      assert dims[i] != dims[m];
    }
  }

  lemma {:induction false} GridPositive(n: nat, dims: seq<nat>, factors: seq<nat>)
    requires |dims| == |factors| && forall j :: 0 <= j < |dims| ==> dims[j] < n && factors[j] >= 1
    ensures forall d :: 0 <= d < n ==> GridOf(n, dims, factors)[d] >= 1
  {
    if dims != [] {
      GridPositive(n, dims[..|dims| - 1], factors[..|dims| - 1]);
    }
  }

  datatype NdSpec = NdSpec(shardShape: seq<nat>, shardGrid: seq<nat>)

  predicate DimsOk(dims: seq<int>, n: nat) { forall i :: 0 <= i < |dims| ==> 0 <= dims[i] < n }

  /** `_nd_shard_spec_for_dims`; None is its ValueError. The shards cover the tensor; distinct dimensions
      share out exactly the cores, earlier ones taking at least as many as later ones. */
  method MakeSpec(shape: seq<nat>, dims: seq<int>, cores: int)
    returns (spec: Option<NdSpec>, ghost factors: seq<nat>, ghost primes: seq<nat>)
    ensures spec.Some? <==> DimsOk(dims, |shape|) && cores >= 1
    ensures spec.Some? ==> Covers(spec.value, shape) && NoLarger(spec.value, shape)
    ensures spec.Some? ==> forall d :: 0 <= d < |shape| && d !in dims ==> spec.value.shardGrid[d] == 1
    ensures spec.Some? && dims != [] && Distinct(dims) ==> Size(spec.value.shardGrid) == cores
    ensures spec.Some? && Distinct(dims) ==>
              forall d, e :: 0 <= d < e < |shape| && d in dims && e in dims ==>
                spec.value.shardGrid[d] >= spec.value.shardGrid[e]
    ensures spec.Some? ==>
              DimsOk(dims, |shape|) && cores >= 1 && SharesOut(dims, cores, spec.value.shardGrid, factors, primes)
  {
    hide SharesOut;
    if !DimsOk(dims, |shape|) || cores < 1 {
      return None, [], [];
    }
    var grid;
    grid, factors, primes := ShardGrid(|shape|, dims, cores);
    ShardsFit(shape, grid);
    hide ShardShape, Size, Covers, NoLarger;
    spec := Some(NdSpec(ShardShape(shape, grid), grid));
  }

  /** Ceiling shares of the dimensions that are split. */
  function ShardShape(shape: seq<nat>, grid: seq<nat>): (r: seq<nat>)
    requires |grid| == |shape|
    ensures |r| == |shape|
  {
    seq(|shape|, d requires 0 <= d < |shape| => Share(shape[d], grid[d]))
  }

  function Share(x: nat, g: nat): nat { if g > 1 then CeilDiv(x, g) else x }

  lemma ShareFits(x: nat, g: nat)
    requires g >= 1
    ensures x <= g * Share(x, g)
    ensures if x == 0 then Share(x, g) == 0 else (Share(x, g) as int - 1) * g < x
  {
    CeilCovers(x, g);
    CeilIsLeast(x, g);
  }

  lemma ShardsFit(shape: seq<nat>, grid: seq<nat>)
    requires |grid| == |shape| && forall d :: 0 <= d < |grid| ==> grid[d] >= 1
    ensures Covers(NdSpec(ShardShape(shape, grid), grid), shape)
    ensures NoLarger(NdSpec(ShardShape(shape, grid), grid), shape)
  {
    SizePositive(grid);
    var shard := ShardShape(shape, grid);
    hide Share, Size;
    forall d | 0 <= d < |shape|
      ensures shape[d] <= grid[d] * shard[d]
      ensures if shape[d] == 0 then shard[d] == 0 else (shard[d] as int - 1) * grid[d] < shape[d]
    {
      ShareFits(shape[d], grid[d]);
    }
  }

  /** The sorted dimensions take the sorted factors. */
  method ShardGrid(n: nat, dims: seq<nat>, cores: nat)
    returns (grid: seq<nat>, ghost factors: seq<nat>, ghost primes: seq<nat>)
    requires cores >= 1 && DimsOk(dims, n)
    ensures |grid| == n && forall d :: 0 <= d < n ==> grid[d] >= 1
    ensures forall d :: 0 <= d < n && d !in dims ==> grid[d] == 1
    ensures dims != [] && Distinct(dims) ==> Size(grid) == cores
    ensures Distinct(dims) ==> forall d, e :: 0 <= d < e < n && d in dims && e in dims ==> grid[d] >= grid[e]
    ensures SharesOut(dims, cores, grid, factors, primes)
  {
    var dealt;
    dealt, primes := DistributeCores(cores, |dims|);
    factors := dealt;
    var (ds, fs) := (Sort(dims, false), Sort(dealt, true));
    SortSize(factors, true);
    if factors != [] {
      SizePositive(factors);
    }
    SortedInputs(n, dims, factors);
    hide Sort, Size, Sorted, GridOf, Shared, SharesOut;
    GridSharesOut(n, dims, cores, factors, primes);
    GridPositive(n, ds, fs);
    grid := GridOf(n, ds, fs);
    forall d | 0 <= d < n && d !in dims
      ensures grid[d] == 1
    {
      UnusedIsOne(n, ds, fs, d);
    }
    if Distinct(dims) {
      SortDistinct(dims, false);
      GridSizeIsProduct(n, ds, fs);
      forall d, e | 0 <= d < e < n && d in dims && e in dims
        ensures grid[d] >= grid[e]
      {
        EarlierTakesMore(n, ds, fs, d, e);
      }
    }
  }

  /** The listed dimensions, in order, have the factors, from the largest down: all cores for one dimension, and
      for several the primes of their number, dealt round robin. */
  ghost predicate SharesOut(dims: seq<nat>, cores: nat, grid: seq<nat>, factors: seq<nat>, primes: seq<nat>)
  {
    && |factors| == |dims| && (|dims| == 1 ==> factors == [cores])
    && (|dims| >= 2 ==> Shared(cores, |dims|, factors, primes))
    && (Distinct(dims) ==>
          forall i :: 0 <= i < |dims| ==>
            Sort(dims, false)[i] < |grid| && grid[Sort(dims, false)[i]] == Sort(factors, true)[i])
  }

  lemma GridSharesOut(n: nat, dims: seq<nat>, cores: nat, factors: seq<nat>, primes: seq<nat>)
    requires DimsOk(dims, n) && DimsOk(Sort(dims, false), n) && |factors| == |dims|
    requires (|dims| == 1 ==> factors == [cores]) && (|dims| >= 2 ==> Shared(cores, |dims|, factors, primes))
    ensures SharesOut(dims, cores, GridOf(n, Sort(dims, false), Sort(factors, true)), factors, primes)
  {
    if Distinct(dims) {
      SortDistinct(dims, false);
      hide Sort, GridOf, Shared;
      forall i | 0 <= i < |dims|
        ensures GridOf(n, Sort(dims, false), Sort(factors, true))[Sort(dims, false)[i]] == Sort(factors, true)[i]
      {
        GridAt(n, Sort(dims, false), Sort(factors, true), i);
      }
    }
  }

  lemma SortedInputs(n: nat, dims: seq<nat>, factors: seq<nat>)
    requires DimsOk(dims, n) && forall i :: 0 <= i < |factors| ==> factors[i] >= 1
    ensures Sorted(Sort(dims, false), false) && Sorted(Sort(factors, true), true) && DimsOk(Sort(dims, false), n)
    ensures forall d :: d in Sort(dims, false) <==> d in dims
    ensures forall i :: 0 <= i < |Sort(factors, true)| ==> Sort(factors, true)[i] >= 1
  {
    SortHas(dims, false);
    SortHas(factors, true);
    SortSorted(dims, false);
    SortSorted(factors, true);
    var (ds, fs) := (Sort(dims, false), Sort(factors, true));
    assert forall i :: 0 <= i < |ds| ==> ds[i] in ds && ds[i] in dims;
    assert forall i :: 0 <= i < |fs| ==> fs[i] in fs && fs[i] in factors;
  }

  lemma EarlierTakesMore(n: nat, dims: seq<nat>, factors: seq<nat>, d: nat, e: nat)
    requires |dims| == |factors| && DimsOk(dims, n) && Distinct(dims) && Sorted(dims, false) && Sorted(factors, true)
    requires d in dims && e in dims && d < e < n
    ensures GridOf(n, dims, factors)[d] >= GridOf(n, dims, factors)[e]
  {
    var i :| 0 <= i < |dims| && dims[i] == d;
    var j :| 0 <= j < |dims| && dims[j] == e;
    GridAt(n, dims, factors, i);
    GridAt(n, dims, factors, j);
  }

  lemma CeilCovers(x: nat, g: nat)
    requires g >= 1
    ensures x <= g * CeilDiv(x, g)
  {
  }

  lemma CeilIsLeast(x: nat, g: nat)
    requires g >= 1
    ensures x >= 1 ==> (CeilDiv(x, g) - 1) * g < x
    ensures CeilDiv(x, 1) == x
  {
  }

  /** No shard is larger than it has to be: with one element less in some dimension the shards would not cover it. So
      a dimension that is not split has one shard of its own size. */
  ghost predicate NoLarger(spec: NdSpec, shape: seq<nat>)
    requires |spec.shardShape| == |spec.shardGrid| == |shape|
  {
    forall d :: 0 <= d < |shape| ==>
      if shape[d] == 0 then spec.shardShape[d] == 0
      else (spec.shardShape[d] as int - 1) * spec.shardGrid[d] < shape[d]
  }

  /** Along each dimension the elements that are local to one core lie within the ceiling share of it. */
  lemma LocalWithinShare(spec: NdSpec, shape: seq<nat>, core: nat, e: seq<nat>, f: seq<nat>, d: nat)
    requires Covers(spec, shape) && NoLarger(spec, shape) && core < Size(spec.shardGrid) && d < |shape|
    requires InBox(shape, e) && InBox(shape, f) && LocalGrid(spec, core, e) && LocalGrid(spec, core, f)
    ensures spec.shardGrid[d] >= 1 && spec.shardShape[d] == CeilDiv(shape[d], spec.shardGrid[d])
    ensures e[d] < f[d] + CeilDiv(shape[d], spec.shardGrid[d])
  {
    SizePositive(spec.shardGrid);
    ShareIsCeil(shape[d], spec.shardGrid[d], spec.shardShape[d]);
    var pos := Unflat(spec.shardGrid, core);
    assert InRange(pos[d], spec.shardShape[d], e[d]) && InRange(pos[d], spec.shardShape[d], f[d]);
    SameShard(pos[d], spec.shardShape[d], e[d], f[d]);
  }

  lemma SameShard(pos: nat, shard: nat, e: nat, f: nat)
    requires InRange(pos, shard, e) && InRange(pos, shard, f)
    ensures e < f + shard
  {
    assert (pos + 1) * shard == pos * shard + shard;
  }

  /** The least shard that covers is the ceiling. */
  lemma ShareIsCeil(x: nat, g: nat, shard: nat)
    requires g >= 1 && x <= g * shard && if x == 0 then shard == 0 else (shard as int - 1) * g < x
    ensures shard == CeilDiv(x, g)
  {
    var q := CeilDiv(x, g);
    if x >= 1 {
      AtMostCover(x, g, shard, q);
      AtMostCover(x, g, q, shard);
    }
  }

  lemma AtMostCover(x: nat, g: nat, p: nat, q: nat)
    requires g >= 1 && (p as int - 1) * g < x <= q * g
    ensures p <= q
  {
    var a := p as int - 1 - q;
    assert a * g == (p as int - 1) * g - q * g;
    NegativeFactor(a, g);
  }

  lemma NegativeFactor(a: int, g: nat)
    requires a * g < 0
    ensures a < 0
  {
  }

  /** The shards cover the tensor in every dimension. */
  ghost predicate Covers(spec: NdSpec, shape: seq<nat>)
  {
    && |spec.shardShape| == |spec.shardGrid| == |shape| && Size(spec.shardGrid) > 0
    && forall d :: 0 <= d < |shape| ==> shape[d] <= spec.shardGrid[d] * spec.shardShape[d]
  }

  // ----- Which core an element is local to -----

  predicate InRange(pos: nat, shard: nat, e: nat) { pos * shard <= e < (pos + 1) * shard }

  /** Is element `e` in the range owned by the core at grid position `pos`? */
  predicate Owned(spec: NdSpec, pos: seq<nat>, e: seq<nat>)
    requires |spec.shardShape| == |pos| == |e|
  {
    forall d :: 0 <= d < |e| ==> InRange(pos[d], spec.shardShape[d], e[d])
  }

  /** GRID_2D: local to `core`. */
  predicate LocalGrid(spec: NdSpec, core: nat, e: seq<nat>)
    requires |spec.shardShape| == |spec.shardGrid| == |e| && Size(spec.shardGrid) > 0
  {
    Owned(spec, Unflat(spec.shardGrid, core), e)
  }

  function ShardOf(spec: NdSpec, e: seq<nat>): (r: seq<nat>)
    requires |spec.shardShape| == |e| && forall d :: 0 <= d < |e| ==> spec.shardShape[d] >= 1
    ensures |r| == |e|
  {
    seq(|e|, d requires 0 <= d < |e| => e[d] / spec.shardShape[d])
  }

  lemma InRangeIsQuotient(pos: nat, shard: nat, e: nat)
    requires shard >= 1
    ensures InRange(pos, shard, e) <==> pos == e / shard
  {
    if InRange(pos, shard, e) {
      DivUnique(e, shard, pos, e - pos * shard);
    }
  }

  /** Every element of the tensor is local to exactly one core. */
  lemma ExactlyOneCore(spec: NdSpec, shape: seq<nat>, e: seq<nat>, core: nat)
    requires Covers(spec, shape) && InBox(shape, e) && core < Size(spec.shardGrid)
    ensures forall d :: 0 <= d < |e| ==> spec.shardShape[d] >= 1
    ensures Flat(spec.shardGrid, ShardOf(spec, e)) < Size(spec.shardGrid)
    ensures LocalGrid(spec, core, e) <==> core == Flat(spec.shardGrid, ShardOf(spec, e))
  {
    forall d | 0 <= d < |e|
      ensures spec.shardShape[d] >= 1 && e[d] / spec.shardShape[d] < spec.shardGrid[d]
    {
      PositiveFactors(spec.shardGrid[d], spec.shardShape[d]);
      QuotientBelow(e[d], spec.shardGrid[d], spec.shardShape[d]);
    }
    var (own, pos) := (ShardOf(spec, e), Unflat(spec.shardGrid, core));
    UnflatOfFlat(spec.shardGrid, own);
    FlatOfUnflat(spec.shardGrid, core);
    forall d | 0 <= d < |e|
      ensures InRange(pos[d], spec.shardShape[d], e[d]) <==> pos[d] == own[d]
    {
      InRangeIsQuotient(pos[d], spec.shardShape[d], e[d]);
    }
    assert Owned(spec, pos, e) <==> pos == own;
  }

  // ----- The counters -----

  function Shift(origin: seq<nat>, c: seq<nat>): (r: seq<nat>)
    requires |origin| == |c|
    ensures |r| == |c|
  {
    seq(|c|, d requires 0 <= d < |c| => origin[d] + c[d])
  }

  /** How many of `s` belong to `core`. */
  function CountOf<T>(s: seq<T>, core: nat, owner: T -> nat): nat
  {
    if s == [] then 0 else CountOf(s[..|s| - 1], core, owner) + if owner(s[|s| - 1]) == core then 1 else 0
  }

  function SumOver(cores: nat, f: nat -> nat): nat
  {
    if cores == 0 then 0 else SumOver(cores - 1, f) + f(cores - 1)
  }

  lemma {:induction false} OneMore(cores: nat, f: nat -> nat, g: nat -> nat, owner: nat)
    requires forall c: nat :: c < cores ==> g(c) == f(c) + if c == owner then 1 else 0
    ensures SumOver(cores, g) == SumOver(cores, f) + if owner < cores then 1 else 0
  {
    if cores > 0 {
      OneMore(cores - 1, f, g, owner);
    }
  }

  /** When every listed element has its owner among the cores, the counts add up to their number. */
  lemma {:induction false} CountsAddUp<T>(s: seq<T>, cores: nat, owner: T -> nat, counts: nat -> nat)
    requires forall x :: x in s ==> owner(x) < cores
    requires forall c: nat :: c < cores ==> counts(c) == CountOf(s, c, owner)
    ensures SumOver(cores, counts) == |s|
  {
    if s == [] {
      ZeroSum(cores, counts);
    } else {
      var head := s[..|s| - 1];
      var before := (c: nat) => CountOf(head, c, owner);
      CountsAddUp(head, cores, owner, before);
      OneMore(cores, before, counts, owner(s[|s| - 1]));
    }
  }

  lemma {:induction false} ZeroSum(cores: nat, f: nat -> nat)
    requires forall c: nat :: c < cores ==> f(c) == 0
    ensures SumOver(cores, f) == 0
  {
    if cores > 0 {
      ZeroSum(cores - 1, f);
    }
  }

  /** The view `origin`, `shape` lies inside the tensor. */
  predicate Inside(tensor: seq<nat>, origin: seq<nat>, shape: seq<nat>)
  {
    |origin| == |shape| == |tensor| && forall d :: 0 <= d < |shape| ==> origin[d] + shape[d] <= tensor[d]
  }

  function GridOwner(spec: NdSpec, origin: seq<nat>): seq<nat> -> nat
  {
    (c: seq<nat>) =>
      if |spec.shardShape| == |spec.shardGrid| == |origin| == |c|
         && forall d :: 0 <= d < |c| ==> spec.shardShape[d] >= 1
      then Flat(spec.shardGrid, ShardOf(spec, Shift(origin, c)))
      else 0
  }

  lemma OwnedMeans(spec: NdSpec, tensor: seq<nat>, origin: seq<nat>, c: seq<nat>, core: nat, pos: seq<nat>)
    requires Covers(spec, tensor) && |origin| == |c| && InBox(tensor, Shift(origin, c)) && core < Size(spec.shardGrid)
    requires pos == Unflat(spec.shardGrid, core)
    ensures Owned(spec, pos, Shift(origin, c)) <==> GridOwner(spec, origin)(c) == core
  {
    ExactlyOneCore(spec, tensor, Shift(origin, c), core);
  }

  /** `_count_nd_grid2d_elements`: local and remote elements of a view of the tensor. */
  method CountGrid(spec: NdSpec, tensor: seq<nat>, core: nat, origin: seq<nat>, shape: seq<nat>)
    returns (local: nat, remote: nat)
    requires Covers(spec, tensor) && Inside(tensor, origin, shape) && core < Size(spec.shardGrid) && |tensor| >= 1
    ensures local == CountOf(AllCoords(shape), core, GridOwner(spec, origin)) && local + remote == Size(shape)
  {
    hide GridOwner;
    var pos := PeelCoords(core, spec.shardGrid);
    var cs := AllCoords(shape);
    AllCoordsSize(shape);
    local := 0;
    for k := 0 to |cs|
      invariant local == CountOf(cs[..k], core, GridOwner(spec, origin)) && local <= k
    {
      ListedInside(tensor, origin, shape, k);
      OwnedMeans(spec, tensor, origin, cs[k], core, pos);
      if Owned(spec, pos, Shift(origin, cs[k])) {
        local := local + 1;
      }
      assert cs[..k + 1][..k] == cs[..k];
    }
    assert cs[..|cs|] == cs;
    remote := Size(shape) - local;
  }

  lemma ListedInside(tensor: seq<nat>, origin: seq<nat>, shape: seq<nat>, k: nat)
    requires Inside(tensor, origin, shape) && k < |AllCoords(shape)|
    ensures |AllCoords(shape)[k]| == |shape| && InBox(tensor, Shift(origin, AllCoords(shape)[k]))
  {
    AllCoordsSize(shape);
    ListedAt(shape, k);
    FlatOfUnflat(shape, k);
  }

  /** Over all cores the local counts of a view add up to its number of elements. */
  lemma GridCountsAddUp(spec: NdSpec, tensor: seq<nat>, origin: seq<nat>, shape: seq<nat>, counts: nat -> nat)
    requires Covers(spec, tensor) && Inside(tensor, origin, shape)
    requires forall c: nat :: c < Size(spec.shardGrid) ==>
              counts(c) == CountOf(AllCoords(shape), c, GridOwner(spec, origin))
    ensures SumOver(Size(spec.shardGrid), counts) == Size(shape)
  {
    var cs := AllCoords(shape);
    AllCoordsSize(shape);
    forall x | x in cs
      ensures GridOwner(spec, origin)(x) < Size(spec.shardGrid)
    {
      var k: nat :| k < |cs| && cs[k] == x;
      ListedInside(tensor, origin, shape, k);
      ExactlyOneCore(spec, tensor, Shift(origin, x), 0);
    }
    CountsAddUp(cs, Size(spec.shardGrid), GridOwner(spec, origin), counts);
  }

  // ----- Round robin -----

  ghost predicate AreStrides(grid: seq<nat>, strides: seq<nat>)
  {
    |strides| == |grid| && forall d :: 0 <= d < |grid| ==> strides[d] == Size(grid[d + 1..])
  }

  /** shard_strides: the products of the sizes to the right. */
  method Strides(grid: seq<nat>) returns (strides: seq<nat>)
    requires |grid| >= 1
    ensures AreStrides(grid, strides)
  {
    strides := seq(|grid|, _ => 1);
    assert grid[|grid|..] == [];
    for d := |grid| - 1 downto 0
      invariant |strides| == |grid| && forall i :: d <= i < |grid| ==> strides[i] == Size(grid[i + 1..])
      invariant d <= |grid| - 1
    {
      assert grid[d + 1..][1..] == grid[d + 2..];
      strides := strides[d := strides[d + 1] * grid[d + 1]];
    }
  }

  function StrideSum(grid: seq<nat>, shard: seq<nat>, d: nat): nat
    requires |shard| == |grid| && d <= |grid|
  {
    if d == 0 then 0 else StrideSum(grid, shard, d - 1) + shard[d - 1] * Size(grid[d..])
  }

  /** Weighting a shard position with the strides is its row-major index. */
  lemma {:induction false} StrideSumIsFlat(grid: seq<nat>, shard: seq<nat>, d: nat)
    requires |shard| == |grid| && d <= |grid|
    ensures StrideSum(grid, shard, d) + Flat(grid[d..], shard[d..]) == Flat(grid, shard)
  {
    if d == 0 {
      assert grid[0..] == grid && shard[0..] == shard;
    } else {
      StrideSumIsFlat(grid, shard, d - 1);
      assert grid[d - 1..][1..] == grid[d..] && shard[d - 1..][1..] == shard[d..];
    }
  }

  function RobinOwner(spec: NdSpec, cores: nat, origin: seq<nat>): seq<nat> -> nat
    requires cores >= 1
  {
    (c: seq<nat>) =>
      if |spec.shardShape| == |spec.shardGrid| == |origin| == |c|
         && forall d :: 0 <= d < |c| ==> spec.shardShape[d] >= 1
      then Flat(spec.shardGrid, ShardOf(spec, Shift(origin, c))) % cores
      else 0
  }

  /** The number of the shard that holds an element of a view. */
  function ShardNumber(spec: NdSpec, origin: seq<nat>, c: seq<nat>): nat
    requires |spec.shardShape| == |spec.shardGrid| == |origin| == |c|
    requires forall d :: 0 <= d < |c| ==> spec.shardShape[d] >= 1
  {
    Flat(spec.shardGrid, ShardOf(spec, Shift(origin, c)))
  }

  lemma FirstShard(spec: NdSpec, origin: seq<nat>, c: seq<nat>)
    requires |spec.shardShape| == |spec.shardGrid| == |origin| == |c|
    requires forall d :: 0 <= d < |c| ==> spec.shardShape[d] >= 1 && origin[d] + c[d] < spec.shardShape[d]
    ensures ShardNumber(spec, origin, c) == 0
  {
    var shard := ShardOf(spec, Shift(origin, c));
    hide Flat;
    forall d | 0 <= d < |c|
      ensures shard[d] == 0
    {
      DivUnique(origin[d] + c[d], spec.shardShape[d], 0, origin[d] + c[d]);
    }
    assert shard == seq(|spec.shardGrid|, _ => 0);
    ZeroIndex(spec.shardGrid);
  }

  lemma OwnerOfShard(spec: NdSpec, cores: nat, origin: seq<nat>, c: seq<nat>)
    requires cores >= 1 && |spec.shardShape| == |spec.shardGrid| == |origin| == |c|
    requires forall d :: 0 <= d < |c| ==> spec.shardShape[d] >= 1
    ensures RobinOwner(spec, cores, origin)(c) == ShardNumber(spec, origin, c) % cores
  {
  }

  /** The shard at the grid's origin belongs to core 0, and shards in row-major order go round the cores. */
  lemma RobinGoesRound(spec: NdSpec, cores: nat, origin: seq<nat>, c: seq<nat>, e: seq<nat>)
    requires cores >= 1 && |spec.shardShape| == |spec.shardGrid| == |origin| == |c| == |e|
    requires forall d :: 0 <= d < |c| ==> spec.shardShape[d] >= 1
    ensures (forall d :: 0 <= d < |c| ==> origin[d] + c[d] < spec.shardShape[d]) ==>
              RobinOwner(spec, cores, origin)(c) == 0
    ensures ShardNumber(spec, origin, e) == ShardNumber(spec, origin, c) + 1 ==>
              RobinOwner(spec, cores, origin)(e) == (RobinOwner(spec, cores, origin)(c) + 1) % cores
  {
    hide RobinOwner, ShardNumber;
    OwnerOfShard(spec, cores, origin, c);
    OwnerOfShard(spec, cores, origin, e);
    NextModulo(ShardNumber(spec, origin, c), cores);
    if forall d :: 0 <= d < |c| ==> origin[d] + c[d] < spec.shardShape[d] {
      FirstShard(spec, origin, c);
    }
  }

  lemma NextModulo(i: nat, cores: nat)
    requires cores >= 1
    ensures (i + 1) % cores == (i % cores + 1) % cores
  {
    NextPlace(i, cores, i / cores, i % cores);
  }

  lemma NextPlace(i: nat, cores: nat, q: nat, r: nat)
    requires cores >= 1 && i == q * cores + r && r < cores
    ensures (i + 1) % cores == (r + 1) % cores
  {
    if r + 1 < cores {
      DivUnique(i + 1, cores, q, r + 1);
      DivUnique(r + 1, cores, 0, r + 1);
    } else {
      assert (q + 1) * cores == q * cores + cores;
      DivUnique(i + 1, cores, q + 1, 0);
      DivUnique(r + 1, cores, 1, 0);
    }
  }

  /** The index sum of one element. */
  method ShardIndex(spec: NdSpec, strides: seq<nat>, e: seq<nat>) returns (index: nat)
    requires |spec.shardShape| == |spec.shardGrid| == |e| && forall d :: 0 <= d < |e| ==> spec.shardShape[d] >= 1
    requires AreStrides(spec.shardGrid, strides)
    ensures index == Flat(spec.shardGrid, ShardOf(spec, e))
  {
    index := 0;
    for d := 0 to |e|
      invariant index == StrideSum(spec.shardGrid, ShardOf(spec, e), d)
    {
      index := index + e[d] / spec.shardShape[d] * strides[d];
    }
    StrideSumIsFlat(spec.shardGrid, ShardOf(spec, e), |e|);
  }

  method RobinLocal(spec: NdSpec, strides: seq<nat>, cores: nat, core: nat, origin: seq<nat>, c: seq<nat>)
    returns (b: bool)
    requires cores >= 1 && |spec.shardShape| == |spec.shardGrid| == |origin| == |c|
    requires AreStrides(spec.shardGrid, strides) && forall d :: 0 <= d < |c| ==> spec.shardShape[d] >= 1
    ensures b <==> RobinOwner(spec, cores, origin)(c) == core
  {
    var index := ShardIndex(spec, strides, Shift(origin, c));
    b := index % cores == core;
  }

  /** `_count_nd_round_robin_elements`. */
  method CountRoundRobin(spec: NdSpec, cores: nat, core: nat, origin: seq<nat>, shape: seq<nat>)
    returns (local: nat, remote: nat)
    requires cores >= 1 && |spec.shardShape| == |spec.shardGrid| == |origin| == |shape| >= 1
    requires forall d :: 0 <= d < |shape| ==> spec.shardShape[d] >= 1
    ensures local == CountOf(AllCoords(shape), core, RobinOwner(spec, cores, origin)) && local + remote == Size(shape)
  {
    hide RobinOwner, AreStrides;
    var strides := Strides(spec.shardGrid);
    var cs := AllCoords(shape);
    AllCoordsSize(shape);
    CoordsLength(shape);
    local := 0;
    for k := 0 to |cs|
      invariant local == CountOf(cs[..k], core, RobinOwner(spec, cores, origin)) && local <= k
    {
      var mine := RobinLocal(spec, strides, cores, core, origin, cs[k]);
      if mine {
        local := local + 1;
      }
      assert cs[..k + 1][..k] == cs[..k];
    }
    assert cs[..|cs|] == cs;
    remote := Size(shape) - local;
  }

  /** Round robin: the counts add up for every view, grid and number of cores. */
  lemma RobinCountsAddUp(spec: NdSpec, cores: nat, origin: seq<nat>, shape: seq<nat>, counts: nat -> nat)
    requires cores >= 1
    requires forall c: nat :: c < cores ==> counts(c) == CountOf(AllCoords(shape), c, RobinOwner(spec, cores, origin))
    ensures SumOver(cores, counts) == Size(shape)
  {
    AllCoordsSize(shape);
    CountsAddUp(AllCoords(shape), cores, RobinOwner(spec, cores, origin), counts);
  }
}
