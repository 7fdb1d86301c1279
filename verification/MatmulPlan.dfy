/** `plan_matmul` and its hand-off to the kernels (benchmarks/matmul). */
module MatmulPlan {
  import opened Arith
  import opened Wrappers
  import opened Search
  import opened Planner
  import opened Scores

  /** Block dims and partition chosen for one shape; dims are in elements. */
  datatype Plan = Plan(M: nat, K: nat, N: nat, block: Triple, part: Triple) {
    predicate Valid()
    {
      block.m >= 1 && block.n >= 1 && block.k >= 1 && part.m >= 1 && part.n >= 1 && part.k >= 1
    }

    /** Output blocks per node along M and along N. */
    function MBpn(): nat
      requires Valid()
    {
      CeilDiv(M / TILE / block.m, part.m)
    }

    function NBpn(): nat
      requires Valid()
    {
      CeilDiv(N / TILE / block.n, part.n)
    }

    /** The tensor dims the kernel expects; K is unchanged. */
    function PaddedM(): nat
      requires Valid()
    {
      part.m * MBpn() * block.m * TILE
    }

    function PaddedN(): nat
      requires Valid()
    {
      part.n * NBpn() * block.n * TILE
    }
  }

  /** The checks both kernels make before they are built. */
  predicate KernelAccepts(M: nat, K: nat, N: nat, b: Triple, p: Triple)
    requires b.m >= 1 && b.n >= 1 && b.k >= 1 && p.m >= 1 && p.n >= 1 && p.k >= 1
  {
    && M % TILE == 0 && N % TILE == 0 && K % TILE == 0
    && M / TILE % b.m == 0 && N / TILE % b.n == 0 && K / TILE % b.k == 0
    && M / TILE / b.m % p.m == 0 && N / TILE / b.n % p.n == 0
    && (p.k >= 2 ==> K / TILE / b.k % p.k == 0)   // ksplit_kernel; p.k == 1 goes to summa_kernel
  }

  datatype PlanResult = BadDims | Misaligned | NoPlan | Planned(plan: Plan)

  /** Measured winners that bypass the search: (M, K, N) to block and partition. */
  const SHAPE_PLANS: map<Triple, (Triple, Triple)> := map[
    Triple(1024, 1024, 1024) := (Triple(4, 8, 8), Triple(8, 4, 2)),
    Triple(1024, 2048, 1024) := (Triple(4, 4, 8), Triple(8, 8, 1)),
    Triple(2048, 2048, 2048) := (Triple(8, 4, 8), Triple(8, 6, 2)),
    Triple(2048, 4096, 2048) := (Triple(8, 4, 8), Triple(8, 6, 2)),
    Triple(2560, 2048, 3072) := (Triple(8, 4, 8), Triple(10, 13, 1)),
    Triple(2048, 8192, 2048) := (Triple(8, 4, 8), Triple(8, 6, 2)),
    Triple(2560, 4096, 3072) := (Triple(8, 4, 8), Triple(10, 13, 1)),
    Triple(2560, 8192, 3072) := (Triple(8, 4, 8), Triple(10, 13, 1)),
    Triple(2560, 8192, 3328) := (Triple(8, 8, 8), Triple(10, 13, 1)),
    Triple(1024, 16384, 2560) := (Triple(4, 8, 8), Triple(8, 10, 1)),
    Triple(4096, 4096, 4096) := (Triple(8, 4, 8), Triple(8, 11, 1)),
    Triple(4096, 8192, 4096) := (Triple(8, 4, 8), Triple(8, 11, 1)),
    Triple(8192, 8192, 8192) := (Triple(8, 4, 8), Triple(8, 13, 1)),
    Triple(10240, 8192, 13312) := (Triple(8, 8, 8), Triple(10, 13, 1)),
    Triple(2560, 16384, 3328) := (Triple(8, 8, 8), Triple(10, 13, 1)),
    Triple(2560, 32768, 3328) := (Triple(8, 8, 8), Triple(10, 13, 1)),
    Triple(10240, 16384, 13312) := (Triple(8, 8, 8), Triple(10, 13, 1)),
    Triple(5120, 32768, 6656) := (Triple(8, 8, 8), Triple(10, 13, 1))]

  predicate Aligned(M: int, K: int, N: int)
  {
    M > 0 && K > 0 && N > 0 && M % TILE == 0 && K % TILE == 0 && N % TILE == 0
  }

  /** The problem in tiles, read as (m, n, k). */
  function Tiles(M: nat, K: nat, N: nat): Triple { Triple(M / TILE, N / TILE, K / TILE) }

  function PlanOf(M: nat, K: nat, N: nat, lim: Limits, c: Cand): Plan
    requires InRange(Tiles(M, K, N), lim, c)
  {
    Plan(M, K, N, c.b, Triple(c.mp, c.np, KParts(Tiles(M, K, N), lim, c)))
  }

  /** `plan` is the best candidate of the search over `t`. */
  ghost predicate IsBest(M: nat, K: nat, N: nat, lim: Limits, score: Cand -> Score, plan: Plan, c: Cand)
  {
    var t := Tiles(M, K, N);
    && Feasible(t, lim, c) && plan == PlanOf(M, K, N, lim, c)
    && (forall d: Cand :: Feasible(t, lim, d) ==> !Greater(score(d), score(c)))
    && exists k: nat :: FirstMaximum(score, Candidates(t, lim), k) && Candidates(t, lim)[k] == c
  }

  method PlanMatmul(M: int, K: int, N: int, lim: Limits) returns (r: PlanResult)
    requires ValidLimits(lim)
    ensures r.BadDims? <==> M <= 0 || K <= 0 || N <= 0
    ensures r.Misaligned? <==> M > 0 && K > 0 && N > 0 && !Aligned(M, K, N)
    ensures Aligned(M, K, N) && Triple(M, K, N) in SHAPE_PLANS ==>
              r == Planned(Plan(M, K, N, SHAPE_PLANS[Triple(M, K, N)].0, SHAPE_PLANS[Triple(M, K, N)].1))
    ensures Aligned(M, K, N) && Triple(M, K, N) !in SHAPE_PLANS ==>
              match r
              case NoPlan => forall c: Cand :: !Feasible(Tiles(M, K, N), lim, c)
              case Planned(plan) => exists c: Cand :: IsBest(M, K, N, lim, ScoreFn(Tiles(M, K, N), lim), plan, c)
              case _ => false
  {
    if M <= 0 || K <= 0 || N <= 0 {
      return BadDims;
    }
    if M % TILE != 0 || K % TILE != 0 || N % TILE != 0 {
      return Misaligned;
    }
    if Triple(M, K, N) in SHAPE_PLANS {
      var (block, part) := SHAPE_PLANS[Triple(M, K, N)];
      return Planned(Plan(M, K, N, block, part));
    }
    var t := Tiles(M, K, N);
    var best := SearchAll(t, lim);
    SearchIsExact(t, lim, ScoreFn(t, lim), Candidates(t, lim));
    if best.None? {
      return NoPlan;
    }
    var c := best.value;
    BlocksPositive(t.k, c.b.k);
    var kp := FindLargestDivisor(t.k / c.b.k, lim.gridN / c.np);
    var plan := Plan(M, K, N, c.b, Triple(c.mp, c.np, kp));
    assert IsBest(M, K, N, lim, ScoreFn(t, lim), plan, c);
    r := Planned(plan);
  }

  /** The plan is at least as fast as every feasible candidate, by cores times block volume over padding, block
      overhead and gathers; its terms are those of its own block and partition. */
  lemma BestIsFastest(M: nat, K: nat, N: nat, lim: Limits, plan: Plan, c: Cand, d: Cand)
    requires ValidLimits(lim) && IsBest(M, K, N, lim, ScoreFn(Tiles(M, K, N), lim), plan, c)
    requires Feasible(Tiles(M, K, N), lim, d)
    ensures var (q, q') := (TermsOf(Tiles(M, K, N), lim, c), TermsOf(Tiles(M, K, N), lim, d));
            && q.Valid() && q'.Valid() && AtLeastAsFast(lim, q, q')
            && q.vol == plan.block.m * plan.block.n * plan.block.k
            && q.cores == plan.part.m * plan.part.n * plan.part.k && q.kp == plan.part.k
            && (plan.Valid() ==> q.iters == plan.MBpn() * plan.NBpn())
  {
    hide Pad, KParts, ScoreFn, FirstMaximum;
    NotBeatenIsFastest(Tiles(M, K, N), lim, c, d);
  }

  // ----- A plan fits the machine and its kernel -----

  lemma PaddedDim(blocks: nat, parts: nat, b: nat)
    requires parts >= 1 && b >= 1
    ensures var padded := parts * CeilDiv(blocks, parts) * b * TILE;
            && padded % TILE == 0 && padded / TILE % b == 0 && padded / TILE / b % parts == 0
            && padded >= blocks * b * TILE
  {
    var q := CeilDiv(blocks, parts);
    ProductDivides(parts * q * b, TILE);
    ProductDivides(parts * q, b);
    ProductDivides(q, parts);
    assert parts * q >= blocks;
    assert parts * q * b >= blocks * b;
  }

  /** The limits a plan has to respect on the machine. */
  predicate FitsMachine(p: Plan, lim: Limits)
    requires p.Valid()
  {
    && p.part.m <= lim.gridM && p.part.n * p.part.k <= lim.gridN
    && EstimateL1(p.block.m, p.block.n, p.block.k, p.part.k, lim.dtypeBytes) <= lim.l1Budget
    && p.PaddedM() >= p.M && p.PaddedN() >= p.N
    && KernelAccepts(p.PaddedM(), p.K, p.PaddedN(), p.block, p.part)
  }

  lemma GridHolds(np: nat, gridN: int, kp: nat)
    requires np >= 1 && np <= gridN && kp <= gridN / np
    ensures np * kp <= gridN
  {
    assert np * kp <= np * (gridN / np);
  }

  /** Every feasible candidate gives a plan that fits the grid and the L1 budget, pads upwards, and
      meets every check of the kernel selected by Kp. */
  lemma FeasibleFits(M: nat, K: nat, N: nat, lim: Limits, c: Cand)
    requires Aligned(M, K, N) && Feasible(Tiles(M, K, N), lim, c)
    ensures PlanOf(M, K, N, lim, c).Valid() && FitsMachine(PlanOf(M, K, N, lim, c), lim)
  {
    var t := Tiles(M, K, N);
    var kp := KParts(t, lim, c);
    assert lim.gridN / c.np >= 1;
    GridHolds(c.np, lim.gridN, kp);
    PaddedDim(t.m / c.b.m, c.mp, c.b.m);
    PaddedDim(t.n / c.b.n, c.np, c.b.n);
    BlocksPositive(t.m, c.b.m);
    BlocksPositive(t.n, c.b.n);
  }

  /** With the default limits every positive tile-aligned shape has a feasible candidate:
      unit blocks on one M and one N partition. */
  lemma AlwaysPlannable(M: nat, K: nat, N: nat)
    requires Aligned(M, K, N)
    ensures Feasible(Tiles(M, K, N), DEFAULTS, Cand(Triple(1, 1, 1), 1, 1))
  {
    var t, c := Tiles(M, K, N), Cand(Triple(1, 1, 1), 1, 1);
    assert InRange(t, DEFAULTS, c);
    assert CeilDiv(t.m, 1) == t.m && CeilDiv(t.n, 1) == t.n;
    SelfRatio(t.m);
    SelfRatio(t.n);
    assert PadM(t, c) == 1.0;
    assert Pad(t, c) == 1.0 * t.n as real / t.n as real;
    var kp := KParts(t, DEFAULTS, c);
    assert kp <= 13;
    SmallLayout(kp);
  }

  lemma SelfRatio(x: nat)
    requires x >= 1
    ensures x as real / x as real == 1.0
  {
  }

  /** The tiles of all circular buffers together. */
  lemma LayoutTiles(bm: nat, bn: nat, bk: nat, kp: nat)
    ensures SumTiles(CbLayout(bm, bn, bk, kp))
            == bm * bk * 2 + bk * bn * 2
               + if kp == 1 then bm * bn * 2 else bm * bn * 2 + bm * bn * (if kp >= 3 then kp - 1 else 2) + bm * bn
  {
    var cbs := CbLayout(bm, bn, bk, kp);
    assert cbs[1..][1..] == cbs[2..];
    assert SumTiles(cbs) == bm * bk * 2 + (bk * bn * 2 + SumTiles(cbs[2..]));
    if kp == 1 {
      assert cbs[2..] == [CBShape("out_cb", bm * bn, 2)];
      assert SumTiles(cbs[2..]) == bm * bn * 2;
    } else {
      var n := if kp >= 3 then kp - 1 else 2;
      assert cbs[2..] == [CBShape("partial_cb", bm * bn, 2), CBShape("recv_cb", bm * bn, n),
                          CBShape("out_cb", bm * bn, 1)];
      assert cbs[2..][1..] == [CBShape("recv_cb", bm * bn, n), CBShape("out_cb", bm * bn, 1)];
      assert cbs[2..][1..][1..] == [CBShape("out_cb", bm * bn, 1)];
      assert SumTiles(cbs[2..][1..][1..]) == bm * bn;
      assert SumTiles(cbs[2..][1..]) == bm * bn * n + bm * bn;
      assert SumTiles(cbs[2..]) == bm * bn * 2 + bm * bn * n + bm * bn;
    }
  }

  lemma {:induction false} TilesAdd(xs: seq<CBShape>, ys: seq<CBShape>)
    ensures SumTiles(xs + ys) == SumTiles(xs) + SumTiles(ys)
  {
    if xs == [] {
      assert xs + ys == ys;
    } else {
      TilesAdd(xs[1..], ys);
      assert (xs + ys)[1..] == xs[1..] + ys;
    }
  }

  /** The estimate in bytes: 32 x 32 elements per tile, two buffers of A and of B blocks, and either two output
      buffers or two partial, at least two gathered and one output buffer. */
  lemma EstimateIs(bm: nat, bn: nat, bk: nat, kp: nat, dtypeBytes: nat)
    ensures var tiles := bm * bk * 2 + bk * bn * 2
                         + if kp == 1 then bm * bn * 2
                           else bm * bn * 2 + bm * bn * (if kp >= 3 then kp - 1 else 2) + bm * bn;
            EstimateL1(bm, bn, bk, kp, dtypeBytes) == tiles * (1024 * dtypeBytes)
  {
    LayoutTiles(bm, bn, bk, kp);
    var tiles := SumTiles(CbLayout(bm, bn, bk, kp));
    hide CbLayout, SumTiles;
    assert TILE * TILE * dtypeBytes == 1024 * dtypeBytes;
    assert EstimateL1(bm, bn, bk, kp, dtypeBytes) == tiles * (1024 * dtypeBytes);
  }

  lemma SmallLayout(kp: nat)
    requires kp <= 13
    ensures EstimateL1(1, 1, 1, kp, 2) <= 1_440_000
  {
    LayoutTiles(1, 1, 1, kp);
  }

  lemma AtMost(a: nat, b: nat, m: nat)
    requires a <= m && b <= m
    ensures a * b <= m * m
  {
    assert a * b <= m * b;
    assert m * b <= m * m;
  }

  lemma TilesFitBudget(tiles: nat)
    requires tiles <= 576
    ensures tiles * (TILE * TILE * DEFAULTS.dtypeBytes) <= DEFAULTS.l1Budget
  {
  }

  /** Blocks of up to 8 x 8 x 8 tiles in at most two K parts fit the default budget. */
  lemma EightFits(bm: nat, bn: nat, bk: nat, kp: nat)
    requires bm <= 8 && bn <= 8 && bk <= 8 && 1 <= kp <= 2
    ensures EstimateL1(bm, bn, bk, kp, DEFAULTS.dtypeBytes) <= DEFAULTS.l1Budget
  {
    LayoutTiles(bm, bn, bk, kp);
    AtMost(bm, bk, 8);
    AtMost(bk, bn, 8);
    AtMost(bm, bn, 8);
    var (x, y, z, tiles) := (bm * bk, bk * bn, bm * bn, SumTiles(CbLayout(bm, bn, bk, kp)));
    assert tiles == x * 2 + y * 2 + if kp == 1 then z * 2 else z * 2 + z * 2 + z;
    TilesFitBudget(tiles);
  }

  /** An entry of the table divides its shape. */
  predicate EntryDivides(shape: Triple, block: Triple, part: Triple)
  {
    && Aligned(shape.m, shape.n, shape.k)
    && block.m >= 1 && block.n >= 1 && block.k >= 1 && part.m >= 1 && part.n >= 1 && part.k >= 1
    && shape.m / TILE % block.m == 0 && shape.n / TILE % block.k == 0 && shape.k / TILE % block.n == 0
    && shape.n / TILE / block.k % part.k == 0
  }

  /** It fits the default grid, and its blocks are small. */
  predicate EntryFits(block: Triple, part: Triple)
  {
    && part.m <= DEFAULTS.gridM && part.n * part.k <= DEFAULTS.gridN
    && block.m <= 8 && block.n <= 8 && block.k <= 8 && 1 <= part.k <= 2
  }

  lemma TableDivides(shape: Triple)
    requires shape in SHAPE_PLANS
    ensures EntryDivides(shape, SHAPE_PLANS[shape].0, SHAPE_PLANS[shape].1)
  {
  }

  lemma TableSmall(shape: Triple)
    requires shape in SHAPE_PLANS
    ensures EntryFits(SHAPE_PLANS[shape].0, SHAPE_PLANS[shape].1)
  {
  }

  /** Every entry of the table divides its shape, fits the grid and has small blocks. */
  lemma TableSound(shape: Triple)
    requires shape in SHAPE_PLANS
    ensures EntryDivides(shape, SHAPE_PLANS[shape].0, SHAPE_PLANS[shape].1)
    ensures EntryFits(SHAPE_PLANS[shape].0, SHAPE_PLANS[shape].1)
  {
    TableDivides(shape);
    TableSmall(shape);
    hide EntryDivides, EntryFits;
  }

  /** So the measured table fits the machine as well: the grid, the L1 budget, and every check of the kernels. */
  lemma TableFits(shape: Triple, block: Triple, part: Triple)
    requires EntryDivides(shape, block, part) && EntryFits(block, part)
    ensures var p := Plan(shape.m, shape.n, shape.k, block, part); p.Valid() && FitsMachine(p, DEFAULTS)
  {
    EightFits(block.m, block.n, block.k, part.k);
    PaddedDim(shape.m / TILE / block.m, part.m, block.m);
    PaddedDim(shape.k / TILE / block.n, part.n, block.n);
    BlocksPositive(shape.m / TILE, block.m);
    BlocksPositive(shape.k / TILE, block.n);
  }

  /** With the default limits planning is total, and every plan fits. */
  method PlanDefault(M: int, K: int, N: int) returns (plan: Plan)
    requires Aligned(M, K, N)
    ensures plan.Valid() && plan.M == M && plan.K == K && plan.N == N
    ensures FitsMachine(plan, DEFAULTS)
  {
    var r := PlanMatmul(M, K, N, DEFAULTS);
    AlwaysPlannable(M, K, N);
    plan := r.plan;
    if Triple(M, K, N) in SHAPE_PLANS {
      TableSound(Triple(M, K, N));
      TableFits(Triple(M, K, N), plan.block, plan.part);
    } else {
      ghost var c: Cand :| IsBest(M, K, N, DEFAULTS, ScoreFn(Tiles(M, K, N), DEFAULTS), plan, c);
      FeasibleFits(M, K, N, DEFAULTS, c);
    }
  }
}
