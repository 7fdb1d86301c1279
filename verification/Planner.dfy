/** The matmul planner (benchmarks/matmul/config.py). Ratios are exact reals. */
module Planner {
  import opened Arith
  import opened Wrappers
  import opened Search

  const TILE := 32

  datatype Limits =
    Limits(gridM: int, gridN: int, l1Budget: int, maxPad: real, alpha: real, beta: real, dtypeBytes: nat)

  const DEFAULTS := Limits(10, 13, 1_440_000, 1.25, 64.0, 0.035, 2)

  // ----- Circular buffers -----

  datatype CBShape = CBShape(name: string, tilesPerBlock: nat, blockCount: nat) {
    function TotalTiles(): nat { tilesPerBlock * blockCount }
  }

  function CbLayout(bm: nat, bn: nat, bk: nat, kParts: nat): seq<CBShape>
  {
    [CBShape("a_cb", bm * bk, 2), CBShape("b_cb", bk * bn, 2)]
    + if kParts == 1 then [CBShape("out_cb", bm * bn, 2)]
      else [CBShape("partial_cb", bm * bn, 2),
            CBShape("recv_cb", bm * bn, if kParts >= 3 then kParts - 1 else 2),
            CBShape("out_cb", bm * bn, 1)]
  }

  function SumTiles(cbs: seq<CBShape>): nat
  {
    if cbs == [] then 0 else cbs[0].TotalTiles() + SumTiles(cbs[1..])
  }

  function EstimateL1(bm: nat, bn: nat, bk: nat, kParts: nat, dtypeBytes: nat): nat
  {
    SumTiles(CbLayout(bm, bn, bk, kParts)) * (TILE * TILE * dtypeBytes)
  }

  // ----- The largest divisor -----

  function DivisorFrom(n: nat, d: nat): (r: nat)
    requires n >= 1 && d >= 1
    ensures 1 <= r <= d && n % r == 0
    ensures forall e :: r < e <= d ==> n % e != 0
  {
    if n % d == 0 then d else DivisorFrom(n, d - 1)
  }

  /** The largest divisor of `n` that is at most `cap`; 1 when `cap` allows none. */
  function LargestDivisor(n: nat, cap: int): (r: nat)
    requires n >= 1
    ensures 1 <= r <= n && n % r == 0 && (cap >= 1 ==> r <= cap)
    ensures forall e: nat :: 1 <= e <= cap && n % e == 0 ==> e <= r
  {
    var c := if cap < 1 then 1 else if cap < n then cap else n;
    var r := DivisorFrom(n, c);
    NothingAbove(n);
    r
  }

  lemma NothingAbove(n: nat)
    requires n >= 1
    ensures forall e: nat :: e > n ==> n % e != 0
  {
    forall e: nat | e > n
      ensures n % e != 0
    {
      DivUnique(n, e, 0, n);
    }
  }

  method FindLargestDivisor(n: nat, cap: int) returns (r: nat)
    requires n >= 1
    ensures r == LargestDivisor(n, cap)
  {
    var d := if cap < 1 then 1 else if cap < n then cap else n;
    while n % d != 0
      invariant d >= 1 && DivisorFrom(n, d) == LargestDivisor(n, cap)
      decreases d
    {
      d := d - 1;
    }
    r := d;
  }

  // ----- Candidates and their scores -----

  /** `b` is a block of allowed dims that divides the problem `t`, in tiles. */
  predicate Divides(t: Triple, b: Triple)
  {
    IsDim(b.m) && IsDim(b.n) && IsDim(b.k)
    && t.m % b.m == 0 && t.n % b.n == 0 && t.k % b.k == 0
  }

  predicate InRange(t: Triple, lim: Limits, c: Cand)
  {
    && t.m >= 1 && t.n >= 1 && t.k >= 1 && Divides(t, c.b)
    && 1 <= c.mp <= t.m / c.b.m && c.mp <= lim.gridM
    && 1 <= c.np <= t.n / c.b.n && c.np <= lim.gridN
  }

  lemma BlocksPositive(t: nat, b: nat)
    requires t >= 1 && b >= 1 && t % b == 0
    ensures t / b >= 1 && t / b * b == t
  {
  }

  function PadM(t: Triple, c: Cand): real
    requires c.b.m >= 1 && t.m / c.b.m >= 1 && c.mp >= 1
  {
    (c.mp * CeilDiv(t.m / c.b.m, c.mp)) as real / (t.m / c.b.m) as real
  }

  function Pad(t: Triple, c: Cand): real
    requires c.b.m >= 1 && t.m / c.b.m >= 1 && c.mp >= 1 && c.b.n >= 1 && t.n / c.b.n >= 1 && c.np >= 1
  {
    PadM(t, c) * (c.np * CeilDiv(t.n / c.b.n, c.np)) as real / (t.n / c.b.n) as real
  }

  function KParts(t: Triple, lim: Limits, c: Cand): nat
    requires InRange(t, lim, c)
  {
    LargestDivisor(t.k / c.b.k, lim.gridN / c.np)
  }

  /** The hard rules. */
  predicate Feasible(t: Triple, lim: Limits, c: Cand)
  {
    InRange(t, lim, c) && Pad(t, c) <= lim.maxPad
    && EstimateL1(c.b.m, c.b.n, c.b.k, KParts(t, lim, c), lim.dtypeBytes) <= lim.l1Budget
  }

  predicate ValidLimits(lim: Limits) { lim.alpha >= 0.0 && lim.beta >= 0.0 }

  /** pad is at least pad_m, which is at least 1. */
  lemma PadAtLeastPadM(t: Triple, c: Cand)
    requires c.b.m >= 1 && t.m / c.b.m >= 1 && c.mp >= 1 && c.b.n >= 1 && t.n / c.b.n >= 1 && c.np >= 1
    ensures 1.0 <= PadM(t, c) <= Pad(t, c)
  {
    RatioAtLeastOne(c.mp * CeilDiv(t.m / c.b.m, c.mp), t.m / c.b.m);
    RatioAtLeastOne(c.np * CeilDiv(t.n / c.b.n, c.np), t.n / c.b.n);
    var (top, bottom) := ((c.np * CeilDiv(t.n / c.b.n, c.np)) as real, (t.n / c.b.n) as real);
    hide CeilDiv, PadM;
    assert Pad(t, c) == PadM(t, c) * top / bottom;
    ScaledUp(PadM(t, c), top, bottom);
  }

  lemma ScaledUp(x: real, top: real, bottom: real)
    requires x >= 0.0 && bottom > 0.0 && top / bottom >= 1.0
    ensures x * top / bottom >= x
  {
    assert x * top / bottom == x * (top / bottom);
    assert x * (top / bottom) >= x * 1.0;
  }

  lemma RatioAtLeastOne(a: nat, b: nat)
    requires b >= 1 && a >= b
    ensures a as real / b as real >= 1.0
  {
  }

  /** The denominator of the estimated throughput. */
  function Cost(pad: real, vol: nat, alpha: real, beta: real, gathers: nat): (d: real)
    requires pad >= 1.0 && vol >= 1 && alpha >= 0.0 && beta >= 0.0
    ensures d > 0.0
  {
    var overhead, penalty := vol as real + alpha, 1.0 + beta * gathers as real;
    ProductPositive(beta, gathers as real);
    assert pad * overhead >= 1.0 * overhead > 0.0;
    assert penalty >= 1.0;
    assert pad * overhead * penalty >= pad * overhead * 1.0;
    pad * overhead * penalty
  }

  lemma ProductPositive(a: real, b: real)
    requires a >= 0.0 && b >= 0.0
    ensures a * b >= 0.0
  {
  }

  lemma VolumePositive(a: nat, b: nat, c: nat)
    requires a >= 1 && b >= 1 && c >= 1
    ensures a * b * c >= 1
  {
    assert a * b >= 1;
  }

  function ScoreFrom(lim: Limits, vol: nat, cores: nat, pad: real, kp: nat, iters: nat): Score
    requires ValidLimits(lim) && vol >= 1 && pad >= 1.0 && kp >= 1
  {
    Score((cores * vol) as real / Cost(pad, vol, lim.alpha, lim.beta, (kp - 1) * iters), vol, -pad, cores, -(kp as int))
  }

  function ScoreOf(t: Triple, lim: Limits, c: Cand): Score
    requires ValidLimits(lim) && InRange(t, lim, c)
  {
    var kp := KParts(t, lim, c);
    PadAtLeastPadM(t, c);
    VolumePositive(c.b.m, c.b.n, c.b.k);
    ScoreFrom(lim, c.b.m * c.b.n * c.b.k, c.mp * c.np * kp, Pad(t, c), kp,
              CeilDiv(t.m / c.b.m, c.mp) * CeilDiv(t.n / c.b.n, c.np))
  }

  // ----- The search -----

  /** How many values `range(1, min(grid, blocks) + 1)` has. */
  function Span(grid: int, blocks: nat): nat
  {
    if grid < 1 then 0 else if grid < blocks then grid else blocks
  }

  function SpaceOf(t: Triple, lim: Limits): Space
  {
    Space(DIM_COUNT, (b: Triple) => Divides(t, b), (c: Cand) => Feasible(t, lim, c),
          (b: Triple) => if b.m >= 1 then Span(lim.gridM, t.m / b.m) else 0,
          (b: Triple) => if b.n >= 1 then Span(lim.gridN, t.n / b.n) else 0)
  }

  function ScoreFn(t: Triple, lim: Limits): Cand -> Score
    requires ValidLimits(lim)
  {
    (c: Cand) => if ValidLimits(lim) && InRange(t, lim, c) then ScoreOf(t, lim, c) else Score(0.0, 0, 0.0, 0, 0)
  }

  lemma SpaceCovers(t: Triple, lim: Limits)
    ensures Covers(SpaceOf(t, lim))
  {
  }

  /** Skipping an M partition on pad_m alone loses no feasible candidate. */
  lemma PadSkipLosesNothing(t: Triple, lim: Limits, b: Triple, mp: nat, c: Cand)
    requires t.m >= 1 && Divides(t, b) && t.m / b.m >= 1 && mp >= 1 && PadM(t, Cand(b, mp, 1)) > lim.maxPad
    requires c.b == b && c.mp == mp
    ensures !Feasible(t, lim, c)
  {
    if InRange(t, lim, c) {
      PadAtLeastPadM(t, c);
    }
  }

  /** One candidate of the innermost loop. */
  method TryCand(t: Triple, lim: Limits, c: Cand, score: Cand -> Score, best: Option<Cand>) returns (r: Option<Cand>)
    requires InRange(t, lim, c)
    ensures r == if Feasible(t, lim, c) then Better(score, best, c) else best
  {
    if Pad(t, c) > lim.maxPad {
      return best;
    }
    BlocksPositive(t.k, c.b.k);
    var kp := FindLargestDivisor(t.k / c.b.k, lim.gridN / c.np);
    if EstimateL1(c.b.m, c.b.n, c.b.k, kp, lim.dtypeBytes) > lim.l1Budget {
      return best;
    }
    if best.None? || Greater(score(c), score(best.value)) {
      r := Some(c);
    } else {
      r := best;
    }
  }

  /** The space `s` is that of the problem. */
  ghost predicate Fits(t: Triple, lim: Limits, s: Space)
  {
    && Covers(s)
    && (forall b: Triple :: s.divides(b) <==> Divides(t, b))
    && (forall b: Triple :: Divides(t, b) ==>
              s.rows(b) == Span(lim.gridM, t.m / b.m) && s.cols(b) == Span(lim.gridN, t.n / b.n))
    && (forall c: Cand :: s.ok(c) <==> Feasible(t, lim, c))
  }

  lemma SpaceFits(t: Triple, lim: Limits)
    ensures Fits(t, lim, SpaceOf(t, lim))
  {
    SpaceCovers(t, lim);
  }

  lemma FoldOne(s: Space, score: Cand -> Score, best: Option<Cand>, c: Cand)
    ensures Fold(score, best, One(s, c)) == if s.ok(c) then Better(score, best, c) else best
  {
    if s.ok(c) {
      assert [c][..0] == [];
      assert Fold(score, best, [c]) == Better(score, Fold(score, best, []), c);
    }
  }

  /** The loop over N partitions. */
  method SearchRow(t: Triple, lim: Limits, ghost s: Space, score: Cand -> Score, b: Triple, mp: nat, best: Option<Cand>)
    returns (r: Option<Cand>)
    requires t.m >= 1 && t.n >= 1 && t.k >= 1 && Divides(t, b) && Fits(t, lim, s)
    requires 1 <= mp <= Span(lim.gridM, t.m / b.m)
    ensures r == Fold(score, best, RowCands(s, b, mp))
  {
    r := best;
    if PadM(t, Cand(b, mp, 1)) > lim.maxPad {
      forall c: Cand | s.ok(c) ensures c.b != b || c.mp != mp {
        if c.b == b && c.mp == mp {
          PadSkipLosesNothing(t, lim, b, mp, c);
        }
      }
      NoRowCands(s, b, mp);
      return;
    }
    ghost var f := (i: nat) => One(s, Cand(b, mp, i + 1));
    for i := 0 to Span(lim.gridN, t.n / b.n)
      invariant r == Fold(score, best, Concat(i, f))
    {
      FoldAppend(score, best, Concat(i, f), f(i));
      FoldOne(s, score, r, Cand(b, mp, i + 1));
      r := TryCand(t, lim, Cand(b, mp, i + 1), score, r);
    }
  }

  /** The loop over M partitions of a block shape that divides the problem. */
  method SearchParts(t: Triple, lim: Limits, ghost s: Space, score: Cand -> Score, b: Triple, best: Option<Cand>)
    returns (r: Option<Cand>)
    requires t.m >= 1 && t.n >= 1 && t.k >= 1 && Divides(t, b) && Fits(t, lim, s)
    ensures r == Fold(score, best, PartCands(s, b))
  {
    hide RowCands;
    r := best;
    ghost var f := (i: nat) => RowCands(s, b, i + 1);
    for i := 0 to Span(lim.gridM, t.m / b.m)
      invariant r == Fold(score, best, Concat(i, f))
    {
      FoldAppend(score, best, Concat(i, f), f(i));
      r := SearchRow(t, lim, s, score, b, i + 1, r);
    }
  }

  /** One value of bk. */
  method TryBk(t: Triple, lim: Limits, ghost s: Space, score: Cand -> Score, bm: nat, bn: nat, i: nat,
               best: Option<Cand>)
    returns (r: Option<Cand>)
    requires t.m >= 1 && t.n >= 1 && t.k >= 1 && Fits(t, lim, s) && i < DIM_COUNT
    requires IsDim(bm) && t.m % bm == 0 && IsDim(bn) && t.n % bn == 0
    ensures r == Fold(score, best, PartCands(s, Triple(bm, bn, Dim(i))))
  {
    r := best;
    DimsAreBlockDims(i);
    var bk := BLOCK_DIMS[i];
    if t.k % bk == 0 {
      r := SearchParts(t, lim, s, score, Triple(bm, bn, bk), r);
    } else {
      NoPartCands(s, Triple(bm, bn, bk));
    }
  }

  /** The loop over bk. */
  method SearchBk(t: Triple, lim: Limits, ghost s: Space, score: Cand -> Score, bm: nat, bn: nat, best: Option<Cand>)
    returns (r: Option<Cand>)
    requires t.m >= 1 && t.n >= 1 && t.k >= 1 && Fits(t, lim, s)
    requires IsDim(bm) && t.m % bm == 0 && IsDim(bn) && t.n % bn == 0
    ensures r == Fold(score, best, BkCands(s, bm, bn))
  {
    hide PartCands;
    r := best;
    ghost var f := (i: nat) => PartCands(s, Triple(bm, bn, Dim(i)));
    for i := 0 to DIM_COUNT
      invariant r == Fold(score, best, Concat(i, f))
    {
      FoldAppend(score, best, Concat(i, f), f(i));
      r := TryBk(t, lim, s, score, bm, bn, i, r);
    }
  }

  /** One value of bn. */
  method TryBn(t: Triple, lim: Limits, ghost s: Space, score: Cand -> Score, bm: nat, i: nat, best: Option<Cand>)
    returns (r: Option<Cand>)
    requires t.m >= 1 && t.n >= 1 && t.k >= 1 && IsDim(bm) && t.m % bm == 0 && Fits(t, lim, s) && i < DIM_COUNT
    ensures r == Fold(score, best, BkCands(s, bm, Dim(i)))
  {
    r := best;
    DimsAreBlockDims(i);
    var bn := BLOCK_DIMS[i];
    if t.n % bn == 0 {
      r := SearchBk(t, lim, s, score, bm, bn, r);
    } else {
      NoBkCands(s, bm, bn);
    }
  }

  /** The loop over bn. */
  method SearchBn(t: Triple, lim: Limits, ghost s: Space, score: Cand -> Score, bm: nat, best: Option<Cand>)
    returns (r: Option<Cand>)
    requires t.m >= 1 && t.n >= 1 && t.k >= 1 && IsDim(bm) && t.m % bm == 0 && Fits(t, lim, s)
    ensures r == Fold(score, best, BnCands(s, bm))
  {
    hide BkCands;
    r := best;
    ghost var f := (i: nat) => BkCands(s, bm, Dim(i));
    for i := 0 to DIM_COUNT
      invariant r == Fold(score, best, Concat(i, f))
    {
      FoldAppend(score, best, Concat(i, f), f(i));
      r := TryBn(t, lim, s, score, bm, i, r);
    }
  }

  /** The whole search. */
  method SearchAll(t: Triple, lim: Limits) returns (r: Option<Cand>)
    requires ValidLimits(lim) && t.m >= 1 && t.n >= 1 && t.k >= 1
    ensures r == Fold(ScoreFn(t, lim), None, AllCands(SpaceOf(t, lim)))
  {
    r := None;
    var score := ScoreFn(t, lim);
    ghost var s := SpaceOf(t, lim);
    SpaceFits(t, lim);
    r := SearchBm(t, lim, s, score);
  }

  /** The loop over bm. */
  method SearchBm(t: Triple, lim: Limits, ghost s: Space, score: Cand -> Score) returns (r: Option<Cand>)
    requires t.m >= 1 && t.n >= 1 && t.k >= 1 && Fits(t, lim, s)
    ensures r == Fold(score, None, AllCands(s))
  {
    hide BnCands;
    r := None;
    ghost var f := (i: nat) => BnCands(s, Dim(i));
    for i := 0 to DIM_COUNT
      invariant r == Fold(score, None, Concat(i, f))
    {
      FoldAppend(score, None, Concat(i, f), f(i));
      DimsAreBlockDims(i);
      var bm := BLOCK_DIMS[i];
      if t.m % bm == 0 {
        r := SearchBn(t, lim, s, score, bm, r);
      } else {
        NoBnCands(s, bm);
      }
    }
  }

  /** Every feasible candidate, in the order the loops reach it. */
  function Candidates(t: Triple, lim: Limits): seq<Cand> { AllCands(SpaceOf(t, lim)) }

  lemma CandidatesExact(t: Triple, lim: Limits, c: Cand)
    ensures c in Candidates(t, lim) <==> Feasible(t, lim, c)
  {
    SpaceFits(t, lim);
    AllCandsExact(SpaceOf(t, lim), c);
  }

  /** Whatever the score, the search returns None exactly when nothing is feasible, and otherwise a feasible
      candidate that no feasible candidate beats; among equals the one the loops reach first. */
  lemma SearchIsExact(t: Triple, lim: Limits, score: Cand -> Score, cs: seq<Cand>)
    requires cs == Candidates(t, lim)
    ensures var r := Fold(score, None, cs);
            && (r.None? <==> forall c: Cand :: !Feasible(t, lim, c))
            && (r.Some? ==> Feasible(t, lim, r.value))
            && (r.Some? ==> forall c: Cand :: Feasible(t, lim, c) ==> !Greater(score(c), score(r.value)))
            && (r.Some? ==> exists k: nat :: FirstMaximum(score, cs, k) && cs[k] == r.value)
  {
    SpaceFits(t, lim);
    ExactFor(t, lim, SpaceOf(t, lim), score, cs);
  }

  lemma ExactFor(t: Triple, lim: Limits, s: Space, score: Cand -> Score, cs: seq<Cand>)
    requires Fits(t, lim, s) && cs == AllCands(s)
    ensures var r := Fold(score, None, cs);
            && (r.None? <==> forall c: Cand :: !Feasible(t, lim, c))
            && (r.Some? ==> Feasible(t, lim, r.value))
            && (r.Some? ==> forall c: Cand :: Feasible(t, lim, c) ==> !Greater(score(c), score(r.value)))
            && (r.Some? ==> exists k: nat :: FirstMaximum(score, cs, k) && cs[k] == r.value)
  {
    forall c: Cand ensures c in cs <==> s.ok(c) {
      AllCandsExact(s, c);
    }
    BestIsExact(s.ok, cs, score);
    Translate(t, lim, s, score, Fold(score, None, cs));
  }

  lemma Translate(t: Triple, lim: Limits, s: Space, score: Cand -> Score, r: Option<Cand>)
    requires Fits(t, lim, s)
    requires r.None? <==> forall c: Cand :: !s.ok(c)
    requires r.Some? ==> s.ok(r.value) && forall c: Cand :: s.ok(c) ==> !Greater(score(c), score(r.value))
    ensures r.None? <==> forall c: Cand :: !Feasible(t, lim, c)
    ensures r.Some? ==> Feasible(t, lim, r.value)
    ensures r.Some? ==> forall c: Cand :: Feasible(t, lim, c) ==> !Greater(score(c), score(r.value))
  {
    if r.Some? {
      forall c: Cand | Feasible(t, lim, c) ensures !Greater(score(c), score(r.value)) {
        assert s.ok(c);
      }
    } else {
      forall c: Cand ensures !Feasible(t, lim, c) {
        assert !s.ok(c);
      }
    }
  }
}
