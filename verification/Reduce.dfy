/** Reductions (python/sim/math.py) and broadcasts (python/sim/block.py) of tiled blocks, in the two
    steps the simulator takes, against their element-level meaning. */
module Reduce {
  import opened Arith
  import opened Wrappers
  import opened Coords
  import opened Folds
  import opened Tiles

  // ----- Grid dimensions -----

  /** Python indexing: -n .. n - 1. */
  predicate DimsInRange(dims: seq<int>, n: nat)
  {
    forall k :: 0 <= k < |dims| ==> -(n as int) <= dims[k] < n
  }

  function Internal(dims: seq<int>, n: nat): set<nat>
    requires n >= 1
  {
    set k | 0 <= k < |dims| :: dims[k] % n
  }

  /** A dimension is meant by its index from the front or from the back. */
  lemma InternalExact(dims: seq<int>, n: nat, k: nat)
    requires n >= 1 && DimsInRange(dims, n)
    ensures k in Internal(dims, n) <==> k < n && (k as int in dims || k as int - n in dims)
  {
    forall i | 0 <= i < |dims|
      ensures dims[i] % n == if dims[i] < 0 then dims[i] + n else dims[i]
    {
      DivUnique(dims[i], n, if dims[i] < 0 then -1 else 0, if dims[i] < 0 then dims[i] + n else dims[i]);
    }
    if k < n && k as int in dims {
      var i :| 0 <= i < |dims| && dims[i] == k;
      assert dims[i] % n == k;
    }
    if k < n && k as int - n in dims {
      var i :| 0 <= i < |dims| && dims[i] == k - n;
      assert dims[i] % n == k;
    }
  }

  function ReducedShape(shape: seq<nat>, d: set<nat>): (r: seq<nat>)
    ensures |r| == |shape|
  {
    seq(|shape|, i requires 0 <= i < |shape| => if i in d then 1 else shape[i])
  }

  /** The box of contributing positions: the reduced dimensions only. */
  function RangeShape(shape: seq<nat>, d: set<nat>): (r: seq<nat>)
    ensures |r| == |shape|
  {
    seq(|shape|, i requires 0 <= i < |shape| => if i in d then shape[i] else 1)
  }

  /** `c` along the reduced dimensions, `o` along the others. */
  function Mix(d: set<nat>, o: seq<nat>, c: seq<nat>): (r: seq<nat>)
    requires |o| == |c|
    ensures |r| == |o|
  {
    seq(|o|, i requires 0 <= i < |o| => if i in d then c[i] else o[i])
  }

  // ----- The element-level meaning -----

  ghost predicate Full(b: Block) { b.Aligned() && b.h >= 1 && b.w >= 1 }

  predicate RowDim(b: Block, d: set<nat>) requires |b.shape| >= 2 { |b.shape| - 2 in d }
  predicate ColDim(b: Block, d: set<nat>) requires |b.shape| >= 2 { |b.shape| - 1 in d }

  function RowAxis(b: Block, d: set<nat>, o: seq<nat>): Axis
    requires |o| == |b.shape| >= 2
  {
    Axis(RowDim(b, d), b.TileRows(), b.TileH(), o[|o| - 2])
  }

  function ColAxis(b: Block, d: set<nat>, o: seq<nat>): Axis
    requires |o| == |b.shape| >= 2
  {
    Axis(ColDim(b, d), b.TileCols(), b.TileW(), o[|o| - 1])
  }

  function BatchRange(b: Block, d: set<nat>): seq<nat>
    requires |b.shape| >= 2
  {
    RangeShape(b.Batch(), d)
  }

  function BatchAt(b: Block, d: set<nat>, o: seq<nat>, x: nat): seq<nat>
    requires |o| == |b.shape| >= 2 && Size(BatchRange(b, d)) > 0
  {
    Mix(d, o[..|o| - 2], Unflat(BatchRange(b, d), x))
  }

  /** Element row r at the x-th contributing batch position. */
  function Rows(b: Block, d: set<nat>, o: seq<nat>): (nat, nat) -> nat -> int
    requires |o| == |b.shape| >= 2 && Size(BatchRange(b, d)) > 0
  {
    (x: nat, r: nat) => (c: nat) => b.elem(BatchAt(b, d, o, x), r, c)
  }

  /** The reduction over all elements that agree with position (i, j) of tile `o` outside the reduced
      dimensions: every batch position, whole element rows and whole element columns of them. */
  function Reduced(b: Block, d: set<nat>, op: Op, o: seq<nat>, i: nat, j: nat): int
    requires Full(b) && |o| == |b.shape| && Size(BatchRange(b, d)) > 0 && b.TileH() >= 1 && b.TileW() >= 1
  {
    ElementWise(op, Size(BatchRange(b, d)), RowAxis(b, d, o), ColAxis(b, d, o), Rows(b, d, o), i, j)
  }

  predicate Cleared(b: Block, d: set<nat>, i: nat, j: nat)
    requires |b.shape| >= 2
  {
    (RowDim(b, d) && i > 0) || (ColDim(b, d) && j > 0)
  }

  ghost predicate Sizable(b: Block, d: set<nat>)
  {
    Full(b) && Size(BatchRange(b, d)) > 0 && Size(RangeShape(b.shape, d)) > 0 && b.TileH() >= 1 && b.TileW() >= 1
  }

  /** `r` is the reduction of `b` over `d`: the element-level values at index 0 of each collapsed tile
      dimension, zeros elsewhere. */
  ghost predicate IsReduction(b: Block, d: set<nat>, op: Op, r: Block)
  {
    && Sizable(b, d) && Full(r)
    && r.shape == ReducedShape(b.shape, d) && r.TileH() == b.TileH() && r.TileW() == b.TileW()
    && forall o: seq<nat>, i: nat, j: nat :: InBox(r.shape, o) && i < b.TileH() && j < b.TileW() ==>
         r.At(o, i, j) == if Cleared(b, d, i, j) then 0 else Reduced(b, d, op, o, i, j)
  }

  // ----- What the simulator computes -----

  /** The k-th contributing grid position of output tile `o`. */
  function InIdx(b: Block, d: set<nat>, o: seq<nat>, k: nat): (c: seq<nat>)
    requires |o| == |b.shape| && Size(RangeShape(b.shape, d)) > 0
    ensures |c| == |b.shape|
  {
    Mix(d, o, Unflat(RangeShape(b.shape, d), k))
  }

  /** Step 1: across the contributing tiles. */
  function Across(b: Block, d: set<nat>, op: Op, o: seq<nat>, i: nat, j: nat): int
    requires |o| == |b.shape| >= 2 && Size(RangeShape(b.shape, d)) > 0
  {
    Over(op, Size(RangeShape(b.shape, d)), (k: nat) => b.At(InIdx(b, d, o, k), i, j))
  }

  /** Step 2: within the tile, placed at index 0. */
  function WithinStep(rows: bool, cols: bool, op: Op, h: nat, w: nat, at: (nat, nat) -> int, i: nat, j: nat): int
    requires h >= 1 && w >= 1
  {
    if (rows && i > 0) || (cols && j > 0) then 0
    else if rows && cols then Over(op, h, (y: nat) => Over(op, w, Row(at, y)))
    else if cols then Over(op, w, Row(at, i))
    else if rows then Over(op, h, Col(at, j))
    else at(i, j)
  }

  function ApTiles(op: Op, x: Tile, y: Tile): Tile
  {
    Tile(x.h, x.w, (i: nat, j: nat) => op.Ap(x.at(i, j), y.at(i, j)))
  }

  function Collapse(t: Tile, rows: bool, cols: bool, op: Op): (r: Tile)
    requires t.h >= 1 && t.w >= 1
  {
    Tile(t.h, t.w, (i: nat, j: nat) => WithinStep(rows, cols, op, t.h, t.w, t.at, i, j))
  }

  lemma AlwaysSizable(b: Block, d: set<nat>)
    requires Full(b)
    ensures Sizable(b, d)
  {
    SizePositive(b.shape);
    SizePositive(RangeShape(b.shape, d));
    SizePositive(BatchRange(b, d));
    WithinTile(b, 0, 0);
  }

  /** A contributing position lies in the block's grid. */
  lemma InIdxInBox(b: Block, d: set<nat>, o: seq<nat>, k: nat)
    requires InBox(ReducedShape(b.shape, d), o) && k < Size(RangeShape(b.shape, d))
    ensures InBox(b.shape, InIdx(b, d, o, k))
  {
    FlatOfUnflat(RangeShape(b.shape, d), k);
  }

  /** One output tile: gather the contributing tiles, combine them, collapse the tile dimensions. */
  method ReduceTile(b: Block, tiles: seq<Tile>, d: set<nat>, op: Op, o: seq<nat>) returns (t: Tile)
    requires Sizable(b, d) && IsSplit(b, tiles) && InBox(ReducedShape(b.shape, d), o)
    ensures t.h == b.TileH() && t.w == b.TileW()
    ensures forall i: nat, j: nat :: !Cleared(b, d, i, j) ==> t.at(i, j) == Reduced(b, d, op, o, i, j)
    ensures forall i: nat, j: nat :: Cleared(b, d, i, j) ==> t.at(i, j) == 0
  {
    var ranges := AllCoords(RangeShape(b.shape, d));
    AllCoordsSize(RangeShape(b.shape, d));
    var acc := FirstTile(b, tiles, d, op, o, ranges);
    for k := 1 to |ranges|
      invariant acc.h == b.TileH() && acc.w == b.TileW()
      invariant forall i: nat, j: nat :: acc.at(i, j) == Over(op, k, (m: nat) => b.At(InIdx(b, d, o, m), i, j))
    {
      ListedAt(RangeShape(b.shape, d), k);
      InIdxInBox(b, d, o, k);
      acc := ApTiles(op, acc, tiles[Flat(b.shape, Mix(d, o, ranges[k]))]);
    }
    t := Collapse(acc, RowDim(b, d), ColDim(b, d), op);
    forall i: nat, j: nat
      ensures acc.at(i, j) == Across(b, d, op, o, i, j)
    {
    }
    forall i: nat, j: nat | !Cleared(b, d, i, j)
      ensures t.at(i, j) == Reduced(b, d, op, o, i, j)
    {
      TwoStepsAreOne(b, d, op, o, i, j, acc.at);
    }
  }

  method FirstTile(b: Block, tiles: seq<Tile>, d: set<nat>, op: Op, o: seq<nat>, ranges: seq<seq<nat>>)
    returns (t: Tile)
    requires Sizable(b, d) && IsSplit(b, tiles) && InBox(ReducedShape(b.shape, d), o)
    requires ranges == AllCoords(RangeShape(b.shape, d))
    ensures t.h == b.TileH() && t.w == b.TileW()
    ensures forall i: nat, j: nat :: t.at(i, j) == Over(op, 1, (m: nat) => b.At(InIdx(b, d, o, m), i, j))
  {
    ListedAt(RangeShape(b.shape, d), 0);
    InIdxInBox(b, d, o, 0);
    t := tiles[Flat(b.shape, Mix(d, o, ranges[0]))];
  }

  // ----- Two steps are one reduction -----

  lemma Sizes(b: Block, d: set<nat>, o: seq<nat>)
    requires Sizable(b, d) && |o| == |b.shape|
    ensures var (rm, rk) := (RowAxis(b, d, o).Count(), ColAxis(b, d, o).Count());
            && rm >= 1 && rk >= 1
            && RangeShape(b.shape, d) == BatchRange(b, d) + [rm, rk]
            && Size(RangeShape(b.shape, d)) == Size(BatchRange(b, d)) * (rm * rk)
  {
    var tail := [RowAxis(b, d, o).Count(), ColAxis(b, d, o).Count()];
    assert RangeShape(b.shape, d) == BatchRange(b, d) + tail;
    SizeAppend(BatchRange(b, d), tail);
    SizeTwo(tail[0], tail[1]);
  }

  /** Contributing tile k of batch position x. */
  function TileNumber(b: Block, d: set<nat>, o: seq<nat>, x: nat, k: nat): nat
    requires |o| == |b.shape| >= 2
  {
    Index(x, RowAxis(b, d, o).Count() * ColAxis(b, d, o).Count(), k)
  }

  /** Step 1 of one tile row at batch position x. */
  function TileRow(b: Block, d: set<nat>, op: Op, o: seq<nat>, i: nat, j: nat, x: nat): nat -> int
    requires |o| == |b.shape| >= 2 && Size(BatchRange(b, d)) > 0 && ColAxis(b, d, o).Valid()
  {
    (y: nat) => AcrossTiles(op, ColAxis(b, d, o), Rows(b, d, o)(x, RowAxis(b, d, o).Elem(y, i)), j)
  }

  lemma ContributionIndex(b: Block, d: set<nat>, o: seq<nat>, x: nat, y: nat, z: nat)
    requires Sizable(b, d) && |o| == |b.shape|
    requires x < Size(BatchRange(b, d)) && y < RowAxis(b, d, o).Count() && z < ColAxis(b, d, o).Count()
    ensures Unflat(RangeShape(b.shape, d), TileNumber(b, d, o, x, Index(y, ColAxis(b, d, o).Count(), z)))
         == Unflat(BatchRange(b, d), x) + [y, z]
  {
    hide Flat, Unflat, Size;
    Sizes(b, d, o);
    var (rm, rk) := (RowAxis(b, d, o).Count(), ColAxis(b, d, o).Count());
    var bc := Unflat(BatchRange(b, d), x);
    FlatOfUnflat(BatchRange(b, d), x);
    FlatAppend(BatchRange(b, d), [rm, rk], bc, [y, z]);
    SizeTwo(rm, rk);
    FlatTwo(rm, rk, y, z);
    UnflatOfFlat(RangeShape(b.shape, d), bc + [y, z]);
  }

  /** The contributing tile number (x, y, z): batch position x, tile row y, tile column z. */
  lemma Contribution(b: Block, d: set<nat>, o: seq<nat>, x: nat, y: nat, z: nat, i: nat, j: nat)
    requires Sizable(b, d) && InBox(ReducedShape(b.shape, d), o)
    requires x < Size(BatchRange(b, d)) && y < RowAxis(b, d, o).Count() && z < ColAxis(b, d, o).Count()
    ensures b.At(InIdx(b, d, o, TileNumber(b, d, o, x, Index(y, ColAxis(b, d, o).Count(), z))), i, j)
         == Rows(b, d, o)(x, RowAxis(b, d, o).Elem(y, i))(ColAxis(b, d, o).Elem(z, j))
  {
    hide Flat, Unflat, Size;
    ContributionIndex(b, d, o, x, y, z);
    var bc := Unflat(BatchRange(b, d), x);
    var m := Mix(d, o, bc + [y, z]);
    assert m[..|o| - 2] == BatchAt(b, d, o, x);
    assert m[|o| - 2] == if RowDim(b, d) then y else o[|o| - 2];
    assert m[|o| - 1] == if ColDim(b, d) then z else o[|o| - 1];
  }

  lemma AcrossNests(b: Block, d: set<nat>, op: Op, o: seq<nat>, i: nat, j: nat)
    requires Sizable(b, d) && InBox(ReducedShape(b.shape, d), o)
    ensures Across(b, d, op, o, i, j)
         == AcrossGrid(op, Size(BatchRange(b, d)), RowAxis(b, d, o), ColAxis(b, d, o), Rows(b, d, o), i, j)
  {
    Sizes(b, d, o);
    var (rows, cols) := (RowAxis(b, d, o), ColAxis(b, d, o));
    var (n, rm, rk) := (Size(BatchRange(b, d)), rows.Count(), cols.Count());
    var f := (k: nat) => b.At(InIdx(b, d, o, k), i, j);
    var g := (x: nat, k: nat) => f(Index(x, rm * rk, k));
    var groups := (x: nat) => Over(op, rm, (y: nat) => AcrossTiles(op, cols, Rows(b, d, o)(x, rows.Elem(y, i)), j));
    PositiveProduct(rm, rk);
    forall x: nat | x < n
      ensures groups(x) == Over(op, rm * rk, Row(g, x))
    {
      BatchGroup(b, d, op, o, i, j, x, Row(g, x));
    }
    OverFuse(op, n, rm * rk, f, groups, g);
  }

  lemma PositiveProduct(a: nat, b: nat)
    requires a >= 1 && b >= 1
    ensures a * b >= 1
  {
  }

  lemma BatchGroup(b: Block, d: set<nat>, op: Op, o: seq<nat>, i: nat, j: nat, x: nat, f: nat -> int)
    requires Sizable(b, d) && InBox(ReducedShape(b.shape, d), o) && x < Size(BatchRange(b, d))
    requires RowAxis(b, d, o).Count() >= 1 && ColAxis(b, d, o).Count() >= 1
    requires RowAxis(b, d, o).Count() * ColAxis(b, d, o).Count() >= 1
    requires forall k: nat :: f(k) ==
              b.At(InIdx(b, d, o, TileNumber(b, d, o, x, k)), i, j)
    ensures Over(op, RowAxis(b, d, o).Count(), TileRow(b, d, op, o, i, j, x))
         == Over(op, RowAxis(b, d, o).Count() * ColAxis(b, d, o).Count(), f)
  {
    var (rows, cols) := (RowAxis(b, d, o), ColAxis(b, d, o));
    var (rm, rk) := (rows.Count(), cols.Count());
    var g := (y: nat, z: nat) => f(Index(y, rk, z));
    var groups := TileRow(b, d, op, o, i, j, x);
    forall y: nat | y < rm
      ensures groups(y) == Over(op, rk, Row(g, y))
    {
      TileGroup(b, d, op, o, i, j, x, y, Row(g, y));
    }
    OverFuse(op, rm, rk, f, groups, g);
  }

  lemma TileGroup(b: Block, d: set<nat>, op: Op, o: seq<nat>, i: nat, j: nat, x: nat, y: nat, f: nat -> int)
    requires Sizable(b, d) && InBox(ReducedShape(b.shape, d), o)
    requires x < Size(BatchRange(b, d)) && y < RowAxis(b, d, o).Count()
    requires ColAxis(b, d, o).Count() >= 1
    requires forall z: nat :: f(z) ==
              b.At(InIdx(b, d, o, TileNumber(b, d, o, x, Index(y, ColAxis(b, d, o).Count(), z))), i, j)
    ensures AcrossTiles(op, ColAxis(b, d, o), Rows(b, d, o)(x, RowAxis(b, d, o).Elem(y, i)), j) ==
              Over(op, ColAxis(b, d, o).Count(), f)
  {
    var (rows, cols) := (RowAxis(b, d, o), ColAxis(b, d, o));
    var row := Rows(b, d, o)(x, rows.Elem(y, i));
    forall z: nat | z < cols.Count()
      ensures f(z) == row(cols.Elem(z, j))
    {
      Contribution(b, d, o, x, y, z, i, j);
    }
    OverCongruent(op, cols.Count(), f, (z: nat) => row(cols.Elem(z, j)));
  }

  /** The simulator's two steps compute the element-level reduction. */
  lemma TwoStepsAreOne(b: Block, d: set<nat>, op: Op, o: seq<nat>, i: nat, j: nat, at: (nat, nat) -> int)
    requires Sizable(b, d) && InBox(ReducedShape(b.shape, d), o) && !Cleared(b, d, i, j)
    requires forall y: nat, x: nat :: at(y, x) == Across(b, d, op, o, y, x)
    ensures WithinStep(RowDim(b, d), ColDim(b, d), op, b.TileH(), b.TileW(), at, i, j) == Reduced(b, d, op, o, i, j)
  {
    var (rows, cols) := (RowAxis(b, d, o), ColAxis(b, d, o));
    SizePositive(b.shape);
    forall y: nat, x: nat
      ensures at(y, x) == AcrossGrid(op, Size(BatchRange(b, d)), rows, cols, Rows(b, d, o), y, x)
    {
      AcrossNests(b, d, op, o, y, x);
    }
    TwoSteps(op, Size(BatchRange(b, d)), rows, cols, Rows(b, d, o), i, j, at);
    StepIsCollapse(op, rows, cols, at, i, j);
  }

  lemma StepIsCollapse(op: Op, rows: Axis, cols: Axis, at: (nat, nat) -> int, i: nat, j: nat)
    requires rows.Valid() && cols.Valid() && !(rows.all && i > 0) && !(cols.all && j > 0)
    ensures WithinStep(rows.all, cols.all, op, rows.size, cols.size, at, i, j)
         == Collapsed(op, rows, (y: nat) => Collapsed(op, cols, Row(at, y), j), i)
  {
    var whole := (y: nat) => Collapsed(op, cols, Row(at, y), j);
    if rows.all {
      if cols.all {
        OverCongruent(op, rows.size, whole, (y: nat) => Over(op, cols.size, Row(at, y)));
      } else {
        OverCongruent(op, rows.size, whole, Col(at, j));
      }
    }
  }

  predicate CanReduce(b: Block, dims: seq<int>, shape: seq<nat>)
    requires |b.shape| >= 2
  {
    && dims != [] && DimsInRange(dims, |b.shape|)
    && shape == ReducedShape(b.shape, Internal(dims, |b.shape|))
  }

  /** `_reduce_impl` behind `reduce_sum` and `reduce_max`; None is its ValueError. */
  method ReduceBlock(b: Block, dims: seq<int>, shape: seq<nat>, op: Op) returns (r: Option<Block>)
    requires Full(b)
    ensures r.Some? <==> CanReduce(b, dims, shape)
    ensures r.Some? ==> IsReduction(b, Internal(dims, |b.shape|), op, r.value)
  {
    if dims == [] || |shape| != |b.shape| || !DimsInRange(dims, |b.shape|) {
      return None;
    }
    var d := Internal(dims, |b.shape|);
    if shape != ReducedShape(b.shape, d) {
      return None;
    }
    var tiles := ToList(b);
    AlwaysSizable(b, d);
    var results := ReduceTiles(b, tiles, d, op);
    SizePositive(b.shape);
    SizePositive(shape);
    AllCoordsSize(shape);
    ReductionAssembled(b, d, op, results);
    r := FromList(results, shape);
  }

  /** The output tiles, in row-major order of the result shape. */
  method ReduceTiles(b: Block, tiles: seq<Tile>, d: set<nat>, op: Op) returns (results: seq<Tile>)
    requires Sizable(b, d) && IsSplit(b, tiles)
    ensures |results| == |AllCoords(ReducedShape(b.shape, d))|
    ensures forall m: nat :: m < |results| ==>
              IsReducedTile(b, d, op, AllCoords(ReducedShape(b.shape, d))[m], results[m])
  {
    hide Reduced, Flat, Unflat, IsSplit, Sizable;
    var shape := ReducedShape(b.shape, d);
    var outs := AllCoords(shape);
    AllCoordsSize(shape);
    results := [];
    for k := 0 to |outs|
      invariant |results| == k
      invariant forall m: nat :: m < k ==> IsReducedTile(b, d, op, outs[m], results[m])
    {
      ListedAt(shape, k);
      FlatOfUnflat(shape, k);
      var t := ReduceTile(b, tiles, d, op, outs[k]);
      assert IsReducedTile(b, d, op, outs[k], t);
      results := results + [t];
    }
  }

  ghost predicate IsReducedTile(b: Block, d: set<nat>, op: Op, o: seq<nat>, t: Tile)
  {
    && Sizable(b, d) && |o| == |b.shape| && t.h == b.TileH() && t.w == b.TileW()
    && forall i: nat, j: nat :: t.at(i, j) == if Cleared(b, d, i, j) then 0 else Reduced(b, d, op, o, i, j)
  }

  lemma ReductionAssembled(b: Block, d: set<nat>, op: Op, results: seq<Tile>)
    requires Sizable(b, d) && |results| == Size(ReducedShape(b.shape, d)) == |AllCoords(ReducedShape(b.shape, d))| >= 1
    requires forall m: nat :: m < |results| ==>
               IsReducedTile(b, d, op, AllCoords(ReducedShape(b.shape, d))[m], results[m])
    ensures FromList(results, ReducedShape(b.shape, d)).Some?
    ensures IsReduction(b, d, op, FromList(results, ReducedShape(b.shape, d)).value)
  {
    var shape := ReducedShape(b.shape, d);
    assert Uniform(results);
    AssembledDims(results, shape);
    var r := FromList(results, shape).value;
    PositiveProduct(r.TileRows(), r.TileH());
    PositiveProduct(r.TileCols(), r.TileW());
    forall o: seq<nat>, i: nat, j: nat | InBox(shape, o) && i < b.TileH() && j < b.TileW()
      ensures r.At(o, i, j) == if Cleared(b, d, i, j) then 0 else Reduced(b, d, op, o, i, j)
    {
      AllCoordsAt(shape, o);
      AssembledAt(results, shape, o, i, j);
      assert IsReducedTile(b, d, op, AllCoords(shape)[Flat(shape, o)], results[Flat(shape, o)]);
    }
  }
}
