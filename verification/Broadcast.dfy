/** Broadcasts (python/sim/block.py), and the laws that tie reductions and broadcasts together. */
module Broadcast {
  import opened Arith
  import opened Wrappers
  import opened Coords
  import opened Folds
  import opened Tiles
  import opened Reduce

  // ----- Broadcast -----

  /** The checks of `broadcast`; a failing one is its ValueError. */
  predicate BroadcastOk(b: Block, dims: seq<int>, shape: seq<nat>)
  {
    && |b.shape| >= 2 && dims != [] && |shape| == |b.shape| && DimsInRange(dims, |b.shape|)
    && (forall i :: i in Internal(dims, |b.shape|) ==> i < |b.shape| && b.shape[i] == 1)
    && forall i: nat :: i < |shape| && i !in Internal(dims, |b.shape|) ==> b.shape[i] == shape[i]
  }

  /** torch `expand`: a dimension of size 1 is read at index 0. */
  function Expand(size: nat, i: nat): nat { if size == 1 then 0 else i }

  function ExpandAll(shape: seq<nat>, c: seq<nat>): (r: seq<nat>)
    requires |c| == |shape|
    ensures |r| == |c|
  {
    seq(|c|, i requires 0 <= i < |c| => Expand(shape[i], c[i]))
  }

  /** Step 1: every position of a tile takes row 0, column 0 or (0, 0) of it. */
  function Exposed(b: Block, d: set<nat>, bc: seq<nat>, tm: nat, i: nat, tk: nat, j: nat): int
    requires |b.shape| >= 2
  {
    b.elem(bc, Index(tm, b.TileH(), if RowDim(b, d) then 0 else i), Index(tk, b.TileW(), if ColDim(b, d) then 0 else j))
  }

  /** Step 2: tiles are replicated over the grid. */
  function Expanded(b: Block, d: set<nat>, bc: seq<nat>, r: nat, c: nat): int
    requires |b.shape| >= 2
  {
    var (h, w) := (b.TileH(), b.TileW());
    if h == 0 || w == 0 || |bc| + 2 != |b.shape| then 0
    else Exposed(b, d, ExpandAll(b.Batch(), bc), Expand(b.TileRows(), r / h), r % h, Expand(b.TileCols(), c / w), c % w)
  }

  function BroadcastBlock(b: Block, dims: seq<int>, shape: seq<nat>): (r: Option<Block>)
    ensures r.Some? <==> BroadcastOk(b, dims, shape)
  {
    if !BroadcastOk(b, dims, shape) then
      None
    else
      var d := Internal(dims, |b.shape|);
      Some(Block(shape, shape[|shape| - 2] * b.TileH(), shape[|shape| - 1] * b.TileW(),
                 (bc: seq<nat>, r: nat, c: nat) => Expanded(b, d, bc, r, c)))
  }

  function Pin(d: set<nat>, c: seq<nat>): (r: seq<nat>)
    ensures |r| == |c|
  {
    seq(|c|, i requires 0 <= i < |c| => if i in d then 0 else c[i])
  }

  /** A broadcast replicates element row 0 and element column 0 of the source along the broadcast tile
      dimensions, and batch position 0 along the others. */
  lemma BroadcastReplicates(b: Block, dims: seq<int>, shape: seq<nat>, bc: seq<nat>, r: nat, c: nat)
    requires Full(b) && BroadcastOk(b, dims, shape)
    requires BroadcastBlock(b, dims, shape).value.Has(bc, r, c)
    ensures var d := Internal(dims, |b.shape|);
            && BroadcastBlock(b, dims, shape).value.elem(bc, r, c)
            == b.elem(Pin(d, bc), if RowDim(b, d) then 0 else r, if ColDim(b, d) then 0 else c)
  {
    var d := Internal(dims, |b.shape|);
    WithinTile(b, 0, 0);
    assert ExpandAll(b.Batch(), bc) == Pin(d, bc);
    ReplicatedIndex(r, b.TileH(), b.TileRows(), RowDim(b, d));
    ReplicatedIndex(c, b.TileW(), b.TileCols(), ColDim(b, d));
    hide Index, Expand, RowDim, ColDim;
  }

  /** Along one tile dimension. */
  lemma ReplicatedIndex(r: nat, h: nat, tiles: nat, replicated: bool)
    requires h >= 1 && if replicated then tiles == 1 else r < tiles * h
    ensures Index(Expand(tiles, r / h), h, if replicated then 0 else r % h) == if replicated then 0 else r
  {
    if tiles == 1 && !replicated {
      QuotientBelow(r, 1, h);
    }
    KeptIndex(r, h, tiles);
  }

  lemma KeptIndex(r: nat, h: nat, tiles: nat)
    requires h >= 1
    ensures tiles == 1 ==> Index(Expand(tiles, r / h), h, 0) == 0
    ensures tiles != 1 || r / h == 0 ==> Index(Expand(tiles, r / h), h, r % h) == r
  {
  }

  // ----- Reducing and broadcasting -----

  /** Element (y, x) of a reduction, through its tile. */
  lemma ReductionElement(b: Block, d: set<nat>, op: Op, r: Block, bc: seq<nat>, y: nat, x: nat)
    requires IsReduction(b, d, op, r) && r.Has(bc, y, x)
    ensures InBox(r.shape, bc + [y / b.TileH(), x / b.TileW()])
    ensures r.elem(bc, y, x) == if Cleared(b, d, y % b.TileH(), x % b.TileW()) then 0
                                else Reduced(b, d, op, bc + [y / b.TileH(), x / b.TileW()],
                                             y % b.TileH(), x % b.TileW())
  {
    WithinTile(r, y, x);
    BoxAppend(r.shape, bc, y / b.TileH(), x / b.TileW());
    var o := bc + [y / b.TileH(), x / b.TileW()];
    assert o[..|o| - 2] == bc;
    assert r.At(o, y % b.TileH(), x % b.TileW()) == r.elem(bc, y, x);
  }

  /** Broadcasting a reduction back to the shape it came from gives every element the reduction over its
      own row, column and batch positions: none of the zeros around the seeds is left. */
  lemma ReduceThenBroadcast(b: Block, dims: seq<int>, op: Op, r: Block, bc: seq<nat>, y: nat, x: nat)
    requires Full(b) && dims != [] && DimsInRange(dims, |b.shape|) && IsReduction(b, Internal(dims, |b.shape|), op, r)
    requires b.Has(bc, y, x)
    ensures BroadcastOk(r, dims, b.shape)
    ensures var d := Internal(dims, |b.shape|);
            var o := Pin(d, bc + [y / b.TileH(), x / b.TileW()]);
            && BroadcastBlock(r, dims, b.shape).value.elem(bc, y, x)
            == Reduced(b, d, op, o, if RowDim(b, d) then 0 else y % b.TileH(),
                       if ColDim(b, d) then 0 else x % b.TileW())
  {
    var d := Internal(dims, |b.shape|);
    InternalInRange(dims, |b.shape|);
    assert BroadcastOk(r, dims, b.shape);
    var c := BroadcastBlock(r, dims, b.shape).value;
    WithinTile(b, y, x);
    DimsMultiply(b);
    BroadcastReplicates(r, dims, b.shape, bc, y, x);
    SeedElement(b, d, op, r, bc, y, x);
  }

  lemma InternalInRange(dims: seq<int>, n: nat)
    requires n >= 1
    ensures forall i :: i in Internal(dims, n) ==> i < n
  {
  }

  lemma SeedIndex(y: nat, h: nat, pinned: bool)
    requires h >= 1
    ensures (if pinned then 0 else y) / h == (if pinned then 0 else y / h)
    ensures (if pinned then 0 else y) % h == (if pinned then 0 else y % h)
  {
  }

  lemma SeedPosition(d: set<nat>, bc: seq<nat>, y: nat, x: nat, r: nat, c: nat)
    requires r == (if |bc| in d then 0 else y) && c == (if |bc| + 1 in d then 0 else x)
    ensures Pin(d, bc) + [r, c] == Pin(d, bc + [y, x])
  {
  }

  lemma SeedInside(b: Block, d: set<nat>, r: Block, bc: seq<nat>, y: nat, x: nat)
    requires Full(b) && Full(r) && r.shape == ReducedShape(b.shape, d) && b.Has(bc, y, x)
    requires r.TileH() == b.TileH() && r.TileW() == b.TileW()
    ensures r.Has(Pin(d, bc), if RowDim(b, d) then 0 else y, if ColDim(b, d) then 0 else x)
  {
    DimsMultiply(r);
    DimsMultiply(b);
    assert forall i :: 0 <= i < |bc| ==> bc[i] < b.Batch()[i] == b.shape[i];
  }

  /** The seed that element (y, x) of the broadcast is read from. */
  lemma SeedElement(b: Block, d: set<nat>, op: Op, r: Block, bc: seq<nat>, y: nat, x: nat)
    requires IsReduction(b, d, op, r) && b.Has(bc, y, x)
    ensures var o := Pin(d, bc + [y / b.TileH(), x / b.TileW()]);
            && r.elem(Pin(d, bc), if RowDim(b, d) then 0 else y, if ColDim(b, d) then 0 else x)
            == Reduced(b, d, op, o, if RowDim(b, d) then 0 else y % b.TileH(),
                       if ColDim(b, d) then 0 else x % b.TileW())
  {
    var (y', x') := (if RowDim(b, d) then 0 else y, if ColDim(b, d) then 0 else x);
    SeedInside(b, d, r, bc, y, x);
    SeedIndex(y, b.TileH(), RowDim(b, d));
    SeedIndex(x, b.TileW(), ColDim(b, d));
    SeedPosition(d, bc, y / b.TileH(), x / b.TileW(), y' / b.TileH(), x' / b.TileW());
    ReductionElement(b, d, op, r, Pin(d, bc), y', x');
    assert !Cleared(b, d, y' % b.TileH(), x' % b.TileW());
  }
}
