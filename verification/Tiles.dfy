/** Tiled blocks: split and assemble (python/sim/dfb.py) and transpose (python/sim/block.py). */
module Tiles {
  import opened Arith
  import opened Wrappers
  import opened Coords

  datatype Tile = Tile(h: nat, w: nat, at: (nat, nat) -> int)

  /** A tile-layout block: the grid shape, whose last two dimensions count tiles, and the element
      tensor, indexed by batch coordinates, row and column. */
  datatype Block = Block(shape: seq<nat>, h: nat, w: nat, elem: (seq<nat>, nat, nat) -> int) {
    /** Element dims are whole multiples of the tile grid. */
    ghost predicate Aligned()
    {
      |shape| >= 2 && Size(shape) > 0 && TileRows() > 0 && TileCols() > 0 && h % TileRows() == 0 && w % TileCols() == 0
    }

    function Batch(): seq<nat>
      requires |shape| >= 2
    {
      shape[..|shape| - 2]
    }

    function TileRows(): nat
      requires |shape| >= 2
    {
      shape[|shape| - 2]
    }

    function TileCols(): nat
      requires |shape| >= 2
    {
      shape[|shape| - 1]
    }

    function TileH(): nat
      requires |shape| >= 2
    {
      if TileRows() > 0 then h / TileRows() else 1
    }

    function TileW(): nat
      requires |shape| >= 2
    {
      if TileCols() > 0 then w / TileCols() else 1
    }

    /** Element (i, j) of the tile at grid position `c`. */
    function At(c: seq<nat>, i: nat, j: nat): int
      requires |c| == |shape| >= 2
    {
      elem(c[..|c| - 2], c[|c| - 2] * TileH() + i, c[|c| - 1] * TileW() + j)
    }

    predicate Has(bc: seq<nat>, r: nat, c: nat)
      requires |shape| >= 2
    {
      InBox(Batch(), bc) && r < h && c < w
    }
  }

  ghost predicate SameBlock(x: Block, y: Block)
  {
    && x.shape == y.shape && |x.shape| >= 2 && x.h == y.h && x.w == y.w
    && forall bc: seq<nat>, r: nat, c: nat :: x.Has(bc, r, c) ==> x.elem(bc, r, c) == y.elem(bc, r, c)
  }

  ghost predicate SameTile(x: Tile, y: Tile)
  {
    x.h == y.h && x.w == y.w && forall i: nat, j: nat :: i < x.h && j < x.w ==> x.at(i, j) == y.at(i, j)
  }

  function TileAt(b: Block, c: seq<nat>): Tile
    requires |c| == |b.shape| >= 2
  {
    Tile(b.TileH(), b.TileW(), (i: nat, j: nat) => b.At(c, i, j))
  }

  /** `tiles` are the tiles of `b`, row-major over its whole shape. */
  ghost predicate IsSplit(b: Block, tiles: seq<Tile>)
  {
    && |b.shape| >= 2 && |tiles| == Size(b.shape)
    && forall c: seq<nat> :: InBox(b.shape, c) ==>
         Flat(b.shape, c) < |tiles| && tiles[Flat(b.shape, c)] == TileAt(b, c)
  }

  method ToList(b: Block) returns (tiles: seq<Tile>)
    requires |b.shape| >= 2
    ensures IsSplit(b, tiles)
  {
    var cs := AllCoords(b.shape);
    AllCoordsSize(b.shape);
    CoordsLength(b.shape);
    tiles := [];
    for k := 0 to |cs|
      invariant |tiles| == k
      invariant forall m :: 0 <= m < k ==> |cs[m]| == |b.shape| && tiles[m] == TileAt(b, cs[m])
    {
      tiles := tiles + [TileAt(b, cs[k])];
    }
    forall c: seq<nat> | InBox(b.shape, c)
      ensures Flat(b.shape, c) < |tiles| && tiles[Flat(b.shape, c)] == TileAt(b, c)
    {
      AllCoordsAt(b.shape, c);
    }
  }

  predicate Uniform(tiles: seq<Tile>)
  {
    forall k :: 0 <= k < |tiles| ==> tiles[k].h == tiles[0].h && tiles[k].w == tiles[0].w
  }

  /** Stack the tiles, reshape to (shape, h, w), move the tile rows next to the grid rows and fuse.
      None is torch refusing to stack or to reshape. */
  function FromList(tiles: seq<Tile>, shape: seq<nat>): (r: Option<Block>)
    requires |shape| >= 2
    ensures r.Some? <==> |tiles| > 0 && |tiles| == Size(shape) && Uniform(tiles)
  {
    if |tiles| == 0 || |tiles| != Size(shape) || !Uniform(tiles) then
      None
    else
      var (h, w) := (tiles[0].h, tiles[0].w);
      var (tm, tk) := (shape[|shape| - 2], shape[|shape| - 1]);
      Some(Block(shape, tm * h, tk * w, (bc: seq<nat>, r: nat, c: nat) => Assembled(tiles, shape, h, w, bc, r, c)))
  }

  /** The shape of the tile grid after its axes were permuted: grid row, tile row, grid column, tile column. */
  function SplitShape(shape: seq<nat>, h: nat, w: nat): seq<nat>
    requires |shape| >= 2
  {
    shape[..|shape| - 2] + [shape[|shape| - 2], h, shape[|shape| - 1], w]
  }

  function FusedShape(shape: seq<nat>, h: nat, w: nat): seq<nat>
    requires |shape| >= 2
  {
    shape[..|shape| - 2] + [shape[|shape| - 2] * h, shape[|shape| - 1] * w]
  }

  /** tile_grid.permute(...): element (y, u) of the stacked tile (bc, x, z). */
  function Permuted(tiles: seq<Tile>, shape: seq<nat>, d: seq<nat>): int
    requires |d| == |shape| + 2 >= 4
  {
    var n := |shape| - 2;
    var k := Flat(shape, d[..n] + [d[n], d[n + 2]]);
    if k < |tiles| then tiles[k].at(d[n + 1], d[n + 3]) else 0
  }

  /** The final reshape: each element keeps its row-major position. */
  function Assembled(tiles: seq<Tile>, shape: seq<nat>, h: nat, w: nat, bc: seq<nat>, r: nat, c: nat): int
  {
    if |shape| < 2 || |bc| + 2 != |shape| || Size(SplitShape(shape, h, w)) == 0 then
      0
    else
      Permuted(tiles, shape, Unflat(SplitShape(shape, h, w), Flat(FusedShape(shape, h, w), bc + [r, c])))
  }

  lemma AppendAgrees(batch: seq<nat>, p: seq<nat>, q: seq<nat>, bc: seq<nat>, x: seq<nat>, y: seq<nat>)
    requires |bc| == |batch| && |x| == |p| && |y| == |q| && Size(p) == Size(q) && Flat(p, x) == Flat(q, y)
    ensures Flat(batch + p, bc + x) == Flat(batch + q, bc + y)
  {
    FlatAppend(batch, p, bc, x);
    FlatAppend(batch, q, bc, y);
  }

  lemma FusedTail(tm: nat, h: nat, tk: nat, w: nat, x: nat, y: nat, z: nat, u: nat, r: nat, c: nat)
    requires r == x * h + y && c == z * w + u
    ensures Flat([tm * h, tk * w], [r, c]) == Flat([tm, h, tk, w], [x, y, z, u])
    ensures Size([tm * h, tk * w]) == Size([tm, h, tk, w])
  {
    SizeFour(tm, h, tk, w);
    SizeTwo(tm * h, tk * w);
    FlatTwo(tm * h, tk * w, r, c);
    FlatFour(tm, h, tk, w, x, y, z, u);
  }

  /** Why element (x * h + y, z * w + u) of the fused tensor is element (y, u) of tile (x, z): the final
      reshape keeps the row-major position. */
  lemma FusingIsReshaping(batch: seq<nat>, tm: nat, h: nat, tk: nat, w: nat, bc: seq<nat>,
                          x: nat, y: nat, z: nat, u: nat, fused: seq<nat>, split: seq<nat>)
    requires |bc| == |batch|
    requires fused == [x * h + y, z * w + u] && split == [x, y, z, u]
    ensures Flat(batch + [tm * h, tk * w], bc + fused) == Flat(batch + [tm, h, tk, w], bc + split)
  {
    FusedTail(tm, h, tk, w, x, y, z, u, x * h + y, z * w + u);
    AppendAgrees(batch, [tm * h, tk * w], [tm, h, tk, w], bc, fused, split);
  }

  lemma InSplitBox(shape: seq<nat>, h: nat, w: nat, bc: seq<nat>, x: nat, y: nat, z: nat, u: nat)
    requires |shape| >= 2 && |bc| + 2 == |shape| && InBox(shape, bc + [x, z]) && y < h && u < w
    ensures InBox(SplitShape(shape, h, w), bc + [x, y, z, u])
  {
    var e := bc + [x, z];
    assert forall i :: 0 <= i < |bc| ==> bc[i] == e[i] && e[i] < shape[i];
    assert e[|bc|] == x && e[|bc| + 1] == z;
  }

  lemma BackToSplit(shape: seq<nat>, h: nat, w: nat, bc: seq<nat>, x: nat, y: nat, z: nat, u: nat, fused: seq<nat>)
    requires |shape| >= 2 && |bc| + 2 == |shape| && InBox(shape, bc + [x, z]) && y < h && u < w
    requires fused == [x * h + y, z * w + u]
    ensures Size(SplitShape(shape, h, w)) > 0
    ensures Unflat(SplitShape(shape, h, w), Flat(FusedShape(shape, h, w), bc + fused)) == bc + [x, y, z, u]
  {
    var (n, split) := (|bc|, [x, y, z, u]);
    InSplitBox(shape, h, w, bc, x, y, z, u);
    UnflatOfFlat(SplitShape(shape, h, w), bc + split);
    hide Flat, Unflat, Size, InBox;
    FusingIsReshaping(shape[..n], shape[n], h, shape[n + 1], w, bc, x, y, z, u, fused, split);
  }

  lemma PermutedMeans(tiles: seq<Tile>, shape: seq<nat>, bc: seq<nat>, x: nat, y: nat, z: nat, u: nat)
    requires |shape| >= 2 && |bc| + 2 == |shape|
    ensures var k := Flat(shape, bc + [x, z]);
            k < |tiles| ==> Permuted(tiles, shape, bc + [x, y, z, u]) == tiles[k].at(y, u)
  {
    var (n, d) := (|bc|, bc + [x, y, z, u]);
    hide Flat;
    assert d[..n] + [d[n], d[n + 2]] == bc + [x, z];
  }

  lemma AssembledIs(tiles: seq<Tile>, shape: seq<nat>, h: nat, w: nat, bc: seq<nat>, r: nat, c: nat, d: seq<nat>)
    requires |shape| >= 2 && |bc| + 2 == |shape| && |d| == |shape| + 2 && Size(SplitShape(shape, h, w)) > 0
    requires Unflat(SplitShape(shape, h, w), Flat(FusedShape(shape, h, w), bc + [r, c])) == d
    ensures Assembled(tiles, shape, h, w, bc, r, c) == Permuted(tiles, shape, d)
  {
  }

  /** So element (r, c) of an assembled block is element (r % h, c % w) of tile (r / h, c / w). */
  lemma AssembledMeans(tiles: seq<Tile>, shape: seq<nat>, h: nat, w: nat, bc: seq<nat>, x: nat, y: nat, z: nat, u: nat)
    requires |shape| >= 2 && |bc| + 2 == |shape| && InBox(shape, bc + [x, z]) && y < h && u < w
    ensures var k := Flat(shape, bc + [x, z]);
            k < |tiles| ==> Assembled(tiles, shape, h, w, bc, x * h + y, z * w + u) == tiles[k].at(y, u)
  {
    hide *;
    var (r, c) := (x * h + y, z * w + u);
    BackToSplit(shape, h, w, bc, x, y, z, u, [r, c]);
    AssembledIs(tiles, shape, h, w, bc, r, c, bc + [x, y, z, u]);
    PermutedMeans(tiles, shape, bc, x, y, z, u);
  }

  lemma Position(y: nat, h: nat, i: nat)
    requires i < h
    ensures (y * h + i) / h == y && (y * h + i) % h == i
  {
    DivUnique(y * h + i, h, y, i);
  }

  lemma AssembledValue(tiles: seq<Tile>, shape: seq<nat>, h: nat, w: nat, c: seq<nat>, i: nat, j: nat)
    requires |shape| >= 2 && InBox(shape, c) && i < h && j < w && Flat(shape, c) < |tiles|
    ensures Assembled(tiles, shape, h, w, c[..|c| - 2], c[|c| - 2] * h + i, c[|c| - 1] * w + j)
         == tiles[Flat(shape, c)].at(i, j)
  {
    hide Flat, Assembled;
    assert c[..|c| - 2] + [c[|c| - 2], c[|c| - 1]] == c;
    AssembledMeans(tiles, shape, h, w, c[..|c| - 2], c[|c| - 2], i, c[|c| - 1], j);
  }

  lemma AssembledDims(tiles: seq<Tile>, shape: seq<nat>)
    requires |shape| >= 2 && FromList(tiles, shape).Some?
    ensures var b := FromList(tiles, shape).value;
            && b.shape == shape && b.Aligned() && b.TileH() == tiles[0].h && b.TileW() == tiles[0].w
            && b.h == b.TileRows() * tiles[0].h && b.w == b.TileCols() * tiles[0].w
  {
    var (tm, tk) := (shape[|shape| - 2], shape[|shape| - 1]);
    SizePositive(shape);
    ProductDivides(tiles[0].h, tm);
    ProductDivides(tiles[0].w, tk);
    assert tm * tiles[0].h == tiles[0].h * tm && tk * tiles[0].w == tiles[0].w * tk;
  }

  /** An assembled block has, at each grid position, the tile with that row-major index. */
  lemma AssembledAt(tiles: seq<Tile>, shape: seq<nat>, c: seq<nat>, i: nat, j: nat)
    requires |shape| >= 2 && InBox(shape, c) && FromList(tiles, shape).Some?
    requires i < tiles[0].h && j < tiles[0].w
    ensures Flat(shape, c) < |tiles| && FromList(tiles, shape).value.At(c, i, j) == tiles[Flat(shape, c)].at(i, j)
  {
    FlatBound(shape, c);
    AssembledDims(tiles, shape);
    AssembledValue(tiles, shape, tiles[0].h, tiles[0].w, c, i, j);
  }

  lemma SplitIsUniform(b: Block, tiles: seq<Tile>)
    requires b.Aligned() && IsSplit(b, tiles)
    ensures |tiles| > 0 && forall k :: 0 <= k < |tiles| ==> tiles[k].h == b.TileH() && tiles[k].w == b.TileW()
  {
    forall k | 0 <= k < |tiles|
      ensures tiles[k].h == b.TileH() && tiles[k].w == b.TileW()
    {
      FlatOfUnflat(b.shape, k);
      assert tiles[Flat(b.shape, Unflat(b.shape, k))] == TileAt(b, Unflat(b.shape, k));
    }
  }

  /** Splitting a block and assembling the tiles gives the block back, for any rank and tile size. */
  lemma RoundTrip(b: Block, tiles: seq<Tile>)
    requires b.Aligned() && IsSplit(b, tiles)
    ensures FromList(tiles, b.shape).Some? && SameBlock(FromList(tiles, b.shape).value, b)
  {
    SplitIsUniform(b, tiles);
    AssembledDims(tiles, b.shape);
    var r := FromList(tiles, b.shape).value;
    DimsMultiply(b);
    forall bc: seq<nat>, y: nat, x: nat | r.Has(bc, y, x)
      ensures r.elem(bc, y, x) == b.elem(bc, y, x)
    {
      AssembledElement(b, tiles, bc, y, x);
    }
  }

  lemma AssembledElement(b: Block, tiles: seq<Tile>, bc: seq<nat>, y: nat, x: nat)
    requires b.Aligned() && IsSplit(b, tiles) && b.Has(bc, y, x)
    requires |tiles| > 0 && tiles[0].h == b.TileH() && tiles[0].w == b.TileW()
    ensures Assembled(tiles, b.shape, tiles[0].h, tiles[0].w, bc, y, x) == b.elem(bc, y, x)
  {
    WithinTile(b, y, x);
    var c := bc + [y / b.TileH(), x / b.TileW()];
    BoxAppend(b.shape, bc, y / b.TileH(), x / b.TileW());
    FlatBound(b.shape, c);
    AssembledValue(tiles, b.shape, b.TileH(), b.TileW(), c, y % b.TileH(), x % b.TileW());
    assert c[..|c| - 2] == bc;
  }

  lemma BoxAppend(shape: seq<nat>, bc: seq<nat>, y: nat, x: nat)
    requires |shape| >= 2 && InBox(shape[..|shape| - 2], bc) && y < shape[|shape| - 2] && x < shape[|shape| - 1]
    ensures InBox(shape, bc + [y, x])
  {
    var c := bc + [y, x];
    assert forall i :: 0 <= i < |bc| ==> c[i] == bc[i] && shape[..|shape| - 2][i] == shape[i];
  }

  lemma DimsMultiply(b: Block)
    requires b.Aligned()
    ensures b.TileRows() * b.TileH() == b.h && b.TileCols() * b.TileW() == b.w
    ensures b.TileH() * b.TileRows() == b.h && b.TileW() * b.TileCols() == b.w
  {
    WholeParts(b.h, b.TileRows());
    WholeParts(b.w, b.TileCols());
  }

  lemma WholeParts(x: nat, n: nat)
    requires n >= 1 && x % n == 0
    ensures n * (x / n) == x && x / n * n == x
  {
  }

  /** Element (r, c) lies in one tile, at one place of it. */
  lemma WithinTile(b: Block, r: nat, c: nat)
    requires b.Aligned() && r < b.h && c < b.w
    ensures b.TileH() >= 1 && b.TileW() >= 1
    ensures r / b.TileH() < b.TileRows() && c / b.TileW() < b.TileCols()
    ensures r / b.TileH() * b.TileH() + r % b.TileH() == r && c / b.TileW() * b.TileW() + c % b.TileW() == c
  {
    DimsMultiply(b);
    assert b.TileH() >= 1 by { PositiveFactors(b.TileH(), b.TileRows()); }
    assert b.TileW() >= 1 by { PositiveFactors(b.TileW(), b.TileCols()); }
    QuotientBelow(r, b.TileRows(), b.TileH());
    QuotientBelow(c, b.TileCols(), b.TileW());
  }

  /** Assembling tiles and splitting the block gives the tiles back. */
  lemma RoundTripTiles(tiles: seq<Tile>, shape: seq<nat>, again: seq<Tile>, k: nat)
    requires |shape| >= 2 && FromList(tiles, shape).Some?
    requires IsSplit(FromList(tiles, shape).value, again) && k < |tiles|
    ensures |again| == |tiles| && SameTile(again[k], tiles[k])
  {
    var b := FromList(tiles, shape).value;
    var c := Unflat(shape, k);
    FlatOfUnflat(shape, k);
    AssembledDims(tiles, shape);
    assert again[Flat(shape, c)] == TileAt(b, c);
    forall i: nat, j: nat | i < tiles[k].h && j < tiles[k].w
      ensures again[k].at(i, j) == tiles[k].at(i, j)
    {
      TileAgain(tiles, shape, k, i, j);
    }
  }

  lemma TileAgain(tiles: seq<Tile>, shape: seq<nat>, k: nat, i: nat, j: nat)
    requires |shape| >= 2 && FromList(tiles, shape).Some? && k < |tiles| && i < tiles[k].h && j < tiles[k].w
    ensures FromList(tiles, shape).value.At(Unflat(shape, k), i, j) == tiles[k].at(i, j)
  {
    FlatOfUnflat(shape, k);
    AssembledAt(tiles, shape, Unflat(shape, k), i, j);
  }

  // ----- Transpose -----

  function Flip(t: Tile): Tile { Tile(t.w, t.h, (i: nat, j: nat) => t.at(j, i)) }

  /** `t` is the element-level transpose of the 2-D block `b`. */
  ghost predicate IsTranspose(b: Block, t: Block)
  {
    && |b.shape| == 2 && t.shape == [b.shape[1], b.shape[0]] && t.h == b.w && t.w == b.h
    && forall r: nat, c: nat :: r < t.h && c < t.w ==> t.elem([], r, c) == b.elem([], c, r)
  }

  method Transpose(b: Block) returns (r: Option<Block>)
    requires b.Aligned() && b.h >= 1 && b.w >= 1
    ensures r.Some? <==> |b.shape| == 2
    ensures r.Some? ==> r.value.Aligned() && IsTranspose(b, r.value)
  {
    if |b.shape| != 2 {
      return None;
    }
    var tiles := ToList(b);
    var (m, n) := (b.shape[0], b.shape[1]);
    SizeTwo(m, n);
    assert b.shape == [m, n];
    PositiveFactors(m, n);
    hide *;
    var reordered := [];
    for j := 0 to n
      invariant |reordered| == j * m
      invariant forall k: nat :: k < |reordered| ==> reordered[k] == FlippedAt(b, k)
    {
      reordered := ReorderColumn(b, tiles, j, reordered);
      NextLine(j, m);
    }
    TransposedList(b, reordered);
    r := FromList(reordered, [n, m]);
    TransposeFromList(b, reordered);
  }

  lemma NextLine(j: nat, m: nat)
    ensures j * m + m == (j + 1) * m
  {
  }

  /** The inner loop: the flipped tiles of column `j`. */
  method ReorderColumn(b: Block, tiles: seq<Tile>, j: nat, acc: seq<Tile>) returns (r: seq<Tile>)
    requires IsSplit(b, tiles) && |b.shape| == 2 && b.shape[0] >= 1 && j < b.shape[1]
    requires |acc| == j * b.shape[0] && forall k: nat :: k < |acc| ==> acc[k] == FlippedAt(b, k)
    ensures |r| == |acc| + b.shape[0] && forall k: nat :: k < |r| ==> r[k] == FlippedAt(b, k)
  {
    hide FlippedAt, IsSplit;
    r := acc;
    for i := 0 to b.shape[0]
      invariant |r| == |acc| + i && forall k: nat :: k < |r| ==> r[k] == FlippedAt(b, k)
    {
      FlippedTile(b, tiles, i, j);
      r := r + [Flip(tiles[i * b.shape[1] + j])];
    }
  }

  /** The k-th flipped tile of `b`, column by column. */
  function FlippedAt(b: Block, k: nat): Tile
    requires |b.shape| == 2 && b.shape[0] >= 1
  {
    Flip(TileAt(b, [k % b.shape[0], k / b.shape[0]]))
  }

  ghost predicate FlippedTiles(b: Block, tiles: seq<Tile>)
  {
    && |b.shape| == 2 && b.shape[0] >= 1 && |tiles| == b.shape[1] * b.shape[0]
    && forall k: nat :: k < |tiles| ==> tiles[k] == FlippedAt(b, k)
  }

  lemma FlippedTile(b: Block, tiles: seq<Tile>, i: nat, j: nat)
    requires IsSplit(b, tiles) && |b.shape| == 2 && i < b.shape[0] && j < b.shape[1]
    ensures i * b.shape[1] + j < |tiles| && Flip(tiles[i * b.shape[1] + j]) == FlippedAt(b, j * b.shape[0] + i)
  {
    FlatTwo(b.shape[0], b.shape[1], i, j);
    assert b.shape == [b.shape[0], b.shape[1]] && InBox(b.shape, [i, j]);
    assert tiles[Flat(b.shape, [i, j])] == TileAt(b, [i, j]);
    Position(j, b.shape[0], i);
  }

  lemma TransposedList(b: Block, tiles: seq<Tile>)
    requires b.Aligned() && FlippedTiles(b, tiles)
    ensures FromList(tiles, [b.shape[1], b.shape[0]]).Some? && tiles[0].h == b.TileW() && tiles[0].w == b.TileH()
  {
    var (m, n) := (b.shape[0], b.shape[1]);
    SizeTwo(n, m);
    SizeTwo(m, n);
    assert b.shape == [m, n];
    assert n * m == m * n;
  }

  lemma TransposeFromList(b: Block, tiles: seq<Tile>)
    requires b.Aligned() && FlippedTiles(b, tiles)
    ensures FromList(tiles, [b.shape[1], b.shape[0]]).Some?
    ensures var t := FromList(tiles, [b.shape[1], b.shape[0]]).value; t.Aligned() && IsTranspose(b, t)
  {
    TransposedList(b, tiles);
    AssembledDims(tiles, [b.shape[1], b.shape[0]]);
    var t := FromList(tiles, [b.shape[1], b.shape[0]]).value;
    DimsMultiply(b);
    forall r: nat, c: nat | r < t.h && c < t.w
      ensures t.elem([], r, c) == b.elem([], c, r)
    {
      TransposedElement(b, tiles, r, c);
    }
  }

  lemma TransposedElement(b: Block, tiles: seq<Tile>, r: nat, c: nat)
    requires b.Aligned() && FlippedTiles(b, tiles) && r < b.w && c < b.h
    ensures Assembled(tiles, [b.shape[1], b.shape[0]], b.TileW(), b.TileH(), [], r, c) == b.elem([], c, r)
  {
    var (m, n) := (b.shape[0], b.shape[1]);
    WithinTile(b, c, r);
    var (y, x) := (r / b.TileW(), c / b.TileH());
    FlatTwo(n, m, y, x);
    Below(y, x, n, m);
    Position(y, m, x);
    assert tiles[y * m + x] == Flip(TileAt(b, [x, y]));
    AssembledValue(tiles, [n, m], b.TileW(), b.TileH(), [y, x], r % b.TileW(), c % b.TileH());
    assert [y, x][..0] == [] && [x, y][..0] == [];
  }

  /** Transposing twice gives the block back. */
  method TransposeTwice(b: Block) returns (r: Block)
    requires b.Aligned() && b.h >= 1 && b.w >= 1 && |b.shape| == 2
    ensures SameBlock(r, b)
  {
    var t := Transpose(b);
    var u := Transpose(t.value);
    r := u.value;
    forall bc: seq<nat>, y: nat, x: nat | r.Has(bc, y, x)
      ensures r.elem(bc, y, x) == b.elem(bc, y, x)
    {
      assert bc == [];
      assert r.elem([], y, x) == t.value.elem([], x, y);
    }
  }

  // ----- One-dimensional blocks and row-major blocks -----

  /** A 1-D block is split into `tk` vectors of `len / tk` elements. Concatenating them gives back the
      elements those tiles cover: the whole block exactly when `tk` divides its length. */
  method VectorRoundTrip(v: seq<int>, tk: nat) returns (tiles: seq<seq<int>>, joined: seq<int>)
    requires tk >= 1
    ensures |tiles| == tk && forall c :: 0 <= c < tk ==> |tiles[c]| == |v| / tk
    ensures joined == v <==> |v| % tk == 0
  {
    var w := |v| / tk;
    tiles, joined := [], [];
    for c := 0 to tk
      invariant |tiles| == c && forall d :: 0 <= d < c ==> |tiles[d]| == w
      invariant c * w <= |v| && joined == v[..c * w]
    {
      VectorBound(c, w, tk, |v|);
      var tile := v[c * w..(c + 1) * w];
      tiles := tiles + [tile];
      joined := joined + tile;
    }
    assert |joined| == tk * w;
  }

  lemma VectorBound(c: nat, w: nat, tk: nat, n: nat)
    requires c < tk && w == n / tk
    ensures c * w <= (c + 1) * w <= n && (c + 1) * w == c * w + w
  {
    var rest := tk - (c + 1);
    assert rest * w >= 0;
    assert rest * w + (c + 1) * w == tk * w;
    assert tk * w <= n;
  }

  type RowVector = nat -> int

  /** Rows of a row-major block, one for each combination of the leading coordinates, and the block
      stacked back from them. */
  method RowMajorRoundTrip(elem: seq<nat> -> int, shape: seq<nat>) returns (rows: seq<RowVector>, back: seq<nat> -> int)
    requires |shape| >= 1
    ensures |rows| == Size(shape[..|shape| - 1])
    ensures forall c: seq<nat> :: InBox(shape, c) ==> back(c) == elem(c)
  {
    var lead := shape[..|shape| - 1];
    var cs := AllCoords(lead);
    AllCoordsSize(lead);
    CoordsLength(lead);
    rows := [];
    for k := 0 to |cs|
      invariant |rows| == k
      invariant forall m :: 0 <= m < k ==> rows[m] == RowAt(elem, cs[m])
    {
      rows := rows + [RowAt(elem, cs[k])];
    }
    back := (c: seq<nat>) => Stacked(rows, lead, c);
    forall c: seq<nat> | InBox(shape, c)
      ensures back(c) == elem(c)
    {
      var (head, last) := (c[..|c| - 1], c[|c| - 1]);
      assert InBox(lead, head);
      AllCoordsAt(lead, head);
      assert head + [last] == c;
      assert rows[Flat(lead, head)] == RowAt(elem, head);
    }
  }

  function RowAt(elem: seq<nat> -> int, head: seq<nat>): RowVector { (x: nat) => elem(head + [x]) }

  function Stacked(rows: seq<RowVector>, lead: seq<nat>, c: seq<nat>): int
  {
    if |c| != |lead| + 1 || Flat(lead, c[..|lead|]) >= |rows| then 0 else rows[Flat(lead, c[..|lead|])](c[|lead|])
  }
}
