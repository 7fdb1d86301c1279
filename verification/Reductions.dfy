/** What `reduce_sum` and `reduce_max` (python/sim/math.py) deliver, element by element: a sum and a maximum of
    exactly the elements that agree with the result's position outside the reduced dimensions. */
module Reductions {
  import opened Arith
  import opened Wrappers
  import opened Coords
  import opened Folds
  import opened Tiles
  import opened Reduce

  // ----- The two folds -----

  /** A maximum is at least every value and is one of them. */
  lemma {:induction false} OverMax(n: nat, f: nat -> int) returns (w: nat)
    requires n >= 1
    ensures forall k: nat :: k < n ==> f(k) <= Over(Max, n, f)
    ensures w < n && f(w) == Over(Max, n, f)
  {
    if n == 1 {
      w := 0;
    } else {
      w := OverMax(n - 1, f);
      if f(n - 1) > f(w) {
        w := n - 1;
      }
    }
  }

  /** A sum grows by what one of its values grows by. */
  lemma {:induction false} OverSum(n: nat, f: nat -> int, g: nat -> int, at: nat, delta: int)
    requires n >= 1 && forall k: nat :: k < n ==> g(k) == f(k) + if k == at then delta else 0
    ensures Over(Sum, n, g) == Over(Sum, n, f) + if at < n then delta else 0
  {
    if n > 1 {
      OverSum(n - 1, f, g, at, delta);
    }
  }

  // ----- One dimension, and both with a batch -----

  /** Element k contributes to position i. */
  predicate AxisHas(ax: Axis, i: nat, k: nat)
  {
    if ax.all then k < ax.tiles * ax.size else k == Index(ax.own, ax.size, i)
  }

  lemma AxisMax(ax: Axis, e: nat -> int, i: nat) returns (w: nat)
    requires ax.Valid()
    ensures forall k: nat :: AxisHas(ax, i, k) ==> e(k) <= AxisPart(Max, ax, e, i)
    ensures AxisHas(ax, i, w) && e(w) == AxisPart(Max, ax, e, i)
  {
    if ax.all {
      assert ax.tiles * ax.size >= 1;
      w := OverMax(ax.tiles * ax.size, e);
    } else {
      w := Index(ax.own, ax.size, i);
    }
  }

  lemma AxisSum(ax: Axis, e: nat -> int, e': nat -> int, i: nat, at: nat, delta: int)
    requires ax.Valid() && forall k: nat :: e'(k) == e(k) + if k == at then delta else 0
    ensures AxisPart(Sum, ax, e', i) == AxisPart(Sum, ax, e, i) + if AxisHas(ax, i, at) then delta else 0
  {
    if ax.all {
      assert ax.tiles * ax.size >= 1;
      OverSum(ax.tiles * ax.size, e, e', at, delta);
    }
  }

  /** Element (r, c) at batch position x contributes to position (i, j). */
  predicate GridHas(batch: nat, rows: Axis, cols: Axis, i: nat, j: nat, x: nat, r: nat, c: nat)
  {
    x < batch && AxisHas(rows, i, r) && AxisHas(cols, j, c)
  }

  lemma PlaneMax(rows: Axis, cols: Axis, e: (nat, nat) -> nat -> int, i: nat, j: nat, x: nat) returns (r: nat, c: nat)
    requires rows.Valid() && cols.Valid()
    ensures forall r: nat, c: nat {:trigger e(x, r)(c)} :: AxisHas(rows, i, r) && AxisHas(cols, j, c) ==>
              e(x, r)(c) <= AxisPart(Max, rows, ColumnPart(Max, cols, e, j, x), i)
    ensures AxisHas(rows, i, r) && AxisHas(cols, j, c)
    ensures e(x, r)(c) == AxisPart(Max, rows, ColumnPart(Max, cols, e, j, x), i)
  {
    var part := ColumnPart(Max, cols, e, j, x);
    r := AxisMax(rows, part, i);
    c := AxisMax(cols, e(x, r), j);
    forall r: nat, c: nat {:trigger e(x, r)(c)} | AxisHas(rows, i, r) && AxisHas(cols, j, c)
      ensures e(x, r)(c) <= AxisPart(Max, rows, part, i)
    {
      var w := AxisMax(cols, e(x, r), j);
      assert part(r) == AxisPart(Max, cols, e(x, r), j);
    }
  }

  lemma GridMax(batch: nat, rows: Axis, cols: Axis, e: (nat, nat) -> nat -> int, i: nat, j: nat)
    returns (x: nat, r: nat, c: nat)
    requires batch >= 1 && rows.Valid() && cols.Valid()
    ensures forall x: nat, r: nat, c: nat {:trigger e(x, r)(c)} :: GridHas(batch, rows, cols, i, j, x, r, c) ==>
              e(x, r)(c) <= ElementWise(Max, batch, rows, cols, e, i, j)
    ensures GridHas(batch, rows, cols, i, j, x, r, c)
    ensures e(x, r)(c) == ElementWise(Max, batch, rows, cols, e, i, j)
  {
    var plane := (x: nat) => AxisPart(Max, rows, ColumnPart(Max, cols, e, j, x), i);
    assert ElementWise(Max, batch, rows, cols, e, i, j) == Over(Max, batch, plane);
    x := OverMax(batch, plane);
    r, c := PlaneMax(rows, cols, e, i, j, x);
    forall x: nat, r: nat, c: nat {:trigger e(x, r)(c)} | GridHas(batch, rows, cols, i, j, x, r, c)
      ensures e(x, r)(c) <= ElementWise(Max, batch, rows, cols, e, i, j)
    {
      var r', c' := PlaneMax(rows, cols, e, i, j, x);
      assert e(x, r)(c) <= plane(x);
    }
  }

  lemma PlaneSum(rows: Axis, cols: Axis, e: (nat, nat) -> nat -> int, e': (nat, nat) -> nat -> int, i: nat, j: nat,
                 x: nat, here: bool, r0: nat, c0: nat, delta: int)
    requires rows.Valid() && cols.Valid()
    requires forall r: nat, c: nat {:trigger e(x, r)(c)} {:trigger e'(x, r)(c)} ::
               e'(x, r)(c) == e(x, r)(c) + if here && r == r0 && c == c0 then delta else 0
    ensures AxisPart(Sum, rows, ColumnPart(Sum, cols, e', j, x), i)
            == AxisPart(Sum, rows, ColumnPart(Sum, cols, e, j, x), i)
               + if here && AxisHas(rows, i, r0) && AxisHas(cols, j, c0) then delta else 0
  {
    var (part, part') := (ColumnPart(Sum, cols, e, j, x), ColumnPart(Sum, cols, e', j, x));
    var d := if here && AxisHas(cols, j, c0) then delta else 0;
    forall r: nat
      ensures part'(r) == part(r) + if r == r0 then d else 0
    {
      AxisSum(cols, e(x, r), e'(x, r), j, c0, if here && r == r0 then delta else 0);
    }
    AxisSum(rows, part, part', i, r0, d);
  }

  lemma GridSum(batch: nat, rows: Axis, cols: Axis, e: (nat, nat) -> nat -> int, e': (nat, nat) -> nat -> int,
                i: nat, j: nat, x0: nat, r0: nat, c0: nat, delta: int)
    requires batch >= 1 && rows.Valid() && cols.Valid()
    requires forall x: nat, r: nat, c: nat {:trigger e(x, r)(c)} {:trigger e'(x, r)(c)} :: x < batch ==>
               e'(x, r)(c) == e(x, r)(c) + if x == x0 && r == r0 && c == c0 then delta else 0
    ensures ElementWise(Sum, batch, rows, cols, e', i, j)
            == ElementWise(Sum, batch, rows, cols, e, i, j)
               + if GridHas(batch, rows, cols, i, j, x0, r0, c0) then delta else 0
  {
    var plane := (x: nat) => AxisPart(Sum, rows, ColumnPart(Sum, cols, e, j, x), i);
    var plane' := (x: nat) => AxisPart(Sum, rows, ColumnPart(Sum, cols, e', j, x), i);
    assert ElementWise(Sum, batch, rows, cols, e, i, j) == Over(Sum, batch, plane);
    assert ElementWise(Sum, batch, rows, cols, e', i, j) == Over(Sum, batch, plane');
    var d := if AxisHas(rows, i, r0) && AxisHas(cols, j, c0) then delta else 0;
    forall x: nat | x < batch
      ensures plane'(x) == plane(x) + if x == x0 then d else 0
    {
      PlaneSum(rows, cols, e, e', i, j, x, x == x0, r0, c0, delta);
    }
    OverSum(batch, plane, plane', x0, d);
  }

  // ----- Blocks -----

  /** Element (y, x) at batch position bc agrees with position (i, j) of tile `o` outside the reduced dimensions. */
  predicate Contributes(b: Block, d: set<nat>, o: seq<nat>, i: nat, j: nat, bc: seq<nat>, y: nat, x: nat)
    requires |o| == |b.shape| >= 2
  {
    && b.Has(bc, y, x)
    && (forall k :: 0 <= k < |bc| && k !in d ==> bc[k] == o[k])
    && (RowDim(b, d) || y == o[|o| - 2] * b.TileH() + i)
    && (ColDim(b, d) || x == o[|o| - 1] * b.TileW() + j)
  }

  /** The number of a batch position among the contributing ones. */
  function BatchIndex(b: Block, d: set<nat>, bc: seq<nat>): nat
    requires |b.shape| >= 2 && |bc| == |b.shape| - 2
  {
    Flat(BatchRange(b, d), seq(|bc|, k requires 0 <= k < |bc| => if k in d then bc[k] else 0))
  }

  lemma BatchIndexed(b: Block, d: set<nat>, o: seq<nat>, bc: seq<nat>)
    requires |o| == |b.shape| >= 2 && Size(BatchRange(b, d)) > 0 && InBox(b.Batch(), bc)
    requires forall k :: 0 <= k < |bc| && k !in d ==> bc[k] == o[k]
    ensures BatchIndex(b, d, bc) < Size(BatchRange(b, d)) && BatchAt(b, d, o, BatchIndex(b, d, bc)) == bc
  {
    var c := seq(|bc|, k requires 0 <= k < |bc| => if k in d then bc[k] else 0);
    assert InBox(BatchRange(b, d), c);
    UnflatOfFlat(BatchRange(b, d), c);
  }

  lemma BatchListed(b: Block, d: set<nat>, o: seq<nat>, x: nat)
    requires |o| == |b.shape| >= 2 && InBox(ReducedShape(b.shape, d), o) && x < Size(BatchRange(b, d))
    ensures InBox(b.Batch(), BatchAt(b, d, o, x))
    ensures forall k :: 0 <= k < |o| - 2 && k !in d ==> BatchAt(b, d, o, x)[k] == o[k]
    ensures BatchIndex(b, d, BatchAt(b, d, o, x)) == x
  {
    FlatOfUnflat(BatchRange(b, d), x);
    var (c, bc) := (Unflat(BatchRange(b, d), x), BatchAt(b, d, o, x));
    forall k | 0 <= k < |bc|
      ensures bc[k] < b.Batch()[k] && (k !in d ==> bc[k] == o[k] && c[k] == 0) && (k in d ==> bc[k] == c[k])
    {
      assert o[k] < ReducedShape(b.shape, d)[k];
    }
    assert seq(|bc|, k requires 0 <= k < |bc| => if k in d then bc[k] else 0) == c;
  }

  /** The contributing elements are those of the contributing positions. */
  lemma ContributesExactly(b: Block, d: set<nat>, o: seq<nat>, i: nat, j: nat, bc: seq<nat>, y: nat, x: nat)
    requires Sizable(b, d) && InBox(ReducedShape(b.shape, d), o) && i < b.TileH() && j < b.TileW()
    requires InBox(b.Batch(), bc)
    ensures Contributes(b, d, o, i, j, bc, y, x) <==>
              && GridHas(Size(BatchRange(b, d)), RowAxis(b, d, o), ColAxis(b, d, o), i, j, BatchIndex(b, d, bc), y, x)
              && BatchAt(b, d, o, BatchIndex(b, d, bc)) == bc
  {
    DimsMultiply(b);
    InTile(o[|o| - 2], b.TileRows(), b.TileH(), i, RowDim(b, d));
    InTile(o[|o| - 1], b.TileCols(), b.TileW(), j, ColDim(b, d));
    assert o[|o| - 2] < ReducedShape(b.shape, d)[|o| - 2] && o[|o| - 1] < ReducedShape(b.shape, d)[|o| - 1];
    if forall k :: 0 <= k < |bc| && k !in d ==> bc[k] == o[k] {
      BatchIndexed(b, d, o, bc);
    } else if BatchIndex(b, d, bc) < Size(BatchRange(b, d)) {
      BatchListed(b, d, o, BatchIndex(b, d, bc));
    }
  }

  /** An own position lies in the block. */
  lemma InTile(own: nat, tiles: nat, size: nat, i: nat, all: bool)
    requires i < size
    ensures Index(own, size, i) == own * size + i
    ensures own < tiles ==> own * size + i < tiles * size
  {
    if own < tiles {
      Below(own, i, tiles, size);
    }
  }

  /** A maximum reduction delivers, at every position that is not cleared, an element that contributes to it and
      that no contributing element exceeds. */
  lemma MaxIsGreatest(b: Block, d: set<nat>, r: Block, o: seq<nat>, i: nat, j: nat)
    returns (bc: seq<nat>, y: nat, x: nat)
    requires IsReduction(b, d, Max, r) && InBox(r.shape, o) && i < b.TileH() && j < b.TileW() && !Cleared(b, d, i, j)
    ensures Contributes(b, d, o, i, j, bc, y, x) && b.elem(bc, y, x) == r.At(o, i, j)
    ensures forall bc: seq<nat>, y: nat, x: nat :: Contributes(b, d, o, i, j, bc, y, x) ==>
              b.elem(bc, y, x) <= r.At(o, i, j)
  {
    var (batch, rows, cols, e) := (Size(BatchRange(b, d)), RowAxis(b, d, o), ColAxis(b, d, o), Rows(b, d, o));
    var n: nat;
    n, y, x := GridMax(batch, rows, cols, e, i, j);
    BatchListed(b, d, o, n);
    bc := BatchAt(b, d, o, n);
    ContributesExactly(b, d, o, i, j, bc, y, x);
    assert e(n, y)(x) == b.elem(bc, y, x);
    forall bc: seq<nat>, y: nat, x: nat | Contributes(b, d, o, i, j, bc, y, x)
      ensures b.elem(bc, y, x) <= r.At(o, i, j)
    {
      ContributesExactly(b, d, o, i, j, bc, y, x);
      assert e(BatchIndex(b, d, bc), y)(x) == b.elem(bc, y, x);
    }
  }

  /** `b'` is `b` with `delta` added to one element. */
  ghost predicate Raised(b: Block, b': Block, bc: seq<nat>, y: nat, x: nat, delta: int)
  {
    && |b.shape| >= 2 && b'.shape == b.shape && b'.h == b.h && b'.w == b.w && b.Has(bc, y, x)
    && forall bc': seq<nat>, y': nat, x': nat ::
         b'.elem(bc', y', x') == b.elem(bc', y', x') + if (bc', y', x') == (bc, y, x) then delta else 0
  }

  /** Raising one element raises a sum reduction by as much at the position the element contributes to, and nowhere
      else. */
  lemma SumFollows(b: Block, b': Block, d: set<nat>, r: Block, r': Block, o: seq<nat>, i: nat, j: nat,
                   bc: seq<nat>, y: nat, x: nat, delta: int)
    requires IsReduction(b, d, Sum, r) && IsReduction(b', d, Sum, r') && Raised(b, b', bc, y, x, delta)
    requires InBox(r.shape, o) && i < b.TileH() && j < b.TileW() && !Cleared(b, d, i, j)
    ensures r'.At(o, i, j) == r.At(o, i, j) + if Contributes(b, d, o, i, j, bc, y, x) then delta else 0
  {
    ReductionAt(b, d, Sum, r, o, i, j);
    ReductionAt(b', d, Sum, r', o, i, j);
    hide ElementWise, Reduced, Rows, GridHas;
    SumAt(b, b', d, o, i, j, bc, y, x, delta);
  }

  lemma SumAt(b: Block, b': Block, d: set<nat>, o: seq<nat>, i: nat, j: nat, bc: seq<nat>, y: nat, x: nat, delta: int)
    requires Sizable(b, d) && Raised(b, b', bc, y, x, delta)
    requires InBox(ReducedShape(b.shape, d), o) && i < b.TileH() && j < b.TileW()
    ensures BatchRange(b', d) == BatchRange(b, d) && RowAxis(b, d, o).Valid() && ColAxis(b, d, o).Valid()
    ensures ElementWise(Sum, Size(BatchRange(b, d)), RowAxis(b, d, o), ColAxis(b, d, o), Rows(b', d, o), i, j)
            == ElementWise(Sum, Size(BatchRange(b, d)), RowAxis(b, d, o), ColAxis(b, d, o), Rows(b, d, o), i, j)
               + if Contributes(b, d, o, i, j, bc, y, x) then delta else 0
  {
    var (batch, rows, cols) := (Size(BatchRange(b, d)), RowAxis(b, d, o), ColAxis(b, d, o));
    var n := BatchIndex(b, d, bc);
    ContributesExactly(b, d, o, i, j, bc, y, x);
    var here := n < batch && BatchAt(b, d, o, n) == bc;
    RowsRaised(b, b', d, o, bc, y, x, delta, here);
    hide Rows, Contributes, GridHas, ElementWise, BatchAt, BatchIndex;
    GridSum(batch, rows, cols, Rows(b, d, o), Rows(b', d, o), i, j, n, y, x, if here then delta else 0);
  }

  lemma ReductionAt(b: Block, d: set<nat>, op: Op, r: Block, o: seq<nat>, i: nat, j: nat)
    requires IsReduction(b, d, op, r) && InBox(r.shape, o) && i < b.TileH() && j < b.TileW() && !Cleared(b, d, i, j)
    ensures |o| == |b.shape| >= 2 && Size(BatchRange(b, d)) > 0 && RowAxis(b, d, o).Valid() && ColAxis(b, d, o).Valid()
    ensures r.At(o, i, j) ==
            ElementWise(op, Size(BatchRange(b, d)), RowAxis(b, d, o), ColAxis(b, d, o), Rows(b, d, o), i, j)
  {
  }

  /** Raising one element raises it where the contributing rows list it, if they do. */
  lemma RowsRaised(b: Block, b': Block, d: set<nat>, o: seq<nat>, bc: seq<nat>, y: nat, x: nat, delta: int, here: bool)
    requires |o| == |b.shape| >= 2 && Size(BatchRange(b, d)) > 0 && InBox(ReducedShape(b.shape, d), o)
    requires Raised(b, b', bc, y, x, delta)
    requires here <==> BatchIndex(b, d, bc) < Size(BatchRange(b, d)) && BatchAt(b, d, o, BatchIndex(b, d, bc)) == bc
    ensures BatchRange(b', d) == BatchRange(b, d)
    ensures forall k: nat, y': nat, x': nat {:trigger Rows(b, d, o)(k, y')(x')} {:trigger Rows(b', d, o)(k, y')(x')} ::
              k < Size(BatchRange(b, d)) ==>
                Rows(b', d, o)(k, y')(x') == Rows(b, d, o)(k, y')(x')
                  + if k == BatchIndex(b, d, bc) && y' == y && x' == x then (if here then delta else 0) else 0
  {
    assert BatchRange(b', d) == BatchRange(b, d);
    hide RangeShape, ReducedShape, InBox, Rows, Unflat;
    forall k: nat, y': nat, x': nat {:trigger Rows(b, d, o)(k, y')(x')} {:trigger Rows(b', d, o)(k, y')(x')}
      | k < Size(BatchRange(b, d))
      ensures Rows(b', d, o)(k, y')(x') == Rows(b, d, o)(k, y')(x')
                + if k == BatchIndex(b, d, bc) && y' == y && x' == x then (if here then delta else 0) else 0
    {
      BatchListed(b, d, o, k);
      RowsAt(b, d, o, k, y', x');
      RowsAt(b', d, o, k, y', x');
      assert BatchAt(b', d, o, k) == BatchAt(b, d, o, k);
    }
  }

  lemma RowsAt(b: Block, d: set<nat>, o: seq<nat>, k: nat, y: nat, x: nat)
    requires |o| == |b.shape| >= 2 && Size(BatchRange(b, d)) > 0
    ensures Rows(b, d, o)(k, y)(x) == b.elem(BatchAt(b, d, o, k), y, x)
  {
  }

  /** And the sum reduction of zeros is zero. */
  lemma SumOfZeros(b: Block, d: set<nat>, r: Block, o: seq<nat>, i: nat, j: nat)
    requires IsReduction(b, d, Sum, r) && InBox(r.shape, o) && i < b.TileH() && j < b.TileW()
    requires forall bc: seq<nat>, y: nat, x: nat :: b.elem(bc, y, x) == 0
    ensures r.At(o, i, j) == 0
  {
    forall k: nat, y: nat, x: nat
      ensures Rows(b, d, o)(k, y)(x) == 0
    {
      assert Rows(b, d, o)(k, y)(x) == b.elem(BatchAt(b, d, o, k), y, x);
    }
    GridZero(Size(BatchRange(b, d)), RowAxis(b, d, o), ColAxis(b, d, o), Rows(b, d, o), i, j);
  }

  lemma GridZero(batch: nat, rows: Axis, cols: Axis, e: (nat, nat) -> nat -> int, i: nat, j: nat)
    requires batch >= 1 && rows.Valid() && cols.Valid()
    requires forall x: nat, r: nat, c: nat :: e(x, r)(c) == 0
    ensures ElementWise(Sum, batch, rows, cols, e, i, j) == 0
  {
    var plane := (x: nat) => AxisPart(Sum, rows, ColumnPart(Sum, cols, e, j, x), i);
    assert ElementWise(Sum, batch, rows, cols, e, i, j) == Over(Sum, batch, plane);
    forall x: nat
      ensures plane(x) == 0
    {
      PlaneZero(rows, cols, e, i, j, x);
    }
    OverZero(Sum, batch, plane);
  }

  lemma PlaneZero(rows: Axis, cols: Axis, e: (nat, nat) -> nat -> int, i: nat, j: nat, x: nat)
    requires rows.Valid() && cols.Valid()
    requires forall r: nat, c: nat :: e(x, r)(c) == 0
    ensures AxisPart(Sum, rows, ColumnPart(Sum, cols, e, j, x), i) == 0
  {
    var part := ColumnPart(Sum, cols, e, j, x);
    forall r: nat
      ensures part(r) == 0
    {
      PartZero(cols, e(x, r), j);
    }
    PartZero(rows, part, i);
  }

  lemma PartZero(ax: Axis, e: nat -> int, i: nat)
    requires ax.Valid() && forall k: nat :: e(k) == 0
    ensures AxisPart(Sum, ax, e, i) == 0
  {
    if ax.all {
      assert ax.tiles * ax.size >= 1;
      OverZero(Sum, ax.tiles * ax.size, e);
    }
  }
}
