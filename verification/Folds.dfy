/** Reductions over index ranges with the two operators of `reduce_sum` and `reduce_max`. */
module Folds {
  import opened Arith

  datatype Op = Sum | Max {
    function Ap(x: int, y: int): int
    {
      match this
      case Sum => x + y
      case Max => if x >= y then x else y
    }
  }

  /** f(0) op f(1) op .. op f(n - 1) */
  function Over(op: Op, n: nat, f: nat -> int): int
    requires n >= 1
  {
    if n == 1 then f(0) else op.Ap(Over(op, n - 1, f), f(n - 1))
  }

  lemma {:induction false} OverCongruent(op: Op, n: nat, f: nat -> int, g: nat -> int)
    requires n >= 1 && forall k: nat :: k < n ==> f(k) == g(k)
    ensures Over(op, n, f) == Over(op, n, g)
  {
    if n > 1 {
      OverCongruent(op, n - 1, f, g);
    }
  }

  lemma {:induction false} OverZero(op: Op, n: nat, f: nat -> int)
    requires n >= 1 && forall k: nat :: k < n ==> f(k) == 0
    ensures Over(op, n, f) == 0
  {
    if n > 1 {
      OverZero(op, n - 1, f);
    }
  }

  lemma {:induction false} OverPointwise(op: Op, n: nat, f: nat -> int, g: nat -> int, h: nat -> int)
    requires n >= 1 && forall k: nat :: k < n ==> h(k) == op.Ap(f(k), g(k))
    ensures Over(op, n, h) == op.Ap(Over(op, n, f), Over(op, n, g))
  {
    if n > 1 {
      OverPointwise(op, n - 1, f, g, h);
    }
  }

  lemma {:induction false} OverAppend(op: Op, m: nat, n: nat, f: nat -> int, g: nat -> int)
    requires m >= 1 && n >= 1 && forall k: nat :: k < n ==> g(k) == f(m + k)
    ensures Over(op, m + n, f) == op.Ap(Over(op, m, f), Over(op, n, g))
  {
    if n > 1 {
      OverAppend(op, m, n - 1, f, g);
      assert m + n - 1 == m + (n - 1);
    }
    assert g(n - 1) == f(m + (n - 1));
  }

  function Row(g: (nat, nat) -> int, t: nat): nat -> int { (i: nat) => g(t, i) }

  function Col(g: (nat, nat) -> int, i: nat): nat -> int { (t: nat) => g(t, i) }

  /** The order of two nested reductions does not matter. */
  lemma {:induction false} OverSwap(op: Op, p: nat, q: nat, g: (nat, nat) -> int, rows: nat -> int, cols: nat -> int)
    requires p >= 1 && q >= 1
    requires forall t: nat :: t < p ==> rows(t) == Over(op, q, Row(g, t))
    requires forall i: nat :: i < q ==> cols(i) == Over(op, p, Col(g, i))
    ensures Over(op, p, rows) == Over(op, q, cols)
  {
    if p == 1 {
      forall i: nat | i < q
        ensures cols(i) == Row(g, 0)(i)
      {
        assert cols(i) == Col(g, i)(0);
      }
      OverCongruent(op, q, cols, Row(g, 0));
    } else {
      var rest := (i: nat) => Over(op, p - 1, Col(g, i));
      OverSwap(op, p - 1, q, g, rows, rest);
      forall i: nat | i < q
        ensures cols(i) == op.Ap(rest(i), Row(g, p - 1)(i))
      {
        assert Col(g, i)(p - 1) == Row(g, p - 1)(i);
      }
      OverPointwise(op, q, rest, Row(g, p - 1), cols);
    }
  }

  function Index(t: nat, q: nat, i: nat): nat { t * q + i }

  lemma LastGroup(op: Op, p: nat, q: nat, f: nat -> int, g: (nat, nat) -> int)
    requires p >= 2 && q >= 1
    requires forall i: nat {:trigger g(p - 1, i)} :: i < q ==> g(p - 1, i) == f(Index(p - 1, q, i))
    ensures (p - 1) * q >= 1 && p * q >= 1
    ensures Over(op, p * q, f) == op.Ap(Over(op, (p - 1) * q, f), Over(op, q, Row(g, p - 1)))
  {
    var m := (p - 1) * q;
    assert p * q == m + q && m >= 1 by { assert m >= q; }
    forall i: nat {:trigger g(p - 1, i)} | i < q
      ensures Row(g, p - 1)(i) == f(m + i)
    {
      assert g(p - 1, i) == f(Index(p - 1, q, i));
    }
    OverAppend(op, m, q, f, Row(g, p - 1));
  }

  lemma OneGroup(op: Op, q: nat, f: nat -> int, g: (nat, nat) -> int)
    requires q >= 1
    requires forall i: nat {:trigger g(0, i)} :: i < q ==> g(0, i) == f(Index(0, q, i))
    ensures Over(op, q, f) == Over(op, q, Row(g, 0))
  {
    var row := Row(g, 0);
    forall i: nat | i < q
      ensures f(i) == row(i)
    {
      assert g(0, i) == f(Index(0, q, i));
    }
    OverCongruent(op, q, f, row);
  }

  /** A reduction over p groups of q is one reduction over p * q. */
  lemma {:induction false} OverFuse(op: Op, p: nat, q: nat, f: nat -> int, groups: nat -> int, g: (nat, nat) -> int)
    requires p >= 1 && q >= 1
    requires forall t: nat, i: nat {:trigger g(t, i)} :: t < p && i < q ==> g(t, i) == f(Index(t, q, i))
    requires forall t: nat :: t < p ==> groups(t) == Over(op, q, Row(g, t))
    ensures p * q >= 1 && Over(op, p * q, f) == Over(op, p, groups)
  {
    if p == 1 {
      OneGroup(op, q, f, g);
      assert p * q == q;
    } else {
      OverFuse(op, p - 1, q, f, groups, g);
      LastGroup(op, p, q, f, g);
    }
  }

  /** Reducing first across n tiles and then within the m positions of the tile is one reduction over
      all n * m positions. */
  lemma AcrossThenWithin(op: Op, n: nat, m: nat, e: nat -> int, within: nat -> int, g: (nat, nat) -> int)
    requires n >= 1 && m >= 1
    requires forall t: nat, i: nat :: t < n && i < m ==> g(t, i) == e(Index(t, m, i))
    requires forall i: nat :: i < m ==> within(i) == Over(op, n, Col(g, i))
    ensures n * m >= 1 && Over(op, m, within) == Over(op, n * m, e)
  {
    var groups := (t: nat) => Over(op, m, Row(g, t));
    OverSwap(op, n, m, g, groups, within);
    OverFuse(op, n, m, e, groups, g);
  }

  // ----- The two-step scheme -----

  /** One tiled dimension: `tiles` tiles of `size` positions. All of it is reduced, or only tile `own`
      takes part. */
  datatype Axis = Axis(all: bool, tiles: nat, size: nat, own: nat) {
    ghost predicate Valid() { tiles >= 1 && size >= 1 }

    /** Contributing tiles, and position i of the y-th one as an element index. */
    function Count(): nat { if all then tiles else 1 }
    function Elem(y: nat, i: nat): nat { Index(if all then y else own, size, i) }
  }

  /** Step 1 at position i: across the contributing tiles. */
  function AcrossTiles(op: Op, ax: Axis, e: nat -> int, i: nat): int
    requires ax.Valid()
  {
    Over(op, ax.Count(), (y: nat) => e(ax.Elem(y, i)))
  }

  /** The element-level value: over the whole dimension, or at one element of it. */
  function AxisPart(op: Op, ax: Axis, e: nat -> int, i: nat): int
    requires ax.Valid()
  {
    assert ax.tiles * ax.size >= 1;
    if ax.all then Over(op, ax.tiles * ax.size, e) else e(Index(ax.own, ax.size, i))
  }

  /** Step 2, or nothing when the dimension is kept. */
  function Collapsed(op: Op, ax: Axis, at: nat -> int, i: nat): int
    requires ax.Valid()
  {
    if ax.all then Over(op, ax.size, at) else at(i)
  }

  function TileGrid(ax: Axis, e: nat -> int): (nat, nat) -> int { (y: nat, j: nat) => e(Index(y, ax.size, j)) }

  lemma AcrossIs(op: Op, ax: Axis, e: nat -> int, i: nat)
    requires ax.Valid()
    ensures AcrossTiles(op, ax, e, i) ==
              if ax.all then Over(op, ax.tiles, Col(TileGrid(ax, e), i)) else e(Index(ax.own, ax.size, i))
  {
    var f := (y: nat) => e(ax.Elem(y, i));
    assert AcrossTiles(op, ax, e, i) == Over(op, ax.Count(), f);
    forall y: nat | y < ax.Count()
      ensures f(y) == e(Index(if ax.all then y else ax.own, ax.size, i))
    {
      assert ax.Elem(y, i) == Index(if ax.all then y else ax.own, ax.size, i);
    }
    if ax.all {
      OverCongruent(op, ax.tiles, Col(TileGrid(ax, e), i), f);
    }
  }

  lemma OneAxis(op: Op, ax: Axis, e: nat -> int, at: nat -> int, i: nat)
    requires ax.Valid() && forall j: nat :: at(j) == AcrossTiles(op, ax, e, j)
    ensures Collapsed(op, ax, at, i) == AxisPart(op, ax, e, i)
  {
    forall j: nat
      ensures at(j) == if ax.all then Over(op, ax.tiles, Col(TileGrid(ax, e), j)) else e(Index(ax.own, ax.size, j))
    {
      AcrossIs(op, ax, e, j);
    }
    if ax.all {
      AcrossThenWithin(op, ax.tiles, ax.size, e, at, TileGrid(ax, e));
    }
  }

  /** Collapsing commutes with any reduction around it. */
  lemma CollapseInside(op: Op, outer: nat, ax: Axis, g: (nat, nat) -> int, at: nat -> int, inner: nat -> int, i: nat)
    requires outer >= 1 && ax.Valid()
    requires forall j: nat :: at(j) == Over(op, outer, Col(g, j))
    requires forall x: nat :: inner(x) == Collapsed(op, ax, Row(g, x), i)
    ensures Collapsed(op, ax, at, i) == Over(op, outer, inner)
  {
    if ax.all {
      OverSwap(op, outer, ax.size, g, inner, at);
    } else {
      OverCongruent(op, outer, inner, Col(g, i));
    }
  }

  lemma CollapseOuter(op: Op, outer: nat, ax: Axis, es: nat -> nat -> int, at: nat -> int, i: nat)
    requires outer >= 1 && ax.Valid()
    requires forall j: nat :: at(j) == Over(op, outer, (u: nat) => AcrossTiles(op, ax, es(u), j))
    ensures Collapsed(op, ax, at, i) == Over(op, outer, (u: nat) => AxisPart(op, ax, es(u), i))
  {
    var g := (u: nat, j: nat) => AcrossTiles(op, ax, es(u), j);
    var inner := (u: nat) => AxisPart(op, ax, es(u), i);
    forall j: nat
      ensures at(j) == Over(op, outer, Col(g, j))
    {
      OverCongruent(op, outer, Col(g, j), (u: nat) => AcrossTiles(op, ax, es(u), j));
    }
    forall x: nat
      ensures inner(x) == Collapsed(op, ax, Row(g, x), i)
    {
      OneAxis(op, ax, es(x), Row(g, x), i);
    }
    CollapseInside(op, outer, ax, g, at, inner, i);
  }

  /** Step 1 of a two-dimensional reduction at position (i, j): `e(x, r)` is row r at batch index x. */
  function AcrossGrid(op: Op, batch: nat, rows: Axis, cols: Axis, e: (nat, nat) -> nat -> int, i: nat, j: nat): int
    requires batch >= 1 && rows.Valid() && cols.Valid()
  {
    Over(op, batch, (x: nat) => Over(op, rows.Count(), (y: nat) => AcrossTiles(op, cols, e(x, rows.Elem(y, i)), j)))
  }

  function ColumnPart(op: Op, cols: Axis, e: (nat, nat) -> nat -> int, j: nat, x: nat): nat -> int
    requires cols.Valid()
  {
    (r: nat) => AxisPart(op, cols, e(x, r), j)
  }

  /** The element-level reduction. */
  function ElementWise(op: Op, batch: nat, rows: Axis, cols: Axis, e: (nat, nat) -> nat -> int, i: nat, j: nat): int
    requires batch >= 1 && rows.Valid() && cols.Valid()
  {
    Over(op, batch, (x: nat) => AxisPart(op, rows, ColumnPart(op, cols, e, j, x), i))
  }

  /** Collapsing the columns of step 1 leaves step 1 over the rows of element-level column values. */
  lemma ColumnsCollapse(op: Op, batch: nat, rows: Axis, cols: Axis, e: (nat, nat) -> nat -> int, i: nat, j: nat,
                        at: nat -> int)
    requires batch >= 1 && rows.Valid() && cols.Valid()
    requires forall k: nat :: at(k) == AcrossGrid(op, batch, rows, cols, e, i, k)
    ensures Collapsed(op, cols, at, j) ==
              Over(op, batch, (x: nat) => AcrossTiles(op, rows, ColumnPart(op, cols, e, j, x), i))
  {
    var g := (x: nat, k: nat) => Over(op, rows.Count(), (y: nat) => AcrossTiles(op, cols, e(x, rows.Elem(y, i)), k));
    var inner := (x: nat) => AcrossTiles(op, rows, ColumnPart(op, cols, e, j, x), i);
    forall k: nat
      ensures at(k) == Over(op, batch, Col(g, k))
    {
      assert at(k) == AcrossGrid(op, batch, rows, cols, e, i, k);
      OverCongruent(op, batch, Col(g, k),
                    (x: nat) => Over(op, rows.Count(), (y: nat) => AcrossTiles(op, cols, e(x, rows.Elem(y, i)), k)));
    }
    forall x: nat
      ensures inner(x) == Collapsed(op, cols, Row(g, x), j)
    {
      RowsOfColumns(op, rows, cols, e, i, j, x, Row(g, x));
    }
    CollapseInside(op, batch, cols, g, at, inner, j);
  }

  lemma RowsOfColumns(op: Op, rows: Axis, cols: Axis, e: (nat, nat) -> nat -> int, i: nat, j: nat, x: nat,
                      at: nat -> int)
    requires rows.Valid() && cols.Valid()
    requires forall k: nat ::
               at(k) == Over(op, rows.Count(), (y: nat) => AcrossTiles(op, cols, e(x, rows.Elem(y, i)), k))
    ensures Collapsed(op, cols, at, j) == AcrossTiles(op, rows, ColumnPart(op, cols, e, j, x), i)
  {
    var es := (y: nat) => e(x, rows.Elem(y, i));
    forall k: nat
      ensures at(k) == Over(op, rows.Count(), (y: nat) => AcrossTiles(op, cols, es(y), k))
    {
      OverCongruent(op, rows.Count(), (y: nat) => AcrossTiles(op, cols, e(x, rows.Elem(y, i)), k),
                    (y: nat) => AcrossTiles(op, cols, es(y), k));
    }
    CollapseOuter(op, rows.Count(), cols, es, at, j);
    var (parts, columns) := ((y: nat) => AxisPart(op, cols, es(y), j), ColumnPart(op, cols, e, j, x));
    forall y: nat
      ensures parts(y) == columns(rows.Elem(y, i))
    {
      assert columns(rows.Elem(y, i)) == AxisPart(op, cols, e(x, rows.Elem(y, i)), j);
    }
    OverCongruent(op, rows.Count(), parts, (y: nat) => columns(rows.Elem(y, i)));
  }

  /** Both steps, in both dimensions, are the element-level reduction. */
  lemma TwoSteps(op: Op, batch: nat, rows: Axis, cols: Axis, e: (nat, nat) -> nat -> int, i: nat, j: nat,
                 at: (nat, nat) -> int)
    requires batch >= 1 && rows.Valid() && cols.Valid()
    requires forall y: nat, x: nat :: at(y, x) == AcrossGrid(op, batch, rows, cols, e, y, x)
    ensures Collapsed(op, rows, (y: nat) => Collapsed(op, cols, Row(at, y), j), i) ==
              ElementWise(op, batch, rows, cols, e, i, j)
  {
    var whole := (y: nat) => Collapsed(op, cols, Row(at, y), j);
    var es := (x: nat) => ColumnPart(op, cols, e, j, x);
    forall y: nat
      ensures whole(y) == Over(op, batch, (x: nat) => AcrossTiles(op, rows, es(x), y))
    {
      ColumnsCollapse(op, batch, rows, cols, e, y, j, Row(at, y));
      OverCongruent(op, batch, (x: nat) => AcrossTiles(op, rows, ColumnPart(op, cols, e, j, x), y),
                    (x: nat) => AcrossTiles(op, rows, es(x), y));
    }
    CollapseOuter(op, batch, rows, es, whole, i);
    OverCongruent(op, batch, (x: nat) => AxisPart(op, rows, es(x), i),
                  (x: nat) => AxisPart(op, rows, ColumnPart(op, cols, e, j, x), i));
  }
}
