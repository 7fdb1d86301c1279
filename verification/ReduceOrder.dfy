/** Reducing both tile dimensions at once, or one after the other (python/sim/math.py). */
module ReduceOrder {
  import opened Arith
  import opened Coords
  import opened Folds
  import opened Tiles
  import opened Reduce
  import opened Broadcast

  /** Element (r, c) at the x-th contributing batch position. */
  function Source(b: Block, d: set<nat>, o: seq<nat>): (nat, nat, nat) -> int
    requires |o| == |b.shape| >= 2 && Size(BatchRange(b, d)) > 0
  {
    (x: nat, r: nat, c: nat) => b.elem(BatchAt(b, d, o, x), r, c)
  }

  function Line(g: (nat, nat, nat) -> int, x: nat, r: nat): nat -> int { (c: nat) => g(x, r, c) }
  function Across3(g: (nat, nat, nat) -> int, x: nat, c: nat): nat -> int { (r: nat) => g(x, r, c) }

  /** A reduction over the rows only. */
  lemma RowsReduced(b: Block, d: set<nat>, op: Op, o: seq<nat>, j: nat)
    requires Sizable(b, d) && RowDim(b, d) && !ColDim(b, d) && |o| == |b.shape|
    ensures Reduced(b, d, op, o, 0, j)
         == Over(op, Size(BatchRange(b, d)), (x: nat) =>
              Over(op, b.h, Across3(Source(b, d, o), x, Index(o[|o| - 1], b.TileW(), j))))
  {
    var (rows, cols, e) := (RowAxis(b, d, o), ColAxis(b, d, o), Rows(b, d, o));
    var c := Index(o[|o| - 1], b.TileW(), j);
    var whole := (x: nat) => Over(op, b.h, Across3(Source(b, d, o), x, c));
    DimsMultiply(b);
    forall x: nat
      ensures AxisPart(op, rows, ColumnPart(op, cols, e, j, x), 0) == whole(x)
    {
      forall r: nat
        ensures ColumnPart(op, cols, e, j, x)(r) == Across3(Source(b, d, o), x, c)(r)
      {
        assert ColumnPart(op, cols, e, j, x)(r) == AxisPart(op, cols, e(x, r), j);
      }
      OverCongruent(op, b.h, ColumnPart(op, cols, e, j, x), Across3(Source(b, d, o), x, c));
    }
    OverCongruent(op, Size(BatchRange(b, d)), (x: nat) => AxisPart(op, rows, ColumnPart(op, cols, e, j, x), 0), whole);
  }

  /** A reduction over the columns only. */
  lemma ColsReduced(b: Block, d: set<nat>, op: Op, o: seq<nat>, i: nat)
    requires Sizable(b, d) && !RowDim(b, d) && ColDim(b, d) && |o| == |b.shape|
    ensures Reduced(b, d, op, o, i, 0)
         == Over(op, Size(BatchRange(b, d)), (x: nat) =>
              Over(op, b.w, Line(Source(b, d, o), x, Index(o[|o| - 2], b.TileH(), i))))
  {
    var (rows, cols, e) := (RowAxis(b, d, o), ColAxis(b, d, o), Rows(b, d, o));
    var r := Index(o[|o| - 2], b.TileH(), i);
    var whole := (x: nat) => Over(op, b.w, Line(Source(b, d, o), x, r));
    DimsMultiply(b);
    forall x: nat
      ensures AxisPart(op, rows, ColumnPart(op, cols, e, 0, x), i) == whole(x)
    {
      assert ColumnPart(op, cols, e, 0, x)(r) == AxisPart(op, cols, e(x, r), 0);
      OverCongruent(op, b.w, e(x, r), Line(Source(b, d, o), x, r));
    }
    OverCongruent(op, Size(BatchRange(b, d)), (x: nat) => AxisPart(op, rows, ColumnPart(op, cols, e, 0, x), i), whole);
  }

  /** A reduction over both. */
  lemma BothReduced(b: Block, d: set<nat>, op: Op, o: seq<nat>)
    requires Sizable(b, d) && RowDim(b, d) && ColDim(b, d) && |o| == |b.shape|
    ensures Reduced(b, d, op, o, 0, 0)
         == Over(op, Size(BatchRange(b, d)), (x: nat) =>
              Over(op, b.h, (r: nat) => Over(op, b.w, Line(Source(b, d, o), x, r))))
  {
    var (rows, cols, e) := (RowAxis(b, d, o), ColAxis(b, d, o), Rows(b, d, o));
    var whole := (x: nat) => Over(op, b.h, (r: nat) => Over(op, b.w, Line(Source(b, d, o), x, r)));
    DimsMultiply(b);
    forall x: nat
      ensures AxisPart(op, rows, ColumnPart(op, cols, e, 0, x), 0) == whole(x)
    {
      var lines := (r: nat) => Over(op, b.w, Line(Source(b, d, o), x, r));
      forall r: nat
        ensures ColumnPart(op, cols, e, 0, x)(r) == lines(r)
      {
        assert ColumnPart(op, cols, e, 0, x)(r) == AxisPart(op, cols, e(x, r), 0);
        OverCongruent(op, b.w, e(x, r), Line(Source(b, d, o), x, r));
      }
      OverCongruent(op, b.h, ColumnPart(op, cols, e, 0, x), lines);
    }
    OverCongruent(op, Size(BatchRange(b, d)), (x: nat) => AxisPart(op, rows, ColumnPart(op, cols, e, 0, x), 0), whole);
  }

  // ----- One dimension after the other -----

  lemma {:induction false} OnesHaveSizeOne(shape: seq<nat>)
    requires forall i :: 0 <= i < |shape| ==> shape[i] == 1
    ensures Size(shape) == 1
  {
    if shape != [] {
      OnesHaveSizeOne(shape[1..]);
    }
  }

  /** A reduction over a tile dimension alone has one contributing batch position: its own. */
  lemma OwnBatch(b: Block, d: set<nat>, o: seq<nat>)
    requires |o| == |b.shape| >= 2 && forall i :: i in d ==> i >= |b.shape| - 2
    ensures Size(BatchRange(b, d)) == 1 && BatchAt(b, d, o, 0) == o[..|o| - 2]
  {
    OnesHaveSizeOne(BatchRange(b, d));
  }

  /** The contributing batch positions depend on the batch dimensions only. */
  lemma SameBatch(b: Block, d: set<nat>, e: set<nat>, o: seq<nat>, p: seq<nat>, x: nat)
    requires |o| == |p| == |b.shape| >= 2 && o[..|o| - 2] == p[..|p| - 2]
    requires forall i: nat :: i < |b.shape| - 2 ==> (i in d <==> i in e)
    ensures BatchRange(b, d) == BatchRange(b, e)
    ensures Size(BatchRange(b, d)) > 0 ==> BatchAt(b, d, o, x) == BatchAt(b, e, p, x)
  {
    assert BatchRange(b, d) == BatchRange(b, e);
    if Size(BatchRange(b, d)) > 0 {
      assert BatchAt(b, d, o, x) == BatchAt(b, e, p, x);
    }
  }

  /** Columns outside, or columns inside, the reduction over batch and rows. */
  lemma ColumnsOutside(op: Op, n: nat, h: nat, w: nat, g: (nat, nat, nat) -> int)
    requires n >= 1 && h >= 1 && w >= 1
    ensures Over(op, w, (c: nat) => Over(op, n, (x: nat) => Over(op, h, Across3(g, x, c))))
         == Over(op, n, (x: nat) => Over(op, h, (r: nat) => Over(op, w, Line(g, x, r))))
  {
    var f := (c: nat, x: nat) => Over(op, h, Across3(g, x, c));
    var outer := (c: nat) => Over(op, n, (x: nat) => Over(op, h, Across3(g, x, c)));
    var inner := (x: nat) => Over(op, h, (r: nat) => Over(op, w, Line(g, x, r)));
    forall c: nat
      ensures outer(c) == Over(op, n, Row(f, c))
    {
      OverCongruent(op, n, Row(f, c), (x: nat) => Over(op, h, Across3(g, x, c)));
    }
    forall x: nat
      ensures inner(x) == Over(op, w, Col(f, x))
    {
      LinesSwap(op, h, w, g, x, Col(f, x));
    }
    OverSwap(op, w, n, f, outer, inner);
  }

  lemma LinesSwap(op: Op, h: nat, w: nat, g: (nat, nat, nat) -> int, x: nat, cols: nat -> int)
    requires h >= 1 && w >= 1 && forall c: nat :: cols(c) == Over(op, h, Across3(g, x, c))
    ensures Over(op, h, (r: nat) => Over(op, w, Line(g, x, r))) == Over(op, w, cols)
  {
    var f := (r: nat, c: nat) => g(x, r, c);
    var lines := (r: nat) => Over(op, w, Line(g, x, r));
    forall r: nat
      ensures lines(r) == Over(op, w, Row(f, r))
    {
      OverCongruent(op, w, Row(f, r), Line(g, x, r));
    }
    forall c: nat
      ensures cols(c) == Over(op, h, Col(f, c))
    {
      OverCongruent(op, h, Col(f, c), Across3(g, x, c));
    }
    OverSwap(op, h, w, f, lines, cols);
  }

  lemma RowsOutside(op: Op, n: nat, h: nat, w: nat, g: (nat, nat, nat) -> int)
    requires n >= 1 && h >= 1 && w >= 1
    ensures Over(op, h, (r: nat) => Over(op, n, (x: nat) => Over(op, w, Line(g, x, r))))
         == Over(op, n, (x: nat) => Over(op, h, (r: nat) => Over(op, w, Line(g, x, r))))
  {
    var f := (r: nat, x: nat) => Over(op, w, Line(g, x, r));
    var outer := (r: nat) => Over(op, n, (x: nat) => Over(op, w, Line(g, x, r)));
    var inner := (x: nat) => Over(op, h, (r: nat) => Over(op, w, Line(g, x, r)));
    forall r: nat
      ensures outer(r) == Over(op, n, Row(f, r))
    {
      OverCongruent(op, n, Row(f, r), (x: nat) => Over(op, w, Line(g, x, r)));
    }
    forall x: nat
      ensures inner(x) == Over(op, h, Col(f, x))
    {
      OverCongruent(op, h, Col(f, x), (r: nat) => Over(op, w, Line(g, x, r)));
    }
    OverSwap(op, h, n, f, outer, inner);
  }

  function LeftOut(b: Block, first: set<nat>): nat
    requires |b.shape| >= 2
  {
    if RowDim(b, first) then |b.shape| - 1 else |b.shape| - 2
  }

  /** `second` is the one tile dimension that `first` leaves out of `all`. */
  predicate Splits(b: Block, first: set<nat>, second: set<nat>, all: set<nat>)
    requires |b.shape| >= 2
  {
    && RowDim(b, all) && ColDim(b, all)
    && all == first + second
    && RowDim(b, first) != ColDim(b, first)
    && second == {LeftOut(b, first)}
  }

  /** The element dims of a reduction over the rows, and over the columns. */
  lemma ReductionDims(b: Block, d: set<nat>, op: Op, r: Block)
    requires IsReduction(b, d, op, r)
    ensures r.h == (if RowDim(b, d) then b.TileH() else b.h) && r.w == if ColDim(b, d) then b.TileW() else b.w
  {
    DimsMultiply(r);
    DimsMultiply(b);
  }

  lemma InReducedBatch(b: Block, d: set<nat>, e: set<nat>, o: seq<nat>)
    requires |b.shape| >= 2 && InBox(ReducedShape(b.shape, e), o)
    requires forall i: nat :: i < |b.shape| - 2 ==> (i in d <==> i in e)
    ensures InBox(ReducedShape(b.shape, d)[..|b.shape| - 2], o[..|o| - 2])
  {
  }

  /** Rows first: below row 0 the first reduction leaves zeros. */
  lemma FirstRowsZero(b: Block, rows: set<nat>, cols: set<nat>, all: set<nat>, op: Op, r1: Block, o: seq<nat>,
                      i: nat, c: nat)
    requires IsReduction(b, rows, op, r1) && Splits(b, rows, cols, all) && RowDim(b, rows)
    requires InBox(ReducedShape(b.shape, all), o) && 0 < i < b.TileH() && c < b.w
    ensures r1.elem(o[..|o| - 2], i, c) == 0
  {
    hide Reduced;
    ReductionDims(b, rows, op, r1);
    InReducedBatch(b, rows, all, o);
    ReductionElement(b, rows, op, r1, o[..|o| - 2], i, c);
  }

  lemma IndexBack(r: nat, h: nat)
    requires h >= 1
    ensures Index(r / h, h, r % h) == r && 0 / h == 0 && 0 % h == 0
  {
  }

  lemma FirstRowsElement(b: Block, rows: set<nat>, cols: set<nat>, all: set<nat>, op: Op, r1: Block,
                         o: seq<nat>, c: nat)
    requires IsReduction(b, rows, op, r1) && Splits(b, rows, cols, all) && RowDim(b, rows)
    requires InBox(ReducedShape(b.shape, all), o) && c < b.w
    ensures r1.elem(o[..|o| - 2], 0, c) == Reduced(b, rows, op, o[..|o| - 2] + [0, c / b.TileW()], 0, c % b.TileW())
  {
    hide Reduced;
    ReductionDims(b, rows, op, r1);
    InReducedBatch(b, rows, all, o);
    IndexBack(0, b.TileH());
    ReductionElement(b, rows, op, r1, o[..|o| - 2], 0, c);
  }

  /** Element (0, c) after reducing batch dimensions and rows. */
  lemma FirstRowsSum(b: Block, rows: set<nat>, cols: set<nat>, all: set<nat>, op: Op, r1: Block,
                         o: seq<nat>, c: nat)
    requires IsReduction(b, rows, op, r1) && Splits(b, rows, cols, all) && RowDim(b, rows) && Sizable(b, all)
    requires InBox(ReducedShape(b.shape, all), o) && c < b.w
    ensures r1.elem(o[..|o| - 2], 0, c)
         == Over(op, Size(BatchRange(b, all)), (x: nat) => Over(op, b.h, Across3(Source(b, all, o), x, c)))
  {
    hide Reduced, Over, IsReduction;
    FirstRowsElement(b, rows, cols, all, op, r1, o, c);
    AlwaysSizable(b, rows);
    var p := o[..|o| - 2] + [0, c / b.TileW()];
    RowsReduced(b, rows, op, p, c % b.TileW());
    IndexBack(c, b.TileW());
    RowSourcesAgree(b, rows, all, op, p, o, c);
  }

  lemma RowSourcesAgree(b: Block, d: set<nat>, e: set<nat>, op: Op, p: seq<nat>, o: seq<nat>, c: nat)
    requires Sizable(b, d) && Sizable(b, e) && |p| == |o| == |b.shape| && p[..|p| - 2] == o[..|o| - 2]
    requires forall i: nat :: i < |b.shape| - 2 ==> (i in d <==> i in e)
    ensures BatchRange(b, d) == BatchRange(b, e)
    ensures Over(op, Size(BatchRange(b, d)), (x: nat) => Over(op, b.h, Across3(Source(b, d, p), x, c)))
         == Over(op, Size(BatchRange(b, e)), (x: nat) => Over(op, b.h, Across3(Source(b, e, o), x, c)))
  {
    SameBatch(b, d, e, p, o, 0);
    var f := (x: nat) => Over(op, b.h, Across3(Source(b, d, p), x, c));
    var g := (x: nat) => Over(op, b.h, Across3(Source(b, e, o), x, c));
    forall x: nat
      ensures f(x) == g(x)
    {
      SameBatch(b, d, e, p, o, x);
      OverCongruent(op, b.h, Across3(Source(b, d, p), x, c), Across3(Source(b, e, o), x, c));
    }
    OverCongruent(op, Size(BatchRange(b, d)), f, g);
  }

  /** Reducing the rows (and any batch dimensions) and then the columns is reducing all of them. */
  lemma RowsThenColumns(b: Block, rows: set<nat>, cols: set<nat>, all: set<nat>, op: Op,
                        r1: Block, r2: Block, r12: Block,
                        o: seq<nat>, i: nat, j: nat)
    requires IsReduction(b, rows, op, r1) && IsReduction(r1, cols, op, r2) && IsReduction(b, all, op, r12)
    requires Splits(b, rows, cols, all) && RowDim(b, rows)
    requires InBox(r12.shape, o) && i < b.TileH() && j < b.TileW()
    ensures r2.shape == r12.shape && r2.At(o, i, j) == r12.At(o, i, j)
  {
    hide Reduced;
    assert r2.shape == r12.shape;
    if j == 0 {
      SecondColumns(b, rows, cols, all, op, r1, r12.shape, o, i);
    }
  }

  lemma SecondColumns(b: Block, rows: set<nat>, cols: set<nat>, all: set<nat>, op: Op, r1: Block, shape: seq<nat>,
                      o: seq<nat>, i: nat)
    requires IsReduction(b, rows, op, r1) && Sizable(r1, cols) && Sizable(b, all)
    requires Splits(b, rows, cols, all) && RowDim(b, rows)
    requires shape == ReducedShape(b.shape, all) && InBox(shape, o) && i < b.TileH()
    ensures Reduced(r1, cols, op, o, i, 0) == if i > 0 then 0 else Reduced(b, all, op, o, 0, 0)
  {
    OwnBatch(r1, cols, o);
    ColsReduced(r1, cols, op, o, i);
    ReductionDims(b, rows, op, r1);
    assert Index(o[|o| - 2], b.TileH(), i) == i;
    var line := Line(Source(r1, cols, o), 0, i);
    assert Reduced(r1, cols, op, o, i, 0) == Over(op, b.w, line);
    if i > 0 {
      forall c: nat | c < b.w
        ensures line(c) == 0
      {
        FirstRowsZero(b, rows, cols, all, op, r1, o, i, c);
      }
      OverZero(op, b.w, line);
    } else {
      var g := (c: nat) =>
        Over(op, Size(BatchRange(b, all)), (x: nat) => Over(op, b.h, Across3(Source(b, all, o), x, c)));
      forall c: nat | c < b.w
        ensures line(c) == g(c)
      {
        FirstRowsSum(b, rows, cols, all, op, r1, o, c);
      }
      OverCongruent(op, b.w, line, g);
      BothReduced(b, all, op, o);
      ColumnsOutside(op, Size(BatchRange(b, all)), b.h, b.w, Source(b, all, o));
    }
  }

  // ----- Columns first -----

  lemma FirstColumnsZero(b: Block, cols: set<nat>, rows: set<nat>, all: set<nat>, op: Op, r1: Block, o: seq<nat>,
                         r: nat, j: nat)
    requires IsReduction(b, cols, op, r1) && Splits(b, cols, rows, all) && ColDim(b, cols)
    requires InBox(ReducedShape(b.shape, all), o) && 0 < j < b.TileW() && r < b.h
    ensures r1.elem(o[..|o| - 2], r, j) == 0
  {
    hide Reduced;
    ReductionDims(b, cols, op, r1);
    InReducedBatch(b, cols, all, o);
    ReductionElement(b, cols, op, r1, o[..|o| - 2], r, j);
  }

  lemma FirstColumnsElement(b: Block, cols: set<nat>, rows: set<nat>, all: set<nat>, op: Op, r1: Block,
                            o: seq<nat>, r: nat)
    requires IsReduction(b, cols, op, r1) && Splits(b, cols, rows, all) && ColDim(b, cols)
    requires InBox(ReducedShape(b.shape, all), o) && r < b.h
    ensures r1.elem(o[..|o| - 2], r, 0) == Reduced(b, cols, op, o[..|o| - 2] + [r / b.TileH(), 0], r % b.TileH(), 0)
  {
    hide Reduced;
    ReductionDims(b, cols, op, r1);
    InReducedBatch(b, cols, all, o);
    IndexBack(0, b.TileW());
    ReductionElement(b, cols, op, r1, o[..|o| - 2], r, 0);
  }

  /** Element (r, 0) after reducing batch dimensions and columns. */
  lemma FirstColumnsSum(b: Block, cols: set<nat>, rows: set<nat>, all: set<nat>, op: Op, r1: Block,
                            o: seq<nat>, r: nat)
    requires IsReduction(b, cols, op, r1) && Splits(b, cols, rows, all) && ColDim(b, cols) && Sizable(b, all)
    requires InBox(ReducedShape(b.shape, all), o) && r < b.h
    ensures r1.elem(o[..|o| - 2], r, 0)
         == Over(op, Size(BatchRange(b, all)), (x: nat) => Over(op, b.w, Line(Source(b, all, o), x, r)))
  {
    hide Reduced, Over, IsReduction;
    FirstColumnsElement(b, cols, rows, all, op, r1, o, r);
    AlwaysSizable(b, cols);
    var p := o[..|o| - 2] + [r / b.TileH(), 0];
    ColsReduced(b, cols, op, p, r % b.TileH());
    IndexBack(r, b.TileH());
    ColumnSourcesAgree(b, cols, all, op, p, o, r);
  }

  lemma ColumnSourcesAgree(b: Block, d: set<nat>, e: set<nat>, op: Op, p: seq<nat>, o: seq<nat>, r: nat)
    requires Sizable(b, d) && Sizable(b, e) && |p| == |o| == |b.shape| && p[..|p| - 2] == o[..|o| - 2]
    requires forall i: nat :: i < |b.shape| - 2 ==> (i in d <==> i in e)
    ensures BatchRange(b, d) == BatchRange(b, e)
    ensures Over(op, Size(BatchRange(b, d)), (x: nat) => Over(op, b.w, Line(Source(b, d, p), x, r)))
         == Over(op, Size(BatchRange(b, e)), (x: nat) => Over(op, b.w, Line(Source(b, e, o), x, r)))
  {
    SameBatch(b, d, e, p, o, 0);
    var f := (x: nat) => Over(op, b.w, Line(Source(b, d, p), x, r));
    var g := (x: nat) => Over(op, b.w, Line(Source(b, e, o), x, r));
    forall x: nat
      ensures f(x) == g(x)
    {
      SameBatch(b, d, e, p, o, x);
      OverCongruent(op, b.w, Line(Source(b, d, p), x, r), Line(Source(b, e, o), x, r));
    }
    OverCongruent(op, Size(BatchRange(b, d)), f, g);
  }

  lemma SecondRows(b: Block, cols: set<nat>, rows: set<nat>, all: set<nat>, op: Op, r1: Block, shape: seq<nat>,
                   o: seq<nat>, j: nat)
    requires IsReduction(b, cols, op, r1) && Sizable(r1, rows) && Sizable(b, all)
    requires Splits(b, cols, rows, all) && ColDim(b, cols)
    requires shape == ReducedShape(b.shape, all) && InBox(shape, o) && j < b.TileW()
    ensures Reduced(r1, rows, op, o, 0, j) == if j > 0 then 0 else Reduced(b, all, op, o, 0, 0)
  {
    hide Reduced;
    OwnBatch(r1, rows, o);
    RowsReduced(r1, rows, op, o, j);
    ReductionDims(b, cols, op, r1);
    assert Index(o[|o| - 1], b.TileW(), j) == j;
    var column := Across3(Source(r1, rows, o), 0, j);
    assert Reduced(r1, rows, op, o, 0, j) == Over(op, b.h, column);
    if j > 0 {
      forall r: nat | r < b.h
        ensures column(r) == 0
      {
        FirstColumnsZero(b, cols, rows, all, op, r1, o, r, j);
      }
      OverZero(op, b.h, column);
    } else {
      var g := (r: nat) => Over(op, Size(BatchRange(b, all)), (x: nat) => Over(op, b.w, Line(Source(b, all, o), x, r)));
      forall r: nat | r < b.h
        ensures column(r) == g(r)
      {
        FirstColumnsSum(b, cols, rows, all, op, r1, o, r);
      }
      OverCongruent(op, b.h, column, g);
      BothReduced(b, all, op, o);
      RowsOutside(op, Size(BatchRange(b, all)), b.h, b.w, Source(b, all, o));
    }
  }

  /** Reducing the columns (and any batch dimensions) and then the rows is reducing all of them. */
  lemma ColumnsThenRows(b: Block, cols: set<nat>, rows: set<nat>, all: set<nat>, op: Op,
                        r1: Block, r2: Block, r12: Block,
                        o: seq<nat>, i: nat, j: nat)
    requires IsReduction(b, cols, op, r1) && IsReduction(r1, rows, op, r2) && IsReduction(b, all, op, r12)
    requires Splits(b, cols, rows, all) && ColDim(b, cols)
    requires InBox(r12.shape, o) && i < b.TileH() && j < b.TileW()
    ensures r2.shape == r12.shape && r2.At(o, i, j) == r12.At(o, i, j)
  {
    hide Reduced;
    assert r2.shape == r12.shape;
    if i == 0 {
      SecondRows(b, cols, rows, all, op, r1, r12.shape, o, j);
    }
  }
}
