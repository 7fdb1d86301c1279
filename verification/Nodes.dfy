/** Node coordinates (python/sim/nodecontext.py). */
module Nodes {
  import opened Arith
  import opened Wrappers
  import opened Coords

  ghost predicate Grid(grid: seq<nat>) { |grid| >= 1 && Size(grid) > 0 }

  /** The box that `node(dims)` ranges over: leading dimensions are fused, missing ones have size 1. */
  function NodeBox(grid: seq<nat>, dims: nat): (box: seq<nat>)
    requires dims >= 1
    ensures |box| == dims
  {
    if dims < |grid| then
      var m := |grid| - dims + 1;
      [Size(grid[..m])] + grid[m..]
    else
      grid + seq(dims - |grid|, _ => 1)
  }

  lemma {:induction false} OnesSize(n: nat)
    ensures Size(seq(n, _ => 1)) == 1
    ensures Flat(seq(n, _ => 1), seq(n, _ => 0)) == 0
  {
    if n > 0 {
      OnesSize(n - 1);
      assert seq(n, _ => 1 as nat)[1..] == seq(n - 1, _ => 1);
      assert seq(n, _ => 0 as nat)[1..] == seq(n - 1, _ => 0);
    }
  }

  lemma NodeBoxSize(grid: seq<nat>, dims: nat)
    requires dims >= 1 && Grid(grid)
    ensures Size(NodeBox(grid, dims)) == Size(grid)
  {
    if dims < |grid| {
      var m := |grid| - dims + 1;
      SizeAppend(grid[..m], grid[m..]);
      assert grid[..m] + grid[m..] == grid;
      assert NodeBox(grid, dims)[1..] == grid[m..];
    } else {
      SizeAppend(grid, seq(dims - |grid|, _ => 1));
      OnesSize(dims - |grid|);
    }
  }

  lemma SplitIndex(k: nat, s: nat, m: nat)
    requires s >= 1 && m >= 1
    ensures s * m >= 1
    ensures k % (s * m) / m == k / m % s && k % (s * m) % m == k % m && k / m / s == k / (s * m)
  {
    var (q, r) := (k / m, k % m);
    var (q2, r2) := (q / s, q % s);
    assert q2 * s * m == q2 * (s * m);
    assert s * m >= 1;
    Below(r2, r, s, m);
    assert k == q2 * (s * m) + (r2 * m + r);
    DivUnique(k, s * m, q2, r2 * m + r);
    DivUnique(r2 * m + r, m, r2, r);
  }

  lemma SuffixSize(grid: seq<nat>, i: nat)
    requires Grid(grid) && i <= |grid|
    ensures Size(grid[i..]) > 0
    ensures i < |grid| ==> grid[i] >= 1 && Size(grid[i..]) == grid[i] * Size(grid[i + 1..])
  {
    SizePositive(grid);
    SizePositive(grid[i..]);
    if i < |grid| {
      assert grid[i..][1..] == grid[i + 1..];
    }
  }

  /** `coords` are the last coordinates of `id`, from dimension i on, and `nid` is what is left. */
  ghost predicate Peeled(grid: seq<nat>, i: nat, id: nat, nid: nat, coords: seq<nat>)
  {
    && i <= |grid| && Size(grid[i..]) > 0
    && nid == id / Size(grid[i..]) && coords == Unflat(grid[i..], id % Size(grid[i..]))
  }

  lemma PeelStep(grid: seq<nat>, i: nat, id: nat, nid: nat, coords: seq<nat>)
    requires Grid(grid) && i < |grid| && Peeled(grid, i + 1, id, nid, coords)
    ensures grid[i] >= 1 && Peeled(grid, i, id, nid / grid[i], [nid % grid[i]] + coords)
  {
    SuffixSize(grid, i);
    SplitIndex(id, grid[i], Size(grid[i + 1..]));
    assert grid[i..][1..] == grid[i + 1..] && grid[i..][0] == grid[i];
  }

  lemma PeelEnds(grid: seq<nat>, id: nat)
    requires Grid(grid) && id < Size(grid)
    ensures Peeled(grid, |grid|, id, id, [])
    ensures forall nid, coords :: Peeled(grid, 0, id, nid, coords) ==> coords == Unflat(grid, id)
  {
    assert grid[|grid|..] == [] && grid[0..] == grid;
    assert id % Size(grid) == id && Unflat([], id % 1) == [];
    hide Unflat;
  }

  method TakeRemainder(n: nat, s: nat) returns (quotient: nat, remainder: nat)
    requires s >= 1
    ensures quotient == n / s && remainder == n % s
  {
    quotient, remainder := n / s, n % s;
  }

  /** Peel the coordinates off the linear id, last dimension first. */
  method PeelCoords(id: nat, grid: seq<nat>) returns (coords: seq<nat>)
    requires Grid(grid) && id < Size(grid)
    ensures coords == Unflat(grid, id)
  {
    PeelEnds(grid, id);
    hide *;
    coords := [];
    var nid := id;
    for i := |grid| downto 0
      invariant Peeled(grid, i, id, nid, coords)
    {
      SuffixSize(grid, i);
      var rest, c := TakeRemainder(nid, grid[i]);
      PeelStep(grid, i, id, nid, coords);
      coords := [c] + coords;
      nid := rest;
    }
  }

  /** `node(dims)` is the id written in the mixed radix of the node box, for every number of dims. */
  method Node(id: nat, grid: seq<nat>, dims: nat) returns (coords: seq<nat>)
    requires Grid(grid) && id < Size(grid) && dims >= 1
    ensures Size(NodeBox(grid, dims)) == Size(grid) && coords == Unflat(NodeBox(grid, dims), id)
    ensures InBox(NodeBox(grid, dims), coords) && Flat(NodeBox(grid, dims), coords) == id
  {
    hide NodeBox, Flat, Unflat, InBox;
    coords := PeelCoords(id, grid);
    FlatOfUnflat(grid, id);
    NodeBoxSize(grid, dims);
    ghost var full := coords;
    if dims < |coords| {
      var m := |coords| - dims + 1;
      var flattened := FuseLeading(grid, coords, m);
      coords := [flattened] + coords[m..];
      FusedIsNode(grid, full, dims);
    }
    while |coords| < dims
      invariant dims < |grid| ==> |coords| == dims
      invariant dims < |grid| ==> InBox(NodeBox(grid, dims), coords) && Flat(NodeBox(grid, dims), coords) == id
      invariant dims >= |grid| ==> |grid| <= |coords| <= dims && coords == full + seq(|coords| - |grid|, _ => 0)
    {
      coords := coords + [0];
    }
    if dims >= |grid| {
      PaddedIsNode(grid, full, dims);
    }
    UnflatOfFlat(NodeBox(grid, dims), coords);
  }

  lemma FusedIsNode(grid: seq<nat>, full: seq<nat>, dims: nat)
    requires InBox(grid, full) && 1 <= dims < |grid|
    ensures var (m, box) := (|grid| - dims + 1, NodeBox(grid, dims));
            var c := [Flat(grid[..m], full[..m])] + full[m..];
            InBox(box, c) && Flat(box, c) == Flat(grid, full)
  {
    var m := |grid| - dims + 1;
    assert NodeBox(grid, dims) == [Size(grid[..m])] + grid[m..];
    assert |full| == |grid|;
    hide *;
    FusedCoords(grid, full, m);
  }

  lemma PaddedIsNode(grid: seq<nat>, full: seq<nat>, dims: nat)
    requires InBox(grid, full) && dims >= |grid| && dims >= 1
    ensures var c := full + seq(dims - |grid|, _ => 0);
            InBox(NodeBox(grid, dims), c) && Flat(NodeBox(grid, dims), c) == Flat(grid, full)
  {
    OnesSize(dims - |grid|);
    FlatAppend(grid, seq(dims - |grid|, _ => 1), full, seq(dims - |grid|, _ => 0));
  }

  /** flattened = flattened * grid[i] + coords[i] over the leading dimensions. */
  method FuseLeading(grid: seq<nat>, coords: seq<nat>, m: nat) returns (flattened: nat)
    requires 1 <= m <= |coords| <= |grid|
    ensures flattened == Flat(grid[..m], coords[..m])
  {
    flattened := coords[0];
    FlatOne(grid[0], coords[0]);
    assert grid[..1] == [grid[0]] && coords[..1] == [coords[0]];
    for i := 1 to m
      invariant flattened == Flat(grid[..i], coords[..i])
    {
      FlatAppend(grid[..i], [grid[i]], coords[..i], [coords[i]]);
      FlatOne(grid[i], coords[i]);
      SizeOne(grid[i]);
      assert grid[..i + 1] == grid[..i] + [grid[i]] && coords[..i + 1] == coords[..i] + [coords[i]];
      flattened := flattened * grid[i] + coords[i];
    }
  }

  lemma FlatOne(a: nat, x: nat)
    ensures Flat([a], [x]) == x
  {
    assert [a][1..] == [] && [x][1..] == [];
    assert Flat([a], [x]) == x * Size([]) + Flat([], []);
  }

  lemma FusedCoords(grid: seq<nat>, coords: seq<nat>, m: nat)
    requires InBox(grid, coords) && 1 <= m <= |grid|
    ensures var (box, c) := ([Size(grid[..m])] + grid[m..], [Flat(grid[..m], coords[..m])] + coords[m..]);
            InBox(box, c) && Flat(box, c) == Flat(grid, coords)
  {
    assert grid[..m] + grid[m..] == grid && coords[..m] + coords[m..] == coords;
    FlatAppend(grid[..m], grid[m..], coords[..m], coords[m..]);
    assert InBox(grid[..m], coords[..m]);
    FlatBound(grid[..m], coords[..m]);
    var (box, c) := ([Size(grid[..m])] + grid[m..], [Flat(grid[..m], coords[..m])] + coords[m..]);
    assert box[1..] == grid[m..] && c[1..] == coords[m..];
    hide Flat, Size;
    FlatStep(box, c);
  }

  /** `flatten_node_index` of a tuple; None is the IndexError of a tuple longer than the grid. */
  method FlattenNodeIndex(grid: seq<nat>, coords: seq<nat>) returns (linear: Option<nat>)
    requires |coords| >= 1
    ensures linear.Some? <==> |coords| <= |grid|
    ensures linear.Some? ==> linear.value == Flat(grid[..|coords|], coords)
  {
    if |coords| > |grid| {
      return None;
    }
    var l := FuseLeading(grid, coords, |coords|);
    assert coords[..|coords|] == coords;
    linear := Some(l);
  }

  /** The linear id survives `flatten_node_index(node(dims=rank))`. */
  method NodeRoundTrip(id: nat, grid: seq<nat>) returns (back: Option<nat>)
    requires Grid(grid) && id < Size(grid)
    ensures back == Some(id)
  {
    var coords := Node(id, grid, |grid|);
    back := FlattenNodeIndex(grid, coords);
    assert NodeBox(grid, |grid|) == grid && grid[..|grid|] == grid;
  }

  /** `grid_size(dims)` as a tuple: trailing dimensions are fused, missing ones have size 1. */
  function SizeBox(grid: seq<nat>, dims: nat): (box: seq<nat>)
    requires dims >= 1
    ensures |box| == dims
  {
    if dims < |grid| then grid[..dims - 1] + [Size(grid[dims - 1..])] else grid + seq(dims - |grid|, _ => 1)
  }

  method GridSize(grid: seq<nat>, dims: nat) returns (box: seq<nat>)
    requires dims >= 1 && |grid| >= 1
    ensures box == SizeBox(grid, dims)
  {
    if dims >= |grid| {
      return grid + seq(dims - |grid|, _ => 1);
    }
    var flattened := 1;
    assert grid[dims - 1..dims - 1] == [];
    for i := dims - 1 to |grid|
      invariant flattened == Size(grid[dims - 1..i])
    {
      assert grid[dims - 1..i + 1] == grid[dims - 1..i] + [grid[i]];
      SizeAppend(grid[dims - 1..i], [grid[i]]);
      SizeOne(grid[i]);
      flattened := flattened * grid[i];
    }
    assert grid[dims - 1..|grid|] == grid[dims - 1..];
    box := grid[..dims - 1] + [flattened];
  }

  // ----- When `grid_size` and `node` agree -----

  /** Every dimension but the first and the last has size 1. */
  predicate InnerOnes(grid: seq<nat>)
  {
    forall i :: 1 <= i < |grid| - 1 ==> grid[i] == 1
  }

  lemma {:induction false} SizeIsOne(s: seq<nat>)
    ensures Size(s) == 1 <==> forall i :: 0 <= i < |s| ==> s[i] == 1
  {
    if s != [] {
      SizeIsOne(s[1..]);
      FactorsOfOne(s[0], Size(s[1..]));
      assert forall i :: 0 <= i < |s[1..]| ==> s[1..][i] == s[i + 1];
    }
  }

  lemma FactorsOfOne(a: nat, b: nat)
    ensures a * b == 1 <==> a == 1 && b == 1
  {
    if a >= 2 && b >= 1 {
      assert a * b >= 2 * b;
    }
  }

  /** A leading size is kept by a product exactly when the other factors are 1. */
  lemma HeadIsSize(s: seq<nat>)
    requires s != [] && s[0] >= 1
    ensures Size(s) == s[0] <==> forall i :: 1 <= i < |s| ==> s[i] == 1
  {
    SizeIsOne(s[1..]);
    Cancel(s[0], Size(s[1..]));
    assert forall i :: 0 <= i < |s[1..]| ==> s[1..][i] == s[i + 1];
  }

  lemma Cancel(a: nat, b: nat)
    requires a >= 1
    ensures a * b == a <==> b == 1
  {
    if b >= 2 {
      assert a * b >= a * 2;
    }
  }

  /** Sizes that repeat with a period, and are 1 in the first one, are 1. */
  lemma {:induction false} OnesRepeat(grid: seq<nat>, period: nat, i: nat)
    requires period >= 1 && 1 <= i < |grid| - 1
    requires forall j :: 1 <= j <= period && j < |grid| ==> grid[j] == 1
    requires forall j :: 1 <= j && j + period < |grid| - 1 ==> grid[j] == grid[j + period]
    ensures grid[i] == 1
  {
    if i > period {
      OnesRepeat(grid, period, i - period);
      assert grid[i - period] == grid[i - period + period];
    }
  }

  lemma LastIsSize(s: seq<nat>)
    requires s != [] && forall i :: 0 <= i < |s| - 1 ==> s[i] == 1
    ensures Size(s) == s[|s| - 1]
  {
    var k := |s| - 1;
    SizeAppend(s[..k], [s[k]]);
    SizeIsOne(s[..k]);
    SizeOne(s[k]);
    assert s == s[..k] + [s[k]];
  }

  /** `grid_size` and `node` range over the same box exactly for one dimension, from the grid's rank on, and
      on grids whose inner dimensions have size 1. */
  lemma GridSizeIsNodeBox(grid: seq<nat>, dims: nat)
    requires Grid(grid) && dims >= 1
    ensures SizeBox(grid, dims) == NodeBox(grid, dims) <==> dims == 1 || dims >= |grid| || InnerOnes(grid)
  {
    hide Size;
    if dims == 1 && |grid| > 1 {
      assert grid[..|grid|] == grid && grid[0..] == grid && grid[|grid|..] == [] && grid[..0] == [];
    } else if 1 < dims < |grid| {
      if InnerOnes(grid) {
        OnesAgree(grid, dims);
      } else if SizeBox(grid, dims) == NodeBox(grid, dims) {
        BoxesRepeat(grid, dims);
        var i :| 1 <= i < |grid| - 1 && grid[i] != 1;
        OnesRepeat(grid, |grid| - dims, i);
      }
    }
  }

  lemma OnesAgree(grid: seq<nat>, dims: nat)
    requires Grid(grid) && 1 < dims < |grid| && InnerOnes(grid)
    ensures SizeBox(grid, dims) == NodeBox(grid, dims)
  {
    var (m, s, b) := (|grid| - dims + 1, SizeBox(grid, dims), NodeBox(grid, dims));
    SizePositive(grid);
    hide Size;
    HeadIsSize(grid[..m]);
    LastIsSize(grid[dims - 1..]);
    forall i | 0 <= i < dims
      ensures s[i] == b[i]
    {
      assert 1 <= i ==> b[i] == grid[m + i - 1];
    }
  }

  lemma BoxesRepeat(grid: seq<nat>, dims: nat)
    requires Grid(grid) && 1 < dims < |grid| && SizeBox(grid, dims) == NodeBox(grid, dims)
    ensures forall j :: 1 <= j <= |grid| - dims ==> grid[j] == 1
    ensures forall j :: 1 <= j && j + (|grid| - dims) < |grid| - 1 ==> grid[j] == grid[j + (|grid| - dims)]
  {
    SizePositive(grid);
    var (s, b, m) := (SizeBox(grid, dims), NodeBox(grid, dims), |grid| - dims + 1);
    assert s[0] == grid[0] && b[0] == Size(grid[..m]);
    HeadIsSize(grid[..m]);
    forall j | 1 <= j <= |grid| - dims
      ensures grid[j] == 1
    {
      assert grid[..m][j] == grid[j];
    }
    forall j | 1 <= j && j + (|grid| - dims) < |grid| - 1
      ensures grid[j] == grid[j + (|grid| - dims)]
    {
      assert s[j] == grid[j] && b[j] == grid[m..][j - 1];
    }
  }

  // ----- When flattening keeps the id -----

  /** The weight of coordinate i. */
  function Weight(shape: seq<nat>, i: nat): nat
    requires i < |shape|
  {
    Size(shape[i + 1..])
  }

  /** Both shapes weigh each coordinate the same, except one that is always 0 in `b`. */
  predicate SameWeights(a: seq<nat>, b: seq<nat>)
    requires |a| == |b|
  {
    forall i :: 0 <= i < |b| && b[i] > 1 ==> Weight(a, i) == Weight(b, i)
  }

  lemma {:induction false} SameWeightsSameIndex(a: seq<nat>, b: seq<nat>, c: seq<nat>)
    requires |a| == |b| && SameWeights(a, b) && InBox(b, c)
    ensures Flat(a, c) == Flat(b, c)
  {
    if b != [] {
      forall i | 0 <= i < |b[1..]| && b[1..][i] > 1
        ensures Weight(a[1..], i) == Weight(b[1..], i)
      {
        assert a[1..][i + 1..] == a[i + 1 + 1..] && b[1..][i + 1..] == b[i + 1 + 1..];
        assert Weight(a, i + 1) == Weight(b, i + 1);
      }
      SameWeightsSameIndex(a[1..], b[1..], c[1..]);
      assert b[0] > 1 ==> Weight(a, 0) == Weight(b, 0);
    }
  }

  /** The coordinate that is 1 in dimension i and 0 elsewhere. */
  function Unit(n: nat, i: nat): (c: seq<nat>)
    ensures |c| == n
  {
    seq(n, j => if j == i then 1 else 0)
  }

  lemma {:induction false} ZeroIndex(shape: seq<nat>)
    ensures Flat(shape, seq(|shape|, _ => 0)) == 0
  {
    if shape != [] {
      ZeroIndex(shape[1..]);
      assert seq(|shape|, _ => 0 as nat)[1..] == seq(|shape| - 1, _ => 0);
    }
  }

  lemma {:induction false} UnitIndex(shape: seq<nat>, i: nat)
    requires i < |shape|
    ensures Flat(shape, Unit(|shape|, i)) == Weight(shape, i)
  {
    if i == 0 {
      ZeroIndex(shape[1..]);
      assert Unit(|shape|, 0)[1..] == seq(|shape| - 1, _ => 0);
    } else {
      UnitIndex(shape[1..], i - 1);
      assert Unit(|shape|, i)[1..] == Unit(|shape| - 1, i - 1);
      assert shape[1..][i..] == shape[i + 1..];
    }
  }

  /** `flatten_node_index(node(dims))` gives every id back exactly when the node box and the grid's own leading
      sizes weigh the coordinates the same. */
  lemma IdSurvivesExactly(grid: seq<nat>, dims: nat)
    requires Grid(grid) && 1 <= dims <= |grid|
    ensures Size(NodeBox(grid, dims)) == Size(grid)
    ensures (forall id: nat :: id < Size(grid) ==> Flat(grid[..dims], Unflat(NodeBox(grid, dims), id)) == id)
            <==> SameWeights(grid[..dims], NodeBox(grid, dims))
  {
    var (own, box) := (grid[..dims], NodeBox(grid, dims));
    NodeBoxSize(grid, dims);
    hide NodeBox, Flat, Unflat, Size, SameWeights, Grid;
    if SameWeights(own, box) {
      forall id: nat | id < Size(box)
        ensures Flat(own, Unflat(box, id)) == id
      {
        FlatOfUnflat(box, id);
        SameWeightsSameIndex(own, box, Unflat(box, id));
      }
    } else {
      var id := LostId(own, box);
    }
  }

  /** Where the weights differ, the index of a unit coordinate is lost. */
  lemma LostId(own: seq<nat>, box: seq<nat>) returns (id: nat)
    requires |own| == |box| && !SameWeights(own, box) && Size(box) > 0
    ensures id < Size(box) && Flat(own, Unflat(box, id)) != id
  {
    var i :| 0 <= i < |box| && box[i] > 1 && Weight(own, i) != Weight(box, i);
    var c := Unit(|box|, i);
    SizePositive(box);
    assert InBox(box, c);
    hide Flat, Unflat, Size;
    FlatBound(box, c);
    UnflatOfFlat(box, c);
    UnitIndex(own, i);
    UnitIndex(box, i);
    id := Flat(box, c);
  }

  /** In between they disagree: on a 2 x 3 x 4 grid `node(2)` ranges over 6 x 4, `grid_size(2)` is
      2 x 12, and flattening `node(2)` with the grid's own sizes loses the id. */
  lemma MiddleDimsDisagree()
    ensures NodeBox([2, 3, 4], 2) == [6, 4] && SizeBox([2, 3, 4], 2) == [2, 12]
    ensures Size([2, 3, 4]) == 24 && Size(NodeBox([2, 3, 4], 2)) == 24 && Unflat(NodeBox([2, 3, 4], 2), 4) == [1, 0]
    ensures Flat([2, 3, 4][..2], [1, 0]) == 3
  {
    var g: seq<nat> := [2, 3, 4];
    assert g[..2] == [2, 3] && g[2..] == [4] && g[..1] == [2] && g[1..] == [3, 4];
    SizeTwo(2, 3);
    SizeTwo(3, 4);
    SizeTwo(6, 4);
    FlatTwo(2, 3, 1, 0);
    FlatTwo(6, 4, 1, 0);
    UnflatOfFlat([6, 4], [1, 0]);
    SizeAppend([2, 3], [4]);
    SizeOne(4);
    assert g == [2, 3] + [4];
  }
}
