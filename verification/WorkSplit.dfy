/** Splitting work over cores (python/sim/ttnnsim.py) and the tiles each node then takes
    (examples/multinode_matmul.py). */
module WorkSplit {
  import opened Arith
  import opened Coords
  import opened Wrappers

  datatype Core = Core(x: nat, y: nat)

  /** An inclusive rectangle. */
  datatype CoreRange = CoreRange(start: Core, end: Core) {
    predicate Valid() { start.x <= end.x && start.y <= end.y }
    predicate Has(c: Core) { start.x <= c.x <= end.x && start.y <= c.y <= end.y }
    function Width(): nat requires Valid() { end.x - start.x + 1 }
    function Height(): nat requires Valid() { end.y - start.y + 1 }
    function NumCores(): nat requires Valid() { Width() * Height() }
  }

  /** The two inputs `split_work_to_cores` takes. */
  datatype CoreGrid = Grid(x: nat, y: nat) | Ranges(ranges: seq<CoreRange>) {
    predicate Valid() { Ranges? ==> forall i :: 0 <= i < |ranges| ==> ranges[i].Valid() }

    function NumCores(): nat
      requires Valid()
    {
      match this
      case Grid(w, h) => w * h
      case Ranges(rs) => RangesCores(rs)
    }

    predicate Has(c: Core)
    {
      match this
      case Grid(w, h) => c.x < w && c.y < h
      case Ranges(rs) => exists i :: 0 <= i < |rs| && rs[i].Has(c)
    }
  }

  function RangesCores(rs: seq<CoreRange>): nat
    requires forall i :: 0 <= i < |rs| ==> rs[i].Valid()
  {
    if rs == [] then 0 else RangesCores(rs[..|rs| - 1]) + rs[|rs| - 1].NumCores()
  }

  // ----- The order in which cores are used -----

  /** Lines of a w x h rectangle in the order of use, and how long they are. */
  function Lines(w: nat, h: nat, rowWise: bool): nat { if rowWise then h else w }
  function Length(w: nat, h: nat, rowWise: bool): nat { if rowWise then w else h }

  /** The k-th core of a line of the rectangle at (x0, y0). */
  function CoreAt(x0: nat, y0: nat, rowWise: bool, line: nat, k: nat): Core
  {
    if rowWise then Core(x0 + k, y0 + line) else Core(x0 + line, y0 + k)
  }

  /** The cores of the rectangle, one line after the other. */
  function Rectangle(x0: nat, y0: nat, w: nat, h: nat, rowWise: bool): (r: seq<Core>)
    ensures |r| == Lines(w, h, rowWise) * Length(w, h, rowWise) == w * h
  {
    var (n, m) := (Lines(w, h, rowWise), Length(w, h, rowWise));
    assert n * m == w * h;
    seq(n * m, k requires 0 <= k < n * m => (PositiveFactors(n, m); CoreAt(x0, y0, rowWise, k / m, k % m)))
  }

  function CoreList(g: CoreGrid, rowWise: bool): (r: seq<Core>)
    requires g.Valid()
    ensures |r| == g.NumCores()
  {
    match g
    case Grid(w, h) => Rectangle(0, 0, w, h, rowWise)
    case Ranges(rs) => RangesList(rs)
  }

  function RangesList(rs: seq<CoreRange>): (r: seq<Core>)
    requires forall i :: 0 <= i < |rs| ==> rs[i].Valid()
    ensures |r| == RangesCores(rs)
  {
    if rs == [] then []
    else
      var last := rs[|rs| - 1];
      RangesList(rs[..|rs| - 1]) + Rectangle(last.start.x, last.start.y, last.Width(), last.Height(), true)
  }

  lemma InLine(k: nat, lines: nat, length: nat)
    requires k < lines * length
    ensures length >= 1 && k / length < lines && k % length < length && k == k / length * length + k % length
  {
    PositiveFactors(lines, length);
    QuotientBelow(k, lines, length);
  }

  lemma SamePlace(i: nat, j: nat, lines: nat, length: nat)
    requires i < lines * length && j < lines * length && length >= 1
    requires i / length == j / length && i % length == j % length
    ensures i == j
  {
    InLine(i, lines, length);
    InLine(j, lines, length);
  }

  lemma RectangleAt(x0: nat, y0: nat, w: nat, h: nat, rowWise: bool, k: nat)
    requires k < w * h
    ensures var (r, m) := (Rectangle(x0, y0, w, h, rowWise), Length(w, h, rowWise));
            && m >= 1 && r[k] == CoreAt(x0, y0, rowWise, k / m, k % m)
            && k / m < Lines(w, h, rowWise) && k % m < m
  {
    InLine(k, Lines(w, h, rowWise), Length(w, h, rowWise));
  }

  lemma RectangleInjective(x0: nat, y0: nat, w: nat, h: nat, rowWise: bool, i: nat, j: nat)
    requires i < j < w * h
    ensures Rectangle(x0, y0, w, h, rowWise)[i] != Rectangle(x0, y0, w, h, rowWise)[j]
  {
    hide Rectangle;
    var (n, m) := (Lines(w, h, rowWise), Length(w, h, rowWise));
    RectangleAt(x0, y0, w, h, rowWise, i);
    RectangleAt(x0, y0, w, h, rowWise, j);
    if i / m == j / m && i % m == j % m {
      SamePlace(i, j, n, m);
    }
  }

  lemma RectangleDistinct(x0: nat, y0: nat, w: nat, h: nat, rowWise: bool)
    ensures Distinct(Rectangle(x0, y0, w, h, rowWise))
    ensures forall c :: c in Rectangle(x0, y0, w, h, rowWise) ==> x0 <= c.x < x0 + w && y0 <= c.y < y0 + h
  {
    hide Rectangle;
    var r := Rectangle(x0, y0, w, h, rowWise);
    forall k: nat | k < |r|
      ensures x0 <= r[k].x < x0 + w && y0 <= r[k].y < y0 + h
    {
      RectangleAt(x0, y0, w, h, rowWise, k);
    }
    forall i: nat, j: nat | i < j < |r|
      ensures r[i] != r[j]
    {
      RectangleInjective(x0, y0, w, h, rowWise, i, j);
    }
  }

  lemma LineIsListed(x0: nat, y0: nat, w: nat, h: nat, rowWise: bool, line: nat, k: nat) returns (at: nat)
    requires line < Lines(w, h, rowWise) && k < Length(w, h, rowWise)
    ensures at < |Rectangle(x0, y0, w, h, rowWise)|
    ensures Rectangle(x0, y0, w, h, rowWise)[at] == CoreAt(x0, y0, rowWise, line, k)
  {
    hide *;
    LineCore(x0, y0, w, h, rowWise, line, k);
    at := line * Length(w, h, rowWise) + k;
  }

  /** Every core of the rectangle is listed. */
  lemma RectangleHas(x0: nat, y0: nat, w: nat, h: nat, rowWise: bool, c: Core)
    requires x0 <= c.x < x0 + w && y0 <= c.y < y0 + h
    ensures c in Rectangle(x0, y0, w, h, rowWise)
  {
    hide Rectangle;
    var (line, k) := if rowWise then (c.y - y0, c.x - x0) else (c.x - x0, c.y - y0);
    var at := LineIsListed(x0, y0, w, h, rowWise, line, k);
    assert Rectangle(x0, y0, w, h, rowWise)[at] == c;
  }

  lemma {:induction false} RangesHave(rs: seq<CoreRange>, c: Core)
    requires (forall i :: 0 <= i < |rs| ==> rs[i].Valid()) && Ranges(rs).Has(c)
    ensures c in RangesList(rs)
  {
    var (head, last) := (rs[..|rs| - 1], rs[|rs| - 1]);
    if last.Has(c) {
      RectangleHas(last.start.x, last.start.y, last.Width(), last.Height(), true, c);
    } else {
      var i :| 0 <= i < |rs| && rs[i].Has(c);
      assert head[i].Has(c);
      RangesHave(head, c);
    }
  }

  /** Row-wise, a rectangle is listed by ascending (y, x), otherwise by ascending (x, y). */
  lemma RectangleAscends(x0: nat, y0: nat, w: nat, h: nat, rowWise: bool, i: nat, j: nat)
    requires i < j < w * h
    ensures var (a, b) := (Rectangle(x0, y0, w, h, rowWise)[i], Rectangle(x0, y0, w, h, rowWise)[j]);
            if rowWise then a.y < b.y || (a.y == b.y && a.x < b.x) else a.x < b.x || (a.x == b.x && a.y < b.y)
  {
    hide Rectangle;
    var m := Length(w, h, rowWise);
    RectangleAt(x0, y0, w, h, rowWise, i);
    RectangleAt(x0, y0, w, h, rowWise, j);
    LaterOnes(i, j, m);
  }

  lemma LaterOnes(i: nat, j: nat, length: nat)
    requires i < j && length >= 1
    ensures i / length < j / length || (i / length == j / length && i % length < j % length)
  {
    var a, p := PlaceOf(i, length);
    var b, q := PlaceOf(j, length);
    LaterPlace(a, p, b, q, length);
  }

  lemma PlaceOf(k: nat, length: nat) returns (line: nat, place: nat)
    requires length >= 1
    ensures line == k / length && place == k % length && k == line * length + place && place < length
  {
    line, place := k / length, k % length;
  }

  lemma LaterPlace(a: nat, p: nat, b: nat, q: nat, m: nat)
    requires a * m + p < b * m + q && p < m && q < m
    ensures a < b || (a == b && p < q)
  {
    Below(b, q, b + 1, m);
    SmallerFactor(a, b + 1, m);
  }

  lemma SmallerFactor(a: nat, b: nat, m: nat)
    requires a * m < b * m
    ensures a < b
  {
  }

  /** The cores in the order of use: a grid by rows or by columns, ranges one after the other and each by rows. */
  lemma {:induction false} ListOrder(rs: seq<CoreRange>, i: nat, k: nat)
    requires (forall j :: 0 <= j < |rs| ==> rs[j].Valid()) && i < |rs| && k < rs[i].NumCores()
    ensures |RangesList(rs[..i])| + k < |RangesList(rs)|
    ensures RangesList(rs)[|RangesList(rs[..i])| + k]
            == Rectangle(rs[i].start.x, rs[i].start.y, rs[i].Width(), rs[i].Height(), true)[k]
  {
    var head := rs[..|rs| - 1];
    hide Rectangle;
    if i < |rs| - 1 {
      ListOrder(head, i, k);
      assert head[..i] == rs[..i];
    }
  }

  ghost predicate Disjoint(g: CoreGrid)
  {
    g.Ranges? ==> forall i, j, c :: 0 <= i < j < |g.ranges| ==> !(g.ranges[i].Has(c) && g.ranges[j].Has(c))
  }

  lemma {:induction false} RangesDistinct(rs: seq<CoreRange>)
    requires forall i :: 0 <= i < |rs| ==> rs[i].Valid()
    requires Disjoint(Ranges(rs))
    ensures Distinct(RangesList(rs))
    ensures forall c :: c in RangesList(rs) ==> Ranges(rs).Has(c)
  {
    if rs != [] {
      var (head, last) := (rs[..|rs| - 1], rs[|rs| - 1]);
      RangesDistinct(head);
      RectangleDistinct(last.start.x, last.start.y, last.Width(), last.Height(), true);
      var (a, b) := (RangesList(head), Rectangle(last.start.x, last.start.y, last.Width(), last.Height(), true));
      forall c | c in b
        ensures last.Has(c) && c !in a
      {
        assert last.Has(c) && last == rs[|rs| - 1];
        assert forall i :: 0 <= i < |head| ==> head[i] == rs[i] && !rs[i].Has(c);
      }
      forall c | c in a + b
        ensures Ranges(rs).Has(c)
      {
        if c in a {
          var i :| 0 <= i < |head| && head[i].Has(c);
          assert rs[i].Has(c);
        } else {
          assert rs[|rs| - 1].Has(c);
        }
      }
      forall i, j | 0 <= i < j < |a + b|
        ensures (a + b)[i] != (a + b)[j]
      {
        if i < |a| <= j {
          assert a[i] in a && b[j - |a|] in b;
        }
      }
    }
  }

  /** The list has exactly the cores of the grid, each once. */
  lemma ListIsProper(g: CoreGrid, rowWise: bool)
    requires g.Valid() && Disjoint(g)
    ensures Distinct(CoreList(g, rowWise)) && forall c :: c in CoreList(g, rowWise) <==> g.Has(c)
  {
    match g {
      case Grid(w, h) => RectangleDistinct(0, 0, w, h, rowWise);
      case Ranges(rs) => RangesDistinct(rs);
    }
    forall c | g.Has(c)
      ensures c in CoreList(g, rowWise)
    {
      match g {
        case Grid(w, h) => RectangleHas(0, 0, w, h, rowWise, c);
        case Ranges(rs) => RangesHave(rs, c);
      }
    }
  }

  // ----- Listing -----

  function Min(a: nat, b: nat): nat { if a <= b then a else b }

  /** Append the cores of one rectangle while fewer than `limit` are listed. */
  method ListRectangle(x0: nat, y0: nat, w: nat, h: nat, rowWise: bool, limit: nat, acc: seq<Core>)
    returns (cores: seq<Core>)
    requires |acc| <= limit
    ensures cores == acc + Rectangle(x0, y0, w, h, rowWise)[..Min(limit - |acc|, w * h)]
  {
    var (lines, length) := (Lines(w, h, rowWise), Length(w, h, rowWise));
    ghost var all := Rectangle(x0, y0, w, h, rowWise);
    cores := acc;
    for line := 0 to lines
      invariant line * length <= w * h
      invariant cores == acc + all[..Min(limit - |acc|, line * length)]
    {
      LineBound(line, lines, length);
      for k := 0 to length
        invariant cores == acc + all[..Min(limit - |acc|, line * length + k)]
      {
        LineCore(x0, y0, w, h, rowWise, line, k);
        if |cores| < limit {
          cores := cores + [CoreAt(x0, y0, rowWise, line, k)];
        }
      }
    }
  }

  lemma LineBound(line: nat, lines: nat, length: nat)
    requires line < lines
    ensures (line + 1) * length == line * length + length <= lines * length
  {
    var rest := lines - (line + 1);
    assert rest * length >= 0;
    assert rest * length + (line + 1) * length == lines * length;
  }

  lemma LineCore(x0: nat, y0: nat, w: nat, h: nat, rowWise: bool, line: nat, k: nat)
    requires line < Lines(w, h, rowWise) && k < Length(w, h, rowWise)
    ensures line * Length(w, h, rowWise) + k < w * h
    ensures Rectangle(x0, y0, w, h, rowWise)[line * Length(w, h, rowWise) + k] == CoreAt(x0, y0, rowWise, line, k)
  {
    var (n, m) := (Lines(w, h, rowWise), Length(w, h, rowWise));
    Below(line, k, n, m);
    DivUnique(line * m + k, m, line, k);
  }

  /** The first `limit` cores of the grid in the order of use. */
  method ListCores(g: CoreGrid, rowWise: bool, limit: nat) returns (cores: seq<Core>)
    requires g.Valid()
    ensures cores == CoreList(g, rowWise)[..Min(limit, g.NumCores())]
  {
    match g {
      case Grid(w, h) =>
        cores := ListRectangle(0, 0, w, h, rowWise, limit, []);
      case Ranges(rs) =>
        cores := [];
        for i := 0 to |rs|
          invariant cores == RangesList(rs[..i])[..Min(limit, RangesCores(rs[..i]))]
        {
          assert rs[..i + 1][..i] == rs[..i];
          cores := ListRectangle(rs[i].start.x, rs[i].start.y, rs[i].Width(), rs[i].Height(), true, limit, cores);
        }
        assert rs[..|rs|] == rs;
    }
  }

  // ----- Splitting -----

  datatype Split = Split(cores: nat, group1: seq<Core>, group2: seq<Core>, units1: nat, units2: nat)

  /** Every unit is given out, loads differ by at most one, and only used cores carry work. */
  ghost predicate Fair(s: Split, numCores: nat, units: nat)
  {
    && s.cores == Min(numCores, units) == |s.group1| + |s.group2|
    && |s.group1| * s.units1 + |s.group2| * s.units2 == units
    && (s.group1 != [] ==> s.units1 >= 1)
    && (s.group2 != [] ==> s.group1 != [] && s.units2 >= 1 && s.units1 == s.units2 + 1)
  }

  lemma EvenShare(units: nat, used: nat)
    requires 1 <= used <= units
    ensures var (base, remainder) := (units / used, units % used);
            && base >= 1 && remainder < used && used * base + remainder == units
            && remainder * (base + 1) + (used - remainder) * base == units
  {
    var (base, remainder) := (units / used, units % used);
    assert remainder * (base + 1) + (used - remainder) * base == used * base + remainder;
  }

  method SplitWorkToCores(g: CoreGrid, units: nat, rowWise: bool) returns (s: Split)
    requires g.Valid()
    ensures s.cores <= g.NumCores() && s.group1 + s.group2 == CoreList(g, rowWise)[..s.cores]
    ensures Fair(s, g.NumCores(), units) <==> g.NumCores() > 0 || units == 0
    ensures s.cores == 0 ==> s == Split(0, [], [], 0, 0)
  {
    var used := Min(g.NumCores(), units);
    if used == 0 {
      return Split(0, [], [], 0, 0);
    }
    var (base, remainder) := (units / used, units % used);
    EvenShare(units, used);
    if remainder == 0 {
      var cores := ListCores(g, rowWise, used);
      s := Split(used, cores, [], base, 0);
    } else {
      var cores := ListCores(g, rowWise, g.NumCores());
      s := Split(used, cores[..remainder], cores[remainder..used], base + 1, base);
    }
  }

  // ----- The tiles of a node -----

  /** `get_tiles_per_node` and `get_start_tile_id`. */
  function TilesOf(s: Split, id: nat): nat
  {
    if id < |s.group1| then s.units1
    else if id < |s.group1| + |s.group2| then s.units2
    else 0
  }

  function StartOf(s: Split, id: nat): nat
  {
    if id < |s.group1| then id * s.units1
    else if id < |s.group1| + |s.group2| then |s.group1| * s.units1 + (id - |s.group1|) * s.units2
    else 0
  }

  /** `get_number_of_nodes`: the nodes in all ranges of a set, counted by their sides. */
  method NumberOfNodes(ranges: seq<CoreRange>) returns (n: nat)
    requires forall i :: 0 <= i < |ranges| ==> ranges[i].Valid()
    ensures n == |RangesList(ranges)|
  {
    n := 0;
    for i := 0 to |ranges|
      invariant n == RangesCores(ranges[..i])
    {
      assert ranges[..i + 1][..i] == ranges[..i];
      var (x, y) := (ranges[i].end.x - ranges[i].start.x + 1, ranges[i].end.y - ranges[i].start.y + 1);
      n := n + x * y;
    }
    assert ranges[..|ranges|] == ranges;
  }

  function OneCoreRanges(group: seq<Core>): (rs: seq<CoreRange>)
    ensures |rs| == |group| && forall i :: 0 <= i < |rs| ==> rs[i].Valid()
  {
    seq(|group|, i requires 0 <= i < |group| => CoreRange(group[i], group[i]))
  }

  /** The groups of a split are sets of one-core ranges, so their node count is the group's size. */
  lemma {:induction false} GroupNodes(group: seq<Core>)
    ensures |RangesList(OneCoreRanges(group))| == |group|
  {
    if group != [] {
      var k := |group| - 1;
      GroupNodes(group[..k]);
      assert OneCoreRanges(group)[..k] == OneCoreRanges(group[..k]);
    }
  }

  predicate Takes(s: Split, id: nat, tile: nat) { StartOf(s, id) <= tile < StartOf(s, id) + TilesOf(s, id) }

  /** The node that computes a tile. */
  function TakerOf(s: Split, tile: nat): nat
    requires s.units1 >= 1 && (tile >= |s.group1| * s.units1 ==> s.units2 >= 1)
  {
    if tile < |s.group1| * s.units1 then tile / s.units1
    else |s.group1| + (tile - |s.group1| * s.units1) / s.units2
  }

  lemma ChunkOf(tile: nat, chunk: nat, id: nat)
    requires chunk >= 1
    ensures id * chunk <= tile < id * chunk + chunk <==> id == tile / chunk
  {
    if id * chunk <= tile < id * chunk + chunk {
      DivUnique(tile, chunk, id, tile - id * chunk);
    }
  }

  lemma ChunksBelow(id: nat, count: nat, chunk: nat)
    requires id < count
    ensures id * chunk + chunk <= count * chunk
  {
    LineBound(id, count, chunk);
  }

  lemma TiledFirst(s: Split, tile: nat, id: nat)
    requires s.units1 >= 1 && tile < |s.group1| * s.units1
    ensures Takes(s, id, tile) <==> id == tile / s.units1
    ensures tile / s.units1 < |s.group1|
  {
    ChunkOf(tile, s.units1, id);
    QuotientBelow(tile, |s.group1|, s.units1);
    if |s.group1| <= id {
      assert (id - |s.group1|) * s.units2 >= 0;
    }
  }

  lemma TiledSecond(s: Split, tile: nat, id: nat)
    requires s.units2 >= 1 && |s.group1| * s.units1 <= tile < |s.group1| * s.units1 + |s.group2| * s.units2
    ensures Takes(s, id, tile) <==> id == |s.group1| + (tile - |s.group1| * s.units1) / s.units2
    ensures (tile - |s.group1| * s.units1) / s.units2 < |s.group2|
  {
    var n1 := |s.group1|;
    var rest := tile - n1 * s.units1;
    QuotientBelow(rest, |s.group2|, s.units2);
    if id < n1 {
      ChunksBelow(id, n1, s.units1);
    } else {
      ChunkOf(rest, s.units2, id - n1);
    }
  }

  /** Every unit is taken by exactly one node, and that node is one of the used ones: the start offsets
      tile [0, units). */
  lemma UnitsTiled(s: Split, numCores: nat, units: nat, tile: nat, id: nat)
    requires Fair(s, numCores, units) && tile < units
    ensures s.units1 >= 1 && (tile >= |s.group1| * s.units1 ==> s.units2 >= 1)
    ensures Takes(s, id, tile) <==> id == TakerOf(s, tile)
    ensures TakerOf(s, tile) < s.cores
  {
    hide Takes;
    assert s.group1 != [] by {
      assert s.group1 == [] ==> |s.group1| * s.units1 == 0 && s.group2 == [];
    }
    if tile < |s.group1| * s.units1 {
      TiledFirst(s, tile, id);
    } else {
      assert s.group2 != [] by { assert s.group2 == [] ==> |s.group2| * s.units2 == 0; }
      TiledSecond(s, tile, id);
    }
  }

  /** A node takes nothing beyond the units. */
  lemma NothingBeyond(s: Split, numCores: nat, units: nat, tile: nat, id: nat)
    requires Fair(s, numCores, units) && Takes(s, id, tile)
    ensures tile < units && id < s.cores
  {
    var n1 := |s.group1|;
    if id < n1 {
      ChunksBelow(id, n1, s.units1);
    } else if id < n1 + |s.group2| {
      ChunksBelow(id - n1, |s.group2|, s.units2);
    }
  }
}
