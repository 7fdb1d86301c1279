/** Pipe destinations (python/sim/pipe.py): which nodes a destination lists, which nodes accept it, and
    whether the receiver count put on a message is right (python/sim/copyhandlers.py). */
module Destinations {
  import opened Arith
  import opened Wrappers
  import opened Coords
  import opened Nodes

  /** One axis of a destination tuple: an index, or a slice with Python's optional parts. */
  datatype Item = At(i: int) | Slice(start: Option<int>, stop: Option<int>, step: Option<int>) {
    predicate Valid() { Slice? && step.Some? ==> step.value >= 1 }

    function Lo(): int requires Slice? { if start.Some? then start.value else 0 }
    function Hi(size: nat): int requires Slice? { if stop.Some? then stop.value else size }
    function Step(): int requires Slice? { if step.Some? then step.value else 1 }

    /** Does this axis accept coordinate `c`? */
    predicate Accepts(size: nat, c: int)
      requires Valid()
    {
      match this
      case At(i) => c == i
      case Slice(_, _, _) => Lo() <= c < Hi(size) && (c - Lo()) % Step() == 0
    }

    /** range(start, stop, step), or the index itself. */
    function Values(size: nat): seq<int>
      requires Valid()
    {
      match this
      case At(i) => [i]
      case Slice(_, _, _) => Range(Lo(), Hi(size), Step())
    }
  }

  function Range(lo: int, hi: int, step: int): seq<int>
    requires step >= 1
    decreases hi - lo
  {
    if lo >= hi then [] else [lo] + Range(lo + step, hi, step)
  }

  lemma StepBack(v: int, lo: int, step: int)
    requires step >= 1 && v > lo
    ensures (v - lo) % step == 0 <==> v >= lo + step && (v - (lo + step)) % step == 0
  {
    var q := (v - lo) / step;
    assert v - lo == q * step + (v - lo) % step;
    DivUnique(v - (lo + step), step, q - 1, (v - lo) % step);
    assert q >= 1 <==> v >= lo + step by {
      assert q >= 1 ==> q * step >= step;
    }
  }

  lemma {:induction false} RangeHas(v: int, lo: int, hi: int, step: int)
    requires step >= 1
    ensures v in Range(lo, hi, step) <==> lo <= v < hi && (v - lo) % step == 0
    decreases hi - lo
  {
    if lo < hi {
      RangeHas(v, lo + step, hi, step);
      if v > lo {
        StepBack(v, lo, step);
      }
    }
  }

  lemma {:induction false} RangeAscends(lo: int, hi: int, step: int)
    requires step >= 1
    ensures forall i :: 0 <= i < |Range(lo, hi, step)| ==> Range(lo, hi, step)[i] >= lo
    ensures Distinct(Range(lo, hi, step))
    decreases hi - lo
  {
    if lo < hi {
      RangeAscends(lo + step, hi, step);
    }
  }

  lemma ValuesExact(item: Item, size: nat)
    requires item.Valid()
    ensures forall v :: v in item.Values(size) <==> item.Accepts(size, v)
    ensures Distinct(item.Values(size))
  {
    if item.Slice? {
      hide Range;
      var (lo, hi, step) := (item.Lo(), item.Hi(size), item.Step());
      assert item.Values(size) == Range(lo, hi, step);
      RangeAscends(lo, hi, step);
      forall v
        ensures v in item.Values(size) <==> item.Accepts(size, v)
      {
        RangeHas(v, lo, hi, step);
      }
    }
  }

  /** What the parts of a slice leave open: `:` is the whole axis, `a:` and `:b` its ends, `::k` every k-th node
      from 0. */
  lemma OpenSlices(size: nat, a: int, b: int, k: int, c: int)
    requires k >= 1
    ensures Slice(None, None, None).Accepts(size, c) <==> 0 <= c < size
    ensures Slice(Some(a), None, None).Accepts(size, c) <==> a <= c < size
    ensures Slice(None, Some(b), None).Accepts(size, c) <==> 0 <= c < b
    ensures Slice(None, None, Some(k)).Accepts(size, c) <==> 0 <= c < size && c % k == 0
    ensures Slice(Some(a), Some(b), Some(k)).Accepts(size, c) <==> a <= c < b && (c - a) % k == 0
    ensures At(a).Accepts(size, c) <==> c == a
  {
  }

  // ----- The Cartesian product -----

  function Extend(current: seq<int>, tuples: seq<seq<int>>): (r: seq<seq<int>>)
    ensures |r| == |tuples| && forall k :: 0 <= k < |r| ==> r[k] == current + tuples[k]
  {
    seq(|tuples|, k requires 0 <= k < |tuples| => current + tuples[k])
  }

  function Tuples(ranges: seq<seq<int>>): seq<seq<int>>
    decreases |ranges|, 0
  {
    if ranges == [] then [[]] else FirstOf(ranges[0], ranges[1..])
  }

  function FirstOf(values: seq<int>, rest: seq<seq<int>>): seq<seq<int>>
    decreases |rest| + 1, 0, |values|
  {
    if values == [] then [] else FirstOf(values[..|values| - 1], rest) + Extend([values[|values| - 1]], Tuples(rest))
  }

  /** The recursive helper of `expand_node_range`; `acc` is its captured result list. */
  method CartesianProduct(ranges: seq<seq<int>>, current: seq<int>, acc: seq<seq<int>>) returns (r: seq<seq<int>>)
    ensures r == acc + Extend(current, Tuples(ranges))
    decreases |ranges|
  {
    if ranges == [] {
      assert current + [] == current;
      return acc + [current];
    }
    hide FirstOf;
    r := acc;
    ProductStarts(ranges, current, acc);
    for k := 0 to |ranges[0]|
      invariant r == acc + Extend(current, FirstOf(ranges[0][..k], ranges[1..]))
    {
      r := CartesianProduct(ranges[1..], current + [ranges[0][k]], r);
      ProductStep(ranges[0], ranges[1..], current, acc, k);
    }
  }

  lemma ProductStarts(ranges: seq<seq<int>>, current: seq<int>, acc: seq<seq<int>>)
    requires ranges != []
    ensures acc + Extend(current, FirstOf(ranges[0][..0], ranges[1..])) == acc
    ensures FirstOf(ranges[0][..|ranges[0]|], ranges[1..]) == Tuples(ranges)
  {
    assert ranges[0][..|ranges[0]|] == ranges[0];
  }

  lemma ProductStep(values: seq<int>, rest: seq<seq<int>>, current: seq<int>, acc: seq<seq<int>>, k: nat)
    requires k < |values|
    ensures acc + Extend(current, FirstOf(values[..k], rest)) + Extend(current + [values[k]], Tuples(rest))
         == acc + Extend(current, FirstOf(values[..k + 1], rest))
  {
    FirstOfSteps(values, rest, k);
    hide FirstOf;
    ExtendTwice(current, values[k], FirstOf(values[..k], rest), Tuples(rest));
  }

  lemma FirstOfSteps(values: seq<int>, rest: seq<seq<int>>, k: nat)
    requires k < |values|
    ensures FirstOf(values[..k + 1], rest) == FirstOf(values[..k], rest) + Extend([values[k]], Tuples(rest))
  {
    assert values[..k + 1][..k] == values[..k];
  }

  lemma ExtendTwice(current: seq<int>, value: int, before: seq<seq<int>>, rest: seq<seq<int>>)
    ensures Extend(current, before + Extend([value], rest)) == Extend(current, before) + Extend(current + [value], rest)
  {
    var x := Extend(current, before + Extend([value], rest));
    var y := Extend(current, before) + Extend(current + [value], rest);
    forall k | 0 <= k < |x|
      ensures x[k] == y[k]
    {
      if k >= |before| {
        assert current + ([value] + rest[k - |before|]) == current + [value] + rest[k - |before|];
      }
    }
  }

  predicate Picks(ranges: seq<seq<int>>, c: seq<int>)
  {
    |c| == |ranges| && forall i :: 0 <= i < |c| ==> c[i] in ranges[i]
  }

  lemma {:induction false} FirstOfExact(values: seq<int>, rest: seq<seq<int>>)
    requires forall c :: c in Tuples(rest) <==> Picks(rest, c)
    requires Distinct(Tuples(rest)) && Distinct(values)
    ensures forall c :: c in FirstOf(values, rest) <==> |c| > 0 && c[0] in values && Picks(rest, c[1..])
    ensures Distinct(FirstOf(values, rest))
  {
    if values != [] {
      var (head, v) := (values[..|values| - 1], values[|values| - 1]);
      FirstOfExact(head, rest);
      var (a, b) := (FirstOf(head, rest), Extend([v], Tuples(rest)));
      assert values == head + [v];
      ExtendOne(v, Tuples(rest));
      forall c
        ensures c in a + b <==> |c| > 0 && c[0] in values && Picks(rest, c[1..])
      {
      }
      assert v !in head by {
        assert forall i :: 0 <= i < |head| ==> values[i] != values[|values| - 1];
      }
      DistinctAppend(a, b);
    }
  }

  lemma ExtendOne(v: int, tuples: seq<seq<int>>)
    requires Distinct(tuples)
    ensures forall c :: c in Extend([v], tuples) <==> |c| > 0 && c[0] == v && c[1..] in tuples
    ensures Distinct(Extend([v], tuples))
  {
    var e := Extend([v], tuples);
    forall c
      ensures c in e <==> |c| > 0 && c[0] == v && c[1..] in tuples
    {
      if c in e {
        var k :| 0 <= k < |e| && e[k] == c;
        assert c[1..] == tuples[k];
      }
      if |c| > 0 && c[0] == v && c[1..] in tuples {
        var k :| 0 <= k < |tuples| && tuples[k] == c[1..];
        assert e[k] == c;
      }
    }
    forall i, j | 0 <= i < j < |e|
      ensures e[i] != e[j]
    {
      assert e[i][1..] == tuples[i] && e[j][1..] == tuples[j];
    }
  }

  lemma DistinctAppend<T>(a: seq<T>, b: seq<T>)
    requires Distinct(a) && Distinct(b) && forall x :: x in a ==> x !in b
    ensures Distinct(a + b)
  {
    forall i, j | 0 <= i < j < |a + b|
      ensures (a + b)[i] != (a + b)[j]
    {
      if i < |a| <= j {
        assert a[i] in a && b[j - |a|] in b;
      }
    }
  }

  /** The product lists every choice of one value from each range, once. */
  lemma {:induction false} TuplesExact(ranges: seq<seq<int>>)
    requires forall i :: 0 <= i < |ranges| ==> Distinct(ranges[i])
    ensures forall c :: c in Tuples(ranges) <==> Picks(ranges, c)
    ensures Distinct(Tuples(ranges))
  {
    if ranges != [] {
      TuplesExact(ranges[1..]);
      FirstOfExact(ranges[0], ranges[1..]);
      forall c
        ensures c in Tuples(ranges) <==> Picks(ranges, c)
      {
        PicksFirst(ranges, c);
      }
    }
  }

  lemma PicksFirst(ranges: seq<seq<int>>, c: seq<int>)
    requires ranges != []
    ensures Picks(ranges, c) <==> |c| > 0 && c[0] in ranges[0] && Picks(ranges[1..], c[1..])
  {
    if |c| > 0 && c[0] in ranges[0] && Picks(ranges[1..], c[1..]) {
      forall i | 0 <= i < |c|
        ensures c[i] in ranges[i]
      {
        if i > 0 {
          assert c[1..][i - 1] in ranges[1..][i - 1];
        }
      }
    }
  }

  // ----- Destinations -----

  /** A destination: a linear id, or a tuple of axes. */
  datatype Dst = Linear(id: int) | Axes(items: seq<Item>) {
    predicate HasSlices() { Axes? && exists i :: 0 <= i < |items| && items[i].Slice? }
    predicate Valid() { Axes? ==> |items| >= 1 && forall i :: 0 <= i < |items| ==> items[i].Valid() }
  }

  function AxisRanges(items: seq<Item>, sizes: seq<nat>): (r: seq<seq<int>>)
    requires |sizes| == |items| && forall i :: 0 <= i < |items| ==> items[i].Valid()
    ensures |r| == |items|
  {
    seq(|items|, i requires 0 <= i < |items| => items[i].Values(sizes[i]))
  }

  predicate AcceptsAll(items: seq<Item>, sizes: seq<nat>, c: seq<int>)
    requires |sizes| == |items| && forall i :: 0 <= i < |items| ==> items[i].Valid()
  {
    |c| == |items| && forall i :: 0 <= i < |items| ==> items[i].Accepts(sizes[i], c[i])
  }

  /** The node coordinates listed for a destination with slices. */
  method ExpandNodeRange(grid: seq<nat>, dst: Dst) returns (nodes: seq<seq<int>>)
    requires |grid| >= 1 && dst.Valid() && dst.Axes?
    ensures nodes == Tuples(AxisRanges(dst.items, SizeBox(grid, |dst.items|)))
    ensures forall c :: c in nodes <==> AcceptsAll(dst.items, SizeBox(grid, |dst.items|), c)
    ensures Distinct(nodes)
  {
    var sizes := GridSize(grid, |dst.items|);
    var ranges := [];
    for i := 0 to |dst.items|
      invariant ranges == AxisRanges(dst.items, sizes)[..i]
    {
      ranges := ranges + [dst.items[i].Values(sizes[i])];
    }
    assert ranges == AxisRanges(dst.items, sizes);
    nodes := CartesianProduct(ranges, [], []);
    assert forall c: seq<int> :: [] + c == c;
    assert nodes == Tuples(ranges);
    ExpandedExactly(dst.items, sizes);
  }

  lemma ExpandedExactly(items: seq<Item>, sizes: seq<nat>)
    requires |sizes| == |items| && forall i :: 0 <= i < |items| ==> items[i].Valid()
    ensures forall c :: c in Tuples(AxisRanges(items, sizes)) <==> AcceptsAll(items, sizes, c)
    ensures Distinct(Tuples(AxisRanges(items, sizes)))
  {
    var ranges := AxisRanges(items, sizes);
    forall i | 0 <= i < |items|
      ensures Distinct(ranges[i]) && forall v :: v in ranges[i] <==> items[i].Accepts(sizes[i], v)
    {
      ValuesExact(items[i], sizes[i]);
    }
    TuplesExact(ranges);
  }

  /** Does node `id` accept `dst`? */
  ghost predicate NodeAccepts(grid: seq<nat>, dst: Dst, id: nat)
    requires Grid(grid) && dst.Valid()
  {
    match dst
    case Linear(i) => id == i
    case Axes(items) =>
      Size(NodeBox(grid, |items|)) > 0 &&
      (if dst.HasSlices() then AcceptsAll(items, SizeBox(grid, |items|), Unflat(NodeBox(grid, |items|), id))
       else |items| > 1 && AcceptsAll(items, SizeBox(grid, |items|), Unflat(NodeBox(grid, |items|), id)))
  }

  /** `node_in_dst_range`. A plain 1-tuple is compared with the bare integer `node(dims=1)` and never
      matches. */
  method NodeInDstRange(grid: seq<nat>, id: nat, dst: Dst) returns (b: bool)
    requires Grid(grid) && id < Size(grid) && dst.Valid()
    ensures b <==> NodeAccepts(grid, dst, id)
  {
    hide NodeBox, SizeBox, Unflat, InBox, Flat, Size;
    match dst {
      case Linear(i) =>
        var linear := Node(id, grid, 1);
        NodeBoxSize(grid, 1);
        LinearNode(grid, id, linear);
        return linear[0] == i;
      case Axes(items) =>
        var coords := Node(id, grid, |items|);
        var sizes := GridSize(grid, |items|);
        if !dst.HasSlices() && |items| == 1 {
          return false;
        }
        for k := 0 to |items|
          invariant forall m :: 0 <= m < k ==> items[m].Accepts(sizes[m], coords[m])
        {
          if !items[k].Accepts(sizes[k], coords[k]) {
            return false;
          }
        }
        return true;
    }
  }

  lemma LinearNode(grid: seq<nat>, id: nat, c: seq<nat>)
    requires Grid(grid) && id < Size(grid) && Size(NodeBox(grid, 1)) > 0 && c == Unflat(NodeBox(grid, 1), id)
    ensures c == [id]
  {
    NodeBoxSize(grid, 1);
    var box := NodeBox(grid, 1);
    assert box[1..] == [];
    assert Unflat(box, id) == [id / Size(box[1..])] + Unflat(box[1..], id % Size(box[1..]));
  }

  // ----- The receiver count -----

  /** The receiver count that a send puts on its message. */
  method NumReceivers(grid: seq<nat>, dst: Dst) returns (n: nat)
    requires |grid| >= 1 && dst.Valid()
    ensures n == ReceiverCount(grid, dst)
  {
    if dst.HasSlices() {
      var nodes := ExpandNodeRange(grid, dst);
      n := |nodes|;
    } else {
      n := 1;
    }
  }

  function ReceiverCount(grid: seq<nat>, dst: Dst): nat
    requires |grid| >= 1 && dst.Valid()
  {
    if dst.HasSlices() then |Tuples(AxisRanges(dst.items, SizeBox(grid, |dst.items|)))| else 1
  }

  ghost function Receivers(grid: seq<nat>, dst: Dst): set<nat>
    requires Grid(grid) && dst.Valid()
  {
    set id: nat | id < Size(grid) && NodeAccepts(grid, dst, id)
  }

  /** Every value of the axis is a coordinate of the grid. */
  predicate Inside(item: Item, size: nat, box: nat)
    requires item.Valid()
  {
    forall v :: v in item.Values(size) ==> 0 <= v < box
  }

  /** The destination names grid nodes only: an id of the grid; a tuple of at least two indices inside
      the node box; or slices whose every value lies inside it (or one of which is empty). */
  predicate NamesNodes(grid: seq<nat>, dst: Dst)
    requires |grid| >= 1 && dst.Valid()
  {
    match dst
    case Linear(i) => 0 <= i < Size(grid)
    case Axes(items) =>
      var (sizes, box) := (SizeBox(grid, |items|), NodeBox(grid, |items|));
      (dst.HasSlices() || |items| > 1) &&
      ((exists i :: 0 <= i < |items| && items[i].Values(sizes[i]) == []) ||
       (forall i :: 0 <= i < |items| ==> Inside(items[i], sizes[i], box[i])))
  }

  predicate InNodeBox(box: seq<nat>, c: seq<int>)
  {
    |c| == |box| && forall i :: 0 <= i < |c| ==> 0 <= c[i] < box[i]
  }

  lemma {:induction false} SameSize<A, B>(a: set<A>, b: set<B>, f: A -> B, g: B -> A)
    requires forall x :: x in a ==> f(x) in b && g(f(x)) == x
    requires forall y :: y in b ==> g(y) in a && f(g(y)) == y
    ensures |a| == |b|
    decreases a
  {
    if a == {} {
      assert b == {} by {
        if y :| y in b {
          assert g(y) in a;
        }
      }
    } else {
      var x :| x in a;
      SameSize(a - {x}, b - {f(x)}, f, g);
    }
  }

  lemma {:induction false} DistinctSize<T>(s: seq<T>)
    requires Distinct(s)
    ensures |set x | x in s| == |s|
  {
    if s == [] {
      assert (set x | x in s) == {};
    } else {
      var (head, last) := (s[..|s| - 1], s[|s| - 1]);
      DistinctSize(head);
      assert s == head + [last] && last !in head by {
        assert forall i :: 0 <= i < |head| ==> s[i] != s[|s| - 1];
      }
      assert (set x | x in s) == (set x | x in head) + {last};
    }
  }

  /** The nodes that accept a tuple of axes are as many as its listed coordinates inside the box. */
  lemma AcceptorsAreListed(grid: seq<nat>, items: seq<Item>, ids: set<nat>, inside: set<seq<int>>)
    requires Grid(grid) && |items| >= 1 && forall i :: 0 <= i < |items| ==> items[i].Valid()
    requires Size(NodeBox(grid, |items|)) > 0
    requires forall id: nat :: id in ids <==>
               id < Size(grid) && AcceptsAll(items, SizeBox(grid, |items|), Unflat(NodeBox(grid, |items|), id))
    requires forall c :: c in inside <==>
              AcceptsAll(items, SizeBox(grid, |items|), c) && InNodeBox(NodeBox(grid, |items|), c)
    ensures |ids| == |inside|
  {
    var box := NodeBox(grid, |items|);
    NodeBoxSize(grid, |items|);
    hide AcceptsAll, NodeBox, SizeBox, Flat, Unflat, Size;
    var f: nat -> seq<int> := (id: nat) => Unflat(box, id);
    var g: seq<int> -> nat := (c: seq<int>) => if InNodeBox(box, c) then Flat(box, c) else 0;
    forall id | id in ids
      ensures f(id) in inside && g(f(id)) == id
    {
      FlatOfUnflat(box, id);
    }
    forall c | c in inside
      ensures g(c) in ids && f(g(c)) == c
    {
      UnflatOfFlat(box, c);
    }
    SameSize(ids, inside, f, g);
  }

  /** All listed coordinates lie in the box exactly when nothing is listed or every axis is inside. */
  lemma ListedInside(items: seq<Item>, sizes: seq<nat>, box: seq<nat>)
    requires |sizes| == |items| == |box| && forall i :: 0 <= i < |items| ==> items[i].Valid()
    ensures (forall c :: AcceptsAll(items, sizes, c) ==> InNodeBox(box, c)) <==>
              (exists i :: 0 <= i < |items| && items[i].Values(sizes[i]) == []) ||
              (forall i :: 0 <= i < |items| ==> Inside(items[i], sizes[i], box[i]))
  {
    forall i | 0 <= i < |items|
      ensures forall v :: v in items[i].Values(sizes[i]) <==> items[i].Accepts(sizes[i], v)
    {
      ValuesExact(items[i], sizes[i]);
    }
    if (forall c :: AcceptsAll(items, sizes, c) ==> InNodeBox(box, c))
       && forall i :: 0 <= i < |items| ==> items[i].Values(sizes[i]) != [] {
      var c0 := seq(|items|, i requires 0 <= i < |items| => items[i].Values(sizes[i])[0]);
      forall i | 0 <= i < |items|
        ensures c0[i] in items[i].Values(sizes[i])
      {
      }
      forall i, v | 0 <= i < |items| && v in items[i].Values(sizes[i])
        ensures 0 <= v < box[i]
      {
        var c := c0[i := v];
        assert AcceptsAll(items, sizes, c);
        assert 0 <= c[i] < box[i];
      }
    }
  }

  lemma SameElements(a: set<seq<int>>, b: set<seq<int>>)
    requires a <= b
    ensures |a| == |b| <==> a == b
  {
    assert |b| == |a| + |b - a| by { assert a + (b - a) == b; }
  }

  /** Axes: as many acceptors as listed coordinates, exactly when the destination stays inside. */
  lemma AxesCounted(grid: seq<nat>, items: seq<Item>, ids: set<nat>)
    requires Grid(grid) && |items| >= 1 && forall i :: 0 <= i < |items| ==> items[i].Valid()
    requires Size(NodeBox(grid, |items|)) > 0
    requires forall id: nat :: id in ids <==>
               id < Size(grid) && AcceptsAll(items, SizeBox(grid, |items|), Unflat(NodeBox(grid, |items|), id))
    ensures var (sizes, box) := (SizeBox(grid, |items|), NodeBox(grid, |items|));
            |ids| == |Tuples(AxisRanges(items, sizes))| <==>
              (exists i :: 0 <= i < |items| && items[i].Values(sizes[i]) == []) ||
              (forall i :: 0 <= i < |items| ==> Inside(items[i], sizes[i], box[i]))
  {
    var (sizes, box) := (SizeBox(grid, |items|), NodeBox(grid, |items|));
    var tuples := Tuples(AxisRanges(items, sizes));
    ExpandedExactly(items, sizes);
    var listed := set c | c in tuples;
    var inside := set c | c in tuples && InNodeBox(box, c);
    DistinctSize(tuples);
    AcceptorsAreListed(grid, items, ids, inside);
    SameElements(inside, listed);
    ListedInside(items, sizes, box);
    assert inside == listed <==> forall c :: c in tuples ==> InNodeBox(box, c) by {
      if inside == listed {
        forall c | c in tuples
          ensures InNodeBox(box, c)
        {
          assert c in listed;
        }
      }
    }
  }

  /** A tuple of plain indices lists one coordinate. */
  lemma PlainTuple(items: seq<Item>, sizes: seq<nat>)
    requires |sizes| == |items| && forall i :: 0 <= i < |items| ==> items[i].At?
    ensures |Tuples(AxisRanges(items, sizes))| == 1
  {
    ExpandedExactly(items, sizes);
    var tuples := Tuples(AxisRanges(items, sizes));
    var c := seq(|items|, i requires 0 <= i < |items| => items[i].i);
    assert AcceptsAll(items, sizes, c);
    forall k | 0 <= k < |tuples|
      ensures tuples[k] == c
    {
      assert tuples[k] in tuples;
      assert AcceptsAll(items, sizes, tuples[k]);
    }
    DistinctSize(tuples);
    assert (set x | x in tuples) == {c};
  }

  /** The receiver count of a message is the number of nodes that will take it exactly when the
      destination names grid nodes; a plain 1-tuple never does. */
  lemma ReceiversCounted(grid: seq<nat>, dst: Dst)
    requires Grid(grid) && dst.Valid()
    ensures |Receivers(grid, dst)| == ReceiverCount(grid, dst) <==> NamesNodes(grid, dst)
  {
    match dst {
      case Linear(i) =>
        if 0 <= i < Size(grid) {
          assert Receivers(grid, dst) == {i};
        } else {
          assert Receivers(grid, dst) == {};
        }
      case Axes(items) =>
        NodeBoxSize(grid, |items|);
        if dst.HasSlices() {
          AxesCounted(grid, items, Receivers(grid, dst));
        } else if |items| == 1 {
          assert Receivers(grid, dst) == {};
        } else {
          PlainTuple(items, SizeBox(grid, |items|));
          AxesCounted(grid, items, Receivers(grid, dst));
        }
    }
  }
}
