/** Row-major coordinates: the mixed-radix numbering shared by nodes, tiles and shards, and the order
    in which `itertools.product` lists a box. */
module Coords {
  import opened Arith

  function Size(shape: seq<nat>): nat
  {
    if shape == [] then 1 else shape[0] * Size(shape[1..])
  }

  predicate InBox(shape: seq<nat>, c: seq<nat>)
  {
    |c| == |shape| && forall i :: 0 <= i < |c| ==> c[i] < shape[i]
  }

  /** The linear index of `c`; the last coordinate varies fastest. */
  function Flat(shape: seq<nat>, c: seq<nat>): nat
    requires |c| == |shape|
  {
    if shape == [] then 0 else c[0] * Size(shape[1..]) + Flat(shape[1..], c[1..])
  }

  function Unflat(shape: seq<nat>, k: nat): (c: seq<nat>)
    requires Size(shape) > 0
    ensures |c| == |shape|
  {
    if shape == [] then []
    else
      assert Size(shape[1..]) > 0 by { PositiveFactors(shape[0], Size(shape[1..])); }
      [k / Size(shape[1..])] + Unflat(shape[1..], k % Size(shape[1..]))
  }

  lemma PositiveFactors(a: nat, b: nat)
    requires a * b > 0
    ensures a > 0 && b > 0
  {
    assert a == 0 ==> a * b == 0;
    assert b == 0 ==> a * b == 0;
  }

  lemma Below(a: nat, b: nat, n: nat, m: nat)
    requires a < n && b < m
    ensures a * m + b < n * m
  {
    assert (a + 1) * m <= n * m;
  }

  lemma QuotientBelow(k: nat, n: nat, m: nat)
    requires m >= 1 && k < n * m
    ensures k / m < n
  {
    var d := k / m - n;
    assert d * m == k / m * m - n * m;
    assert d >= 0 ==> d * m >= 0;
  }

  lemma {:induction false} FlatBound(shape: seq<nat>, c: seq<nat>)
    requires InBox(shape, c)
    ensures Flat(shape, c) < Size(shape)
  {
    if shape != [] {
      FlatBound(shape[1..], c[1..]);
      Below(c[0], Flat(shape[1..], c[1..]), shape[0], Size(shape[1..]));
    }
  }

  /** `Flat` and `Unflat` are inverse bijections between the box and [0, Size). */
  lemma {:induction false} UnflatOfFlat(shape: seq<nat>, c: seq<nat>)
    requires InBox(shape, c)
    ensures Size(shape) > 0 && Flat(shape, c) < Size(shape) && Unflat(shape, Flat(shape, c)) == c
  {
    FlatBound(shape, c);
    if shape != [] {
      UnflatOfFlat(shape[1..], c[1..]);
      DivUnique(Flat(shape, c), Size(shape[1..]), c[0], Flat(shape[1..], c[1..]));
      assert c == [c[0]] + c[1..];
    }
  }

  lemma UnflatStep(shape: seq<nat>, k: nat)
    requires shape != [] && Size(shape) > 0
    ensures var s := Size(shape[1..]);
            s > 0 && Unflat(shape, k)[0] == k / s && Unflat(shape, k)[1..] == Unflat(shape[1..], k % s)
  {
    PositiveFactors(shape[0], Size(shape[1..]));
  }

  lemma FlatStep(shape: seq<nat>, c: seq<nat>)
    requires |c| == |shape| > 0
    ensures Flat(shape, c) == c[0] * Size(shape[1..]) + Flat(shape[1..], c[1..])
    ensures Size(shape) == shape[0] * Size(shape[1..])
  {
  }

  lemma DivMod(k: nat, s: nat)
    requires s > 0
    ensures k == k / s * s + k % s && k % s < s
  {
  }

  lemma {:induction false} FlatOfUnflat(shape: seq<nat>, k: nat)
    requires k < Size(shape)
    ensures InBox(shape, Unflat(shape, k)) && Flat(shape, Unflat(shape, k)) == k
  {
    if shape != [] {
      hide Flat, Unflat, Size;
      var (s, c) := (Size(shape[1..]), Unflat(shape, k));
      FlatStep(shape, c);
      UnflatStep(shape, k);
      DivMod(k, s);
      FlatOfUnflat(shape[1..], k % s);
      QuotientBelow(k, shape[0], s);
      forall i | 0 <= i < |c|
        ensures c[i] < shape[i]
      {
        assert i > 0 ==> c[1..][i - 1] < shape[1..][i - 1];
      }
    }
  }

  lemma {:induction false} SizePositive(shape: seq<nat>)
    ensures Size(shape) > 0 <==> forall i :: 0 <= i < |shape| ==> shape[i] > 0
  {
    if shape != [] {
      SizePositive(shape[1..]);
      assert forall i :: 1 <= i < |shape| ==> shape[i] == shape[1..][i - 1];
      assert forall i :: 0 <= i < |shape[1..]| ==> shape[1..][i] == shape[i + 1];
      if shape[0] > 0 && Size(shape[1..]) > 0 {
        assert shape[0] * Size(shape[1..]) > 0;
      }
      assert shape[0] == 0 || Size(shape[1..]) == 0 ==> Size(shape) == 0;
    }
  }

  lemma {:induction false} SizeAppend(p: seq<nat>, q: seq<nat>)
    ensures Size(p + q) == Size(p) * Size(q)
  {
    if p == [] {
      assert p + q == q;
    } else {
      SizeAppend(p[1..], q);
      assert (p + q)[1..] == p[1..] + q;
      assert p[0] * (Size(p[1..]) * Size(q)) == p[0] * Size(p[1..]) * Size(q);
    }
  }

  lemma {:induction false} FlatAppend(p: seq<nat>, q: seq<nat>, c: seq<nat>, d: seq<nat>)
    requires |c| == |p| && |d| == |q|
    ensures Flat(p + q, c + d) == Flat(p, c) * Size(q) + Flat(q, d)
  {
    if p == [] {
      assert p + q == q && c + d == d;
    } else {
      FlatAppend(p[1..], q, c[1..], d);
      SizeAppend(p[1..], q);
      assert (p + q)[1..] == p[1..] + q && (c + d)[1..] == c[1..] + d;
      Horner(c[0], Size(p[1..]), Flat(p[1..], c[1..]), Size(q), Flat(q, d));
      assert (p + q)[0] == p[0] && (c + d)[0] == c[0];
    }
  }

  lemma Horner(a: nat, b: nat, x: nat, m: nat, y: nat)
    ensures a * (b * m) + (x * m + y) == (a * b + x) * m + y
  {
    assert a * (b * m) == a * b * m;
  }

  // ----- Short shapes -----

  lemma SizeOne(a: nat)
    ensures Size([a]) == a
  {
    assert [a][1..] == [];
    assert Size([a]) == a * Size([]);
  }

  lemma SizeTwo(a: nat, b: nat)
    ensures Size([a, b]) == a * b
  {
    SizeOne(b);
    assert [a, b][1..] == [b];
  }

  lemma FlatTwo(a: nat, b: nat, x: nat, y: nat)
    ensures Flat([a, b], [x, y]) == x * b + y
  {
    SizeOne(b);
    assert [a, b][1..] == [b] && [x, y][1..] == [y] && [b][1..] == [];
    assert Flat([b], [y]) == y * Size([]) + Flat([], []);
  }

  lemma SizeFour(a: nat, b: nat, c: nat, d: nat)
    ensures Size([a, b, c, d]) == a * b * (c * d)
  {
    SizeAppend([a, b], [c, d]);
    SizeTwo(a, b);
    SizeTwo(c, d);
    assert [a, b] + [c, d] == [a, b, c, d];
  }

  lemma FlatFour(a: nat, b: nat, c: nat, d: nat, x: nat, y: nat, z: nat, u: nat)
    ensures Flat([a, b, c, d], [x, y, z, u]) == (x * b + y) * (c * d) + (z * d + u)
  {
    FlatAppend([a, b], [c, d], [x, y], [z, u]);
    FlatTwo(a, b, x, y);
    FlatTwo(c, d, z, u);
    SizeTwo(c, d);
    assert [a, b] + [c, d] == [a, b, c, d] && [x, y] + [z, u] == [x, y, z, u];
  }

  // ----- itertools.product -----

  function Prefixed(i: nat, rest: seq<seq<nat>>): (r: seq<seq<nat>>)
    ensures |r| == |rest| && forall k :: 0 <= k < |r| ==> r[k] == [i] + rest[k]
  {
    seq(|rest|, k requires 0 <= k < |rest| => [i] + rest[k])
  }

  function Stack(n: nat, rest: seq<seq<nat>>): seq<seq<nat>>
  {
    if n == 0 then [] else Stack(n - 1, rest) + Prefixed(n - 1, rest)
  }

  /** All coordinates of the box, the last one varying fastest. */
  function AllCoords(shape: seq<nat>): seq<seq<nat>>
  {
    if shape == [] then [[]] else Stack(shape[0], AllCoords(shape[1..]))
  }

  lemma {:induction false} StackAt(n: nat, rest: seq<seq<nat>>, i: nat, k: nat)
    requires i < n && k < |rest|
    ensures |Stack(n, rest)| == n * |rest| && i * |rest| + k < n * |rest|
    ensures Stack(n, rest)[i * |rest| + k] == [i] + rest[k]
  {
    StackSize(n, rest);
    StackSize(n - 1, rest);
    Below(i, k, n, |rest|);
    if i < n - 1 {
      StackAt(n - 1, rest, i, k);
    }
  }

  lemma {:induction false} StackSize(n: nat, rest: seq<seq<nat>>)
    ensures |Stack(n, rest)| == n * |rest|
  {
    if n > 0 {
      StackSize(n - 1, rest);
      Horner(n - 1, 1, 0, |rest|, |rest|);
    }
  }

  /** The product lists the whole box, each coordinate at its linear index. */
  lemma {:induction false} AllCoordsAt(shape: seq<nat>, c: seq<nat>)
    requires InBox(shape, c)
    ensures |AllCoords(shape)| == Size(shape) && Flat(shape, c) < Size(shape)
    ensures AllCoords(shape)[Flat(shape, c)] == c
  {
    FlatBound(shape, c);
    if shape != [] {
      AllCoordsAt(shape[1..], c[1..]);
      FlatBound(shape[1..], c[1..]);
      StackAt(shape[0], AllCoords(shape[1..]), c[0], Flat(shape[1..], c[1..]));
      assert c == [c[0]] + c[1..];
    }
  }

  lemma {:induction false} AllCoordsSize(shape: seq<nat>)
    ensures |AllCoords(shape)| == Size(shape)
  {
    if shape != [] {
      AllCoordsSize(shape[1..]);
      StackSize(shape[0], AllCoords(shape[1..]));
    }
  }

  /** The k-th listed coordinate is the one with linear index k. */
  lemma ListedAt(shape: seq<nat>, k: nat)
    requires k < Size(shape)
    ensures |AllCoords(shape)| == Size(shape) && AllCoords(shape)[k] == Unflat(shape, k)
  {
    FlatOfUnflat(shape, k);
    AllCoordsAt(shape, Unflat(shape, k));
  }

  lemma CoordsLength(shape: seq<nat>)
    ensures forall k :: 0 <= k < |AllCoords(shape)| ==> |AllCoords(shape)[k]| == |shape|
  {
    AllCoordsSize(shape);
    forall k | 0 <= k < |AllCoords(shape)|
      ensures |AllCoords(shape)[k]| == |shape|
    {
      ListedAt(shape, k);
    }
  }
}
