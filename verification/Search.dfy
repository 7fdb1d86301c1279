/** Nested searches as enumerations, and the running best over an enumeration. */
module Search {
  import opened Wrappers

  /** `f(0) + f(1) + ... + f(n - 1)`: what a loop of `n` rounds goes through. */
  function Concat<T>(n: nat, f: nat -> seq<T>): seq<T>
  {
    if n == 0 then [] else Concat(n - 1, f) + f(n - 1)
  }

  lemma {:induction false} InConcat<T>(n: nat, f: nat -> seq<T>, c: T)
    ensures c in Concat(n, f) <==> exists i :: 0 <= i < n && c in f(i)
  {
    if n > 0 {
      InConcat(n - 1, f, c);
      if exists i :: 0 <= i < n && c in f(i) {
        var i :| 0 <= i < n && c in f(i);
        assert i < n - 1 || c in f(n - 1);
      }
    }
  }

  datatype Score = Score(throughput: real, vol: int, negPad: real, cores: int, negKp: int)

  /** Python's order on score tuples. */
  predicate Greater(a: Score, b: Score)
  {
    a.throughput > b.throughput || (a.throughput == b.throughput &&
    (a.vol > b.vol || (a.vol == b.vol &&
    (a.negPad > b.negPad || (a.negPad == b.negPad &&
    (a.cores > b.cores || (a.cores == b.cores && a.negKp > b.negKp)))))))
  }

  /** The running best after trying `c`: replaced only by a strictly greater score. */
  function Better<T>(score: T -> Score, best: Option<T>, c: T): Option<T>
  {
    if best.None? || Greater(score(c), score(best.value)) then Some(c) else best
  }

  function Fold<T>(score: T -> Score, best: Option<T>, cs: seq<T>): Option<T>
  {
    if cs == [] then best else Better(score, Fold(score, best, cs[..|cs| - 1]), cs[|cs| - 1])
  }

  lemma {:induction false} FoldAppend<T>(score: T -> Score, best: Option<T>, cs: seq<T>, ds: seq<T>)
    ensures Fold(score, best, cs + ds) == Fold(score, Fold(score, best, cs), ds)
  {
    if ds == [] {
      assert cs + ds == cs;
    } else {
      assert (cs + ds)[..|cs + ds| - 1] == cs + ds[..|ds| - 1];
      FoldAppend(score, best, cs, ds[..|ds| - 1]);
    }
  }

  /** `i` is the first position of greatest score. */
  ghost predicate FirstMaximum<T>(score: T -> Score, cs: seq<T>, i: nat)
  {
    && i < |cs|
    && (forall j :: 0 <= j < |cs| ==> !Greater(score(cs[j]), score(cs[i])))
    && (forall j :: 0 <= j < i ==> Greater(score(cs[i]), score(cs[j])))
  }

  /** The fold keeps the earliest element of greatest score. */
  lemma {:induction false} FoldIsFirstMaximum<T>(score: T -> Score, cs: seq<T>) returns (k: nat)
    ensures Fold(score, None, cs).None? <==> cs == []
    ensures cs != [] ==> FirstMaximum(score, cs, k) && Fold(score, None, cs) == Some(cs[k])
  {
    if |cs| > 0 {
      var most, last := cs[..|cs| - 1], cs[|cs| - 1];
      var i := FoldIsFirstMaximum(score, most);
      k := if most == [] || Greater(score(last), score(most[i])) then |cs| - 1 else i;
      forall j | 0 <= j < |cs| ensures !Greater(score(cs[j]), score(cs[k])) {
        assert j < |most| ==> cs[j] == most[j] && !Greater(score(most[j]), score(most[i]));
      }
      forall j | 0 <= j < k ensures Greater(score(cs[k]), score(cs[j])) {
        assert cs[j] == most[j] && !Greater(score(most[j]), score(most[i]));
      }
    } else {
      k := 0;
    }
  }

  // ----- The five nested loops of the planner -----

  datatype Triple = Triple(m: nat, n: nat, k: nat)

  /** A point of the search: block dims and the M and N partition. */
  datatype Cand = Cand(b: Triple, mp: nat, np: nat)

  /** How far the loops go, and which block shapes and candidates pass the tests. */
  datatype Space = Space(dims: nat, divides: Triple -> bool, ok: Cand -> bool, rows: Triple -> nat, cols: Triple -> nat)

  const BLOCK_DIMS: seq<nat> := [8, 7, 6, 5, 4, 3, 2, 1]
  const DIM_COUNT: nat := 8

  /** The `i`-th entry of BLOCK_DIMS. */
  function Dim(i: nat): nat { if i < DIM_COUNT then DIM_COUNT - i else 0 }

  lemma DimsAreBlockDims(i: nat)
    requires i < DIM_COUNT
    ensures |BLOCK_DIMS| == DIM_COUNT && BLOCK_DIMS[i] == Dim(i)
  {
  }

  predicate IsDim(d: nat) { 1 <= d <= DIM_COUNT }

  /** Every candidate that passes lies within the loops. */
  ghost predicate Covers(s: Space)
  {
    && s.dims == DIM_COUNT
    && forall c: Cand :: s.ok(c) ==>
      && s.divides(c.b) && IsDim(c.b.m) && IsDim(c.b.n) && IsDim(c.b.k)
      && 1 <= c.mp <= s.rows(c.b) && 1 <= c.np <= s.cols(c.b)
  }

  function One(s: Space, c: Cand): seq<Cand> { if s.ok(c) then [c] else [] }

  /** The passing candidates of one M partition, in order; and so on outwards. */
  function RowCands(s: Space, b: Triple, mp: nat): seq<Cand>
  {
    Concat(s.cols(b), (i: nat) => One(s, Cand(b, mp, i + 1)))
  }

  function PartCands(s: Space, b: Triple): seq<Cand>
  {
    if s.divides(b) then Concat(s.rows(b), (i: nat) => RowCands(s, b, i + 1)) else []
  }

  function BkCands(s: Space, bm: nat, bn: nat): seq<Cand>
  {
    Concat(s.dims, (i: nat) => PartCands(s, Triple(bm, bn, Dim(i))))
  }

  function BnCands(s: Space, bm: nat): seq<Cand>
  {
    Concat(s.dims, (i: nat) => BkCands(s, bm, Dim(i)))
  }

  /** Every passing candidate in the order the five loops reach it. */
  function AllCands(s: Space): seq<Cand>
  {
    Concat(s.dims, (i: nat) => BnCands(s, Dim(i)))
  }

  lemma RowCandsExact(s: Space, b: Triple, mp: nat, c: Cand)
    requires Covers(s)
    ensures c in RowCands(s, b, mp) <==> s.ok(c) && c.b == b && c.mp == mp
  {
    var f := (i: nat) => One(s, Cand(b, mp, i + 1));
    InConcat(s.cols(b), f, c);
    if s.ok(c) && c.b == b && c.mp == mp {
      assert c in f(c.np - 1);
    }
  }

  lemma PartCandsExact(s: Space, b: Triple, c: Cand)
    requires Covers(s)
    ensures c in PartCands(s, b) <==> s.ok(c) && c.b == b
  {
    hide RowCands;
    var f := (i: nat) => RowCands(s, b, i + 1);
    InConcat(s.rows(b), f, c);
    forall i: nat ensures c in f(i) <==> s.ok(c) && c.b == b && c.mp == i + 1 {
      RowCandsExact(s, b, i + 1, c);
    }
    if s.ok(c) && c.b == b {
      assert c in f(c.mp - 1);
    }
  }

  lemma BkCandsExact(s: Space, bm: nat, bn: nat, c: Cand)
    requires Covers(s)
    ensures c in BkCands(s, bm, bn) <==> s.ok(c) && c.b.m == bm && c.b.n == bn
  {
    hide PartCands;
    var f := (i: nat) => PartCands(s, Triple(bm, bn, Dim(i)));
    InConcat(s.dims, f, c);
    forall i: nat ensures c in f(i) <==> s.ok(c) && c.b == Triple(bm, bn, Dim(i)) {
      PartCandsExact(s, Triple(bm, bn, Dim(i)), c);
    }
    if s.ok(c) && c.b.m == bm && c.b.n == bn {
      assert Dim(8 - c.b.k) == c.b.k && c in f(8 - c.b.k);
    }
  }

  lemma BnCandsExact(s: Space, bm: nat, c: Cand)
    requires Covers(s)
    ensures c in BnCands(s, bm) <==> s.ok(c) && c.b.m == bm
  {
    hide BkCands;
    var f := (i: nat) => BkCands(s, bm, Dim(i));
    InConcat(s.dims, f, c);
    forall i: nat ensures c in f(i) <==> s.ok(c) && c.b.m == bm && c.b.n == Dim(i) {
      BkCandsExact(s, bm, Dim(i), c);
    }
    if s.ok(c) && c.b.m == bm {
      assert Dim(8 - c.b.n) == c.b.n && c in f(8 - c.b.n);
    }
  }

  /** The five loops reach exactly the candidates that pass. */
  lemma AllCandsExact(s: Space, c: Cand)
    requires Covers(s)
    ensures c in AllCands(s) <==> s.ok(c)
  {
    hide BnCands;
    var f := (i: nat) => BnCands(s, Dim(i));
    InConcat(s.dims, f, c);
    forall i: nat ensures c in f(i) <==> s.ok(c) && c.b.m == Dim(i) {
      BnCandsExact(s, Dim(i), c);
    }
    if s.ok(c) {
      assert Dim(8 - c.b.m) == c.b.m && c in f(8 - c.b.m);
    }
  }

  lemma NoneMeansEmpty<T>(cs: seq<T>)
    ensures cs != [] ==> exists c :: c in cs
  {
    if cs != [] {
      assert cs[0] in cs;
    }
  }

  /** A bm that no passing block shape has contributes nothing; likewise a bn. */
  lemma NoBnCands(s: Space, bm: nat)
    requires Covers(s) && forall b: Triple :: s.divides(b) ==> b.m != bm
    ensures BnCands(s, bm) == []
  {
    forall c ensures c !in BnCands(s, bm) {
      BnCandsExact(s, bm, c);
    }
    NoneMeansEmpty(BnCands(s, bm));
  }

  lemma NoPartCands(s: Space, b: Triple)
    requires !s.divides(b)
    ensures PartCands(s, b) == []
  {
  }

  lemma NoBkCands(s: Space, bm: nat, bn: nat)
    requires Covers(s) && forall b: Triple :: s.divides(b) ==> b.n != bn
    ensures BkCands(s, bm, bn) == []
  {
    forall c ensures c !in BkCands(s, bm, bn) {
      BkCandsExact(s, bm, bn, c);
    }
    NoneMeansEmpty(BkCands(s, bm, bn));
  }

  /** An M partition no candidate of which passes contributes nothing. */
  lemma NoRowCands(s: Space, b: Triple, mp: nat)
    requires Covers(s) && forall c: Cand :: s.ok(c) ==> c.b != b || c.mp != mp
    ensures RowCands(s, b, mp) == []
  {
    forall c ensures c !in RowCands(s, b, mp) {
      RowCandsExact(s, b, mp, c);
    }
    NoneMeansEmpty(RowCands(s, b, mp));
  }

  /** The best over an enumeration of everything that passes: None exactly when nothing passes, otherwise
      a passing candidate that no passing candidate beats, the earliest of its score. */
  lemma BestIsExact(ok: Cand -> bool, cs: seq<Cand>, score: Cand -> Score)
    requires forall c: Cand :: c in cs <==> ok(c)
    ensures var r := Fold(score, None, cs);
            && (r.None? <==> forall c: Cand :: !ok(c))
            && (r.Some? ==> ok(r.value) && forall c: Cand :: ok(c) ==> !Greater(score(c), score(r.value)))
            && (r.Some? ==> exists k: nat :: FirstMaximum(score, cs, k) && cs[k] == r.value)
  {
    var k := FoldIsFirstMaximum(score, cs);
    NoneMeansEmpty(cs);
    if cs != [] {
      assert cs[k] in cs;
      forall c: Cand | ok(c) ensures !Greater(score(c), score(cs[k])) {
        var j :| 0 <= j < |cs| && cs[j] == c;
      }
    }
  }
}
