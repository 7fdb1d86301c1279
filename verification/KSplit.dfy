/** The K-split matmul kernel (benchmarks/matmul/ksplit_kernel.py): how the output and the K dimension
    are shared between the nodes, and why the gathered result is the matrix product. Elements are
    integers; a stream is the sequence of blocks that passes through one dataflow buffer. */
module KSplit {
  import opened Arith
  import opened Coords
  import opened Wrappers
  import opened Search
  import opened Planner
  import opened MatmulPlan

  type Matrix = (int, int) -> int

  datatype Node = Node(col: nat, row: nat)

  /** Block dims in elements, blocks per node, and the partition of the grid. */
  datatype Layout = Layout(bm: nat, bn: nat, bk: nat, mBpn: nat, nBpn: nat, kBpn: nat, mp: nat, np: nat, kp: nat) {
    ghost predicate Valid()
    {
      bm >= 1 && bn >= 1 && bk >= 1 && mBpn >= 1 && nBpn >= 1 && kBpn >= 1 && mp >= 1 && np >= 1 && kp >= 2
    }

    function M(): nat { mp * mBpn * bm }
    function N(): nat { np * nBpn * bn }
    function K(): nat { kp * kBpn * bk }

    /** Output blocks of one node. */
    function Blocks(): nat { mBpn * nBpn }

    predicate InGrid(n: Node) { n.col < np * kp && n.row < mp }

    function KRank(n: Node): nat requires np >= 1 { n.col / np }
    function NRank(n: Node): nat requires np >= 1 { n.col % np }

    predicate IsRoot(n: Node) { n.col < np }
  }

  /** The checks of `make_kernel`; None is its ValueError. */
  function MakeLayout(M: nat, K: nat, N: nat, block: Triple, part: Triple): (r: Option<Layout>)
    requires block.m >= 1 && block.n >= 1 && block.k >= 1 && part.m >= 1 && part.n >= 1 && part.k >= 1
  {
    if part.k < 2 then
      None
    else if M % TILE != 0 || N % TILE != 0 || K % TILE != 0 then
      None
    else
      var (mt, nt, kt) := (M / TILE, N / TILE, K / TILE);
      if mt % block.m != 0 || nt % block.n != 0 || kt % block.k != 0 then
        None
      else
        var (mb, nb, kb) := (mt / block.m, nt / block.n, kt / block.k);
        if mb % part.m != 0 || nb % part.n != 0 || kb % part.k != 0 then
          None
        else
          Some(Layout(block.m * TILE, block.n * TILE, block.k * TILE,
                      mb / part.m, nb / part.n, kb / part.k, part.m, part.n, part.k))
  }

  lemma SplitsBack(x: nat, b: nat, p: nat)
    requires b >= 1 && p >= 1 && x % TILE == 0 && x / TILE % b == 0 && x / TILE / b % p == 0
    ensures p * (x / TILE / b / p) * (b * TILE) == x
    ensures x > 0 ==> x / TILE / b / p >= 1
  {
    var q := x / TILE / b / p;
    assert x / TILE / b == p * q;
    assert x / TILE == p * q * b;
    assert x == p * q * b * TILE;
    assert p * q * b * TILE == p * q * (b * TILE);
    assert q == 0 ==> p * q * b == 0;
  }

  /** The kernel is built exactly for the shapes the planner calls acceptable with Kp >= 2, and then
      its blocks and partitions cover the padded dimensions exactly. */
  lemma LayoutExactly(M: nat, K: nat, N: nat, block: Triple, part: Triple)
    requires M >= 1 && K >= 1 && N >= 1
    requires block.m >= 1 && block.n >= 1 && block.k >= 1 && part.m >= 1 && part.n >= 1 && part.k >= 1
    ensures MakeLayout(M, K, N, block, part).Some? <==> KernelAccepts(M, K, N, block, part) && part.k >= 2
    ensures MakeLayout(M, K, N, block, part).Some? ==>
              var s := MakeLayout(M, K, N, block, part).value;
              s.Valid() && s.M() == M && s.N() == N && s.K() == K
  {
    if KernelAccepts(M, K, N, block, part) && part.k >= 2 {
      SplitsBack(M, block.m, part.m);
      SplitsBack(N, block.n, part.n);
      SplitsBack(K, block.k, part.k);
    }
  }

  // ----- Pipes -----

  datatype Span = Span(lo: nat, hi: nat) {
    predicate Has(x: nat) { lo <= x < hi }
  }

  datatype Pipe = Pipe(src: Node, cols: Span, rows: Span) {
    predicate Accepts(n: Node) { cols.Has(n.col) && rows.Has(n.row) }
  }

  function APipe(s: Layout, kp: nat, mp: nat): Pipe
  {
    Pipe(Node(kp * s.np, mp), Span(kp * s.np, (kp + 1) * s.np), Span(mp, mp + 1))
  }

  function BPipe(s: Layout, col: nat): Pipe { Pipe(Node(col, 0), Span(col, col + 1), Span(0, s.mp)) }

  function ReducePipe(s: Layout, mp: nat, np: nat, kp: nat): Pipe
  {
    Pipe(Node(kp * s.np + np, mp), Span(np, np + 1), Span(mp, mp + 1))
  }

  lemma InKRank(s: Layout, n: Node, kp: nat)
    requires s.Valid()
    ensures kp * s.np <= n.col < (kp + 1) * s.np <==> kp == s.KRank(n)
  {
    if kp * s.np <= n.col < (kp + 1) * s.np {
      DivUnique(n.col, s.np, kp, n.col - kp * s.np);
    }
  }

  lemma KRankBound(s: Layout, n: Node)
    requires s.Valid() && s.InGrid(n)
    ensures s.KRank(n) < s.kp && (s.IsRoot(n) <==> s.KRank(n) == 0)
  {
    var k := s.KRank(n);
    assert k * s.np <= n.col;
    assert k >= s.kp ==> k * s.np >= s.kp * s.np;
  }

  /** Every node takes its A blocks from exactly one pipe, whose source is in the grid, in the same
      row and of the same K rank; and exactly one pipe leaves that source. */
  lemma OneAPipe(s: Layout, n: Node, kp: nat, mp: nat)
    requires s.Valid() && s.InGrid(n) && kp < s.kp && mp < s.mp
    ensures APipe(s, kp, mp).Accepts(n) <==> kp == s.KRank(n) && mp == n.row
    ensures s.InGrid(APipe(s, kp, mp).src) && s.KRank(APipe(s, kp, mp).src) == kp
    ensures APipe(s, kp, mp).Accepts(APipe(s, kp, mp).src)
    ensures APipe(s, kp, mp).src == n <==> mp == n.row && kp == s.KRank(n) && s.NRank(n) == 0
  {
    InKRank(s, n, kp);
    var src := Node(kp * s.np, mp);
    InKRank(s, src, kp);
    StartsRank(kp, s.kp, s.np);
    MultipleOf(n.col, s.np, kp);
  }

  /** Rank kp begins and ends inside the grid. */
  lemma StartsRank(kp: nat, parts: nat, np: nat)
    requires kp < parts && np >= 1
    ensures kp * np < (kp + 1) * np <= parts * np == np * parts
  {
    var rest := parts - (kp + 1);
    assert rest * np >= 0 && rest * np + (kp + 1) * np == parts * np;
    assert (kp + 1) * np == kp * np + np;
  }

  lemma MultipleOf(x: nat, np: nat, kp: nat)
    requires np >= 1
    ensures kp * np == x <==> kp == x / np && x % np == 0
  {
    if kp * np == x {
      DivUnique(x, np, kp, 0);
    }
  }

  /** Every node takes its B blocks from the one pipe of its own column. */
  lemma OneBPipe(s: Layout, n: Node, col: nat)
    requires s.Valid() && s.InGrid(n) && col < s.np * s.kp
    ensures BPipe(s, col).Accepts(n) <==> col == n.col
    ensures s.InGrid(BPipe(s, col).src) && BPipe(s, col).Accepts(BPipe(s, col).src)
    ensures s.KRank(BPipe(s, n.col).src) == s.KRank(n) && s.NRank(BPipe(s, n.col).src) == s.NRank(n)
  {
  }

  /** A reduce pipe ends at a root and starts at a node of the same (n_p, m_p) and a later K rank; a
      non-root node feeds exactly one of them and a root none. */
  lemma OneReducePipe(s: Layout, n: Node, mp: nat, np: nat, kp: nat)
    requires s.Valid() && s.InGrid(n) && mp < s.mp && np < s.np && 1 <= kp < s.kp
    ensures ReducePipe(s, mp, np, kp).Accepts(n) <==> n == Node(np, mp)
    ensures ReducePipe(s, mp, np, kp).src == n <==> !s.IsRoot(n) && mp == n.row && np == s.NRank(n) && kp == s.KRank(n)
  {
    assert n.col == s.KRank(n) * s.np + s.NRank(n);
    DivUnique(kp * s.np + np, s.np, kp, np);
    KRankBound(s, n);
  }

  // ----- Streams read by the data-movement kernels -----

  /** The block of `a` whose top left element is (r, c). */
  function Window(a: Matrix, r: int, c: int): Matrix { (i, j) => a(r + i, c + j) }

  /** First row, column and K index of the elements of output block `b`. */
  function RowBase(s: Layout, n: Node, b: nat): nat
    requires s.Valid()
  {
    (n.row * s.mBpn + b / s.nBpn) * s.bm
  }

  function ColBase(s: Layout, n: Node, b: nat): nat
    requires s.Valid()
  {
    (s.NRank(n) * s.nBpn + b % s.nBpn) * s.bn
  }

  function KBase(s: Layout, n: Node, kb: nat): nat
    requires s.Valid()
  {
    (s.KRank(n) * s.kBpn + kb) * s.bk
  }

  /** The t-th block that node `n` reads from `a`, and from `w`. */
  function ARead(s: Layout, a: Matrix, n: Node, t: nat): Matrix
    requires s.Valid()
  {
    Window(a, RowBase(s, n, t / s.kBpn), KBase(s, n, t % s.kBpn))
  }

  function BRead(s: Layout, w: Matrix, n: Node, t: nat): Matrix
    requires s.Valid()
  {
    Window(w, KBase(s, n, t % s.kBpn), ColBase(s, n, t / s.kBpn))
  }

  lemma Position(s: Layout, mb: nat, nb: nat, kb: nat)
    requires s.Valid() && nb < s.nBpn && kb < s.kBpn
    ensures var t := (mb * s.nBpn + nb) * s.kBpn + kb;
            t % s.kBpn == kb && t / s.kBpn / s.nBpn == mb && t / s.kBpn % s.nBpn == nb
  {
    DivUnique((mb * s.nBpn + nb) * s.kBpn + kb, s.kBpn, mb * s.nBpn + nb, kb);
    DivUnique(mb * s.nBpn + nb, s.nBpn, mb, nb);
  }

  lemma NextRow(mb: nat, count: nat)
    ensures (mb + 1) * count == mb * count + count
  {
  }

  /** The read loop of a source node of the A net. */
  method ReadA(s: Layout, a: Matrix, n: Node) returns (sent: seq<Matrix>)
    requires s.Valid()
    ensures |sent| == s.Blocks() * s.kBpn
    ensures forall t :: 0 <= t < |sent| ==> sent[t] == ARead(s, a, n, t)
  {
    sent := [];
    for mb := 0 to s.mBpn
      invariant |sent| == mb * s.nBpn * s.kBpn
      invariant forall t :: 0 <= t < |sent| ==> sent[t] == ARead(s, a, n, t)
    {
      var mr := (n.row * s.mBpn + mb) * s.bm;
      for nb := 0 to s.nBpn
        invariant |sent| == (mb * s.nBpn + nb) * s.kBpn
        invariant forall t :: 0 <= t < |sent| ==> sent[t] == ARead(s, a, n, t)
      {
        for kb := 0 to s.kBpn
          invariant |sent| == (mb * s.nBpn + nb) * s.kBpn + kb
          invariant forall t :: 0 <= t < |sent| ==> sent[t] == ARead(s, a, n, t)
        {
          var kc := (s.KRank(n) * s.kBpn + kb) * s.bk;
          Position(s, mb, nb, kb);
          sent := sent + [Window(a, mr, kc)];
        }
        NextRow(mb * s.nBpn + nb, s.kBpn);
      }
      NextRow(mb, s.nBpn);
    }
  }

  /** The read loop of a source node of the B net. */
  method ReadB(s: Layout, w: Matrix, n: Node) returns (sent: seq<Matrix>)
    requires s.Valid()
    ensures |sent| == s.Blocks() * s.kBpn
    ensures forall t :: 0 <= t < |sent| ==> sent[t] == BRead(s, w, n, t)
  {
    sent := [];
    for mb := 0 to s.mBpn
      invariant |sent| == mb * s.nBpn * s.kBpn
      invariant forall t :: 0 <= t < |sent| ==> sent[t] == BRead(s, w, n, t)
    {
      for nb := 0 to s.nBpn
        invariant |sent| == (mb * s.nBpn + nb) * s.kBpn
        invariant forall t :: 0 <= t < |sent| ==> sent[t] == BRead(s, w, n, t)
      {
        var nc := (s.NRank(n) * s.nBpn + nb) * s.bn;
        for kb := 0 to s.kBpn
          invariant |sent| == (mb * s.nBpn + nb) * s.kBpn + kb
          invariant forall t :: 0 <= t < |sent| ==> sent[t] == BRead(s, w, n, t)
        {
          var kc := (s.KRank(n) * s.kBpn + kb) * s.bk;
          Position(s, mb, nb, kb);
          sent := sent + [Window(w, kc, nc)];
        }
        NextRow(mb * s.nBpn + nb, s.kBpn);
      }
      NextRow(mb, s.nBpn);
    }
  }

  /** What the A and B nets deliver to `n`: the streams read by its two sources. */
  function AIn(s: Layout, a: Matrix, n: Node, t: nat): Matrix
    requires s.Valid()
  {
    ARead(s, a, APipe(s, s.KRank(n), n.row).src, t)
  }

  function BIn(s: Layout, w: Matrix, n: Node, t: nat): Matrix
    requires s.Valid()
  {
    BRead(s, w, BPipe(s, n.col).src, t)
  }

  /** The multicast hands every node exactly the blocks of its own rows, columns and K range. */
  lemma DeliveredIsOwn(s: Layout, a: Matrix, w: Matrix, n: Node, t: nat)
    requires s.Valid() && s.InGrid(n)
    ensures AIn(s, a, n, t) == ARead(s, a, n, t) && BIn(s, w, n, t) == BRead(s, w, n, t)
  {
    KRankBound(s, n);
    OneAPipe(s, n, s.KRank(n), n.row);
    OneBPipe(s, n, n.col);
  }

  // ----- The compute kernel -----

  function Zero(): Matrix { (i, j) => 0 }

  function Plus(p: Matrix, q: Matrix): Matrix { (i, j) => p(i, j) + q(i, j) }

  /** Entry (i, j) of the product, over the inner indices [lo, hi). */
  function Dot(a: Matrix, w: Matrix, i: int, j: int, lo: nat, hi: nat): int
    requires lo <= hi
  {
    if lo == hi then 0 else Dot(a, w, i, j, lo, hi - 1) + a(i, hi - 1) * w(hi - 1, j)
  }

  function Times(x: Matrix, y: Matrix, depth: nat): Matrix { (i, j) => Dot(x, y, i, j, 0, depth) }

  /** The accumulator of output block `b` after `kb` block products. */
  function Accumulated(s: Layout, aIn: nat -> Matrix, bIn: nat -> Matrix, b: nat, kb: nat): Matrix
  {
    if kb == 0 then Zero()
    else Plus(Accumulated(s, aIn, bIn, b, kb - 1),
              Times(aIn(b * s.kBpn + kb - 1), bIn(b * s.kBpn + kb - 1), s.bk))
  }

  /** A root's accumulator after `count` gathered partials; `recv` is its gather stream. */
  function Gathered(s: Layout, own: Matrix, recv: nat -> Matrix, b: nat, count: nat): Matrix
    requires s.Valid()
  {
    if count == 0 then own
    else Plus(Gathered(s, own, recv, b, count - 1), recv(b * (s.kp - 1) + count - 1))
  }

  /** The compute kernel of node `n` over its input streams: the blocks a non-root sends to its root,
      and the blocks a root stores. */
  method Compute(s: Layout, n: Node, aIn: nat -> Matrix, bIn: nat -> Matrix, recv: nat -> Matrix)
    returns (partials: seq<Matrix>, finals: seq<Matrix>)
    requires s.Valid()
    ensures |partials| == (if s.IsRoot(n) then 0 else s.Blocks())
    ensures |finals| == (if s.IsRoot(n) then s.Blocks() else 0)
    ensures forall b :: 0 <= b < |partials| ==> partials[b] == Accumulated(s, aIn, bIn, b, s.kBpn)
    ensures forall b :: 0 <= b < |finals| ==>
              finals[b] == Gathered(s, Accumulated(s, aIn, bIn, b, s.kBpn), recv, b, s.kp - 1)
  {
    partials, finals := [], [];
    var consumed, gathered, b := 0, 0, 0;
    NothingComputed(s, n, aIn, bIn, recv);
    for mb := 0 to s.mBpn
      invariant b == mb * s.nBpn && consumed == b * s.kBpn && gathered == (if s.IsRoot(n) then b * (s.kp - 1) else 0)
      invariant Computed(s, n, aIn, bIn, recv, b, partials, finals)
    {
      hide Computed, Accumulated, Gathered;
      NextRow(mb, s.nBpn);
      for nb := 0 to s.nBpn
        invariant b == mb * s.nBpn + nb && consumed == b * s.kBpn
        invariant gathered == if s.IsRoot(n) then b * (s.kp - 1) else 0
        invariant Computed(s, n, aIn, bIn, recv, b, partials, finals)
      {
        var p := AccumulateBlock(s, aIn, bIn, b, consumed);
        consumed := consumed + s.kBpn;
        NextRow(b, s.kBpn);
        if s.IsRoot(n) {
          p := GatherBlock(s, p, recv, b, gathered);
          gathered := gathered + (s.kp - 1);
          NextRow(b, s.kp - 1);
          ComputedFinal(s, n, aIn, bIn, recv, b, partials, finals, p);
          finals := finals + [p];
        } else {
          ComputedPartial(s, n, aIn, bIn, recv, b, partials, finals, p);
          partials := partials + [p];
        }
        b := b + 1;
      }
    }
  }

  /** The first b output blocks of node `n`. */
  ghost predicate Computed(s: Layout, n: Node, aIn: nat -> Matrix, bIn: nat -> Matrix, recv: nat -> Matrix, b: nat,
                           partials: seq<Matrix>, finals: seq<Matrix>)
    requires s.Valid()
  {
    && |partials| == (if s.IsRoot(n) then 0 else b) && |finals| == (if s.IsRoot(n) then b else 0)
    && (forall c :: 0 <= c < |partials| ==> partials[c] == Accumulated(s, aIn, bIn, c, s.kBpn))
    && forall c :: 0 <= c < |finals| ==>
         finals[c] == Gathered(s, Accumulated(s, aIn, bIn, c, s.kBpn), recv, c, s.kp - 1)
  }

  lemma NothingComputed(s: Layout, n: Node, aIn: nat -> Matrix, bIn: nat -> Matrix, recv: nat -> Matrix)
    requires s.Valid()
    ensures Computed(s, n, aIn, bIn, recv, 0, [], [])
  {
  }

  lemma ComputedPartial(s: Layout, n: Node, aIn: nat -> Matrix, bIn: nat -> Matrix, recv: nat -> Matrix, b: nat,
                        partials: seq<Matrix>, finals: seq<Matrix>, p: Matrix)
    requires s.Valid() && !s.IsRoot(n) && Computed(s, n, aIn, bIn, recv, b, partials, finals)
    requires p == Accumulated(s, aIn, bIn, b, s.kBpn)
    ensures Computed(s, n, aIn, bIn, recv, b + 1, partials + [p], finals)
  {
    hide Accumulated, Gathered;
  }

  lemma ComputedFinal(s: Layout, n: Node, aIn: nat -> Matrix, bIn: nat -> Matrix, recv: nat -> Matrix, b: nat,
                      partials: seq<Matrix>, finals: seq<Matrix>, p: Matrix)
    requires s.Valid() && s.IsRoot(n) && Computed(s, n, aIn, bIn, recv, b, partials, finals)
    requires p == Gathered(s, Accumulated(s, aIn, bIn, b, s.kBpn), recv, b, s.kp - 1)
    ensures Computed(s, n, aIn, bIn, recv, b + 1, partials, finals + [p])
  {
    hide Accumulated, Gathered;
  }

  /** `p += a_blk @ b_blk` over the next `kBpn` blocks of both streams. The simulator refuses `+=` on a reserved
      block; what is taken here is the accumulation that the kernel is written for. */
  method AccumulateBlock(s: Layout, aIn: nat -> Matrix, bIn: nat -> Matrix, b: nat, from: nat) returns (p: Matrix)
    requires from == b * s.kBpn
    ensures p == Accumulated(s, aIn, bIn, b, s.kBpn)
  {
    p := Zero();
    for kb := 0 to s.kBpn
      invariant p == Accumulated(s, aIn, bIn, b, kb)
    {
      p := Plus(p, Times(aIn(from + kb), bIn(from + kb), s.bk));
    }
  }

  /** `new.store(prev + r)` over the next Kp - 1 received partials. */
  method GatherBlock(s: Layout, own: Matrix, recv: nat -> Matrix, b: nat, from: nat) returns (p: Matrix)
    requires s.Valid() && from == b * (s.kp - 1)
    ensures p == Gathered(s, own, recv, b, s.kp - 1)
  {
    p := own;
    for r := 0 to s.kp - 1
      invariant p == Gathered(s, own, recv, b, r)
    {
      p := Plus(p, recv(from + r));
    }
  }

  // ----- The partial sums add up to the product -----

  lemma {:induction false} DotAppend(a: Matrix, w: Matrix, i: int, j: int, lo: nat, mid: nat, hi: nat)
    requires lo <= mid <= hi
    ensures Dot(a, w, i, j, lo, hi) == Dot(a, w, i, j, lo, mid) + Dot(a, w, i, j, mid, hi)
  {
    if mid < hi {
      DotAppend(a, w, i, j, lo, mid, hi - 1);
    }
  }

  lemma {:induction false} DotWindow(a: Matrix, w: Matrix, r: int, c: int, k: nat, i: int, j: int, n: nat)
    ensures Dot(Window(a, r, k), Window(w, k, c), i, j, 0, n) == Dot(a, w, r + i, c + j, k, k + n)
  {
    if n > 0 {
      DotWindow(a, w, r, c, k, i, j, n - 1);
    }
  }

  /** What `n` has accumulated for output block `b` covers exactly its own part of K. */
  lemma {:induction false} AccumulatedIsDot(s: Layout, a: Matrix, w: Matrix, n: Node, b: nat, kb: nat, i: int, j: int)
    requires s.Valid() && s.InGrid(n) && kb <= s.kBpn && KBase(s, n, 0) <= KBase(s, n, kb)
    ensures Accumulated(s, t => AIn(s, a, n, t), t => BIn(s, w, n, t), b, kb)(i, j)
         == Dot(a, w, RowBase(s, n, b) + i, ColBase(s, n, b) + j, KBase(s, n, 0), KBase(s, n, kb))
  {
    hide Dot, Window, RowBase, ColBase, KBase;
    if kb == 0 {
      EmptyDot(a, w, RowBase(s, n, b) + i, ColBase(s, n, b) + j, KBase(s, n, 0));
    } else {
      var k := KBase(s, n, kb - 1);
      KBaseStep(s, n, kb - 1);
      AccumulatedIsDot(s, a, w, n, b, kb - 1, i, j);
      NextProduct(s, a, w, n, b, kb - 1, i, j);
      DotAppend(a, w, RowBase(s, n, b) + i, ColBase(s, n, b) + j, KBase(s, n, 0), k, k + s.bk);
    }
  }

  lemma EmptyDot(a: Matrix, w: Matrix, i: int, j: int, k: nat)
    ensures Dot(a, w, i, j, k, k) == 0
  {
  }

  /** The product of the next two blocks. */
  lemma NextProduct(s: Layout, a: Matrix, w: Matrix, n: Node, b: nat, kb: nat, i: int, j: int)
    requires s.Valid() && s.InGrid(n) && kb < s.kBpn
    ensures var (t, k) := (b * s.kBpn + kb, KBase(s, n, kb));
            Times(AIn(s, a, n, t), BIn(s, w, n, t), s.bk)(i, j)
            == Dot(a, w, RowBase(s, n, b) + i, ColBase(s, n, b) + j, k, k + s.bk)
  {
    hide Dot, RowBase, ColBase, KBase;
    var (t, k) := (b * s.kBpn + kb, KBase(s, n, kb));
    DivUnique(t, s.kBpn, b, kb);
    DeliveredIsOwn(s, a, w, n, t);
    DotWindow(a, w, RowBase(s, n, b), ColBase(s, n, b), k, i, j, s.bk);
  }

  lemma KBaseStep(s: Layout, n: Node, kb: nat)
    requires s.Valid()
    ensures KBase(s, n, kb + 1) == KBase(s, n, kb) + s.bk && KBase(s, n, 0) <= KBase(s, n, kb)
  {
    NextRow(s.KRank(n) * s.kBpn + kb, s.bk);
    assert kb * s.bk >= 0;
    assert KBase(s, n, kb) == s.KRank(n) * s.kBpn * s.bk + kb * s.bk;
  }

  /** The partial block of `n`, and the gather stream of root `n`: from the K ranks 1, 2, .. in turn. */
  function Partial(s: Layout, a: Matrix, w: Matrix, n: Node, b: nat): Matrix
    requires s.Valid()
  {
    Accumulated(s, t => AIn(s, a, n, t), t => BIn(s, w, n, t), b, s.kBpn)
  }

  function Gather(s: Layout, a: Matrix, w: Matrix, n: Node, t: nat): Matrix
    requires s.Valid()
  {
    Partial(s, a, w, ReducePipe(s, n.row, n.col, 1 + t % (s.kp - 1)).src, t / (s.kp - 1))
  }

  /** The block root `n` stores. */
  function Final(s: Layout, a: Matrix, w: Matrix, n: Node, b: nat): Matrix
    requires s.Valid()
  {
    Gathered(s, Partial(s, a, w, n, b), t => Gather(s, a, w, n, t), b, s.kp - 1)
  }

  /** The compute kernel of `n` on what the nets deliver to it. */
  method RunNode(s: Layout, a: Matrix, w: Matrix, n: Node) returns (partials: seq<Matrix>, finals: seq<Matrix>)
    requires s.Valid()
    ensures s.IsRoot(n) ==>
              |finals| == s.Blocks() && forall b :: 0 <= b < |finals| ==> finals[b] == Final(s, a, w, n, b)
    ensures !s.IsRoot(n) ==>
              |partials| == s.Blocks() && forall b :: 0 <= b < |partials| ==> partials[b] == Partial(s, a, w, n, b)
  {
    partials, finals := Compute(s, n, t => AIn(s, a, n, t), t => BIn(s, w, n, t), t => Gather(s, a, w, n, t));
  }

  lemma GroupMember(s: Layout, n: Node, k: nat)
    requires s.Valid() && s.InGrid(n) && s.IsRoot(n) && k < s.kp
    ensures var m := Node(k * s.np + n.col, n.row);
            && s.InGrid(m) && s.KRank(m) == k && s.NRank(m) == n.col == s.NRank(n)
            && KBase(s, m, 0) == k * s.kBpn * s.bk && KBase(s, m, s.kBpn) == (k + 1) * s.kBpn * s.bk
  {
    var m := Node(k * s.np + n.col, n.row);
    DivUnique(m.col, s.np, k, n.col);
    DivUnique(n.col, s.np, 0, n.col);
    NextRow(k, s.kBpn);
    Below(k, n.col, s.kp, s.np);
    assert s.kp * s.np == s.np * s.kp;
  }

  /** A node of K rank `k` in the gather group of root `n`. */
  lemma PartialIsDot(s: Layout, a: Matrix, w: Matrix, n: Node, k: nat, b: nat, i: int, j: int)
    requires s.Valid() && s.InGrid(n) && s.IsRoot(n) && k < s.kp
    ensures k * s.kBpn * s.bk <= (k + 1) * s.kBpn * s.bk
    ensures Partial(s, a, w, Node(k * s.np + n.col, n.row), b)(i, j)
         == Dot(a, w, RowBase(s, n, b) + i, ColBase(s, n, b) + j, k * s.kBpn * s.bk, (k + 1) * s.kBpn * s.bk)
  {
    hide Accumulated, Dot;
    var m := Node(k * s.np + n.col, n.row);
    GroupMember(s, n, k);
    KBaseStep(s, m, s.kBpn);
    AccumulatedIsDot(s, a, w, m, b, s.kBpn, i, j);
  }

  lemma GatherPosition(s: Layout, a: Matrix, w: Matrix, n: Node, b: nat, r: nat)
    requires s.Valid() && r < s.kp - 1
    ensures Gather(s, a, w, n, b * (s.kp - 1) + r) == Partial(s, a, w, Node((r + 1) * s.np + n.col, n.row), b)
  {
    hide Partial;
    DivUnique(b * (s.kp - 1) + r, s.kp - 1, b, r);
  }

  lemma GatheredStep(s: Layout, own: Matrix, recv: nat -> Matrix, b: nat, count: nat, i: int, j: int)
    requires s.Valid()
    ensures count == 0 ==> Gathered(s, own, recv, b, count) == own
    ensures count > 0 ==> Gathered(s, own, recv, b, count)(i, j)
                          == Gathered(s, own, recv, b, count - 1)(i, j) + recv(b * (s.kp - 1) + count - 1)(i, j)
  {
  }

  /** The first K part is the root's own. */
  lemma OwnIsDot(s: Layout, a: Matrix, w: Matrix, n: Node, b: nat, i: int, j: int)
    requires s.Valid() && s.InGrid(n) && s.IsRoot(n)
    ensures Partial(s, a, w, n, b)(i, j)
         == Dot(a, w, RowBase(s, n, b) + i, ColBase(s, n, b) + j, 0, s.kBpn * s.bk)
  {
    hide Dot, Partial, RowBase, ColBase;
    PartialIsDot(s, a, w, n, 0, b, i, j);
    assert Node(0 * s.np + n.col, n.row) == n;
  }

  lemma {:induction false} GatheredIsDot(s: Layout, a: Matrix, w: Matrix, n: Node, b: nat, count: nat, i: int, j: int)
    requires s.Valid() && s.InGrid(n) && s.IsRoot(n) && count < s.kp
    ensures Gathered(s, Partial(s, a, w, n, b), t => Gather(s, a, w, n, t), b, count)(i, j)
         == Dot(a, w, RowBase(s, n, b) + i, ColBase(s, n, b) + j, 0, (count + 1) * s.kBpn * s.bk)
  {
    hide Dot, Partial, RowBase, ColBase, Gathered, Gather;
    GatheredStep(s, Partial(s, a, w, n, b), t => Gather(s, a, w, n, t), b, count, i, j);
    if count == 0 {
      OwnIsDot(s, a, w, n, b, i, j);
    } else {
      PartialIsDot(s, a, w, n, count, b, i, j);
      GatheredIsDot(s, a, w, n, b, count - 1, i, j);
      GatherPosition(s, a, w, n, b, count - 1);
      DotAppend(a, w, RowBase(s, n, b) + i, ColBase(s, n, b) + j,
                0, count * s.kBpn * s.bk, (count + 1) * s.kBpn * s.bk);
    }
  }

  // ----- Ownership and the stores -----

  /** The store of output block `b` by root `n`. */
  datatype Store = Store(n: Node, b: nat)

  predicate IsStore(s: Layout, x: Store) { s.InGrid(x.n) && s.IsRoot(x.n) && x.b < s.Blocks() }

  predicate Covers(s: Layout, x: Store, i: nat, j: nat)
    requires s.Valid()
  {
    && RowBase(s, x.n, x.b) <= i < RowBase(s, x.n, x.b) + s.bm
    && ColBase(s, x.n, x.b) <= j < ColBase(s, x.n, x.b) + s.bn
  }

  /** The one store of output element (i, j). */
  function Owner(s: Layout, i: nat, j: nat): Store
    requires s.Valid()
  {
    var (mb, nb) := (i / s.bm, j / s.bn);
    Store(Node(nb / s.nBpn, mb / s.mBpn), mb % s.mBpn * s.nBpn + nb % s.nBpn)
  }

  lemma SplitTwice(x: nat, b: nat, q: nat, p: nat)
    requires b >= 1 && q >= 1 && x < p * q * b
    ensures x / b / q < p && x / b / q * q + x / b % q == x / b && x / b * b <= x < x / b * b + b
  {
    QuotientBelow(x, p * q, b);
    QuotientBelow(x / b, p, q);
  }

  lemma OwnerIsStore(s: Layout, i: nat, j: nat)
    requires s.Valid() && i < s.M() && j < s.N()
    ensures IsStore(s, Owner(s, i, j)) && Covers(s, Owner(s, i, j), i, j)
  {
    var (mb, nb) := (i / s.bm, j / s.bn);
    var x := Owner(s, i, j);
    SplitTwice(i, s.bm, s.mBpn, s.mp);
    SplitTwice(j, s.bn, s.nBpn, s.np);
    Below(mb % s.mBpn, nb % s.nBpn, s.mBpn, s.nBpn);
    RootsInGrid(s, x.n.col);
    DivUnique(x.b, s.nBpn, mb % s.mBpn, nb % s.nBpn);
    assert RowBase(s, x.n, x.b) == mb * s.bm;
    assert ColBase(s, x.n, x.b) == nb * s.bn;
  }

  lemma RootsInGrid(s: Layout, col: nat)
    requires s.Valid() && col < s.np
    ensures col < s.np * s.kp && col % s.np == col
  {
    assert s.np <= s.np * s.kp;
    DivUnique(col, s.np, 0, col);
  }

  /** Which part, and which block of it, an element of a block lies in. */
  lemma PartOf(part: nat, bpn: nat, local: nat, size: nat, i: nat)
    requires local < bpn && size >= 1 && (part * bpn + local) * size <= i < (part * bpn + local) * size + size
    ensures i / size / bpn == part && i / size % bpn == local
  {
    var block := part * bpn + local;
    DivUnique(i, size, block, i - block * size);
    DivUnique(block, bpn, part, local);
  }

  /** Every element of the padded output is stored by exactly one block of exactly one root. */
  lemma OwnedOnce(s: Layout, x: Store, i: nat, j: nat)
    requires s.Valid() && IsStore(s, x) && i < s.M() && j < s.N()
    ensures Covers(s, x, i, j) <==> x == Owner(s, i, j)
  {
    hide Covers, Owner;
    OwnerIsStore(s, i, j);
    if Covers(s, x, i, j) {
      CoverIsOwner(s, x, i, j);
    }
  }

  lemma CoverIsOwner(s: Layout, x: Store, i: nat, j: nat)
    requires s.Valid() && IsStore(s, x) && Covers(s, x, i, j)
    ensures x == Owner(s, i, j)
  {
    DivUnique(x.n.col, s.np, 0, x.n.col);
    QuotientBelow(x.b, s.mBpn, s.nBpn);
    PartOf(x.n.row, s.mBpn, x.b / s.nBpn, s.bm, i);
    PartOf(x.n.col, s.nBpn, x.b % s.nBpn, s.bn, j);
  }

  /** Every K block is read by exactly one K rank, at exactly one step of its loop. */
  lemma KBlocksReadOnce(s: Layout, kb: nat, k: nat, local: nat)
    requires s.Valid() && kb < s.kp * s.kBpn && local < s.kBpn
    ensures kb / s.kBpn < s.kp
    ensures k * s.kBpn + local == kb <==> k == kb / s.kBpn && local == kb % s.kBpn
  {
    QuotientBelow(kb, s.kp, s.kBpn);
    if k * s.kBpn + local == kb {
      DivUnique(kb, s.kBpn, k, local);
    }
  }

  /** `ttl.copy(o, out[mr : mr + bm, nc : nc + bn])` */
  function Put(s: Layout, a: Matrix, w: Matrix, x: Store, out: Matrix): Matrix
    requires s.Valid()
  {
    (i, j) =>
      if i >= 0 && j >= 0 && Covers(s, x, i, j)
      then Final(s, a, w, x.n, x.b)(i - RowBase(s, x.n, x.b), j - ColBase(s, x.n, x.b))
      else out(i, j)
  }

  function PutAll(s: Layout, a: Matrix, w: Matrix, xs: seq<Store>, out: Matrix): Matrix
    requires s.Valid()
  {
    if xs == [] then out else Put(s, a, w, xs[|xs| - 1], PutAll(s, a, w, xs[..|xs| - 1], out))
  }

  lemma StoresTheProduct(s: Layout, a: Matrix, w: Matrix, x: Store, i: nat, j: nat)
    requires s.Valid() && IsStore(s, x) && Covers(s, x, i, j)
    ensures Final(s, a, w, x.n, x.b)(i - RowBase(s, x.n, x.b), j - ColBase(s, x.n, x.b)) == Dot(a, w, i, j, 0, s.K())
  {
    GatheredIsDot(s, a, w, x.n, x.b, s.kp - 1, i - RowBase(s, x.n, x.b), j - ColBase(s, x.n, x.b));
  }

  lemma {:induction false} AfterStores(s: Layout, a: Matrix, w: Matrix, xs: seq<Store>, out: Matrix, i: nat, j: nat)
    requires s.Valid() && i < s.M() && j < s.N()
    requires forall x :: x in xs ==> IsStore(s, x)
    ensures PutAll(s, a, w, xs, out)(i, j) == if Owner(s, i, j) in xs then Dot(a, w, i, j, 0, s.K()) else out(i, j)
  {
    if xs != [] {
      var (x, rest) := (xs[|xs| - 1], xs[..|xs| - 1]);
      assert xs == rest + [x];
      AfterStores(s, a, w, rest, out, i, j);
      OwnedOnce(s, x, i, j);
      if Covers(s, x, i, j) {
        StoresTheProduct(s, a, w, x, i, j);
      }
    }
  }

  /** The roots store in any order, interleaved in any way: once all of them have finished, the output
      is the matrix product. */
  lemma KSplitComputesProduct(s: Layout, a: Matrix, w: Matrix, xs: seq<Store>, out: Matrix)
    requires s.Valid()
    requires forall x :: x in xs <==> IsStore(s, x)
    ensures forall i: nat, j: nat :: i < s.M() && j < s.N() ==>
              PutAll(s, a, w, xs, out)(i, j) == Dot(a, w, i, j, 0, s.K())
  {
    forall i: nat, j: nat | i < s.M() && j < s.N()
      ensures PutAll(s, a, w, xs, out)(i, j) == Dot(a, w, i, j, 0, s.K())
    {
      AfterStores(s, a, w, xs, out, i, j);
      OwnerIsStore(s, i, j);
    }
  }
}
