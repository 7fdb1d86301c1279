/** The data-movement loops of the matmul kernels (benchmarks/matmul): a source sends each block on its multicast
    pipe and then receives it back into the same block. They overwrite nothing that is on a pipe. */
module Rounds {
  import opened Wrappers
  import opened BlockState
  import opened Network
  import opened Holding
  import opened Messages
  import opened Confluence

  /** One pass of a loop body over one block. */
  datatype Round =
    | Source(b: nat, p: nat, load: Value)  // fill a block, send it, and receive it back
    | Receive(b: nat, p: nat)              // receive a block from another node
    | Relay(b: nat, p: nat)                // send a block that compute has pushed
    | Store(b: nat)                        // copy a block that compute has pushed to a tensor
  {
    function Side(): Side { if Source? || Receive? then Reserved else Waited }
  }

  function CommandsOf(r: Round): seq<Cmd>
  {
    match r
    case Source(b, p, load) =>
      [Reserve(b), Touch(b, Reserved, CopyDst, 0), Cmd.TxWait(b, Reserved, load), Send(p, b, Reserved),
       Cmd.TxWait(b, Reserved, 0), Touch(b, Reserved, CopyDst, 0), Recv(p, b, Reserved)]
    case Receive(b, p) => [Reserve(b), Touch(b, Reserved, CopyDst, 0), Recv(p, b, Reserved)]
    case Relay(b, p) => [Wait(b), Send(p, b, Waited), Cmd.TxWait(b, Waited, 0)]
    case Store(b) => [Wait(b), Touch(b, Waited, CopySrc, 0), Cmd.TxWait(b, Waited, 0)]
  }

  function Commands(rs: seq<Round>): seq<Cmd>
  {
    if rs == [] then [] else Commands(rs[..|rs| - 1]) + CommandsOf(rs[|rs| - 1])
  }

  /** A kernel that performs these commands, whatever it reads. */
  function Straight(cs: seq<Cmd>): Prog { (h: seq<Value>) => if |h| < |cs| then cs[|h|] else Done }

  /** The round uses the kernel's own blocks; only the pipe of a `Source` leads back to the kernel. */
  predicate RoundOk(t: Topo, k: nat, r: Round)
    requires WFTopo(t)
  {
    && OwnsBlock(t, k, r.b, r.Side())
    && (!r.Store? ==> r.p < |t.sender|)
    && (r.Source? ==> t.sender[r.p] == k && k in t.recvs[r.p])
    && (r.Receive? ==> t.sender[r.p] != k && k in t.recvs[r.p])
    && (r.Relay? ==> t.sender[r.p] == k && k !in t.recvs[r.p])
  }

  predicate RoundsOk(t: Topo, k: nat, rs: seq<Round>)
    requires WFTopo(t)
  {
    forall i :: 0 <= i < |rs| ==> RoundOk(t, k, rs[i])
  }

  lemma {:induction false} CommandsAreLegal(t: Topo, k: nat, rs: seq<Round>)
    requires WFTopo(t) && RoundsOk(t, k, rs)
    ensures forall cmd <- Commands(rs) :: Legal(t, k, cmd) && !cmd.Pop?
  {
    if rs != [] {
      CommandsAreLegal(t, k, rs[..|rs| - 1]);
      assert RoundOk(t, k, rs[|rs| - 1]);
    }
  }

  // ----- Inside one round -----

  /** The slot that the next acquisition on `b` will be. */
  function Fresh(q: Prog, h: seq<Value>, b: nat, side: Side): nat
  {
    Released(q, h, b, side) + if PendingIn(q, h, b, side) then 1 else 0
  }

  /** How many of the first j commands of a round send, and how many receive. */
  function Sends(r: Round, j: nat): nat { if (r.Source? && j >= 4) || (r.Relay? && j >= 2) then 1 else 0 }
  function Takes(r: Round, j: nat): nat { if (r.Source? && j >= 7) || (r.Receive? && j >= 3) then 1 else 0 }

  /** `q` performs round `r` after `h[..m]`, and `h` is j commands into it. */
  predicate InRound(q: Prog, h: seq<Value>, m: nat, r: Round, j: nat)
  {
    && m + j == |h| && j <= |CommandsOf(r)|
    && forall i :: 0 <= i < j ==> q(h[..m + i]) == CommandsOf(r)[i]
  }

  lemma OneLess(q: Prog, h: seq<Value>, m: nat, r: Round, j: nat)
    requires j >= 1 && InRound(q, h, m, r, j)
    ensures InRound(q, h[..|h| - 1], m, r, j - 1) && h[..|h| - 1][..m] == h[..m]
    ensures q(h[..|h| - 1]) == CommandsOf(r)[j - 1]
  {
    var g := h[..|h| - 1];
    forall i | 0 <= i < j - 1
      ensures q(g[..m + i]) == CommandsOf(r)[i]
    {
      assert g[..m + i] == h[..m + i];
    }
    assert g[..m] == h[..m];
    assert g == h[..m + (j - 1)];
  }

  /** A round works on one fresh block. */
  lemma {:induction false} BlockInRound(q: Prog, h: seq<Value>, m: nat, r: Round, j: nat, b: nat, side: Side)
    requires InRound(q, h, m, r, j)
    ensures j >= 1 && b == r.b && side == r.Side() ==>
              PendingIn(q, h, b, side) && Released(q, h, b, side) == Fresh(q, h[..m], b, side)
    ensures j == 0 || b != r.b || side != r.Side() ==> Fresh(q, h, b, side) == Fresh(q, h[..m], b, side)
    ensures b != r.b || side != r.Side() ==> Released(q, h, b, side) == Released(q, h[..m], b, side)
    ensures b != r.b || side != r.Side() ==> PendingIn(q, h, b, side) == PendingIn(q, h[..m], b, side)
    decreases j
  {
    if j == 0 {
      assert h[..m] == h;
    } else {
      OneLess(q, h, m, r, j);
      BlockInRound(q, h[..|h| - 1], m, r, j - 1, b, side);
    }
  }

  /** What a round has sent and taken. */
  lemma {:induction false} PipesInRound(q: Prog, h: seq<Value>, m: nat, r: Round, j: nat, p: nat)
    requires InRound(q, h, m, r, j)
    ensures SentIn(q, h, p) == SentIn(q, h[..m], p)
              + (if Sends(r, j) == 1 && p == r.p then [Tensor(r.b, Fresh(q, h[..m], r.b, r.Side()))] else [])
    ensures GotIn(q, h, p) == GotIn(q, h[..m], p) + if Takes(r, j) == 1 && p == r.p then 1 else 0
    decreases j
  {
    if j == 0 {
      assert h[..m] == h;
    } else {
      OneLess(q, h, m, r, j);
      hide InRound, Released, PendingIn;
      PipesInRound(q, h[..|h| - 1], m, r, j - 1, p);
      BlockInRound(q, h[..|h| - 1], m, r, j - 1, r.b, r.Side());
    }
  }

  // ----- Between rounds -----

  /** Everything `q` has sent of its reserved blocks in the prefixes of `h` is older than the next reservation. */
  ghost predicate OnlyOlderSent(q: Prog, h: seq<Value>, b: nat)
  {
    forall i, n: nat :: 0 <= i < |h| && SendsSlot(q, h[..i], b, Reserved, n) ==> n < Fresh(q, h, b, Reserved)
  }

  /** Kernel `k` has taken back what it has sent on the pipes that lead to itself. */
  predicate TakenBack(t: Topo, k: nat, q: Prog, h: seq<Value>, p: nat)
    requires WFTopo(t) && p < |t.sender|
  {
    t.sender[p] == k && k in t.recvs[p] ==> GotIn(q, h, p) == |SentIn(q, h, p)|
  }

  ghost predicate Settled(t: Topo, k: nat, q: Prog, h: seq<Value>)
    requires WFTopo(t)
  {
    (forall b: nat :: OnlyOlderSent(q, h, b)) && forall p: nat :: p < |t.sender| ==> TakenBack(t, k, q, h, p)
  }

  /** In a round, the sends so far are those before it and that of its own block. */
  lemma SendsInRound(q: Prog, h: seq<Value>, m: nat, r: Round, j: nat, b: nat, i: nat, n: nat)
    requires InRound(q, h, m, r, j) && OnlyOlderSent(q, h[..m], b)
    requires i < |h| && SendsSlot(q, h[..i], b, Reserved, n)
    ensures n < Fresh(q, h[..m], b, Reserved) || (r.Source? && b == r.b && j >= 4 && n == Fresh(q, h[..m], b, Reserved))
  {
    if i < m {
      assert h[..m][..i] == h[..i];
    } else {
      var g := h[..i];
      assert q(h[..m + (i - m)]) == CommandsOf(r)[i - m];
      forall x | 0 <= x < i - m
        ensures q(g[..m + x]) == CommandsOf(r)[x]
      {
        assert g[..m + x] == h[..m + x];
      }
      assert g[..m] == h[..m];
      BlockInRound(q, g, m, r, i - m, b, Reserved);
    }
  }

  /** A whole round settles again. */
  lemma RoundSettles(t: Topo, k: nat, q: Prog, h: seq<Value>, m: nat, r: Round)
    requires WFTopo(t) && RoundOk(t, k, r) && InRound(q, h, m, r, |CommandsOf(r)|) && Settled(t, k, q, h[..m])
    ensures Settled(t, k, q, h)
  {
    var j := |CommandsOf(r)|;
    forall b: nat
      ensures OnlyOlderSent(q, h, b)
    {
      BlockInRound(q, h, m, r, j, b, Reserved);
      forall i, n: nat | 0 <= i < |h| && SendsSlot(q, h[..i], b, Reserved, n)
        ensures n < Fresh(q, h, b, Reserved)
      {
        SendsInRound(q, h, m, r, j, b, i, n);
      }
    }
    forall p: nat | p < |t.sender|
      ensures TakenBack(t, k, q, h, p)
    {
      PipesInRound(q, h, m, r, j, p);
      assert TakenBack(t, k, q, h[..m], p);
    }
  }

  /** The last command on the round's block. */
  lemma LandingInRound(q: Prog, h: seq<Value>, m: nat, r: Round, j: nat)
    requires InRound(q, h, m, r, j) && j >= 2
    ensures Landing(q, h, r.b, r.Side()) <==> CommandsOf(r)[j - 1] == Touch(r.b, r.Side(), CopyDst, 0)
  {
    OneLess(q, h, m, r, j);
  }

  /** The only writes of a round that are not of a tensor onto itself come before its send. */
  lemma OverwriteInRound(t: Topo, k: nat, q: Prog, h: seq<Value>, m: nat, r: Round, j: nat)
    requires WFTopo(t) && RoundOk(t, k, r) && InRound(q, h, m, r, j) && j < |CommandsOf(r)|
    requires q(h) == CommandsOf(r)[j] && Settled(t, k, q, h[..m]) && Overwrites(t, k, q, h)
    ensures 1 <= j && (r.Source? || r.Receive?) && q(h).side == Reserved && q(h).b == r.b && (r.Source? ==> j < 4)
  {
    BlockInRound(q, h, m, r, j, r.b, r.Side());
    if j >= 2 {
      LandingInRound(q, h, m, r, j);
    }
    if r.Source? && j == 6 {
      PipesInRound(q, h, m, r, j, r.p);
      assert TakenBack(t, k, q, h[..m], r.p);
      assert LoopsBack(t, k, q, h);
    }
  }

  /** In a round a kernel overwrites nothing that it has sent. */
  lemma RoundOverwrites(t: Topo, k: nat, q: Prog, h: seq<Value>, m: nat, r: Round, j: nat)
    requires WFTopo(t) && RoundOk(t, k, r) && InRound(q, h, m, r, j) && j < |CommandsOf(r)|
    requires q(h) == CommandsOf(r)[j] && Settled(t, k, q, h[..m]) && Overwrites(t, k, q, h)
    ensures q(h).side == Reserved
    ensures forall i :: 0 <= i < |h| ==> !SendsSlot(q, h[..i], q(h).b, Reserved, Released(q, h, q(h).b, Reserved))
  {
    BlockInRound(q, h, m, r, j, r.b, r.Side());
    OverwriteInRound(t, k, q, h, m, r, j);
    assert OnlyOlderSent(q, h[..m], r.b);
    hide Overwrites, Fresh, InRound, OnlyOlderSent;
    var n := Released(q, h, r.b, Reserved);
    forall i | 0 <= i < |h|
      ensures !SendsSlot(q, h[..i], r.b, Reserved, n)
    {
      if SendsSlot(q, h[..i], r.b, Reserved, n) {
        SendsInRound(q, h, m, r, j, r.b, i, n);
      }
    }
  }

  // ----- A whole kernel -----

  lemma LastRound(rs: seq<Round>)
    requires rs != []
    ensures Commands(rs) == Commands(rs[..|rs| - 1]) + CommandsOf(rs[|rs| - 1])
  {
  }

  /** The x-th command of the i-th round. */
  lemma {:induction false} CommandAt(rs: seq<Round>, i: nat, x: nat)
    requires i < |rs| && x < |CommandsOf(rs[i])|
    ensures |Commands(rs[..i])| + x < |Commands(rs)|
    ensures Commands(rs)[|Commands(rs[..i])| + x] == CommandsOf(rs[i])[x]
  {
    hide *;
    var head := rs[..|rs| - 1];
    LastRound(rs);
    if i < |rs| - 1 {
      CommandAt(head, i, x);
      assert head[..i] == rs[..i] && head[i] == rs[i];
    } else {
      assert rs[..i] == head;
    }
  }

  lemma {:induction false} RoundOf(rs: seq<Round>, n: nat) returns (i: nat, x: nat)
    requires n < |Commands(rs)|
    ensures i < |rs| && x < |CommandsOf(rs[i])| && n == |Commands(rs[..i])| + x
  {
    var head := rs[..|rs| - 1];
    LastRound(rs);
    hide CommandsOf;
    if n < |Commands(head)| {
      i, x := RoundOf(head, n);
      assert head[..i] == rs[..i];
    } else {
      i, x := |rs| - 1, n - |Commands(head)|;
    }
  }

  lemma InTheRound(rs: seq<Round>, h: seq<Value>, i: nat, j: nat)
    requires i < |rs| && j <= |CommandsOf(rs[i])| && |h| == |Commands(rs[..i])| + j
    ensures InRound(Straight(Commands(rs)), h, |Commands(rs[..i])|, rs[i], j)
  {
    hide Commands, CommandsOf;
    var (cs, m) := (Commands(rs), |Commands(rs[..i])|);
    forall x | 0 <= x < j
      ensures Straight(cs)(h[..m + x]) == CommandsOf(rs[i])[x]
    {
      CommandAt(rs, i, x);
      assert |h[..m + x]| == m + x;
    }
  }

  lemma {:induction false} SettledAt(t: Topo, k: nat, rs: seq<Round>, h: seq<Value>, i: nat)
    requires WFTopo(t) && RoundsOk(t, k, rs) && i <= |rs| && |h| == |Commands(rs[..i])|
    ensures Settled(t, k, Straight(Commands(rs)), h)
  {
    if i > 0 {
      var (m, j) := (|Commands(rs[..i - 1])|, |CommandsOf(rs[i - 1])|);
      assert rs[..i][..i - 1] == rs[..i - 1];
      InTheRound(rs, h, i - 1, j);
      SettledAt(t, k, rs, h[..m], i - 1);
      RoundSettles(t, k, Straight(Commands(rs)), h, m, rs[i - 1]);
    }
  }

  lemma RoundsOverwrite(t: Topo, k: nat, rs: seq<Round>, h: seq<Value>)
    requires WFTopo(t) && RoundsOk(t, k, rs) && Overwrites(t, k, Straight(Commands(rs)), h)
    ensures var q := Straight(Commands(rs));
            q(h).side == Reserved
            && forall i :: 0 <= i < |h| ==> !SendsSlot(q, h[..i], q(h).b, Reserved, Released(q, h, q(h).b, Reserved))
  {
    var q := Straight(Commands(rs));
    var i, j := RoundOf(rs, |h|);
    var m := |Commands(rs[..i])|;
    CommandAt(rs, i, j);
    InTheRound(rs, h, i, j);
    SettledAt(t, k, rs, h[..m], i);
    RoundOverwrites(t, k, q, h, m, rs[i], j);
  }

  /** What is asked of a kernel that is no sequence of rounds, such as a compute kernel: it sends nothing, writes
      only blocks that it has reserved, and pops only what it holds. */
  ghost predicate Modest(t: Topo, ps: seq<Prog>, k: nat)
    requires WFProgs(t, ps) && k < |ps|
  {
    forall h: seq<Value> {:trigger ps[k](h)} ::
      && !ps[k](h).Send? && (Overwrites(t, k, ps[k], h) ==> ps[k](h).side == Reserved)
      && (ps[k](h).Pop? ==> PendingIn(ps[k], h, ps[k](h).b, Waited))
  }

  /** Every kernel is a sequence of rounds or modest. */
  ghost predicate AllRounds(t: Topo, ps: seq<Prog>, plan: seq<Option<seq<Round>>>)
    requires WFProgs(t, ps)
  {
    |plan| == |ps| && forall k :: 0 <= k < |ps| ==>
      match plan[k]
      case Some(rs) => RoundsOk(t, k, rs) && ps[k] == Straight(Commands(rs))
      case None => Modest(t, ps, k)
  }

  lemma RoundsKeepUnsent(t: Topo, ps: seq<Prog>, plan: seq<Option<seq<Round>>>, k: nat, h: seq<Value>)
    requires WFProgs(t, ps) && AllRounds(t, ps, plan) && k < |ps| && Overwrites(t, k, ps[k], h)
    ensures Unsent(t, ps, k, h, ps[k](h).b, ps[k](h).side)
  {
    match plan[k]
    case Some(rs) => RoundsOverwrite(t, k, rs, h);
    case None =>
      assert !ps[k](h).Send? && ps[k](h).side == Reserved;
  }

  /** Kernels made of such rounds, in any order and number, next to modest ones overwrite nothing they have on a
      pipe and pop only what they hold. */
  lemma RoundsAreSealed(t: Topo, ps: seq<Prog>, plan: seq<Option<seq<Round>>>)
    requires WFProgs(t, ps) && AllRounds(t, ps, plan)
    ensures Sealed(t, ps) && PopsHeld(ps)
  {
    forall k: nat, h: seq<Value> {:trigger ps[k](h)} | k < |ps| && Overwrites(t, k, ps[k], h)
      ensures Unsent(t, ps, k, h, ps[k](h).b, ps[k](h).side)
    {
      RoundsKeepUnsent(t, ps, plan, k, h);
    }
    forall k: nat, h: seq<Value> {:trigger ps[k](h)} | k < |ps| && ps[k](h).Pop?
      ensures PendingIn(ps[k], h, ps[k](h).b, Waited)
    {
      match plan[k]
      case Some(rs) =>
        CommandsAreLegal(t, k, rs);
        assert ps[k](h) in Commands(rs);
      case None =>
    }
  }

  /** So every schedule of them ends alike. */
  lemma RoundsAgree(t: Topo, ps: seq<Prog>, plan: seq<Option<seq<Round>>>, o: Ending, w: Config, o': Ending, w': Config)
    requires WFProgs(t, ps) && AllRounds(t, ps, plan) && Result(t, ps, o, w) && Result(t, ps, o', w')
    ensures (o.Crashed? && o'.Crashed?) || (o == o' && w == w')
  {
    RoundsAreSealed(t, ps, plan);
    AllSchedulesAgree(t, ps, o, w, o', w');
  }

  // ----- The read and write loops -----

  /** `dm_read` or `dm_write` of one node: its block buffer, the pipe it takes blocks from, whether it is that
      pipe's source, what it loads as its i-th block, and what it does after each output block. */
  datatype Loop = Loop(b: nat, p: nat, source: bool, load: nat -> Value, perBlock: nat, tail: seq<Round>)

  function Block(l: Loop, i: nat): Round { if l.source then Source(l.b, l.p, l.load(i)) else Receive(l.b, l.p) }

  function Blocks(l: Loop, from: nat, n: nat): (r: seq<Round>)
    ensures |r| == n && forall j :: 0 <= j < n ==> r[j] == Block(l, from + j)
  {
    seq(n, j requires 0 <= j => Block(l, from + j))
  }

  /** `blocks` output blocks, each with `perBlock` blocks of input and the tail. */
  function LoopRounds(l: Loop, blocks: nat): seq<Round>
  {
    if blocks == 0 then []
    else LoopRounds(l, blocks - 1) + Blocks(l, (blocks - 1) * l.perBlock, l.perBlock) + l.tail
  }

  /** Any such loop uses its pipes as the rounds demand, so `RoundsAreSealed` covers it: the K-split kernel gathers
      partials or relays its own after each output block, its writer and summa's store the result. */
  lemma {:induction false} LoopRoundsOk(t: Topo, k: nat, l: Loop, blocks: nat)
    requires WFTopo(t) && RoundOk(t, k, Block(l, 0)) && RoundsOk(t, k, l.tail)
    ensures RoundsOk(t, k, LoopRounds(l, blocks))
  {
    if blocks > 0 {
      LoopRoundsOk(t, k, l, blocks - 1);
      var taken := Blocks(l, (blocks - 1) * l.perBlock, l.perBlock);
      forall i | 0 <= i < |taken|
        ensures RoundOk(t, k, taken[i])
      {
      }
      hide RoundOk, Blocks, Block;
      BothOk(t, k, LoopRounds(l, blocks - 1), taken);
      BothOk(t, k, LoopRounds(l, blocks - 1) + taken, l.tail);
    }
  }

  lemma BothOk(t: Topo, k: nat, xs: seq<Round>, ys: seq<Round>)
    requires WFTopo(t) && RoundsOk(t, k, xs) && RoundsOk(t, k, ys)
    ensures RoundsOk(t, k, xs + ys)
  {
    hide RoundOk;
  }

  // ----- One multicast that includes its source -----

  const LOOP_TOPO := Topo([1, 1], [0, 1], [0, 1], [0], [{0, 1}], [DM, DM])
  const LOOP_PLAN: seq<seq<Round>> := [[Source(0, 0, 7)], [Receive(1, 0)]]
  const LOOP_PROGS: seq<Prog> := [Straight(Commands(LOOP_PLAN[0])), Straight(Commands(LOOP_PLAN[1]))]

  /** The sender receives its own message into the block that it has sent, and the condition holds. */
  lemma LoopbackIsSealed()
    ensures WFProgs(LOOP_TOPO, LOOP_PROGS) && Sealed(LOOP_TOPO, LOOP_PROGS) && PopsHeld(LOOP_PROGS)
    ensures forall h: seq<Value> :: |h| == 3 ==> LOOP_PROGS[0](h) == Send(0, 0, Reserved)
    ensures forall h: seq<Value> :: |h| == 6 ==> LOOP_PROGS[0](h) == Recv(0, 0, Reserved)
  {
    var (t, ps) := (LOOP_TOPO, LOOP_PROGS);
    var (send, take) := (LOOP_PLAN[0], LOOP_PLAN[1]);
    assert Commands(send[..0]) == [] && Commands(take[..0]) == [];
    assert Commands(send) == CommandsOf(Source(0, 0, 7)) && Commands(take) == CommandsOf(Receive(1, 0));
    forall k: nat, h: seq<Value> {:trigger ps[k](h)} | k < |ps|
      ensures Legal(t, k, ps[k](h))
    {
      CommandsAreLegal(t, k, LOOP_PLAN[k]);
      assert |h| < |Commands(LOOP_PLAN[k])| ==> ps[k](h) in Commands(LOOP_PLAN[k]);
    }
    var plan := [Some(send), Some(take)];
    assert AllRounds(t, ps, plan);
    hide Sealed, PopsHeld, AllRounds, CommandsOf;
    RoundsAreSealed(t, ps, plan);
  }
}
