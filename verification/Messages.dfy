/** A pipe message is the sent block's own tensor (python/sim/copyhandlers.py): when does it still hold, at
    the receipt, what it held at the send? */
module Messages {
  import opened Wrappers
  import opened BlockState
  import opened Network
  import opened Holding

  // ----- What a command does to a tensor -----

  /** The side whose pending block is the n-th slot, while it can still be written. */
  function HolderIn(o: Out, i: In, n: nat): Option<Side>
  {
    if n < |i.gone| then None
    else if n == |i.gone| && i.held.Some? then Some(Waited)
    else if n == |o.pushed| && o.slot.Some? then Some(Reserved)
    else None
  }

  function HolderOf(t: Topo, c: Config, x: Tensor): Option<Side>
    requires WFConfig(t, c) && x.b < |t.cap|
  {
    HolderIn(c[t.prod[x.b]].outs[x.b], c[t.cons[x.b]].ins[x.b], x.n)
  }

  /** The n-th slot has been reserved. */
  predicate Made(o: Out, i: In, n: nat)
  {
    n < |i.gone| || (n == |i.gone| && i.held.Some?) || n < |o.pushed| || (n == |o.pushed| && o.slot.Some?)
  }

  /** The tensor of a reservation that has been made. */
  predicate Exists(t: Topo, c: Config, x: Tensor)
    requires WFConfig(t, c)
  {
    x.b < |t.cap| && Made(c[t.prod[x.b]].outs[x.b], c[t.cons[x.b]].ins[x.b], x.n)
  }

  /** The pending block a command writes is the tensor `x`. */
  predicate WritesTo(t: Topo, c: Config, k: nat, cmd: Cmd, x: Tensor)
    requires WFConfig(t, c) && k < |c| && Legal(t, k, cmd) && x.b < |t.cap|
  {
    Written(t, c, k, cmd).Some? && HolderOf(t, c, x).Some? && OnBlock(cmd, x.b, HolderOf(t, c, x).value)
  }

  lemma ProducerHandsOn(t: Topo, c: Config, k: nat, cmd: Cmd, b: nat, n: nat)
    requires WFConfig(t, c) && k < |c| && Legal(t, k, cmd) && StepCmd(t, c, k, cmd).Next? && b < |t.cap|
    requires cmd.Reserve? || cmd.Push?
    requires Made(c[t.prod[b]].outs[b], c[t.cons[b]].ins[b], n)
    ensures var (l, d) := (StepCmd(t, c, k, cmd).l, c[k := StepCmd(t, c, k, cmd).l]);
            && WFLocal(t, l)
            && var (o, i) := (d[t.prod[b]].outs[b], d[t.cons[b]].ins[b]);
               Made(o, i, n) && SlotContent(o, i, n) == SlotContent(c[t.prod[b]].outs[b], c[t.cons[b]].ins[b], n)
  {
    hide Apply, ApplyPush, ApplyPop, Initial, Operate;
    CmdGrows(t, c, k, cmd);
  }

  lemma ConsumerHandsOn(t: Topo, c: Config, k: nat, cmd: Cmd, b: nat, n: nat)
    requires WFConfig(t, c) && k < |c| && Legal(t, k, cmd) && StepCmd(t, c, k, cmd).Next? && b < |t.cap|
    requires cmd.Wait? || cmd.Pop?
    requires Made(c[t.prod[b]].outs[b], c[t.cons[b]].ins[b], n)
    ensures var (l, d) := (StepCmd(t, c, k, cmd).l, c[k := StepCmd(t, c, k, cmd).l]);
            && WFLocal(t, l)
            && var (o, i) := (d[t.prod[b]].outs[b], d[t.cons[b]].ins[b]);
               Made(o, i, n) && SlotContent(o, i, n) == SlotContent(c[t.prod[b]].outs[b], c[t.cons[b]].ins[b], n)
  {
    hide Apply, ApplyPush, ApplyPop, Initial, Operate;
    CmdGrows(t, c, k, cmd);
  }

  /** Reserve, push, wait and pop hand a slot on as it is. */
  lemma HandedOn(t: Topo, c: Config, k: nat, cmd: Cmd, b: nat, n: nat)
    requires WFConfig(t, c) && k < |c| && Legal(t, k, cmd) && StepCmd(t, c, k, cmd).Next? && b < |t.cap|
    requires OnBuffer(cmd)
    requires Made(c[t.prod[b]].outs[b], c[t.cons[b]].ins[b], n)
    ensures var (l, d) := (StepCmd(t, c, k, cmd).l, c[k := StepCmd(t, c, k, cmd).l]);
            && WFLocal(t, l)
            && var (o, i) := (d[t.prod[b]].outs[b], d[t.cons[b]].ins[b]);
               Made(o, i, n) && SlotContent(o, i, n) == SlotContent(c[t.prod[b]].outs[b], c[t.cons[b]].ins[b], n)
  {
    if cmd.Reserve? || cmd.Push? {
      ProducerHandsOn(t, c, k, cmd, b, n);
    } else {
      ConsumerHandsOn(t, c, k, cmd, b, n);
    }
    hide StepCmd;
  }

  /** A tensor changes exactly by a write to the pending block it is, and then to the value written: reserve,
      push, wait and pop hand it on as it is. */
  lemma ContentAfter(t: Topo, c: Config, k: nat, cmd: Cmd, x: Tensor)
    requires WFConfig(t, c) && k < |c| && Legal(t, k, cmd) && StepCmd(t, c, k, cmd).Next? && Exists(t, c, x)
    ensures var d := c[k := StepCmd(t, c, k, cmd).l];
            && WFConfig(t, d) && Exists(t, d, x)
            && Content(t, d, x) == if WritesTo(t, c, k, cmd, x) then Written(t, c, k, cmd).value else Content(t, c, x)
  {
    if OnBuffer(cmd) {
      HandedOn(t, c, k, cmd, x.b, x.n);
    } else {
      BlockAfter(t, c, k, cmd, x.b);
      hide StepCmd, Written;
    }
  }

  // ----- Kernels that leave a block alone once it is on a pipe -----

  /** After `h`, kernel `q` sends its pending block on `b`, and that is the n-th slot. */
  predicate SendsSlot(q: Prog, h: seq<Value>, b: nat, side: Side, n: nat)
  {
    q(h).Send? && q(h).b == b && q(h).side == side && Released(q, h, b, side) == n
  }

  /** The tensors that `q` has sent on pipe `p` by the commands whose values are `h`. */
  function SentIn(q: Prog, h: seq<Value>, p: nat): seq<Tensor>
  {
    if h == [] then []
    else
      var (g, cmd) := (h[..|h| - 1], q(h[..|h| - 1]));
      SentIn(q, g, p) + if cmd.Send? && cmd.p == p then [Tensor(cmd.b, Released(q, g, cmd.b, cmd.side))] else []
  }

  /** How many messages of pipe `p` it has taken. */
  function GotIn(q: Prog, h: seq<Value>, p: nat): nat
  {
    if h == [] then 0
    else
      var cmd := q(h[..|h| - 1]);
      GotIn(q, h[..|h| - 1], p) + if cmd.Recv? && cmd.p == p then 1 else 0
  }

  /** The last command on the pending block has started a copy into it. */
  function Landing(q: Prog, h: seq<Value>, b: nat, side: Side): bool
  {
    if h == [] then false
    else
      var cmd := q(h[..|h| - 1]);
      if OnBlock(cmd, b, side) then cmd.Touch? && cmd.op.CopyDst?
      else cmd != Acquire(b, side) && cmd != Release(b, side) && Landing(q, h[..|h| - 1], b, side)
  }

  /** The next command receives, from the kernel's own pipe, the very block that it receives into: the copy
      of a tensor onto itself, as in a multicast whose destinations include its source. */
  predicate LoopsBack(t: Topo, k: nat, q: Prog, h: seq<Value>)
    requires |t.sender| == |t.recvs|
  {
    var cmd := q(h);
    && cmd.Recv? && cmd.p < |t.sender| && t.sender[cmd.p] == k
    && GotIn(q, h, cmd.p) < |SentIn(q, h, cmd.p)|
    && SentIn(q, h, cmd.p)[GotIn(q, h, cmd.p)] == Tensor(cmd.b, Released(q, h, cmd.b, cmd.side))
  }

  /** The next command puts something else into its pending block: a store, the end of a copy, or a receive. */
  predicate Overwrites(t: Topo, k: nat, q: Prog, h: seq<Value>)
    requires |t.sender| == |t.recvs|
  {
    match q(h)
    case Touch(_, _, op, _) => op.StoreDst?
    case TxWait(b, side, _) => Landing(q, h, b, side)
    case Recv(_, _, _) => !LoopsBack(t, k, q, h)
    case _ => false
  }

  /** The slot kernel `k` has pending on `b` after `h` was not sent: not by `k` before, and if `k` consumes
      the buffer, not by its producer at all. */
  ghost predicate Unsent(t: Topo, ps: seq<Prog>, k: nat, h: seq<Value>, b: nat, side: Side)
    requires WFTopo(t) && |ps| == |t.kind| && k < |ps|
  {
    var n := Released(ps[k], h, b, side);
    && (forall i :: 0 <= i < |h| ==> !SendsSlot(ps[k], h[..i], b, side, n))
    && (side.Waited? && b < |t.cap| ==> forall g: seq<Value> :: !SendsSlot(ps[t.prod[b]], g, b, Reserved, n))
  }

  /** No kernel overwrites a slot that was sent, whether it still has it reserved or got it from the sender. */
  ghost predicate Sealed(t: Topo, ps: seq<Prog>)
    requires WFProgs(t, ps)
  {
    forall k: nat, h: seq<Value> {:trigger ps[k](h)} :: k < |ps| && Overwrites(t, k, ps[k], h) ==>
      Unsent(t, ps, k, h, ps[k](h).b, ps[k](h).side)
  }

  // ----- The account of a run -----

  /** The n-th slot is behind or under the pending block. */
  predicate Reached(l: Local, b: nat, side: Side, n: nat)
    requires b < |l.outs| && b < |l.ins|
  {
    n < Count(l, b, side) || (n == Count(l, b, side) && Pending(l, b, side).Some?)
  }

  ghost predicate SentFrom(t: Topo, q: Prog, k: nat, l: Local, x: Tensor, side: Side)
    requires WFTopo(t) && WFLocal(t, l)
  {
    && OwnsBlock(t, k, x.b, side) && Reached(l, x.b, side, x.n)
    && exists i :: 0 <= i < |l.h| && SendsSlot(q, l.h[..i], x.b, side, x.n)
  }

  /** What kernel `k` has sent, its own commands have sent. */
  ghost predicate SentByHistory(t: Topo, q: Prog, k: nat, l: Local)
    requires WFTopo(t) && WFLocal(t, l)
  {
    forall p, i {:trigger l.sent[p][i]} :: 0 <= p < |t.sender| && 0 <= i < |l.sent[p]| ==>
      SentFrom(t, q, k, l, l.sent[p][i], Reserved) || SentFrom(t, q, k, l, l.sent[p][i], Waited)
  }

  /** The pipe logs are those of the kernel's own commands. */
  ghost predicate Logged(t: Topo, q: Prog, l: Local)
    requires WFLocal(t, l)
  {
    forall p: nat :: p < |t.sender| ==> l.sent[p] == SentIn(q, l.h, p) && l.got[p] == GotIn(q, l.h, p)
  }

  /** A copy is in flight only into a block whose last command has started one. */
  ghost predicate Lands(t: Topo, q: Prog, l: Local)
    requires WFLocal(t, l)
  {
    forall b: nat, side: Side ::
      b < |t.cap| && Pending(l, b, side).Some? && Pending(l, b, side).value.sm.access.NAW? ==> Landing(q, l.h, b, side)
  }

  ghost predicate Tracked(t: Topo, ps: seq<Prog>, k: nat, l: Local)
    requires WFTopo(t) && |ps| == |t.kind| && k < |ps| && WFLocal(t, l)
  {
    && Holds(t, ps[k], l) && Counted(t, ps[k], l) && Logged(t, ps[k], l)
    && SentByHistory(t, ps[k], k, l) && Lands(t, ps[k], l)
  }

  /** Every kernel's state is accounted for by its own commands. */
  ghost predicate Accounted(t: Topo, ps: seq<Prog>, c: Config)
    requires WF(t, ps, c)
  {
    forall k {:trigger c[k]} :: 0 <= k < |c| ==> Tracked(t, ps, k, c[k])
  }

  lemma StartIsAccounted(t: Topo, ps: seq<Prog>)
    requires WFProgs(t, ps)
    ensures WF(t, ps, Start(t)) && Accounted(t, ps, Start(t))
  {
    forall k | 0 <= k < |Start(t)|
      ensures Tracked(t, ps, k, Start(t)[k])
    {
      StartHolds(t, ps[k]);
    }
  }

  /** The commands that keep a kernel at the same pending block have counted it right. */
  lemma CountedHere(t: Topo, ps: seq<Prog>, k: nat, l: Local, b: nat, side: Side)
    requires WFTopo(t) && WFLocal(t, l) && |ps| == |t.kind| && k < |ps| && b < |t.cap|
    requires Holds(t, ps[k], l) && Counted(t, ps[k], l) && OnBlock(ps[k](l.h), b, side)
    ensures Count(l, b, side) == Released(ps[k], l.h, b, side)
  {
  }

  lemma StepKeepsSent(t: Topo, ps: seq<Prog>, c: Config, k: nat)
    requires WF(t, ps, c) && k < |c| && Step(t, ps, c, k).Next? && Tracked(t, ps, k, c[k])
    ensures WFLocal(t, Step(t, ps, c, k).l) && SentByHistory(t, ps[k], k, Step(t, ps, c, k).l)
  {
    StepGrows(t, ps, c, k);
    var l, m, cmd := c[k], Step(t, ps, c, k).l, ps[k](c[k].h);
    forall p, i | 0 <= p < |t.sender| && 0 <= i < |m.sent[p]|
      ensures SentFrom(t, ps[k], k, m, m.sent[p][i], Reserved) || SentFrom(t, ps[k], k, m, m.sent[p][i], Waited)
    {
      var x := m.sent[p][i];
      if i < |l.sent[p]| {
        assert x == l.sent[p][i];
        var side := if SentFrom(t, ps[k], k, l, x, Reserved) then Reserved else Waited;
        StillSent(t, ps, c, k, x, side);
      } else {
        NewlySent(t, ps, c, k, p, i);
      }
    }
  }

  lemma StillSent(t: Topo, ps: seq<Prog>, c: Config, k: nat, x: Tensor, side: Side)
    requires WF(t, ps, c) && k < |c| && Step(t, ps, c, k).Next? && SentFrom(t, ps[k], k, c[k], x, side)
    ensures WFLocal(t, Step(t, ps, c, k).l) && SentFrom(t, ps[k], k, Step(t, ps, c, k).l, x, side)
  {
    StepGrows(t, ps, c, k);
    var l, m, cmd := c[k], Step(t, ps, c, k).l, ps[k](c[k].h);
    HistoryGrows(t, ps, c, k);
    var j :| 0 <= j < |l.h| && SendsSlot(ps[k], l.h[..j], x.b, side, x.n);
    assert m.h[..j] == l.h[..j];
    PendingStep(t, c, k, cmd, x.b, side);
    CountStep(t, c, k, cmd, x.b, side);
    ReleaseNeedsPending(t, c, k, cmd, x.b, side);
  }

  /** A block that is given back has its slot counted. */
  lemma ReleaseNeedsPending(t: Topo, c: Config, k: nat, cmd: Cmd, b: nat, side: Side)
    requires WFConfig(t, c) && k < |c| && Legal(t, k, cmd) && StepCmd(t, c, k, cmd).Next? && b < |t.cap|
    ensures var l, m := c[k], StepCmd(t, c, k, cmd).l;
            && WFLocal(t, m)
            && (Pending(l, b, side).Some? && Pending(m, b, side).None? ==> Count(m, b, side) == Count(l, b, side) + 1)
  {
    PendingStep(t, c, k, cmd, b, side);
    CountStep(t, c, k, cmd, b, side);
  }

  lemma NewlySent(t: Topo, ps: seq<Prog>, c: Config, k: nat, p: nat, i: nat)
    requires WF(t, ps, c) && k < |c| && Step(t, ps, c, k).Next? && Tracked(t, ps, k, c[k]) && p < |t.sender|
    requires |c[k].sent[p]| <= i && WFLocal(t, Step(t, ps, c, k).l) && i < |Step(t, ps, c, k).l.sent[p]|
    ensures ps[k](c[k].h).Send?
    ensures SentFrom(t, ps[k], k, Step(t, ps, c, k).l, Step(t, ps, c, k).l.sent[p][i], ps[k](c[k].h).side)
  {
    var l, m, cmd := c[k], Step(t, ps, c, k).l, ps[k](c[k].h);
    HistoryGrows(t, ps, c, k);
    assert cmd.Send? && m.sent[p][i] == TensorOf(l, cmd.b, cmd.side) && |m.h| == |l.h| + 1;
    CountedHere(t, ps, k, l, cmd.b, cmd.side);
    assert m.h[..|l.h|] == l.h;
    BlockAfter(t, c, k, cmd, cmd.b);
    assert SendsSlot(ps[k], m.h[..|l.h|], cmd.b, cmd.side, Count(l, cmd.b, cmd.side));
  }

  lemma OnlyCopyDstLocks(sm: SM, op: OpKey)
    ensures Apply(sm, op).Moved? && Apply(sm, op).sm.access.NAW? ==> op.CopyDst?
  {
  }

  lemma LockedHere(t: Topo, c: Config, k: nat, cmd: Cmd, b: nat, side: Side)
    requires WFConfig(t, c) && k < |c| && Legal(t, k, cmd) && StepCmd(t, c, k, cmd).Next? && OnBlock(cmd, b, side)
    ensures var l := StepCmd(t, c, k, cmd).l;
            && WFLocal(t, l) && b < |t.cap| && Pending(l, b, side).Some?
            && (Pending(l, b, side).value.sm.access.NAW? ==> cmd.Touch? && cmd.op.CopyDst?)
  {
    CmdGrows(t, c, k, cmd);
    var sm := Pending(c[k], b, side).value.sm;
    var op := match cmd case Touch(_, _, op, _) => op case Send(_, _, _) => CopySrc case _ => OpKey.TxWait;
    OnlyCopyDstLocks(sm, op);
    hide Apply;
  }

  lemma LockedElsewhere(t: Topo, c: Config, k: nat, cmd: Cmd, b: nat, side: Side)
    requires WFConfig(t, c) && k < |c| && Legal(t, k, cmd) && StepCmd(t, c, k, cmd).Next? && b < |t.cap|
    requires !OnBlock(cmd, b, side)
    ensures WFLocal(t, StepCmd(t, c, k, cmd).l)
    ensures var (was, now) := (Pending(c[k], b, side), Pending(StepCmd(t, c, k, cmd).l, b, side));
            now.Some? && now.value.sm.access.NAW? ==> was == now && cmd != Acquire(b, side) && cmd != Release(b, side)
  {
    if OnBuffer(cmd) {
      CmdGrows(t, c, k, cmd);
      hide Apply;
    } else {
      BlockAfter(t, c, k, cmd, b);
      hide StepCmd;
    }
  }

  /** A copy in flight into a block was started by this command or before. */
  lemma InFlightBefore(t: Topo, c: Config, k: nat, cmd: Cmd, b: nat, side: Side)
    requires WFConfig(t, c) && k < |c| && Legal(t, k, cmd) && StepCmd(t, c, k, cmd).Next? && b < |t.cap|
    ensures WFLocal(t, StepCmd(t, c, k, cmd).l)
    ensures var (was, now) := (Pending(c[k], b, side), Pending(StepCmd(t, c, k, cmd).l, b, side));
            now.Some? && now.value.sm.access.NAW? ==>
              && cmd != Acquire(b, side) && cmd != Release(b, side)
              && if OnBlock(cmd, b, side) then cmd.Touch? && cmd.op.CopyDst? else was == now
  {
    if OnBlock(cmd, b, side) {
      LockedHere(t, c, k, cmd, b, side);
    } else {
      LockedElsewhere(t, c, k, cmd, b, side);
    }
  }

  lemma StepKeepsLanding(t: Topo, ps: seq<Prog>, c: Config, k: nat)
    requires WF(t, ps, c) && k < |c| && Step(t, ps, c, k).Next? && Lands(t, ps[k], c[k])
    ensures WFLocal(t, Step(t, ps, c, k).l) && Lands(t, ps[k], Step(t, ps, c, k).l)
  {
    StepGrows(t, ps, c, k);
    var l, m, cmd := c[k], Step(t, ps, c, k).l, ps[k](c[k].h);
    HistoryGrows(t, ps, c, k);
    OperationIsLogged(t, c, k, cmd);
    forall b: nat, side: Side
      | b < |t.cap| && Pending(m, b, side).Some? && Pending(m, b, side).value.sm.access.NAW?
      ensures Landing(ps[k], m.h, b, side)
    {
      InFlightBefore(t, c, k, cmd, b, side);
      hide Step, StepCmd;
    }
  }

  /** An operation on a pending block is a command of its own in the history. */
  lemma OperationIsLogged(t: Topo, c: Config, k: nat, cmd: Cmd)
    requires WFConfig(t, c) && k < |c| && Legal(t, k, cmd) && StepCmd(t, c, k, cmd).Next?
    ensures StepCmd(t, c, k, cmd).l.h == c[k].h ==> cmd.Reserve? || cmd.Wait?
  {
  }

  /** What one command does to the pipe logs. */
  lemma LogStep(t: Topo, c: Config, k: nat, cmd: Cmd, p: nat)
    requires WFConfig(t, c) && k < |c| && Legal(t, k, cmd) && StepCmd(t, c, k, cmd).Next? && p < |t.sender|
    ensures var l, m := c[k], StepCmd(t, c, k, cmd).l;
            && WFLocal(t, m)
            && m.sent[p] == l.sent[p] + (if cmd.Send? && cmd.p == p then [TensorOf(l, cmd.b, cmd.side)] else [])
            && m.got[p] == l.got[p] + if cmd.Recv? && cmd.p == p then 1 else 0
  {
    CmdGrows(t, c, k, cmd);
  }

  lemma StepKeepsLogs(t: Topo, ps: seq<Prog>, c: Config, k: nat)
    requires WF(t, ps, c) && k < |c| && Step(t, ps, c, k).Next?
    requires Holds(t, ps[k], c[k]) && Counted(t, ps[k], c[k]) && Logged(t, ps[k], c[k])
    ensures WFLocal(t, Step(t, ps, c, k).l) && Logged(t, ps[k], Step(t, ps, c, k).l)
  {
    StepGrows(t, ps, c, k);
    var l, m, cmd := c[k], Step(t, ps, c, k).l, ps[k](c[k].h);
    HistoryGrows(t, ps, c, k);
    OperationIsLogged(t, c, k, cmd);
    if cmd.Send? {
      CountedHere(t, ps, k, l, cmd.b, cmd.side);
    }
    forall p: nat | p < |t.sender|
      ensures m.sent[p] == SentIn(ps[k], m.h, p) && m.got[p] == GotIn(ps[k], m.h, p)
    {
      LogStep(t, c, k, cmd, p);
      hide Step, StepCmd;
    }
  }

  lemma StepKeepsAccount(t: Topo, ps: seq<Prog>, c: Config, k: nat)
    requires WF(t, ps, c) && Accounted(t, ps, c) && k < |c| && Step(t, ps, c, k).Next?
    ensures WF(t, ps, c[k := Step(t, ps, c, k).l]) && Accounted(t, ps, c[k := Step(t, ps, c, k).l])
  {
    StepGrows(t, ps, c, k);
    assert Tracked(t, ps, k, c[k]);
    CmdKeepsHolds(t, ps, c, k);
    CmdKeepsCounted(t, ps, c, k);
    StepKeepsSent(t, ps, c, k);
    StepKeepsLogs(t, ps, c, k);
    StepKeepsLanding(t, ps, c, k);
    var d := c[k := Step(t, ps, c, k).l];
    assert Tracked(t, ps, k, d[k]);
    forall j | 0 <= j < |d|
      ensures Tracked(t, ps, j, d[j])
    {
      assert j != k ==> d[j] == c[j];
      hide Tracked;
    }
  }

  /** What a command writes was not sent, unless it writes a tensor onto itself. */
  lemma WritesUnsent(t: Topo, ps: seq<Prog>, c: Config, k: nat, b: nat, side: Side)
    requires WF(t, ps, c) && Sealed(t, ps) && k < |c| && Tracked(t, ps, k, c[k]) && b < |t.cap|
    requires OnBlock(ps[k](c[k].h), b, side) && Written(t, c, k, ps[k](c[k].h)).Some?
    ensures Count(c[k], b, side) == Released(ps[k], c[k].h, b, side)
    ensures LoopsBack(t, k, ps[k], c[k].h) || Unsent(t, ps, k, c[k].h, b, side)
  {
    CountedHere(t, ps, k, c[k], b, side);
  }

  /** A receive that loops back writes what the tensor holds. */
  lemma LoopWritesItself(t: Topo, ps: seq<Prog>, c: Config, k: nat, x: Tensor)
    requires WF(t, ps, c) && k < |c| && Tracked(t, ps, k, c[k]) && LoopsBack(t, k, ps[k], c[k].h)
    requires x.b < |t.cap| && WritesTo(t, c, k, ps[k](c[k].h), x)
    ensures Written(t, c, k, ps[k](c[k].h)) == Some(Content(t, c, x))
  {
    var cmd := ps[k](c[k].h);
    assert Legal(t, k, cmd);
    CountedHere(t, ps, k, c[k], cmd.b, cmd.side);
    assert TensorOf(c[k], cmd.b, cmd.side) == x;
  }

  /** A tensor on a pipe is not the pending block of an unsent slot. */
  lemma SentIsNotHeld(t: Topo, ps: seq<Prog>, c: Config, k: nat, w: Side, j: nat, x: Tensor, side: Side)
    requires WF(t, ps, c) && k < |c| && j < |c| && SentFrom(t, ps[j], j, c[j], x, side) && OwnsBlock(t, k, x.b, w)
    requires Unsent(t, ps, k, c[k].h, x.b, w) && Count(c[k], x.b, w) == Released(ps[k], c[k].h, x.b, w)
    ensures HolderOf(t, c, x) != Some(w)
  {
    var i :| 0 <= i < |c[j].h| && SendsSlot(ps[j], c[j].h[..i], x.b, side, x.n);
  }

  /** A tensor on a pipe is not written any more, except by itself. */
  lemma SentIsNotWritten(t: Topo, ps: seq<Prog>, c: Config, k: nat, j: nat, x: Tensor, side: Side)
    requires WF(t, ps, c) && Sealed(t, ps) && Accounted(t, ps, c) && k < |c| && j < |c|
    requires x.b < |t.cap| && SentFrom(t, ps[j], j, c[j], x, side)
    ensures WritesTo(t, c, k, ps[k](c[k].h), x) ==> Written(t, c, k, ps[k](c[k].h)) == Some(Content(t, c, x))
  {
    var (cmd, holder) := (ps[k](c[k].h), HolderOf(t, c, x));
    if holder.Some? && OnBlock(cmd, x.b, holder.value) && Written(t, c, k, cmd).Some? {
      assert Tracked(t, ps, k, c[k]);
      WritesUnsent(t, ps, c, k, x.b, holder.value);
      assert Legal(t, k, cmd);
      assert WritesTo(t, c, k, cmd, x);
      hide *;
      if LoopsBack(t, k, ps[k], c[k].h) {
        LoopWritesItself(t, ps, c, k, x);
      } else {
        SentIsNotHeld(t, ps, c, k, holder.value, j, x, side);
      }
    }
  }

  /** Under such kernels no step changes what a queued tensor holds. */
  lemma StepKeepsContents(t: Topo, ps: seq<Prog>, c: Config, k: nat)
    requires WF(t, ps, c) && Sealed(t, ps) && Accounted(t, ps, c) && k < |c| && Step(t, ps, c, k).Next?
    ensures WF(t, ps, c[k := Step(t, ps, c, k).l]) && ContentsKept(t, c, c[k := Step(t, ps, c, k).l])
  {
    StepGrows(t, ps, c, k);
    var d := c[k := Step(t, ps, c, k).l];
    forall j, p, i | 0 <= j < |c| && 0 <= p < |t.sender| && 0 <= i < |c[j].sent[p]|
      ensures Content(t, d, c[j].sent[p][i]) == Content(t, c, c[j].sent[p][i])
    {
      var x := c[j].sent[p][i];
      assert Tracked(t, ps, j, c[j]);
      var side := if SentFrom(t, ps[j], j, c[j], x, Reserved) then Reserved else Waited;
      assert SentFrom(t, ps[j], j, c[j], x, side);
      SentIsNotWritten(t, ps, c, k, j, x, side);
      ContentAfter(t, c, k, ps[k](c[k].h), x);
    }
  }

  ghost predicate Sound(t: Topo, ps: seq<Prog>, c: Config)
    requires WF(t, ps, c)
  {
    Sealed(t, ps) && Accounted(t, ps, c)
  }

  lemma StepIsSound(t: Topo, ps: seq<Prog>, c: Config, k: nat)
    requires WF(t, ps, c) && Sound(t, ps, c) && k < |c| && Step(t, ps, c, k).Next?
    ensures var d := c[k := Step(t, ps, c, k).l]; WF(t, ps, d) && Sound(t, ps, d) && ContentsKept(t, c, d)
  {
    StepKeepsAccount(t, ps, c, k);
    StepKeepsContents(t, ps, c, k);
  }
}
