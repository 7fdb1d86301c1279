/** Kernels as deterministic programs over buffers and pipes, one micro-step at a time.

    Everything a kernel writes is kept in its own `Local`: what it pushed to the
    buffers it produces, what it popped from the buffers it consumes, what it sent
    and what it received. A pipe carries tensors, not values: a receive reads what the
    tensor holds by then. */
module Network {
  import opened Wrappers
  import opened BlockState

  /** A block's payload; 0 is the zero-initialised slot. */
  type Value = int

  /** A pending block: its payload, its access state and the operations that led there. */
  datatype Blk = Blk(val: Value, sm: SM, log: seq<OpKey>)

  datatype Side = Reserved | Waited

  datatype Cmd =
    | Done
    | Reserve(b: nat)
    | Wait(b: nat)
    | Push(b: nat)
    | Pop(b: nat)
    | Touch(b: nat, side: Side, op: OpKey, v: Value)  // a store, an arithmetic use or the start of a tensor copy
    | TxWait(b: nat, side: Side, v: Value)            // wait() of a tensor copy or of a pipe send
    | Send(p: nat, b: nat, side: Side)                // copy(block, pipe)
    | Recv(p: nat, b: nat, side: Side)                // wait() of copy(pipe, block)

  /** A kernel: its next command is a function of everything it has read. */
  type Prog = seq<Value> -> Cmd

  datatype Out = Out(pushed: seq<Value>, slot: Option<Blk>)

  /** `gone` has what each popped slot held when it was popped; a pipe may still carry its tensor. */
  datatype In = In(gone: seq<Value>, held: Option<Blk>)

  datatype Local = Local(h: seq<Value>, outs: seq<Out>, ins: seq<In>, sent: seq<seq<Tensor>>, got: seq<nat>)

  type Config = seq<Local>

  /** Who uses what: the capacity, producer and consumer of each buffer, the
      sender and the receiving kernels of each pipe, the role of each kernel. */
  datatype Topo = Topo(cap: seq<nat>, prod: seq<nat>, cons: seq<nat>,
                       sender: seq<nat>, recvs: seq<set<nat>>, kind: seq<KernelType>)

  predicate WFTopo(t: Topo)
  {
    && |t.cap| == |t.prod| == |t.cons| && |t.sender| == |t.recvs|
    && (forall b :: 0 <= b < |t.cap| ==> t.cap[b] >= 1 && t.prod[b] < |t.kind| && t.cons[b] < |t.kind|)
    && (forall p :: 0 <= p < |t.sender| ==> t.sender[p] < |t.kind|)
    && (forall p :: 0 <= p < |t.recvs| ==> forall r <- t.recvs[p] :: r < |t.kind|)
  }

  predicate OwnsBlock(t: Topo, k: nat, b: nat, side: Side)
    requires WFTopo(t)
  {
    b < |t.cap| && (if side.Reserved? then t.prod[b] == k else t.cons[b] == k)
  }

  /** The command respects single-producer, single-consumer use. */
  predicate Legal(t: Topo, k: nat, cmd: Cmd)
    requires WFTopo(t)
  {
    match cmd
    case Done => true
    case Reserve(b) => OwnsBlock(t, k, b, Reserved)
    case Push(b) => OwnsBlock(t, k, b, Reserved)
    case Wait(b) => OwnsBlock(t, k, b, Waited)
    case Pop(b) => OwnsBlock(t, k, b, Waited)
    case Touch(b, side, op, v) => OwnsBlock(t, k, b, side) && op != OpKey.TxWait
    case TxWait(b, side, v) => OwnsBlock(t, k, b, side)
    case Send(p, b, side) => OwnsBlock(t, k, b, side) && p < |t.sender| && t.sender[p] == k
    case Recv(p, b, side) => OwnsBlock(t, k, b, side) && p < |t.sender| && k in t.recvs[p]
  }

  ghost predicate WFProgs(t: Topo, ps: seq<Prog>)
  {
    && WFTopo(t) && |ps| == |t.kind|
    && forall k: nat, h: seq<Value> {:trigger ps[k](h)} :: k < |ps| ==> Legal(t, k, ps[k](h))
  }

  predicate WFLocal(t: Topo, l: Local)
  {
    |l.outs| == |l.ins| == |t.cap| && |l.sent| == |l.got| == |t.sender|
  }

  predicate WFConfig(t: Topo, c: Config)
  {
    WFTopo(t) && |c| == |t.kind| && forall k {:trigger c[k]} :: 0 <= k < |c| ==> WFLocal(t, c[k])
  }

  ghost predicate WF(t: Topo, ps: seq<Prog>, c: Config)
  {
    WFProgs(t, ps) && WFConfig(t, c)
  }

  function InitialLocal(t: Topo): Local
  {
    Local([], seq(|t.cap|, _ => Out([], None)), seq(|t.cap|, _ => In([], None)),
          seq(|t.sender|, _ => []), seq(|t.sender|, _ => 0))
  }

  function Start(t: Topo): Config
  {
    seq(|t.kind|, _ => InitialLocal(t))
  }

  // ----- One micro-step -----

  datatype StepRes = Halted | Blocked | Crash | Next(l: Local)

  /** Slots ready to consume. */
  function Visible(t: Topo, c: Config, b: nat): int
    requires WFConfig(t, c) && b < |t.cap|
  {
    |c[t.prod[b]].outs[b].pushed| - |c[t.cons[b]].ins[b].gone|
  }

  /** Slots that can still be reserved. */
  function Free(t: Topo, c: Config, b: nat): int
    requires WFConfig(t, c) && b < |t.cap|
  {
    t.cap[b] - Visible(t, c, b) - if c[t.prod[b]].outs[b].slot.Some? then 1 else 0
  }

  /** Slots a kernel has pushed to, or popped from, a buffer. */
  function Count(l: Local, b: nat, side: Side): nat
    requires b < |l.outs| && b < |l.ins|
  {
    if side.Reserved? then |l.outs[b].pushed| else |l.ins[b].gone|
  }

  /** The tensor of a pending block: every reserve makes a new one, and the consumer gets it with the slot. */
  function TensorOf(l: Local, b: nat, side: Side): Tensor
    requires b < |l.outs| && b < |l.ins|
  {
    Tensor(b, Count(l, b, side))
  }

  /** What the n-th slot of a buffer with these ends holds, or last held: as popped, as the consumer or the
      producer has it pending, or as pushed. */
  function SlotContent(o: Out, i: In, n: nat): Value
  {
    if n < |i.gone| then i.gone[n]
    else if n == |i.gone| && i.held.Some? then i.held.value.val
    else if n < |o.pushed| then o.pushed[n]
    else if n == |o.pushed| && o.slot.Some? then o.slot.value.val
    else 0
  }

  /** What a tensor holds now. */
  function Content(t: Topo, c: Config, x: Tensor): Value
    requires WFConfig(t, c)
  {
    if x.b >= |t.cap| then 0 else SlotContent(c[t.prod[x.b]].outs[x.b], c[t.cons[x.b]].ins[x.b], x.n)
  }

  function Advance(l: Local, v: Value): Local { l.(h := l.h + [v]) }

  function SetOut(l: Local, b: nat, o: Out): Local
    requires b < |l.outs|
  {
    l.(outs := l.outs[b := o])
  }

  function SetIn(l: Local, b: nat, i: In): Local
    requires b < |l.ins|
  {
    l.(ins := l.ins[b := i])
  }

  function Pending(l: Local, b: nat, side: Side): Option<Blk>
    requires b < |l.outs| && b < |l.ins|
  {
    if side.Reserved? then l.outs[b].slot else l.ins[b].held
  }

  function SetPending(l: Local, b: nat, side: Side, blk: Blk): Local
    requires b < |l.outs| && b < |l.ins|
  {
    if side.Reserved? then SetOut(l, b, l.outs[b].(slot := Some(blk)))
    else SetIn(l, b, l.ins[b].(held := Some(blk)))
  }

  function NewBlk(v: Value, acq: Acquisition, kind: KernelType): Blk
  {
    Blk(v, Initial(acq, kind), [])
  }

  /** push_block on the pending reserved block: its payload becomes visible. */
  function PushPending(l: Local, b: nat): Option<Local>
    requires b < |l.outs|
  {
    match l.outs[b].slot
    case None => None
    case Some(blk) =>
      if ApplyPush(blk.sm).Moved? then Some(SetOut(l, b, Out(l.outs[b].pushed + [blk.val], None))) else None
  }

  /** pop_block on the pending waited block. */
  function PopPending(l: Local, b: nat): Option<Local>
    requires b < |l.ins|
  {
    match l.ins[b].held
    case None => None
    case Some(blk) =>
      if ApplyPop(blk.sm).Moved? then Some(SetIn(l, b, In(l.ins[b].gone + [blk.val], None))) else None
  }

  /** A block operation with the payload it leaves behind. */
  function Operate(l: Local, b: nat, side: Side, op: OpKey, val: Value): Option<Local>
    requires b < |l.outs| && b < |l.ins|
  {
    match Pending(l, b, side)
    case None => None
    case Some(blk) =>
      match Apply(blk.sm, op)
      case Moved(sm) => Some(SetPending(l, b, side, Blk(val, sm, blk.log + [op])))
      case _ => None
  }

  function Payload(l: Local, b: nat, side: Side): Value
    requires b < |l.outs| && b < |l.ins|
  {
    match Pending(l, b, side)
    case None => 0
    case Some(blk) => blk.val
  }

  function OrCrash(o: Option<Local>, v: Value): StepRes
  {
    match o
    case None => Crash
    case Some(l) => Next(Advance(l, v))
  }

  function StepCmd(t: Topo, c: Config, k: nat, cmd: Cmd): StepRes
    requires WFConfig(t, c)
    requires k < |c| && Legal(t, k, cmd)
  {
    var l := c[k];
    match cmd
    case Done => Halted
    case Reserve(b) =>
      if l.outs[b].slot.Some? then            // auto_push_block, before the synchronisation point
        (match PushPending(l, b) case None => Crash case Some(l') => Next(l'))
      else if Free(t, c, b) < 1 then Blocked
      else Next(Advance(SetOut(l, b, l.outs[b].(slot := Some(NewBlk(0, RESERVE, t.kind[k])))), 0))
    case Wait(b) =>
      if l.ins[b].held.Some? then             // auto_pop_block, before the synchronisation point
        (match PopPending(l, b) case None => Crash case Some(l') => Next(l'))
      else if Visible(t, c, b) < 1 then Blocked
      else
        var v := c[t.prod[b]].outs[b].pushed[|l.ins[b].gone|];
        Next(Advance(SetIn(l, b, l.ins[b].(held := Some(NewBlk(v, WAIT, t.kind[k])))), 0))
    case Push(b) => OrCrash(PushPending(l, b), 0)
    case Pop(b) =>
      if l.ins[b].held.Some? then OrCrash(PopPending(l, b), 0)
      else if Visible(t, c, b) < 1 then Crash // DFBContractError
      else
        var v := c[t.prod[b]].outs[b].pushed[|l.ins[b].gone|];
        Next(Advance(SetIn(l, b, In(l.ins[b].gone + [v], None)), 0))
    case Touch(b, side, op, v) =>
      var current := Payload(l, b, side);
      OrCrash(Operate(l, b, side, op, if op.StoreDst? then v else current), current)
    case TxWait(b, side, v) =>
      var current := Payload(l, b, side);
      var landing := Pending(l, b, side).Some? && Pending(l, b, side).value.sm.access.NAW?;
      OrCrash(Operate(l, b, side, OpKey.TxWait, if landing then v else current), current)
    case Send(p, b, side) =>
      var v := Payload(l, b, side);
      OrCrash(Operate(l.(sent := l.sent[p := l.sent[p] + [TensorOf(l, b, side)]]), b, side, CopySrc, v), v)
    case Recv(p, b, side) =>
      var log := c[t.sender[p]].sent[p];
      if |log| <= l.got[p] then Blocked
      else
        var v := Content(t, c, log[l.got[p]]);
        OrCrash(Operate(l.(got := l.got[p := l.got[p] + 1]), b, side, OpKey.TxWait, v), v)
  }

  ghost function Step(t: Topo, ps: seq<Prog>, c: Config, k: nat): StepRes
    requires WF(t, ps, c) && k < |c|
  {
    StepCmd(t, c, k, ps[k](c[k].h))
  }

  /** A pop with no pending block: it takes whatever is visible. */
  ghost predicate StrayPop(t: Topo, ps: seq<Prog>, c: Config, k: nat)
    requires WF(t, ps, c) && k < |c|
  {
    var cmd := ps[k](c[k].h);
    cmd.Pop? && c[k].ins[cmd.b].held.None?
  }

  ghost predicate Enabled(t: Topo, ps: seq<Prog>, c: Config, k: nat)
    requires WF(t, ps, c) && k < |c|
  {
    Step(t, ps, c, k).Next? || Step(t, ps, c, k).Crash?
  }

  ghost predicate Quiescent(t: Topo, ps: seq<Prog>, c: Config)
    requires WF(t, ps, c)
  {
    forall k :: 0 <= k < |c| ==> !Enabled(t, ps, c, k)
  }

  // ----- What a step leaves standing -----

  /** `m` is a later state of the kernel that was in state `l`. */
  ghost predicate Grows(t: Topo, l: Local, m: Local)
    requires WFLocal(t, l) && WFLocal(t, m)
  {
    && (forall b :: 0 <= b < |t.cap| ==> l.outs[b].pushed <= m.outs[b].pushed && l.ins[b].gone <= m.ins[b].gone)
    && (forall p :: 0 <= p < |t.sender| ==> l.sent[p] <= m.sent[p])
  }

  lemma CmdGrows(t: Topo, c: Config, k: nat, cmd: Cmd)
    requires WFConfig(t, c) && k < |c| && Legal(t, k, cmd) && StepCmd(t, c, k, cmd).Next?
    ensures WFLocal(t, StepCmd(t, c, k, cmd).l) && Grows(t, c[k], StepCmd(t, c, k, cmd).l)
  {
    match cmd {
      case Reserve(_) => BufferCmdGrows(t, c, k, cmd);
      case Wait(_) => BufferCmdGrows(t, c, k, cmd);
      case Push(_) => BufferCmdGrows(t, c, k, cmd);
      case Pop(_) => BufferCmdGrows(t, c, k, cmd);
      case Touch(_, _, _, _) => BlockCmdGrows(t, c, k, cmd);
      case TxWait(_, _, _) => BlockCmdGrows(t, c, k, cmd);
      case Send(_, _, _) => BlockCmdGrows(t, c, k, cmd);
      case Recv(_, _, _) => BlockCmdGrows(t, c, k, cmd);
      case Done =>
    }
  }

  lemma BufferCmdGrows(t: Topo, c: Config, k: nat, cmd: Cmd)
    requires WFConfig(t, c) && k < |c| && Legal(t, k, cmd) && StepCmd(t, c, k, cmd).Next?
    requires cmd.Reserve? || cmd.Wait? || cmd.Push? || cmd.Pop?
    ensures WFLocal(t, StepCmd(t, c, k, cmd).l) && Grows(t, c[k], StepCmd(t, c, k, cmd).l)
  {
  }

  lemma OperateGrows(t: Topo, l: Local, m: Local, b: nat, side: Side, op: OpKey, val: Value)
    requires WFLocal(t, l) && WFLocal(t, m) && Grows(t, l, m) && b < |t.cap|
    ensures Operate(m, b, side, op, val).Some? ==>
              WFLocal(t, Operate(m, b, side, op, val).value) && Grows(t, l, Operate(m, b, side, op, val).value)
  {
  }

  lemma BlockCmdGrows(t: Topo, c: Config, k: nat, cmd: Cmd)
    requires WFConfig(t, c) && k < |c| && Legal(t, k, cmd) && StepCmd(t, c, k, cmd).Next?
    requires cmd.Touch? || cmd.TxWait? || cmd.Send? || cmd.Recv?
    ensures WFLocal(t, StepCmd(t, c, k, cmd).l) && Grows(t, c[k], StepCmd(t, c, k, cmd).l)
  {
    var l := c[k];
    var current := Payload(l, cmd.b, cmd.side);
    match cmd {
      case Touch(b, side, op, v) =>
        OperateGrows(t, l, l, b, side, op, if op.StoreDst? then v else current);
      case TxWait(b, side, v) =>
        var landing := Pending(l, b, side).Some? && Pending(l, b, side).value.sm.access.NAW?;
        OperateGrows(t, l, l, b, side, OpKey.TxWait, if landing then v else current);
      case Send(p, b, side) =>
        OperateGrows(t, l, l.(sent := l.sent[p := l.sent[p] + [TensorOf(l, b, side)]]), b, side, CopySrc, current);
      case Recv(p, b, side) =>
        var v := Content(t, c, c[t.sender[p]].sent[p][l.got[p]]);
        OperateGrows(t, l, l.(got := l.got[p := l.got[p] + 1]), b, side, OpKey.TxWait, v);
    }
  }

  lemma StepGrows(t: Topo, ps: seq<Prog>, c: Config, k: nat)
    requires WF(t, ps, c) && k < |c| && Step(t, ps, c, k).Next?
    ensures WFLocal(t, Step(t, ps, c, k).l) && Grows(t, c[k], Step(t, ps, c, k).l)
    ensures WF(t, ps, c[k := Step(t, ps, c, k).l])
  {
    CmdGrows(t, c, k, ps[k](c[k].h));
  }

  // ----- Operations on pending blocks -----

  predicate OnBuffer(cmd: Cmd) { cmd.Reserve? || cmd.Wait? || cmd.Push? || cmd.Pop? }

  /** The block a command operates on. */
  predicate OnBlock(cmd: Cmd, b: nat, side: Side)
  {
    (cmd.Touch? || cmd.TxWait? || cmd.Send? || cmd.Recv?) && cmd.b == b && cmd.side == side
  }

  /** The value a command writes into its pending block, if it writes one. */
  function Written(t: Topo, c: Config, k: nat, cmd: Cmd): Option<Value>
    requires WFConfig(t, c) && k < |c| && Legal(t, k, cmd)
  {
    match cmd
    case Touch(_, _, op, v) => if op.StoreDst? then Some(v) else None
    case TxWait(b, side, v) =>
      if Pending(c[k], b, side).Some? && Pending(c[k], b, side).value.sm.access.NAW? then Some(v) else None
    case Recv(p, _, _) =>
      var log := c[t.sender[p]].sent[p];
      if c[k].got[p] < |log| then Some(Content(t, c, log[c[k].got[p]])) else None
    case _ => None
  }

  /** An operation on a pending block writes that block, if it writes. */
  lemma BlockAfter(t: Topo, c: Config, k: nat, cmd: Cmd, b: nat)
    requires WFConfig(t, c) && k < |c| && Legal(t, k, cmd) && StepCmd(t, c, k, cmd).Next? && b < |t.cap|
    requires !OnBuffer(cmd)
    ensures var (l, w) := (StepCmd(t, c, k, cmd).l, Written(t, c, k, cmd));
            && WFLocal(t, l)
            && (forall side :: !OnBlock(cmd, b, side) ==> Pending(l, b, side) == Pending(c[k], b, side))
            && (forall side :: OnBlock(cmd, b, side) ==>
                  Pending(c[k], b, side).Some? && Pending(l, b, side).Some?
                  && Pending(l, b, side).value.val == if w.Some? then w.value else Pending(c[k], b, side).value.val)
            && l.outs[b].pushed == c[k].outs[b].pushed && l.ins[b].gone == c[k].ins[b].gone
            && |l.h| == |c[k].h| + 1 && l.h[..|c[k].h|] == c[k].h
  {
    CmdGrows(t, c, k, cmd);
  }

  // ----- Steps of other kernels do not disturb a kernel -----

  /** Kernel `k` is in `d` where it was in `c`, and every other kernel where it was or further. */
  ghost predicate OthersGrow(t: Topo, ps: seq<Prog>, c: Config, d: Config, k: nat)
    requires WF(t, ps, c) && WF(t, ps, d) && k < |c|
  {
    d[k] == c[k] && forall j :: 0 <= j < |c| ==> Grows(t, c[j], d[j])
  }

  /** In `d` every tensor on a pipe still holds what it held in `c`. */
  ghost predicate ContentsKept(t: Topo, c: Config, d: Config)
    requires WFConfig(t, c) && WFConfig(t, d)
  {
    forall j, p, i {:trigger c[j].sent[p][i]} :: 0 <= j < |c| && 0 <= p < |t.sender| && 0 <= i < |c[j].sent[p]| ==>
      Content(t, d, c[j].sent[p][i]) == Content(t, c, c[j].sent[p][i])
  }

  /** An enabled step that is no stray pop stays enabled, and does the same, as long as nobody overwrites
      a tensor that is on a pipe. */
  lemma EnabledIsStable(t: Topo, ps: seq<Prog>, c: Config, d: Config, k: nat)
    requires WF(t, ps, c) && WF(t, ps, d) && k < |c| && OthersGrow(t, ps, c, d, k) && ContentsKept(t, c, d)
    requires Enabled(t, ps, c, k) && !StrayPop(t, ps, c, k)
    ensures Step(t, ps, d, k) == Step(t, ps, c, k)
  {
    var cmd := ps[k](c[k].h);
    match cmd {
      case Reserve(b) =>
        assert Grows(t, c[t.cons[b]], d[t.cons[b]]);
      case Wait(b) =>
        assert Grows(t, c[t.prod[b]], d[t.prod[b]]);
      case Recv(p, b, side) =>
        assert Grows(t, c[t.sender[p]], d[t.sender[p]]);
        if c[k].got[p] < |c[t.sender[p]].sent[p]| {
          assert d[t.sender[p]].sent[p][c[k].got[p]] == c[t.sender[p]].sent[p][c[k].got[p]];
        }
      case _ =>
    }
  }
}
