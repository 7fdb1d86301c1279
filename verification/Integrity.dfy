/** What holds in every run: buffers stay within capacity, only filled slots become
    visible, and only read slots are given back. */
module Integrity {
  import opened Wrappers
  import opened BlockState
  import opened Network
  import opened Confluence

  function Acquired(side: Side): Acquisition { if side.Reserved? then RESERVE else WAIT }

  /** Each pending block's state machine is the result of the operations on it. */
  predicate Traced(t: Topo, l: Local, kind: KernelType)
    requires WFLocal(t, l)
  {
    forall b, side :: 0 <= b < |t.cap| && Pending(l, b, side).Some? ==>
      After(Initial(Acquired(side), kind), Pending(l, b, side).value.log) == Some(Pending(l, b, side).value.sm)
  }

  /** Counters stay within bounds: nothing is consumed before it is produced and no
      buffer holds more than its capacity. */
  predicate Bounded(t: Topo, c: Config)
    requires WFConfig(t, c)
  {
    && (forall b :: 0 <= b < |t.cap| ==>
          && 0 <= Visible(t, c, b) && 0 <= Free(t, c, b)
          && (c[t.cons[b]].ins[b].held.Some? ==> Visible(t, c, b) >= 1))
    && (forall p, r :: 0 <= p < |t.recvs| && r in t.recvs[p] ==> c[r].got[p] <= |c[t.sender[p]].sent[p]|)
  }

  predicate Invariant(t: Topo, c: Config)
    requires WFConfig(t, c)
  {
    Bounded(t, c) && forall k :: 0 <= k < |c| ==> Traced(t, c[k], t.kind[k])
  }

  lemma AfterSnoc(sm: SM, log: seq<OpKey>, mid: SM, op: OpKey)
    requires After(sm, log) == Some(mid) && Apply(mid, op).Moved?
    ensures After(sm, log + [op]) == Some(Apply(mid, op).sm)
  {
    assert (log + [op])[..|log|] == log;
  }

  /** The operation a command performs on a pending block, if it performs one. */
  function BlockOp(cmd: Cmd): Option<(nat, Side, OpKey)>
  {
    match cmd
    case Touch(b, side, op, _) => Some((b, side, op))
    case TxWait(b, side, _) => Some((b, side, OpKey.TxWait))
    case Send(_, b, side) => Some((b, side, CopySrc))
    case Recv(_, b, side) => Some((b, side, OpKey.TxWait))
    case _ => None
  }

  lemma CmdKeepsTraced(t: Topo, c: Config, k: nat, cmd: Cmd)
    requires WFConfig(t, c) && k < |c| && Legal(t, k, cmd) && Traced(t, c[k], t.kind[k])
    requires StepCmd(t, c, k, cmd).Next?
    ensures WFLocal(t, StepCmd(t, c, k, cmd).l) && Traced(t, StepCmd(t, c, k, cmd).l, t.kind[k])
  {
    CmdGrows(t, c, k, cmd);
    var l, l' := c[k], StepCmd(t, c, k, cmd).l;
    forall b, side | 0 <= b < |t.cap| && Pending(l', b, side).Some?
      ensures After(Initial(Acquired(side), t.kind[k]), Pending(l', b, side).value.log)
              == Some(Pending(l', b, side).value.sm)
    {
      if BlockOp(cmd).Some? && BlockOp(cmd).value.0 == b && BlockOp(cmd).value.1 == side {
        var blk := Pending(l, b, side).value;
        AfterSnoc(Initial(Acquired(side), t.kind[k]), blk.log, blk.sm, BlockOp(cmd).value.2);
      } else if Pending(l', b, side) == Pending(l, b, side) {
      } else {
        assert Pending(l', b, side).value.log == [];
      }
    }
  }

  /** How a command of kernel `k` can change its producing end of buffer `b`. */
  predicate OutMoves(t: Topo, c: Config, k: nat, b: nat, l: Local)
    requires WFConfig(t, c) && k < |c| && b < |t.cap| && WFLocal(t, l)
  {
    var o, o' := c[k].outs[b], l.outs[b];
    || (o'.pushed == o.pushed && (o'.slot.Some? <==> o.slot.Some?))
    || (t.prod[b] == k && o'.pushed == o.pushed && o.slot.None? && o'.slot.Some? && Free(t, c, b) >= 1)
    || (t.prod[b] == k && o.slot.Some? && ApplyPush(o.slot.value.sm).Moved?
        && o' == Out(o.pushed + [o.slot.value.val], None))
  }

  /** How a command of kernel `k` can change its consuming end of buffer `b`. */
  predicate InMoves(t: Topo, c: Config, k: nat, b: nat, l: Local)
    requires WFConfig(t, c) && k < |c| && b < |t.cap| && WFLocal(t, l)
  {
    var i, i' := c[k].ins[b], l.ins[b];
    || (i'.gone == i.gone && (i'.held.Some? <==> i.held.Some?))
    || (t.cons[b] == k && i'.gone == i.gone && i.held.None? && i'.held.Some? && Visible(t, c, b) >= 1)
    || (t.cons[b] == k && i.held.Some? && ApplyPop(i.held.value.sm).Moved?
        && i' == In(i.gone + [i.held.value.val], None))
    || (t.cons[b] == k && i.held.None? && Visible(t, c, b) >= 1 
        && i' == In(i.gone + [c[t.prod[b]].outs[b].pushed[|i.gone|]], None))
  }

  lemma CmdMovesOut(t: Topo, c: Config, k: nat, cmd: Cmd, b: nat)
    requires WFConfig(t, c) && k < |c| && Legal(t, k, cmd) && StepCmd(t, c, k, cmd).Next? && b < |t.cap|
    ensures WFLocal(t, StepCmd(t, c, k, cmd).l) && OutMoves(t, c, k, b, StepCmd(t, c, k, cmd).l)
  {
    if OnBuffer(cmd) {
      CmdGrows(t, c, k, cmd);
      hide Apply;
    } else {
      BlockAfter(t, c, k, cmd, b);
      hide StepCmd;
    }
  }

  lemma CmdMovesIn(t: Topo, c: Config, k: nat, cmd: Cmd, b: nat)
    requires WFConfig(t, c) && k < |c| && Legal(t, k, cmd) && StepCmd(t, c, k, cmd).Next? && b < |t.cap|
    ensures WFLocal(t, StepCmd(t, c, k, cmd).l) && InMoves(t, c, k, b, StepCmd(t, c, k, cmd).l)
  {
    if OnBuffer(cmd) {
      CmdGrows(t, c, k, cmd);
      hide Apply;
    } else {
      BlockAfter(t, c, k, cmd, b);
      hide StepCmd;
    }
  }

  lemma CmdMovesPipes(t: Topo, c: Config, k: nat, cmd: Cmd, p: nat, r: nat)
    requires WFConfig(t, c) && k < |c| && Legal(t, k, cmd) && StepCmd(t, c, k, cmd).Next?
    requires p < |t.recvs| && r in t.recvs[p] && c[r].got[p] <= |c[t.sender[p]].sent[p]|
    ensures WFLocal(t, StepCmd(t, c, k, cmd).l)
    ensures var l := StepCmd(t, c, k, cmd).l;
            c[k := l][r].got[p] <= |c[k := l][t.sender[p]].sent[p]|
  {
    CmdGrows(t, c, k, cmd);
    assert Grows(t, c[k], StepCmd(t, c, k, cmd).l);
    assert c[k].sent[p] <= StepCmd(t, c, k, cmd).l.sent[p];
  }

  lemma MovesKeepBounds(t: Topo, c: Config, k: nat, b: nat, l: Local)
    requires WFConfig(t, c) && k < |c| && b < |t.cap| && WFLocal(t, l)
    requires OutMoves(t, c, k, b, l) && InMoves(t, c, k, b, l)
    requires 0 <= Visible(t, c, b) && 0 <= Free(t, c, b)
    requires c[t.cons[b]].ins[b].held.Some? ==> Visible(t, c, b) >= 1
    requires l.outs[b] == c[k].outs[b] || l.ins[b] == c[k].ins[b]
    ensures var d := c[k := l];
            && WFConfig(t, d) && 0 <= Visible(t, d, b) && 0 <= Free(t, d, b)
            && (d[t.cons[b]].ins[b].held.Some? ==> Visible(t, d, b) >= 1)
  {
  }

  /** A command changes one end of a buffer at a time. */
  lemma OneEnd(t: Topo, c: Config, k: nat, cmd: Cmd, b: nat)
    requires WFConfig(t, c) && k < |c| && Legal(t, k, cmd) && StepCmd(t, c, k, cmd).Next? && b < |t.cap|
    ensures var l := StepCmd(t, c, k, cmd).l;
            && WFLocal(t, l)
            && (l.outs[b] == c[k].outs[b] || l.ins[b] == c[k].ins[b])
  {
    CmdGrows(t, c, k, cmd);
  }

  lemma CmdKeepsBounded(t: Topo, c: Config, k: nat, cmd: Cmd)
    requires WFConfig(t, c) && k < |c| && Legal(t, k, cmd) && Bounded(t, c)
    requires StepCmd(t, c, k, cmd).Next?
    ensures WFConfig(t, c[k := StepCmd(t, c, k, cmd).l]) && Bounded(t, c[k := StepCmd(t, c, k, cmd).l])
  {
    CmdGrows(t, c, k, cmd);
    var l := StepCmd(t, c, k, cmd).l;
    var d := c[k := l];
    forall b | 0 <= b < |t.cap|
      ensures 0 <= Visible(t, d, b) && 0 <= Free(t, d, b)
      ensures d[t.cons[b]].ins[b].held.Some? ==> Visible(t, d, b) >= 1
    {
      CmdMovesOut(t, c, k, cmd, b);
      CmdMovesIn(t, c, k, cmd, b);
      OneEnd(t, c, k, cmd, b);
      MovesKeepBounds(t, c, k, b, l);
    }
    forall p, r | 0 <= p < |t.recvs| && r in t.recvs[p]
      ensures d[r].got[p] <= |d[t.sender[p]].sent[p]|
    {
      CmdMovesPipes(t, c, k, cmd, p, r);
    }
  }

  lemma {:induction false} RunsKeepInvariant(t: Topo, ps: seq<Prog>, c: Config, s: seq<nat>, d: Config)
    requires WF(t, ps, c) && Run(t, ps, c, s, d) && Invariant(t, c)
    ensures WF(t, ps, d) && Invariant(t, d)
    decreases |s|
  {
    if s != [] {
      var k := s[0];
      var cmd := ps[k](c[k].h);
      StepGrows(t, ps, c, k);
      CmdKeepsTraced(t, c, k, cmd);
      CmdKeepsBounded(t, c, k, cmd);
      RunsKeepInvariant(t, ps, c[k := Step(t, ps, c, k).l], s[1..], d);
    }
  }

  /** In every reachable configuration every buffer holds between 0 and cap operations,
      a held slot is visible, and no receiver is ahead of its sender. */
  lemma EveryRunIsBounded(t: Topo, ps: seq<Prog>, s: seq<nat>, c: Config)
    requires WFProgs(t, ps) && Run(t, ps, Start(t), s, c)
    ensures WF(t, ps, c) && Invariant(t, c)
  {
    RunsKeepInvariant(t, ps, Start(t), s, c);
  }

  /** A slot that becomes visible was filled by a completed store or copy since it was
      reserved, nothing on it is in flight, and what becomes visible is its payload. */
  lemma NoGarbage(t: Topo, ps: seq<Prog>, s: seq<nat>, c: Config, k: nat, b: nat)
    requires WFProgs(t, ps) && Run(t, ps, Start(t), s, c) && WF(t, ps, c)
    requires k < |c| && b < |t.cap| && Step(t, ps, c, k).Next?
    requires Step(t, ps, c, k).l.outs[b].pushed != c[k].outs[b].pushed
    ensures var slot := c[k].outs[b].slot;
            slot.Some? && Filled(slot.value.log) && InFlight(slot.value.log) == 0
            && Step(t, ps, c, k).l.outs[b] == Out(c[k].outs[b].pushed + [slot.value.val], None)
  {
    EveryRunIsBounded(t, ps, s, c);
    CmdMovesOut(t, c, k, ps[k](c[k].h), b);
    var blk := Pending(c[k], b, Reserved).value;
    assert After(Initial(RESERVE, t.kind[k]), blk.log) == Some(blk.sm);
    PushExactlyWhenFilled(t.kind[k], blk.log);
  }

  /** A held slot that is given back was read after its wait and after every overwrite,
      and nothing on it is in flight; the next slot moves up. */
  lemma NoLoss(t: Topo, ps: seq<Prog>, s: seq<nat>, c: Config, k: nat, b: nat)
    requires WFProgs(t, ps) && Run(t, ps, Start(t), s, c) && WF(t, ps, c)
    requires k < |c| && b < |t.cap| && Step(t, ps, c, k).Next? && c[k].ins[b].held.Some?
    requires Step(t, ps, c, k).l.ins[b].gone != c[k].ins[b].gone
    ensures var held := c[k].ins[b].held.value;
            ReadSinceWrite(held.log) && InFlight(held.log) == 0 && Visible(t, c, b) >= 1
            && Step(t, ps, c, k).l.ins[b] == In(c[k].ins[b].gone + [held.val], None)
  {
    EveryRunIsBounded(t, ps, s, c);
    CmdMovesIn(t, c, k, ps[k](c[k].h), b);
    var blk := Pending(c[k], b, Waited).value;
    assert After(Initial(WAIT, t.kind[k]), blk.log) == Some(blk.sm);
    PopExactlyWhenRead(t.kind[k], blk.log);
  }
}
