/** What a kernel's own commands say about the blocks it holds and the slots it has finished with. */
module Holding {
  import opened Wrappers
  import opened BlockState
  import opened Network

  function Acquire(b: nat, side: Side): Cmd { if side.Reserved? then Reserve(b) else Wait(b) }

  function Release(b: nat, side: Side): Cmd { if side.Reserved? then Push(b) else Pop(b) }

  /** Does `p` hold a pending block on `b` after the commands whose values are `h`? */
  function PendingIn(p: Prog, h: seq<Value>, b: nat, side: Side): bool
  {
    if h == [] then false
    else PendingAfter(p(h[..|h| - 1]), b, side, PendingIn(p, h[..|h| - 1], b, side))
  }

  function PendingAfter(cmd: Cmd, b: nat, side: Side, before: bool): bool
  {
    cmd == Acquire(b, side) || (before && cmd != Release(b, side))
  }

  /** The slots `p` has pushed to, or popped from, buffer `b` after the commands whose values are `h`. */
  function Released(p: Prog, h: seq<Value>, b: nat, side: Side): nat
  {
    if h == [] then 0
    else
      var g := h[..|h| - 1];
      Released(p, g, b, side)
      + if p(g) == Release(b, side) || (p(g) == Acquire(b, side) && PendingIn(p, g, b, side)) then 1 else 0
  }

  /** The blocks kernel `l` holds are those its commands say, except that a reserve or wait in progress
      may already have given the previous one back. */
  ghost predicate Holds(t: Topo, q: Prog, l: Local)
    requires WFLocal(t, l)
  {
    forall b: nat, side: Side :: b < |t.cap| ==>
      && (Pending(l, b, side).Some? ==> PendingIn(q, l.h, b, side))
      && (PendingIn(q, l.h, b, side) && Pending(l, b, side).None? ==> q(l.h) == Acquire(b, side))
  }

  lemma CmdKeepsHolds(t: Topo, ps: seq<Prog>, c: Config, k: nat)
    requires WF(t, ps, c) && k < |c| && Step(t, ps, c, k).Next? && Holds(t, ps[k], c[k])
    ensures WFLocal(t, Step(t, ps, c, k).l) && Holds(t, ps[k], Step(t, ps, c, k).l)
  {
    StepGrows(t, ps, c, k);
    var l, m, cmd := c[k], Step(t, ps, c, k).l, ps[k](c[k].h);
    HistoryGrows(t, ps, c, k);
    forall b: nat, side: Side | b < |t.cap|
      ensures Pending(m, b, side).Some? ==> PendingIn(ps[k], m.h, b, side)
      ensures PendingIn(ps[k], m.h, b, side) && Pending(m, b, side).None? ==> ps[k](m.h) == Acquire(b, side)
    {
      PendingStep(t, c, k, cmd, b, side);
      assert m.h == l.h || m.h[..|m.h| - 1] == l.h;
    }
  }

  lemma HistoryGrows(t: Topo, ps: seq<Prog>, c: Config, k: nat)
    requires WF(t, ps, c) && k < |c| && Step(t, ps, c, k).Next?
    ensures var m := Step(t, ps, c, k).l; m.h == c[k].h || (m.h != [] && m.h[..|m.h| - 1] == c[k].h)
    ensures c[k].h <= Step(t, ps, c, k).l.h
  {
    var cmd := ps[k](c[k].h);
    if !OnBuffer(cmd) && !cmd.Done? {
      BlockAfter(t, c, k, cmd, cmd.b);
      hide StepCmd;
    } else {
      hide Apply, ApplyPush, ApplyPop, Initial, Operate;
    }
  }

  lemma PendingProduced(t: Topo, c: Config, k: nat, cmd: Cmd, b: nat, side: Side)
    requires WFConfig(t, c) && k < |c| && Legal(t, k, cmd) && StepCmd(t, c, k, cmd).Next? && b < |t.cap|
    requires cmd.Reserve? || cmd.Push?
    ensures var l, m := c[k], StepCmd(t, c, k, cmd).l;
            && WFLocal(t, m)
            && (m.h == l.h ==>
                  && (Pending(m, b, side).Some? ==> Pending(l, b, side).Some?)
                  && (Pending(m, b, side).None? && Pending(l, b, side).Some? ==> cmd == Acquire(b, side)))
            && (m.h != l.h ==> Pending(m, b, side).Some? == PendingAfter(cmd, b, side, Pending(l, b, side).Some?))
  {
    hide Apply, ApplyPush, ApplyPop, Initial, Operate;
    CmdGrows(t, c, k, cmd);
  }

  lemma PendingConsumed(t: Topo, c: Config, k: nat, cmd: Cmd, b: nat, side: Side)
    requires WFConfig(t, c) && k < |c| && Legal(t, k, cmd) && StepCmd(t, c, k, cmd).Next? && b < |t.cap|
    requires cmd.Wait? || cmd.Pop?
    ensures var l, m := c[k], StepCmd(t, c, k, cmd).l;
            && WFLocal(t, m)
            && (m.h == l.h ==>
                  && (Pending(m, b, side).Some? ==> Pending(l, b, side).Some?)
                  && (Pending(m, b, side).None? && Pending(l, b, side).Some? ==> cmd == Acquire(b, side)))
            && (m.h != l.h ==> Pending(m, b, side).Some? == PendingAfter(cmd, b, side, Pending(l, b, side).Some?))
  {
    hide Apply, ApplyPush, ApplyPop, Initial, Operate;
    CmdGrows(t, c, k, cmd);
  }

  /** What one command does to one end of one buffer. */
  lemma PendingStep(t: Topo, c: Config, k: nat, cmd: Cmd, b: nat, side: Side)
    requires WFConfig(t, c) && k < |c| && Legal(t, k, cmd) && StepCmd(t, c, k, cmd).Next? && b < |t.cap|
    ensures var l, m := c[k], StepCmd(t, c, k, cmd).l;
            && WFLocal(t, m)
            && (m.h == l.h ==>
                  && (Pending(m, b, side).Some? ==> Pending(l, b, side).Some?)
                  && (Pending(m, b, side).None? && Pending(l, b, side).Some? ==> cmd == Acquire(b, side)))
            && (m.h != l.h ==> Pending(m, b, side).Some? == PendingAfter(cmd, b, side, Pending(l, b, side).Some?))
  {
    if cmd.Reserve? || cmd.Push? {
      PendingProduced(t, c, k, cmd, b, side);
    } else if cmd.Wait? || cmd.Pop? {
      PendingConsumed(t, c, k, cmd, b, side);
    } else {
      BlockAfter(t, c, k, cmd, b);
    }
    hide StepCmd;
  }

  lemma StartHolds(t: Topo, q: Prog)
    requires WFTopo(t)
    ensures WFLocal(t, InitialLocal(t)) && Holds(t, q, InitialLocal(t))
  {
  }

  // ----- The slots counted -----

  /** The slots kernel `l` has finished with are those its commands say. */
  ghost predicate Counted(t: Topo, q: Prog, l: Local)
    requires WFLocal(t, l)
  {
    forall b: nat, side: Side :: b < |t.cap| ==>
      Count(l, b, side) == Released(q, l.h, b, side)
                           + if PendingIn(q, l.h, b, side) && Pending(l, b, side).None? then 1 else 0
  }

  /** What one command does to the count of one end of one buffer. */
  lemma CountStep(t: Topo, c: Config, k: nat, cmd: Cmd, b: nat, side: Side)
    requires WFConfig(t, c) && k < |c| && Legal(t, k, cmd) && StepCmd(t, c, k, cmd).Next? && b < |t.cap|
    ensures var l, m := c[k], StepCmd(t, c, k, cmd).l;
            && WFLocal(t, m)
            && Count(m, b, side) == Count(l, b, side)
                 + (if m.h == l.h then if Pending(l, b, side).Some? && Pending(m, b, side).None? then 1 else 0
                    else if cmd == Release(b, side) then 1 else 0)
  {
    if OnBuffer(cmd) {
      CmdGrows(t, c, k, cmd);
      hide Apply, ApplyPush, ApplyPop, Initial, Operate;
    } else {
      BlockAfter(t, c, k, cmd, b);
      hide StepCmd;
    }
  }

  lemma CmdKeepsCounted(t: Topo, ps: seq<Prog>, c: Config, k: nat)
    requires WF(t, ps, c) && k < |c| && Step(t, ps, c, k).Next? && Holds(t, ps[k], c[k]) && Counted(t, ps[k], c[k])
    ensures WFLocal(t, Step(t, ps, c, k).l) && Counted(t, ps[k], Step(t, ps, c, k).l)
  {
    StepGrows(t, ps, c, k);
    var l, m, cmd := c[k], Step(t, ps, c, k).l, ps[k](c[k].h);
    HistoryGrows(t, ps, c, k);
    forall b: nat, side: Side | b < |t.cap|
      ensures Count(m, b, side) == Released(ps[k], m.h, b, side)
                + if PendingIn(ps[k], m.h, b, side) && Pending(m, b, side).None? then 1 else 0
    {
      PendingStep(t, c, k, cmd, b, side);
      CountStep(t, c, k, cmd, b, side);
      assert m.h == l.h || m.h[..|m.h| - 1] == l.h;
    }
  }
}
