/** The pipe logs of `Network` are what the shared message queues hold. */
module PipeQueues {
  import opened Wrappers
  import opened Network
  import M = Multicast

  /** The cursors of a pipe's receivers. */
  function CursorsOf(t: Topo, c: Config, p: nat): map<nat, nat>
    requires WFConfig(t, c) && p < |t.sender|
  {
    map r | r in t.recvs[p] :: c[r].got[p]
  }

  ghost predicate QueueFits(t: Topo, c: Config, p: nat, q: seq<M.Msg>)
    requires WFConfig(t, c) && p < |t.sender|
  {
    M.Stands(q, c[t.sender[p]].sent[p], CursorsOf(t, c, p))
  }

  lemma StepPipes(t: Topo, c: Config, k: nat, cmd: Cmd, p: nat)
    requires WFConfig(t, c) && k < |c| && Legal(t, k, cmd) && p < |t.sender| && StepCmd(t, c, k, cmd).Next?
    ensures var l := StepCmd(t, c, k, cmd).l;
            && WFLocal(t, l) && WFConfig(t, c[k := l])
            && l.sent[p] == (if cmd.Send? && cmd.p == p
                              then c[k].sent[p] + [TensorOf(c[k], cmd.b, cmd.side)] else c[k].sent[p])
            && l.got[p] == (if cmd.Recv? && cmd.p == p then c[k].got[p] + 1 else c[k].got[p])
  {
    CmdGrows(t, c, k, cmd);
  }

  /** A send appends to the queue what it appends to the log. */
  lemma SendAgrees(t: Topo, c: Config, k: nat, cmd: Cmd, q: seq<M.Msg>)
    requires WFConfig(t, c) && k < |c| && Legal(t, k, cmd) && cmd.Send? && StepCmd(t, c, k, cmd).Next?
    requires t.recvs[cmd.p] != {} && QueueFits(t, c, cmd.p, q)
    ensures var d, p := c[k := StepCmd(t, c, k, cmd).l], cmd.p;
            && WFConfig(t, d)
            && QueueFits(t, d, p, M.SendTo(q, TensorOf(c[k], cmd.b, cmd.side), |t.recvs[p]|, |c[k].sent[p]|))
  {
    var p := cmd.p;
    StepPipes(t, c, k, cmd, p);
    var d, at := c[k := StepCmd(t, c, k, cmd).l], CursorsOf(t, c, p);
    assert at.Keys == t.recvs[p] && |at| == |at.Keys|;
    assert CursorsOf(t, d, p) == at by {
      forall r | r in t.recvs[p] ensures d[r].got[p] == c[r].got[p] {
      }
    }
    M.SendStands(q, c[k].sent[p], at, TensorOf(c[k], cmd.b, cmd.side));
  }

  lemma RecvWaits(t: Topo, c: Config, k: nat, cmd: Cmd)
    requires WFConfig(t, c) && k < |c| && Legal(t, k, cmd) && cmd.Recv?
    ensures StepCmd(t, c, k, cmd).Blocked? <==> |c[t.sender[cmd.p]].sent[cmd.p]| <= c[k].got[cmd.p]
  {
  }

  lemma CursorMovesOn(t: Topo, c: Config, k: nat, l: Local, p: nat)
    requires WFConfig(t, c) && k < |c| && WFConfig(t, c[k := l]) && WFLocal(t, l) && p < |t.sender| && k in t.recvs[p]
    requires l.got[p] == c[k].got[p] + 1
    ensures CursorsOf(t, c[k := l], p) == CursorsOf(t, c, p)[k := CursorsOf(t, c, p)[k] + 1]
  {
  }

  /** Taking the next message from the queue moves it along with the receiver's cursor. */
  lemma DeliveryMoves(q: seq<M.Msg>, log: seq<Tensor>, at: map<nat, nat>, after: map<nat, nat>, k: nat)
    requires M.Stands(q, log, at) && k in at && at[k] < |log| && after == at[k := at[k] + 1]
    ensures M.ReceiveFrom(q, k).Some? && M.ReceiveFrom(q, k).value.0 == log[at[k]]
    ensures M.Stands(M.ReceiveFrom(q, k).value.1, log, after)
  {
    M.ReceiveStands(q, log, at, k);
  }

  lemma DeliveryFits(t: Topo, c: Config, d: Config, p: nat, k: nat, q: seq<M.Msg>)
    requires WFConfig(t, c) && WFConfig(t, d) && p < |t.sender| && k in t.recvs[p] && QueueFits(t, c, p, q)
    requires c[k].got[p] < |c[t.sender[p]].sent[p]| && d[t.sender[p]].sent[p] == c[t.sender[p]].sent[p]
    requires CursorsOf(t, d, p) == CursorsOf(t, c, p)[k := CursorsOf(t, c, p)[k] + 1]
    ensures M.ReceiveFrom(q, k).Some?
    ensures M.ReceiveFrom(q, k).value.0 == c[t.sender[p]].sent[p][c[k].got[p]]
    ensures QueueFits(t, d, p, M.ReceiveFrom(q, k).value.1)
  {
    DeliveryMoves(q, c[t.sender[p]].sent[p], CursorsOf(t, c, p), CursorsOf(t, d, p), k);
  }

  /** A receive blocks exactly when the queue has no message for this kernel's node, and otherwise takes the
      same tensor, reads what it holds by then, and leaves the same queue. */
  lemma ReceiveAgrees(t: Topo, c: Config, k: nat, cmd: Cmd, q: seq<M.Msg>)
    requires WFConfig(t, c) && k < |c| && Legal(t, k, cmd) && cmd.Recv? && QueueFits(t, c, cmd.p, q)
    ensures StepCmd(t, c, k, cmd).Blocked? <==> M.ReceiveFrom(q, k).None?
    ensures StepCmd(t, c, k, cmd).Next? ==>
              var d, p := c[k := StepCmd(t, c, k, cmd).l], cmd.p;
              && M.ReceiveFrom(q, k).value.0 == c[t.sender[p]].sent[p][c[k].got[p]]
              && StepCmd(t, c, k, cmd).l.h == c[k].h + [Content(t, c, M.ReceiveFrom(q, k).value.0)]
              && WFConfig(t, d) && QueueFits(t, d, p, M.ReceiveFrom(q, k).value.1)
  {
    var p := cmd.p;
    RecvWaits(t, c, k, cmd);
    M.ReceiveStands(q, c[t.sender[p]].sent[p], CursorsOf(t, c, p), k);
    if StepCmd(t, c, k, cmd).Next? {
      var l := StepCmd(t, c, k, cmd).l;
      StepPipes(t, c, k, cmd, p);
      CursorMovesOn(t, c, k, l, p);
      DeliveryFits(t, c, c[k := l], p, k, q);
    }
  }

  /** `can_wait` inside a kernel's node answers exactly whether its receive would not block. */
  lemma CanWaitAgrees(t: Topo, c: Config, k: nat, cmd: Cmd, q: seq<M.Msg>)
    requires WFConfig(t, c) && k < |c| && Legal(t, k, cmd) && cmd.Recv? && QueueFits(t, c, cmd.p, q)
    ensures M.CanWaitAt(q, k) <==> !StepCmd(t, c, k, cmd).Blocked?
  {
    ReceiveAgrees(t, c, k, cmd, q);
    M.CanWaitFinds(q, k);
  }
}
