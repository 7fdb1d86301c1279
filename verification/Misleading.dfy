/** When the poll of a pipe can mislead a kernel (python/sim/copyhandlers.py): exactly when some pipe has several
    receivers. */
module Misleading {
  import opened Wrappers
  import opened BlockState
  import opened Network
  import opened Holding
  import opened Messages
  import opened Confluence
  import opened Scheduler
  import opened Rounds
  import opened Boundaries

  /** A data-movement kernel with a buffer of its own to fill. */
  predicate CanFill(t: Topo, k: nat)
    requires WFTopo(t)
  {
    k < |t.kind| && t.kind[k].DM? && exists b :: 0 <= b < |t.cap| && t.prod[b] == k
  }

  /** Every kernel at a pipe's end can fill a block. */
  predicate EndsCanFill(t: Topo)
    requires WFTopo(t)
  {
    forall p :: 0 <= p < |t.sender| ==> CanFill(t, t.sender[p]) && forall r <- t.recvs[p] :: CanFill(t, r)
  }

  /** Some run of these kernels ends at a receive that the poll calls ready although its kernel has every message. */
  ghost predicate CanMislead(t: Topo, ps: seq<Prog>)
    requires WFProgs(t, ps)
  {
    exists s: seq<nat>, w: Config, k: nat ::
      Run(t, ps, Start(t), s, w) && WF(t, ps, w) && k < |w| && Misled(t, w, k, ps[k](w[k].h))
  }

  // ----- One kernel working on one reserved block -----

  /** The operation of a command on a block. */
  function OpOf(cmd: Cmd): OpKey
  {
    match cmd
    case Touch(_, _, op, _) => op
    case Send(_, _, _) => CopySrc
    case _ => OpKey.TxWait
  }

  /** After n commands: the reservation and n - 1 operations. */
  predicate Working(t: Topo, l: Local, b: nat, n: nat)
    requires WFLocal(t, l) && b < |t.cap|
  {
    && |l.h| == n <= 6
    && if n == 0 then l == InitialLocal(t) else l.outs[b].slot.Some? && l.outs[b].slot.value.sm == WorkSM(n - 1)
  }

  lemma WorkStarts(t: Topo, c: Config, k: nat, b: nat)
    requires WFConfig(t, c) && k < |c| && OwnsBlock(t, k, b, Reserved) && t.kind[k].DM? && c[k] == InitialLocal(t)
    requires |c[t.cons[b]].ins[b].gone| == 0
    ensures var res := StepCmd(t, c, k, Reserve(b)); res.Next? && WFLocal(t, res.l) && Working(t, res.l, b, 1)
  {
    CmdGrows(t, c, k, Reserve(b));
  }

  lemma WorkGoesOn(t: Topo, c: Config, k: nat, cmd: Cmd, b: nat, n: nat)
    requires WFConfig(t, c) && k < |c| && Legal(t, k, cmd) && OnBlock(cmd, b, Reserved) && b < |t.cap|
    requires 1 <= n <= 5 && Working(t, c[k], b, n) && OpOf(cmd) == WORK[n - 1]
    requires cmd.Recv? ==> c[k].got[cmd.p] < |c[t.sender[cmd.p]].sent[cmd.p]|
    ensures var res := StepCmd(t, c, k, cmd); res.Next? && WFLocal(t, res.l) && Working(t, res.l, b, n + 1)
  {
    Works(n - 1);
    hide Apply, WorkSM;
    CmdGrows(t, c, k, cmd);
  }

  // ----- A sender that sends once and a receiver that asks twice -----

  function SendOnce(p: nat, b: nat): seq<Cmd>
  {
    [Reserve(b), Touch(b, Reserved, CopyDst, 0), Cmd.TxWait(b, Reserved, 7), Send(p, b, Reserved)]
  }

  function AskTwice(p: nat, b: nat): seq<Cmd>
  {
    [Reserve(b), Touch(b, Reserved, CopyDst, 0), Recv(p, b, Reserved), Touch(b, Reserved, CopySrc, 0),
     Cmd.TxWait(b, Reserved, 0), Touch(b, Reserved, CopyDst, 0), Recv(p, b, Reserved)]
  }

  /** Kernel s sends once on pipe p, kernel r asks it twice, and all others do nothing. */
  function Asking(t: Topo, p: nat, s: nat, r: nat, bs: nat, br: nat): (ps: seq<Prog>)
    ensures |ps| == |t.kind|
  {
    seq(|t.kind|, k requires 0 <= k => Part(p, s, r, bs, br, k))
  }

  function Part(p: nat, s: nat, r: nat, bs: nat, br: nat, k: nat): Prog
  {
    Straight(if k == s then SendOnce(p, bs) else if k == r then AskTwice(p, br) else [])
  }

  /** Who is who. */
  predicate Cast(t: Topo, p: nat, s: nat, r: nat, other: nat, bs: nat, br: nat)
    requires WFTopo(t)
  {
    && p < |t.sender| && t.sender[p] == s && r in t.recvs[p] && other in t.recvs[p] && r != s && r != other
    && OwnsBlock(t, s, bs, Reserved) && OwnsBlock(t, r, br, Reserved) && t.kind[s].DM? && t.kind[r].DM?
  }

  lemma CastIsLegal(t: Topo, p: nat, s: nat, r: nat, other: nat, bs: nat, br: nat)
    requires WFTopo(t) && Cast(t, p, s, r, other, bs, br)
    ensures forall cmd <- SendOnce(p, bs) :: Legal(t, s, cmd)
    ensures forall cmd <- AskTwice(p, br) :: Legal(t, r, cmd)
  {
  }

  /** What each kernel does after `h`. */
  lemma AskingAt(t: Topo, p: nat, s: nat, r: nat, bs: nat, br: nat, k: nat, h: seq<Value>)
    requires k < |t.kind| && s != r
    ensures var (cmd, n) := (Asking(t, p, s, r, bs, br)[k](h), |h|);
            && (k == s && n < 4 ==> cmd == SendOnce(p, bs)[n])
            && (k == r && n < 7 ==> cmd == AskTwice(p, br)[n])
            && (cmd.Done? || (k == s && cmd in SendOnce(p, bs)) || (k == r && cmd in AskTwice(p, br)))
  {
    var cs := if k == s then SendOnce(p, bs) else if k == r then AskTwice(p, br) else [];
    assert Asking(t, p, s, r, bs, br)[k] == Straight(cs);
    assert |h| < |cs| ==> Straight(cs)(h) == cs[|h|];
  }

  lemma AskingIsWF(t: Topo, p: nat, s: nat, r: nat, other: nat, bs: nat, br: nat)
    requires WFTopo(t) && Cast(t, p, s, r, other, bs, br)
    ensures WFProgs(t, Asking(t, p, s, r, bs, br))
  {
    var ps := Asking(t, p, s, r, bs, br);
    forall k: nat, h: seq<Value> {:trigger ps[k](h)} | k < |ps|
      ensures Legal(t, k, ps[k](h))
    {
      AskingAt(t, p, s, r, bs, br, k, h);
      CastIsLegal(t, p, s, r, other, bs, br);
      hide Legal, SendOnce, AskTwice;
    }
  }

  /** The sender has done n commands, the receiver m, and everybody else nothing. */
  ghost predicate Midway(t: Topo, c: Config, p: nat, s: nat, r: nat, bs: nat, br: nat, n: nat, m: nat)
    requires WFConfig(t, c) && p < |t.sender| && s < |c| && r < |c| && bs < |t.cap| && br < |t.cap|
  {
    && Working(t, c[s], bs, n) && Working(t, c[r], br, m)
    && |c[s].sent[p]| == (if n >= 4 then 1 else 0) && c[s].got[p] == 0
    && c[r].got[p] == (if m >= 3 then 1 else 0)
    && (forall k :: 0 <= k < |c| ==> forall b :: 0 <= b < |t.cap| ==> |c[k].ins[b].gone| == 0)
    && forall k :: 0 <= k < |c| && k != s && k != r ==> c[k] == InitialLocal(t)
  }

  /** Working on reserved blocks pops nothing. */
  lemma PopsNothing(t: Topo, c: Config, k: nat, cmd: Cmd, b: nat)
    requires WFConfig(t, c) && k < |c| && Legal(t, k, cmd) && StepCmd(t, c, k, cmd).Next? && b < |t.cap|
    requires cmd.Reserve? || !OnBuffer(cmd)
    ensures WFLocal(t, StepCmd(t, c, k, cmd).l) && StepCmd(t, c, k, cmd).l.ins[b].gone == c[k].ins[b].gone
  {
    if OnBuffer(cmd) {
      CmdGrows(t, c, k, cmd);
    } else {
      BlockAfter(t, c, k, cmd, b);
      hide StepCmd;
    }
  }

  /** The next command of the sender, or of the receiver once there is a message. */
  lemma WorkStep(t: Topo, c: Config, k: nat, cmd: Cmd, b: nat, n: nat)
    requires WFConfig(t, c) && k < |c| && Legal(t, k, cmd) && b < |t.cap| && OwnsBlock(t, k, b, Reserved)
    requires t.kind[k].DM? && n <= 5 && Working(t, c[k], b, n) && |c[t.cons[b]].ins[b].gone| == 0
    requires if n == 0 then cmd == Reserve(b) else OnBlock(cmd, b, Reserved) && OpOf(cmd) == WORK[n - 1]
    requires cmd.Recv? ==> c[k].got[cmd.p] < |c[t.sender[cmd.p]].sent[cmd.p]|
    ensures var res := StepCmd(t, c, k, cmd); res.Next? && WFLocal(t, res.l) && Working(t, res.l, b, n + 1)
    ensures forall a :: 0 <= a < |t.cap| ==> StepCmd(t, c, k, cmd).l.ins[a].gone == c[k].ins[a].gone
  {
    if n == 0 {
      WorkStarts(t, c, k, b);
    } else {
      WorkGoesOn(t, c, k, cmd, b, n);
    }
    hide StepCmd, Working;
    forall a | 0 <= a < |t.cap|
      ensures StepCmd(t, c, k, cmd).l.ins[a].gone == c[k].ins[a].gone
    {
      PopsNothing(t, c, k, cmd, a);
    }
  }

  lemma SenderWorks(t: Topo, c: Config, p: nat, s: nat, r: nat, other: nat, bs: nat, br: nat, n: nat)
    requires WFConfig(t, c) && Cast(t, p, s, r, other, bs, br) && Midway(t, c, p, s, r, bs, br, n, 0) && n < 4
    ensures var res := StepCmd(t, c, s, SendOnce(p, bs)[n]);
            res.Next? && WFConfig(t, c[s := res.l]) && Midway(t, c[s := res.l], p, s, r, bs, br, n + 1, 0)
  {
    var cmd := SendOnce(p, bs)[n];
    WorkStep(t, c, s, cmd, bs, n);
    LogStep(t, c, s, cmd, p);
    hide StepCmd, Working;
  }

  lemma ReceiverWorks(t: Topo, c: Config, p: nat, s: nat, r: nat, other: nat, bs: nat, br: nat, m: nat)
    requires WFConfig(t, c) && Cast(t, p, s, r, other, bs, br) && Midway(t, c, p, s, r, bs, br, 4, m) && m < 6
    ensures var res := StepCmd(t, c, r, AskTwice(p, br)[m]);
            res.Next? && WFConfig(t, c[r := res.l]) && Midway(t, c[r := res.l], p, s, r, bs, br, 4, m + 1)
  {
    var cmd := AskTwice(p, br)[m];
    WorkStep(t, c, r, cmd, br, m);
    LogStep(t, c, r, cmd, p);
    hide StepCmd, Working;
  }

  lemma Histories(t: Topo, c: Config, p: nat, s: nat, r: nat, bs: nat, br: nat, n: nat, m: nat)
    requires WFConfig(t, c) && p < |t.sender| && s < |c| && r < |c| && bs < |t.cap| && br < |t.cap|
    requires Midway(t, c, p, s, r, bs, br, n, m)
    ensures |c[s].h| == n && |c[r].h| == m
  {
  }

  lemma AskingStarts(t: Topo, p: nat, s: nat, r: nat, other: nat, bs: nat, br: nat)
    requires WFTopo(t) && Cast(t, p, s, r, other, bs, br) && WFProgs(t, Asking(t, p, s, r, bs, br))
    ensures var ps := Asking(t, p, s, r, bs, br); Run(t, ps, Start(t), [], Start(t)) && WF(t, ps, Start(t))
    ensures Midway(t, Start(t), p, s, r, bs, br, 0, 0)
  {
    hide Asking;
  }

  /** n commands of the sender, then m of the receiver. */
  lemma {:induction false} AskingRuns(t: Topo, p: nat, s: nat, r: nat, other: nat, bs: nat, br: nat, n: nat, m: nat)
    returns (run: seq<nat>, c: Config)
    requires WFTopo(t) && Cast(t, p, s, r, other, bs, br) && n <= 4 && m <= 6 && (m > 0 ==> n == 4)
    requires WFProgs(t, Asking(t, p, s, r, bs, br))
    ensures Run(t, Asking(t, p, s, r, bs, br), Start(t), run, c) && WF(t, Asking(t, p, s, r, bs, br), c)
    ensures Midway(t, c, p, s, r, bs, br, n, m)
  {
    var ps := Asking(t, p, s, r, bs, br);
    hide StepCmd, Midway, Working, SendOnce, AskTwice, Asking, Legal;
    if m == 0 && n == 0 {
      run, c := [], Start(t);
      AskingStarts(t, p, s, r, other, bs, br);
    } else {
      var (k, n', m') := if m == 0 then (s, n - 1, 0) else (r, 4, m - 1);
      var most, before := AskingRuns(t, p, s, r, other, bs, br, n', m');
      Histories(t, before, p, s, r, bs, br, n', m');
      if m == 0 {
        SenderWorks(t, before, p, s, r, other, bs, br, n');
        AskingAt(t, p, s, r, bs, br, s, before[s].h);
      } else {
        ReceiverWorks(t, before, p, s, r, other, bs, br, m');
        AskingAt(t, p, s, r, bs, br, r, before[r].h);
      }
      c := before[k := Step(t, ps, before, k).l];
      run := most + [k];
      RunSnoc(t, ps, Start(t), most, before, k);
    }
  }

  /** A pipe with several receivers misleads: these kernels run until the receiver asks a second time. */
  lemma AskingMisleads(t: Topo, p: nat, s: nat, r: nat, other: nat, bs: nat, br: nat)
    requires WFTopo(t) && Cast(t, p, s, r, other, bs, br)
    ensures WFProgs(t, Asking(t, p, s, r, bs, br)) && CanMislead(t, Asking(t, p, s, r, bs, br))
  {
    AskingIsWF(t, p, s, r, other, bs, br);
    var run, c := AskingRuns(t, p, s, r, other, bs, br, 4, 6);
    AskingAt(t, p, s, r, bs, br, r, c[r].h);
    TwiceIsMisled(t, c, p, s, r, other, bs, br);
    hide Asking, Midway, Cast, Misled, Run, WF, WFProgs, Start, WFConfig;
    assert Misled(t, c, r, Asking(t, p, s, r, bs, br)[r](c[r].h));
  }

  lemma TwiceIsMisled(t: Topo, c: Config, p: nat, s: nat, r: nat, other: nat, bs: nat, br: nat)
    requires WFConfig(t, c) && Cast(t, p, s, r, other, bs, br) && Midway(t, c, p, s, r, bs, br, 4, 6)
    ensures Legal(t, r, Recv(p, br, Reserved)) && Misled(t, c, r, Recv(p, br, Reserved)) && |c[r].h| == 6
  {
    assert c[other].got[p] == 0;
  }

  /** Legal kernels that a poll misleads in some run exist exactly when some pipe has several receivers. */
  lemma MisleadingExactly(t: Topo)
    requires WFTopo(t) && EndsCanFill(t)
    ensures (exists ps :: WFProgs(t, ps) && CanMislead(t, ps)) <==> !SingleReceiver(t)
  {
    if SingleReceiver(t) {
      forall ps | WFProgs(t, ps)
        ensures !CanMislead(t, ps)
      {
        NeverMisled(t, ps);
      }
    } else {
      var p :| 0 <= p < |t.recvs| && exists r <- t.recvs[p], r' <- t.recvs[p] :: r != r';
      var a, b :| a in t.recvs[p] && b in t.recvs[p] && a != b;
      var s := t.sender[p];
      var (r, other) := if a != s then (a, b) else (b, a);
      assert CanFill(t, s) && CanFill(t, r);
      var bs: nat :| bs < |t.cap| && t.prod[bs] == s;
      var br: nat :| br < |t.cap| && t.prod[br] == r;
      AskingMisleads(t, p, s, r, other, bs, br);
    }
  }

  lemma NeverMisled(t: Topo, ps: seq<Prog>)
    requires WFProgs(t, ps) && SingleReceiver(t)
    ensures !CanMislead(t, ps)
  {
    forall s: seq<nat>, w: Config, k: nat | Run(t, ps, Start(t), s, w) && WF(t, ps, w) && k < |w|
      ensures !Misled(t, w, k, ps[k](w[k].h))
    {
      var cmd := ps[k](w[k].h);
      if cmd.Recv? {
        PollIsExact(t, w, k, cmd);
      }
    }
  }
}
