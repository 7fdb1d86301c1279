/** Where schedule independence ends: what a step depends on, and two programs whose outcome the scheduler decides. */
module Boundaries {
  import opened Wrappers
  import opened BlockState
  import opened Network
  import opened Holding
  import opened Messages
  import opened Confluence

  // ----- What a step depends on -----

  /** The tensor a receive reads next. */
  function NextTensor(t: Topo, c: Config, k: nat, cmd: Cmd): Tensor
    requires WFConfig(t, c) && k < |c| && Legal(t, k, cmd)
  {
    if cmd.Recv? && c[k].got[cmd.p] < |c[t.sender[cmd.p]].sent[cmd.p]|
    then c[t.sender[cmd.p]].sent[cmd.p][c[k].got[cmd.p]] else Tensor(|t.cap|, 0)
  }

  /** As far as the logs go, no kernel but `k` could still write the tensor: its slot was popped, or `k` has it. */
  predicate Settled(t: Topo, c: Config, k: nat, x: Tensor)
    requires WFConfig(t, c)
  {
    x.b < |t.cap| ==>
      var (o, i) := (c[t.prod[x.b]].outs[x.b], c[t.cons[x.b]].ins[x.b]);
      || x.n < |i.gone|
      || (t.cons[x.b] == k && (x.n < |o.pushed| || (x.n == |i.gone| && i.held.Some?) || t.prod[x.b] == k))
  }

  /** The step is a pop of an empty buffer that is not pending, and another kernel could still push. */
  ghost predicate EmptyStray(t: Topo, ps: seq<Prog>, c: Config, k: nat)
    requires WF(t, ps, c) && k < |c|
  {
    StrayPop(t, ps, c, k) && Visible(t, c, ps[k](c[k].h).b) < 1 && t.prod[ps[k](c[k].h).b] != k
  }

  /** The step receives a tensor that, as far as the logs go, another kernel could still write. */
  ghost predicate OpenReceive(t: Topo, ps: seq<Prog>, c: Config, k: nat)
    requires WF(t, ps, c) && k < |c|
  {
    ps[k](c[k].h).Recv? && Step(t, ps, c, k).Next? && !Settled(t, c, k, NextTensor(t, c, k, ps[k](c[k].h)))
  }

  lemma SettledContent(t: Topo, ps: seq<Prog>, c: Config, d: Config, k: nat, x: Tensor)
    requires WF(t, ps, c) && WF(t, ps, d) && k < |c| && OthersGrow(t, ps, c, d, k) && Settled(t, c, k, x)
    ensures Content(t, d, x) == Content(t, c, x)
  {
    if x.b < |t.cap| {
      assert Grows(t, c[t.prod[x.b]], d[t.prod[x.b]]) && Grows(t, c[t.cons[x.b]], d[t.cons[x.b]]);
    }
  }

  /** A receive does the same again when its tensor still holds the same. */
  lemma ReceiveRepeats(t: Topo, ps: seq<Prog>, c: Config, d: Config, k: nat)
    requires WF(t, ps, c) && WF(t, ps, d) && k < |c| && OthersGrow(t, ps, c, d, k) && Enabled(t, ps, c, k)
    requires ps[k](c[k].h).Recv?
    requires var x := NextTensor(t, c, k, ps[k](c[k].h));
             Step(t, ps, c, k).Next? ==> Content(t, d, x) == Content(t, c, x)
    ensures Step(t, ps, d, k) == Step(t, ps, c, k)
  {
    var p := ps[k](c[k].h).p;
    assert Grows(t, c[t.sender[p]], d[t.sender[p]]);
    assert d[t.sender[p]].sent[p][c[k].got[p]] == c[t.sender[p]].sent[p][c[k].got[p]];
  }

  /** Another kernel can go on so that an unsettled tensor holds something else. */
  lemma Unsettled(t: Topo, ps: seq<Prog>, c: Config, k: nat, x: Tensor) returns (d: Config)
    requires WF(t, ps, c) && k < |c| && !Settled(t, c, k, x)
    ensures WF(t, ps, d) && OthersGrow(t, ps, c, d, k) && Content(t, d, x) != Content(t, c, x)
  {
    var b, v := x.b, 1 + Content(t, c, x);
    var q := if t.cons[b] == k then t.prod[b] else t.cons[b];
    var (o, i) := (c[q].outs[b], c[q].ins[b]);
    var l;
    if t.cons[b] == k {
      l := SetOut(c[q], b, o.(pushed := o.pushed + seq(x.n - |o.pushed|, _ => 0) + [v]));
    } else {
      l := SetIn(c[q], b, i.(gone := i.gone + seq(x.n - |i.gone|, _ => 0) + [v]));
    }
    d := c[q := l];
    assert Grows(t, c[q], d[q]);
  }

  /** A receive of other content is another step. */
  lemma ReceiveDiffers(t: Topo, ps: seq<Prog>, c: Config, d: Config, k: nat)
    requires WF(t, ps, c) && WF(t, ps, d) && k < |c| && OthersGrow(t, ps, c, d, k) && Step(t, ps, c, k).Next?
    requires ps[k](c[k].h).Recv?
    requires var x := NextTensor(t, c, k, ps[k](c[k].h)); Content(t, d, x) != Content(t, c, x)
    ensures Step(t, ps, d, k) != Step(t, ps, c, k)
  {
    var p := ps[k](c[k].h).p;
    assert Grows(t, c[t.sender[p]], d[t.sender[p]]);
    var x := c[t.sender[p]].sent[p][c[k].got[p]];
    assert d[t.sender[p]].sent[p][c[k].got[p]] == x;
    assert Step(t, ps, c, k).l.h == c[k].h + [Content(t, c, x)];
    assert Step(t, ps, d, k).Next? ==> Step(t, ps, d, k).l.h == c[k].h + [Content(t, d, x)];
    assert (c[k].h + [Content(t, c, x)])[|c[k].h|] != (c[k].h + [Content(t, d, x)])[|c[k].h|];
  }

  lemma StrayDiffers(t: Topo, ps: seq<Prog>, c: Config, k: nat) returns (d: Config)
    requires WF(t, ps, c) && k < |c| && EmptyStray(t, ps, c, k)
    ensures WF(t, ps, d) && OthersGrow(t, ps, c, d, k) && Step(t, ps, d, k) != Step(t, ps, c, k)
  {
    var b := ps[k](c[k].h).b;
    var q := t.prod[b];
    var more := c[q].outs[b].pushed + seq(1 + |c[k].ins[b].gone|, _ => 0);
    d := c[q := SetOut(c[q], b, c[q].outs[b].(pushed := more))];
    assert Grows(t, c[q], d[q]);
    assert Step(t, ps, d, k).Next? && Step(t, ps, c, k).Crash?;
  }

  lemma OthersDoNotMatter(t: Topo, ps: seq<Prog>, c: Config, d: Config, k: nat)
    requires WF(t, ps, c) && WF(t, ps, d) && k < |c| && OthersGrow(t, ps, c, d, k) && Enabled(t, ps, c, k)
    requires !EmptyStray(t, ps, c, k) && !OpenReceive(t, ps, c, k)
    ensures Step(t, ps, d, k) == Step(t, ps, c, k)
  {
    var cmd := ps[k](c[k].h);
    match cmd {
      case Reserve(b) =>
        assert Grows(t, c[t.cons[b]], d[t.cons[b]]);
      case Wait(b) =>
        assert Grows(t, c[t.prod[b]], d[t.prod[b]]);
      case Pop(b) =>
        assert Grows(t, c[t.prod[b]], d[t.prod[b]]);
      case Recv(_, _, _) =>
        if Step(t, ps, c, k).Next? {
          SettledContent(t, ps, c, d, k, NextTensor(t, c, k, cmd));
        }
        ReceiveRepeats(t, ps, c, d, k);
      case _ =>
    }
  }

  /** A step is unaffected by everything other kernels may do exactly when it is neither a pop of an empty
      buffer that is not pending nor the receipt of a tensor that another kernel could still write. What others may
      do is any growth of their logs, whether or not their programs get there. */
  lemma StableExactly(t: Topo, ps: seq<Prog>, c: Config, k: nat)
    requires WF(t, ps, c) && k < |c| && Enabled(t, ps, c, k)
    ensures (forall d :: WF(t, ps, d) && OthersGrow(t, ps, c, d, k) ==> Step(t, ps, d, k) == Step(t, ps, c, k))
            <==> !EmptyStray(t, ps, c, k) && !OpenReceive(t, ps, c, k)
  {
    if EmptyStray(t, ps, c, k) {
      var d := StrayDiffers(t, ps, c, k);
    } else if OpenReceive(t, ps, c, k) {
      var d := Unsettled(t, ps, c, k, NextTensor(t, c, k, ps[k](c[k].h)));
      ReceiveDiffers(t, ps, c, d, k);
    } else {
      forall d | WF(t, ps, d) && OthersGrow(t, ps, c, d, k)
        ensures Step(t, ps, d, k) == Step(t, ps, c, k)
      {
        OthersDoNotMatter(t, ps, c, d, k);
      }
    }
  }

  // ----- A stray pop makes the outcome depend on the schedule -----

  const STRAY_TOPO := Topo([1], [0], [1], [], [], [COMPUTE, COMPUTE])

  /** Reserve, store 7, push. */
  function Producer(h: seq<Value>): Cmd
  {
    if |h| == 0 then Reserve(0) else if |h| == 1 then Touch(0, Reserved, StoreDst, 7)
    else if |h| == 2 then Push(0) else Done
  }

  /** Pop without waiting. */
  function Popper(h: seq<Value>): Cmd
  {
    if |h| == 0 then Pop(0) else Done
  }

  const STRAY_PROGS: seq<Prog> := [h => Producer(h), h => Popper(h)]

  /** Both kernels untouched, and the producer after each of its commands. */
  function Idle(): Local { Local([], [Out([], None)], [In([], None)], [], []) }

  function ProducerAt(n: nat): Local
    requires n <= 3
  {
    match n
    case 0 => Idle()
    case 1 => Local([0], [Out([], Some(Blk(0, Initial(RESERVE, COMPUTE), [])))], [In([], None)], [], [])
    case 2 => Local([0, 0], [Out([], Some(Blk(7, SM(RESERVE, COMPUTE, MR, {STORE_SRC, PUSH}, 0), [StoreDst])))],
                    [In([], None)], [], [])
    case 3 => Local([0, 0, 0], [Out([7], None)], [In([], None)], [], [])
  }

  function StrayEnd(): Config { [ProducerAt(3), Idle().(h := [0], ins := [In([7], None)])] }

  lemma StrayProgsWF()
    ensures WFProgs(STRAY_TOPO, STRAY_PROGS) && Start(STRAY_TOPO) == [Idle(), Idle()]
  {
    assert InitialLocal(STRAY_TOPO) == Idle();
  }

  lemma ProducerStep(n: nat)
    requires n < 3
    ensures var c := [ProducerAt(n), Idle()];
            WFConfig(STRAY_TOPO, c)
            && StepCmd(STRAY_TOPO, c, 0, Producer(c[0].h)) == Next(ProducerAt(n + 1))
  {
    var c := [ProducerAt(n), Idle()];
    var l := StepCmd(STRAY_TOPO, c, 0, Producer(c[0].h)).l;
    if n == 1 {
      assert l.outs[0].slot.value.log == [StoreDst];
    }
    if n == 2 {
      assert l.outs[0].pushed == [7];
    }
    assert l.outs[0] == ProducerAt(n + 1).outs[0];
    assert l.outs == ProducerAt(n + 1).outs;
    assert l.ins == ProducerAt(n + 1).ins;
    assert l.h == ProducerAt(n + 1).h;
  }

  lemma {:induction false} ProducerRuns(n: nat) returns (s: seq<nat>)
    requires n <= 3
    ensures WFProgs(STRAY_TOPO, STRAY_PROGS)
    ensures Run(STRAY_TOPO, STRAY_PROGS, Start(STRAY_TOPO), s, [ProducerAt(n), Idle()])
  {
    var t, ps := STRAY_TOPO, STRAY_PROGS;
    StrayProgsWF();
    if n == 0 {
      s := [];
    } else {
      var most := ProducerRuns(n - 1);
      var c := [ProducerAt(n - 1), Idle()];
      ProducerStep(n - 1);
      assert Step(t, ps, c, 0) == Next(ProducerAt(n));
      RunSnoc(t, ps, Start(t), most, c, 0);
      assert c[0 := ProducerAt(n)] == [ProducerAt(n), Idle()];
      s := most + [0];
    }
  }

  /** The popper raises before the producer has run, and pops after it. */
  lemma PopperSteps()
    ensures WFProgs(STRAY_TOPO, STRAY_PROGS)
    ensures WF(STRAY_TOPO, STRAY_PROGS, Start(STRAY_TOPO)) && |Start(STRAY_TOPO)| == 2
    ensures Step(STRAY_TOPO, STRAY_PROGS, Start(STRAY_TOPO), 1).Crash?
    ensures WF(STRAY_TOPO, STRAY_PROGS, [ProducerAt(3), Idle()])
    ensures Step(STRAY_TOPO, STRAY_PROGS, [ProducerAt(3), Idle()], 1) == Next(StrayEnd()[1])
    ensures WF(STRAY_TOPO, STRAY_PROGS, StrayEnd()) && |StrayEnd()| == 2
    ensures forall k :: 0 <= k < |StrayEnd()| ==> Step(STRAY_TOPO, STRAY_PROGS, StrayEnd(), k).Halted?
  {
    StrayProgsWF();
    assert Idle().ins[0].gone + [7] == [7];
    assert StrayEnd()[1].ins == Idle().ins[0 := In([7], None)];
  }

  /** The same two kernels complete under one schedule and raise under another. */
  lemma StrayPopDependsOnSchedule()
    ensures WFProgs(STRAY_TOPO, STRAY_PROGS)
    ensures Result(STRAY_TOPO, STRAY_PROGS, Completed, StrayEnd())
    ensures Result(STRAY_TOPO, STRAY_PROGS, Crashed(1), Start(STRAY_TOPO))
  {
    var t, ps := STRAY_TOPO, STRAY_PROGS;
    StrayProgsWF();
    PopperSteps();
    assert Run(t, ps, Start(t), [], Start(t));
    assert [ProducerAt(3), Idle()][1 := StrayEnd()[1]] == StrayEnd();
    hide *;
    var s := ProducerRuns(3);
    RunSnoc(t, ps, Start(t), s, [ProducerAt(3), Idle()], 1);
    IsResult(t, ps, s + [1], Completed, StrayEnd());
    IsResult(t, ps, [], Crashed(1), Start(t));
  }

  lemma IsResult(t: Topo, ps: seq<Prog>, s: seq<nat>, o: Ending, w: Config)
    requires WFProgs(t, ps) && Run(t, ps, Start(t), s, w) && WF(t, ps, w)
    requires match o
             case Completed => forall k :: 0 <= k < |w| ==> Step(t, ps, w, k).Halted?
             case Deadlocked => false
             case Crashed(k) => k < |w| && Step(t, ps, w, k).Crash?
    ensures Result(t, ps, o, w)
  {
  }

  // ----- Overwriting a block that is on a pipe -----

  const RACE_TOPO := Topo([1, 1], [0, 1], [0, 1], [0], [{1}], [DM, DM])

  /** Fill a block with 1, send it, fill it with 2, push it. */
  function Sender(h: seq<Value>): Cmd
  {
    if |h| == 0 then Reserve(0)
    else if |h| == 1 then Touch(0, Reserved, CopyDst, 0) else if |h| == 2 then Cmd.TxWait(0, Reserved, 1)
    else if |h| == 3 then Send(0, 0, Reserved) else if |h| == 4 then Cmd.TxWait(0, Reserved, 0)
    else if |h| == 5 then Touch(0, Reserved, CopyDst, 0) else if |h| == 6 then Cmd.TxWait(0, Reserved, 2)
    else if |h| == 7 then Push(0) else Done
  }

  /** Receive one message into a block and push it. */
  function Receiver(h: seq<Value>): Cmd
  {
    if |h| == 0 then Reserve(1) else if |h| == 1 then Touch(1, Reserved, CopyDst, 0)
    else if |h| == 2 then Recv(0, 1, Reserved) else if |h| == 3 then Push(1) else Done
  }

  const RACE_PROGS: seq<Prog> := [h => Sender(h), h => Receiver(h)]

  /** Fill a reserved block, read it, and fill it again. */
  const WORK: seq<OpKey> := [CopyDst, OpKey.TxWait, CopySrc, OpKey.TxWait, CopyDst, OpKey.TxWait]

  /** The state machine after n of these operations. */
  function WorkSM(n: nat): SM
    requires n <= 6
  {
    match n
    case 0 => Initial(RESERVE, DM)
    case 1 => SM(RESERVE, DM, NAW, {TX_WAIT}, 0)
    case 2 => SM(RESERVE, DM, MR, {PUSH, COPY_SRC}, 0)
    case 3 => SM(RESERVE, DM, ROR, {TX_WAIT, COPY_SRC}, 1)
    case 4 => SM(RESERVE, DM, RW, {COPY_DST, COPY_SRC, PUSH}, 1)
    case 5 => SM(RESERVE, DM, NAW, {TX_WAIT}, 1)
    case 6 => SM(RESERVE, DM, MR, {PUSH, COPY_SRC}, 1)
  }

  lemma Works(n: nat)
    requires n < 6
    ensures Apply(WorkSM(n), WORK[n]) == Moved(WorkSM(n + 1))
  {
  }

  function RaceBlk(n: nat, v: Value): Blk
    requires n <= 6
  {
    Blk(v, WorkSM(n), WORK[..n])
  }

  /** What the sender's block holds after n of its commands. */
  function BlockAt(n: nat): Value { if n < 3 then 0 else if n < 7 then 1 else 2 }

  function SenderAt(n: nat): Local
    requires n <= 8
  {
    Local([0, 0, 0, 1, 1, 1, 1, 0][..n],
          [if n == 0 then Out([], None) else if n == 8 then Out([2], None)
           else Out([], Some(RaceBlk(n - 1, BlockAt(n)))),
           Out([], None)],
          [In([], None), In([], None)], [if n < 4 then [] else [Tensor(0, 0)]], [0])
  }

  /** The receiver after n of its commands, when the message brought it v. */
  function ReceiverAt(n: nat, v: Value): Local
    requires n <= 4
  {
    Local([0, 0, v, 0][..n],
          [Out([], None),
           if n == 0 then Out([], None) else if n == 4 then Out([v], None)
           else Out([], Some(RaceBlk(n - 1, if n < 3 then 0 else v)))],
          [In([], None), In([], None)], [[]], [if n < 3 then 0 else 1])
  }

  lemma RaceOperation(l: Local, b: nat, n: nat, v: Value, val: Value)
    requires n < 6 && b < |l.outs| && b < |l.ins| && l.outs[b].slot == Some(RaceBlk(n, v))
    ensures Operate(l, b, Reserved, WORK[n], val)
            == Some(SetOut(l, b, l.outs[b].(slot := Some(RaceBlk(n + 1, val)))))
    ensures RaceBlk(n, v).val == v && (RaceBlk(n, v).sm.access.NAW? <==> n in {1, 5})
  {
    assert WORK[..n] + [WORK[n]] == WORK[..n + 1];
    Works(n);
    hide Apply;
  }

  lemma RaceCommands(h: seq<Value>)
    requires WFTopo(RACE_TOPO)
    ensures Legal(RACE_TOPO, 0, Sender(h)) && Legal(RACE_TOPO, 1, Receiver(h)) && !Sender(h).Pop? && !Receiver(h).Pop?
  {
  }

  lemma RaceProgsWF()
    ensures WFProgs(RACE_TOPO, RACE_PROGS) && PopsHeld(RACE_PROGS)
  {
    hide Legal, Sender, Receiver;
    forall k: nat, h: seq<Value> {:trigger RACE_PROGS[k](h)} | k < |RACE_PROGS|
      ensures Legal(RACE_TOPO, k, RACE_PROGS[k](h)) && !RACE_PROGS[k](h).Pop?
    {
      RaceCommands(h);
      assert k == 0 || k == 1;
    }
  }

  lemma RaceStart(v: Value)
    requires WFTopo(RACE_TOPO)
    ensures Start(RACE_TOPO) == [SenderAt(0), ReceiverAt(0, v)]
  {
    assert InitialLocal(RACE_TOPO) == SenderAt(0);
    assert InitialLocal(RACE_TOPO) == ReceiverAt(0, v);
  }

  lemma SenderStep(n: nat, r: Local)
    requires n < 8 && WFLocal(RACE_TOPO, r)
    ensures var c := [SenderAt(n), r];
            WFConfig(RACE_TOPO, c) && StepCmd(RACE_TOPO, c, 0, Sender(c[0].h)) == Next(SenderAt(n + 1))
  {
    if 1 <= n < 7 {
      SenderOperates(n, r);
    } else {
      SenderEnds(n, r);
    }
    hide StepCmd;
  }

  lemma SenderEnds(n: nat, r: Local)
    requires (n == 0 || n == 7) && WFLocal(RACE_TOPO, r)
    ensures var c := [SenderAt(n), r];
            WFConfig(RACE_TOPO, c) && StepCmd(RACE_TOPO, c, 0, Sender(c[0].h)) == Next(SenderAt(n + 1))
  {
    hide Operate;
    var c := [SenderAt(n), r];
    var (l, m) := (StepCmd(RACE_TOPO, c, 0, Sender(c[0].h)).l, SenderAt(n + 1));
    assert n == 7 ==> RaceBlk(6, 2).sm.expected == {PUSH, COPY_SRC};
    assert l.outs[0].pushed == m.outs[0].pushed && l.outs[0].slot == m.outs[0].slot;
    assert l.outs == m.outs;
    assert l.h == m.h;
  }

  lemma SenderOperates(n: nat, r: Local)
    requires 1 <= n < 7 && WFLocal(RACE_TOPO, r)
    ensures var c := [SenderAt(n), r];
            WFConfig(RACE_TOPO, c) && StepCmd(RACE_TOPO, c, 0, Sender(c[0].h)) == Next(SenderAt(n + 1))
  {
    hide Operate, RaceBlk, Apply, Initial;
    var c := [SenderAt(n), r];
    var val := BlockAt(n + 1);
    var at := SenderAt(n);
    var l := if n == 3 then at.(sent := at.sent[0 := at.sent[0] + [TensorOf(at, 0, Reserved)]]) else at;
    RaceOperation(at, 0, n - 1, BlockAt(n), val);
    RaceOperation(l, 0, n - 1, BlockAt(n), val);
    assert StepCmd(RACE_TOPO, c, 0, Sender(c[0].h)) == OrCrash(Operate(l, 0, Reserved, WORK[n - 1], val), BlockAt(n));
    var (l', m) := (StepCmd(RACE_TOPO, c, 0, Sender(c[0].h)).l, SenderAt(n + 1));
    assert l'.h == m.h;
    assert l'.outs == m.outs;
    assert l'.sent[0] == m.sent[0];
    assert l'.sent == m.sent;
  }

  lemma ReceiverStep(m: nat, n: nat, v: Value)
    requires m <= 8 && n < 4 && (n == 2 ==> m >= 4 && v == BlockAt(m))
    ensures var c := [SenderAt(m), ReceiverAt(n, v)];
            WFConfig(RACE_TOPO, c) && StepCmd(RACE_TOPO, c, 1, Receiver(c[1].h)) == Next(ReceiverAt(n + 1, v))
  {
    if 1 <= n < 3 {
      ReceiverOperates(m, n, v);
    } else {
      ReceiverEnds(m, n, v);
    }
    hide StepCmd;
  }

  lemma ReceiverEnds(m: nat, n: nat, v: Value)
    requires m <= 8 && (n == 0 || n == 3)
    ensures var c := [SenderAt(m), ReceiverAt(n, v)];
            WFConfig(RACE_TOPO, c) && StepCmd(RACE_TOPO, c, 1, Receiver(c[1].h)) == Next(ReceiverAt(n + 1, v))
  {
    hide Operate;
    var c := [SenderAt(m), ReceiverAt(n, v)];
    var (l, r) := (StepCmd(RACE_TOPO, c, 1, Receiver(c[1].h)).l, ReceiverAt(n + 1, v));
    assert n == 3 ==> RaceBlk(2, v).sm.expected == {PUSH, COPY_SRC};
    assert l.outs[1].pushed == r.outs[1].pushed && l.outs[1].slot == r.outs[1].slot;
    assert l.outs == r.outs;
    assert l.h == r.h;
  }

  lemma ReceiverOperates(m: nat, n: nat, v: Value)
    requires m <= 8 && 1 <= n < 3 && (n == 2 ==> m >= 4 && v == BlockAt(m))
    ensures var c := [SenderAt(m), ReceiverAt(n, v)];
            WFConfig(RACE_TOPO, c) && StepCmd(RACE_TOPO, c, 1, Receiver(c[1].h)) == Next(ReceiverAt(n + 1, v))
  {
    hide Operate, Apply, Initial;
    var (c, at, val) := ([SenderAt(m), ReceiverAt(n, v)], ReceiverAt(n, v), if n == 1 then 0 else v);
    var l := if n == 2 then at.(got := at.got[0 := at.got[0] + 1]) else at;
    assert n == 2 ==> Content(RACE_TOPO, c, Tensor(0, 0)) == v;
    RaceOperation(at, 1, n - 1, 0, val);
    RaceOperation(l, 1, n - 1, 0, val);
    hide Content;
    assert StepCmd(RACE_TOPO, c, 1, Receiver(c[1].h)) == OrCrash(Operate(l, 1, Reserved, WORK[n - 1], val), val);
    var (l', r) := (StepCmd(RACE_TOPO, c, 1, Receiver(c[1].h)).l, ReceiverAt(n + 1, v));
    assert l'.h == r.h;
    assert l'.outs == r.outs;
    assert l'.got == r.got;
  }

  /** The sender goes from its m-th to its n-th command. */
  lemma {:induction false} SenderRuns(s: seq<nat>, m: nat, n: nat, r: Local) returns (s': seq<nat>)
    requires WFProgs(RACE_TOPO, RACE_PROGS) && WFLocal(RACE_TOPO, r) && m <= n <= 8
    requires Run(RACE_TOPO, RACE_PROGS, Start(RACE_TOPO), s, [SenderAt(m), r])
    ensures Run(RACE_TOPO, RACE_PROGS, Start(RACE_TOPO), s', [SenderAt(n), r])
  {
    if m == n {
      s' := s;
    } else {
      var most := SenderRuns(s, m, n - 1, r);
      var c := [SenderAt(n - 1), r];
      SenderStep(n - 1, r);
      assert Step(RACE_TOPO, RACE_PROGS, c, 0) == Next(SenderAt(n));
      assert c[0 := SenderAt(n)] == [SenderAt(n), r];
      hide Run, Step, SenderAt, Start;
      RunSnoc(RACE_TOPO, RACE_PROGS, Start(RACE_TOPO), most, c, 0);
      s' := most + [0];
    }
  }

  /** The receiver runs next to a sender that has sent. */
  lemma {:induction false} ReceiverRuns(s: seq<nat>, m: nat, n: nat) returns (s': seq<nat>)
    requires WFProgs(RACE_TOPO, RACE_PROGS) && 4 <= m <= 8 && n <= 4
    requires Run(RACE_TOPO, RACE_PROGS, Start(RACE_TOPO), s, [SenderAt(m), ReceiverAt(0, BlockAt(m))])
    ensures Run(RACE_TOPO, RACE_PROGS, Start(RACE_TOPO), s', [SenderAt(m), ReceiverAt(n, BlockAt(m))])
  {
    if n == 0 {
      s' := s;
    } else {
      var v := BlockAt(m);
      var most := ReceiverRuns(s, m, n - 1);
      var c := [SenderAt(m), ReceiverAt(n - 1, v)];
      ReceiverStep(m, n - 1, v);
      assert Step(RACE_TOPO, RACE_PROGS, c, 1) == Next(ReceiverAt(n, v));
      assert c[1 := ReceiverAt(n, v)] == [SenderAt(m), ReceiverAt(n, v)];
      hide Run, Step, SenderAt, ReceiverAt, Start;
      RunSnoc(RACE_TOPO, RACE_PROGS, Start(RACE_TOPO), most, c, 1);
      s' := most + [1];
    }
  }

  function RaceEnd(v: Value): Config { [SenderAt(8), ReceiverAt(4, v)] }

  /** The receiver runs when the sender has done m commands. */
  lemma RaceCompletes(m: nat)
    requires 4 <= m <= 8
    ensures WFProgs(RACE_TOPO, RACE_PROGS)
    ensures Result(RACE_TOPO, RACE_PROGS, Completed, RaceEnd(BlockAt(m)))
  {
    var (t, ps, v) := (RACE_TOPO, RACE_PROGS, BlockAt(m));
    RaceProgsWF();
    RaceStart(v);
    assert WF(t, ps, RaceEnd(v)) && StopsAt(t, ps, Completed, RaceEnd(v));
    assert Run(t, ps, Start(t), [], [SenderAt(0), ReceiverAt(0, v)]);
    assert WFLocal(t, ReceiverAt(0, v)) && WFLocal(t, ReceiverAt(4, v));
    assert RaceEnd(v) == [SenderAt(8), ReceiverAt(4, v)];
    hide Run, Start, SenderAt, ReceiverAt, RaceEnd, StopsAt, WF, WFProgs, WFLocal;
    var s := SenderRuns([], 0, m, ReceiverAt(0, v));
    s := ReceiverRuns(s, m, 4);
    s := SenderRuns(s, m, 8, ReceiverAt(4, v));
  }

  /** Two kernels, every operation legal and every pop of a held block: when the receiver runs right after the
      send it gets 1, when it runs last it gets 2. The sender overwrites the block it has on the pipe. */
  lemma OverwriteDependsOnSchedule()
    ensures WFProgs(RACE_TOPO, RACE_PROGS) && PopsHeld(RACE_PROGS) && !Sealed(RACE_TOPO, RACE_PROGS)
    ensures Result(RACE_TOPO, RACE_PROGS, Completed, RaceEnd(1)) && RaceEnd(1)[1].outs[1].pushed == [1]
    ensures Result(RACE_TOPO, RACE_PROGS, Completed, RaceEnd(2)) && RaceEnd(2)[1].outs[1].pushed == [2]
  {
    RaceProgsWF();
    RaceCompletes(4);
    RaceCompletes(8);
    assert RaceEnd(1)[1].outs[1].pushed == [1] && RaceEnd(2)[1].outs[1].pushed == [2];
    hide Result, RaceEnd;
    if Sealed(RACE_TOPO, RACE_PROGS) {
      AllSchedulesAgree(RACE_TOPO, RACE_PROGS, Completed, RaceEnd(1), Completed, RaceEnd(2));
    }
  }
}
