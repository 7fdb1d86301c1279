/** The ring buffer behind a DataflowBuffer (python/sim/dfbstate.py, python/sim/dfb.py),
    and the proof that it carries the logs of `Network`. */
module Ring {
  import opened Arith
  import opened Wrappers
  import opened BlockState
  import opened Network
  import opened Confluence

  /** A pending block: the kernel that acquired it, its slot, its access state, its operations. */
  datatype Pend = Pend(owner: nat, slot: nat, sm: SM, log: seq<OpKey>)

  datatype RingState = RingState(cap: nat, buf: seq<Option<Value>>, head: nat, visible: nat, reserved: nat,
                                 pendR: Option<Pend>, pendW: Option<Pend>)

  predicate ValidRing(r: RingState)
  {
    && r.cap >= 1 && |r.buf| == r.cap && r.head < r.cap
    && (r.pendR.Some? ==> r.pendR.value.slot < r.cap)
    && (r.pendW.Some? ==> r.pendW.value.slot < r.cap)
  }

  function EmptyRing(cap: nat): RingState
  {
    RingState(cap, seq(cap, _ => None), 0, 0, 0, None, None)
  }

  function FreeSlots(r: RingState): int { r.cap - r.visible - r.reserved }

  function BackSlot(r: RingState): nat
    requires r.cap >= 1
  {
    (r.head + r.visible) % r.cap
  }

  function PendIn(r: RingState, side: Side): Option<Pend> { if side.Reserved? then r.pendR else r.pendW }

  /** reserve() past the synchronisation point: zero the back slot and hand it out. */
  function TakeBack(r: RingState, who: nat, kind: KernelType): RingState
    requires ValidRing(r)
  {
    r.(buf := r.buf[BackSlot(r) := Some(0)], reserved := r.reserved + 1,
       pendR := Some(Pend(who, BackSlot(r), Initial(RESERVE, kind), [])))
  }

  /** wait() past the synchronisation point: hand out the head slot. */
  function TakeHead(r: RingState, who: nat, kind: KernelType): RingState
    requires ValidRing(r)
  {
    r.(pendW := Some(Pend(who, r.head, Initial(WAIT, kind), [])))
  }

  /** push_block(); None when it raises. */
  function PushRing(r: RingState): Option<RingState>
  {
    if r.pendR.Some? && !ApplyPush(r.pendR.value.sm).Moved? then None
    else if r.reserved < 1 then None
    else Some(r.(pendR := None, reserved := r.reserved - 1, visible := r.visible + 1))
  }

  /** pop_block(); None when it raises. */
  function PopRing(r: RingState): Option<RingState>
    requires ValidRing(r)
  {
    if r.pendW.Some? && !ApplyPop(r.pendW.value.sm).Moved? then None
    else if r.visible < 1 then None
    else Some(r.(pendW := None, buf := r.buf[r.head := None],
                 head := (r.head + 1) % r.cap, visible := r.visible - 1))
  }

  /** auto_push_block(): only the kernel that owns the pending block pushes it. */
  function AutoPushRing(r: RingState, who: nat): Option<RingState>
  {
    if r.pendR.None? || r.pendR.value.owner != who then Some(r) else PushRing(r)
  }

  function AutoPopRing(r: RingState, who: nat): Option<RingState>
    requires ValidRing(r)
  {
    if r.pendW.None? || r.pendW.value.owner != who then Some(r) else PopRing(r)
  }

  function SlotValue(r: RingState, side: Side): Value
    requires ValidRing(r)
  {
    match PendIn(r, side)
    case None => 0
    case Some(p) => if r.buf[p.slot].Some? then r.buf[p.slot].value else 0
  }

  /** An operation on a pending block, writing `val` through to the slot it aliases. */
  function OperateRing(r: RingState, side: Side, op: OpKey, val: Value): Option<RingState>
    requires ValidRing(r)
  {
    match PendIn(r, side)
    case None => None
    case Some(p) =>
      match Apply(p.sm, op)
      case Moved(sm) =>
        var p' := Some(p.(sm := sm, log := p.log + [op]));
        var r' := r.(buf := r.buf[p.slot := Some(val)]);
        Some(if side.Reserved? then r'.(pendR := p') else r'.(pendW := p'))
      case _ => None
  }

  // ----- The classes -----

  class DFBState {
    const cap: nat
    const buf: array<Option<Value>>
    var head: nat
    var visible: nat
    var reserved: nat

    predicate Valid()
      reads this
    {
      cap >= 1 && buf.Length == cap && head < cap
    }

    constructor (cap: nat)
      requires cap >= 1
      ensures Valid() && this.cap == cap && fresh(buf)
      ensures head == visible == reserved == 0 && buf[..] == EmptyRing(cap).buf
    {
      this.cap := cap;
      buf := new Option<Value>[cap](_ => None);
      head, visible, reserved := 0, 0, 0;
    }

    function Free(): int
      reads this
    {
      cap - visible - reserved
    }

    function BackSlot(): (slot: nat)
      requires Valid()
      reads this
      ensures slot < cap
    {
      (head + visible) % cap
    }

    /** `reset()`: clear every slot in place and start over. */
    method Reset()
      requires Valid()
      modifies this, buf
      ensures Valid() && head == visible == reserved == 0 && buf[..] == EmptyRing(cap).buf
    {
      for i := 0 to cap
        invariant forall j :: 0 <= j < i ==> buf[j] == None
      {
        buf[i] := None;
      }
      head, visible, reserved := 0, 0, 0;
    }
  }

  datatype Attempt = Acquired | WouldBlock | Raised

  class DataflowBuffer {
    const state: DFBState
    var pendingReserved: Option<Pend>
    var pendingWaited: Option<Pend>

    function Model(): RingState
      reads this, state, state.buf
    {
      RingState(state.cap, state.buf[..], state.head, state.visible, state.reserved, pendingReserved, pendingWaited)
    }

    predicate Valid()
      reads this, state, state.buf
    {
      state.Valid() && ValidRing(Model())
    }

    constructor (cap: nat)
      requires cap >= 1
      ensures Valid() && fresh(state) && fresh(state.buf) && Model() == EmptyRing(cap)
    {
      state := new DFBState(cap);
      pendingReserved, pendingWaited := None, None;
    }

    method CanReserve() returns (ok: bool)
      ensures ok <==> FreeSlots(Model()) >= 1
    {
      ok := state.Free() >= 1;
    }

    method CanWait() returns (ok: bool)
      ensures ok <==> Model().visible >= 1
    {
      ok := state.visible >= 1;
    }

    method PushBlock() returns (ok: bool)
      requires Valid()
      modifies this, state
      ensures Valid() && ok == PushRing(old(Model())).Some?
      ensures ok ==> Model() == PushRing(old(Model())).value
    {
      if pendingReserved.Some? {
        if !ApplyPush(pendingReserved.value.sm).Moved? {
          return false;
        }
        pendingReserved := None;
      }
      if state.reserved < 1 {
        return false;
      }
      state.reserved := state.reserved - 1;
      state.visible := state.visible + 1;
      ok := true;
    }

    method PopBlock() returns (ok: bool)
      requires Valid()
      modifies this, state, state.buf
      ensures Valid() && ok == PopRing(old(Model())).Some?
      ensures ok ==> Model() == PopRing(old(Model())).value
    {
      if pendingWaited.Some? {
        if !ApplyPop(pendingWaited.value.sm).Moved? {
          return false;
        }
        pendingWaited := None;
      }
      if state.visible < 1 {
        return false;
      }
      state.buf[state.head] := None;
      state.head := (state.head + 1) % state.cap;
      state.visible := state.visible - 1;
      ok := true;
    }

    method AutoPushBlock(who: nat) returns (ok: bool)
      requires Valid()
      modifies this, state
      ensures Valid() && ok == AutoPushRing(old(Model()), who).Some?
      ensures ok ==> Model() == AutoPushRing(old(Model()), who).value
    {
      if pendingReserved.None? || pendingReserved.value.owner != who {
        return true;
      }
      ok := PushBlock();
    }

    method AutoPopBlock(who: nat) returns (ok: bool)
      requires Valid()
      modifies this, state, state.buf
      ensures Valid() && ok == AutoPopRing(old(Model()), who).Some?
      ensures ok ==> Model() == AutoPopRing(old(Model()), who).value
    {
      if pendingWaited.None? || pendingWaited.value.owner != who {
        return true;
      }
      ok := PopBlock();
    }

    /** `reserve()` by kernel `who`, up to and including the synchronisation point; when it
        would block, the scheduler calls it again later. */
    method Reserve(who: nat, kind: KernelType) returns (o: Attempt)
      requires Valid()
      modifies this, state, state.buf
      ensures Valid()
      ensures var r := AutoPushRing(old(Model()), who);
              match o
              case Raised => r.None?
              case WouldBlock => r.Some? && FreeSlots(r.value) < 1 && Model() == r.value
              case Acquired => r.Some? && ValidRing(r.value) && FreeSlots(r.value) >= 1
                               && Model() == TakeBack(r.value, who, kind)
    {
      if pendingReserved.Some? {
        var ok := AutoPushBlock(who);
        if !ok {
          return Raised;
        }
      }
      var can := CanReserve();
      if !can {
        return WouldBlock;
      }
      var slot := state.BackSlot();
      state.buf[slot] := Some(0);
      state.reserved := state.reserved + 1;
      pendingReserved := Some(Pend(who, slot, Initial(RESERVE, kind), []));
      o := Acquired;
    }

    /** `wait()` by kernel `who`, likewise. */
    method Wait(who: nat, kind: KernelType) returns (o: Attempt)
      requires Valid()
      modifies this, state, state.buf
      ensures Valid()
      ensures var r := AutoPopRing(old(Model()), who);
              match o
              case Raised => r.None?
              case WouldBlock => r.Some? && r.value.visible < 1 && Model() == r.value
              case Acquired => r.Some? && ValidRing(r.value) && r.value.visible >= 1
                               && Model() == TakeHead(r.value, who, kind)
    {
      if pendingWaited.Some? {
        var ok := AutoPopBlock(who);
        if !ok {
          return Raised;
        }
      }
      var can := CanWait();
      if !can {
        return WouldBlock;
      }
      pendingWaited := Some(Pend(who, state.head, Initial(WAIT, kind), []));
      o := Acquired;
    }

    /** A store, a copy or an arithmetic use of a pending block. */
    method Operate(side: Side, op: OpKey, val: Value) returns (ok: bool)
      requires Valid()
      modifies this, state.buf
      ensures Valid() && ok == OperateRing(old(Model()), side, op, val).Some?
      ensures Model() == if ok then OperateRing(old(Model()), side, op, val).value else old(Model())
    {
      var pending := if side.Reserved? then pendingReserved else pendingWaited;
      if pending.None? {
        return false;
      }
      var p := pending.value;
      var moved := Apply(p.sm, op);
      if !moved.Moved? {
        return false;
      }
      state.buf[p.slot] := Some(val);
      var p' := Some(p.(sm := moved.sm, log := p.log + [op]));
      if side.Reserved? {
        pendingReserved := p';
      } else {
        pendingWaited := p';
      }
      ok := true;
    }
  }

  // ----- One command on its ring -----

  datatype RingRes = RBlocked | RError | ROk(r: RingState)

  function OrError(o: Option<RingState>): RingRes
  {
    match o
    case None => RError
    case Some(r) => ROk(r)
  }

  /** The buffer a command works on. */
  function BufferOf(cmd: Cmd): nat
    requires !cmd.Done?
  {
    match cmd
    case Reserve(b) => b
    case Wait(b) => b
    case Push(b) => b
    case Pop(b) => b
    case Touch(b, _, _, _) => b
    case TxWait(b, _, _) => b
    case Send(_, b, _) => b
    case Recv(_, b, _) => b
  }

  /** What command `cmd` of kernel `who` does to its ring; `msg` is the message a
      receive delivers. */
  function RingCmd(r: RingState, who: nat, kind: KernelType, cmd: Cmd, msg: Value): RingRes
    requires ValidRing(r)
  {
    match cmd
    case Done => ROk(r)
    case Reserve(_) =>
      if r.pendR.Some? && r.pendR.value.owner == who then OrError(PushRing(r))
      else if FreeSlots(r) < 1 then RBlocked
      else ROk(TakeBack(r, who, kind))
    case Wait(_) =>
      if r.pendW.Some? && r.pendW.value.owner == who then OrError(PopRing(r))
      else if r.visible < 1 then RBlocked
      else ROk(TakeHead(r, who, kind))
    case Push(_) => OrError(PushRing(r))
    case Pop(_) => OrError(PopRing(r))
    case Touch(_, side, op, v) => OrError(OperateRing(r, side, op, if op.StoreDst? then v else SlotValue(r, side)))
    case TxWait(_, side, v) =>
      var landing := PendIn(r, side).Some? && PendIn(r, side).value.sm.access.NAW?;
      OrError(OperateRing(r, side, OpKey.TxWait, if landing then v else SlotValue(r, side)))
    case Send(_, _, side) => OrError(OperateRing(r, side, CopySrc, SlotValue(r, side)))
    case Recv(_, _, side) => OrError(OperateRing(r, side, OpKey.TxWait, msg))
  }

  // ----- The ring refines the logs -----

  /** Slot `head + j` of a ring of `cap` slots. */
  function At(head: nat, j: nat, cap: nat): nat
    requires head < cap && j <= cap
  {
    if head + j < cap then head + j else head + j - cap
  }

  lemma AtIsMod(head: nat, j: nat, cap: nat)
    requires head < cap && j <= cap
    ensures (head + j) % cap == At(head, j, cap)
  {
    if head + j >= cap {
      DivUnique(head + j, cap, 1, head + j - cap);
    } else {
      DivUnique(head + j, cap, 0, head + j);
    }
  }

  /** What the `j`-th visible slot must hold: the `j`-th value pushed and not yet popped,
      unless the consumer has overwritten the slot it holds. */
  function Expected(o: Out, i: In, j: nat): Value
    requires |i.gone| + j < |o.pushed|
  {
    if j == 0 && i.held.Some? then i.held.value.val else o.pushed[|i.gone| + j]
  }

  function PendOf(blk: Option<Blk>, owner: nat, slot: nat): Option<Pend>
  {
    match blk
    case None => None
    case Some(x) => Some(Pend(owner, slot, x.sm, x.log))
  }

  /** The ring `r` with producer `p` and consumer `q` stands for the logs `o` and `i`: its window is
      what was pushed and not popped, the reserved slot is at the back, every other slot is empty. */
  ghost predicate Carries(r: RingState, p: nat, q: nat, o: Out, i: In)
  {
    && ValidRing(r)
    && |i.gone| <= |o.pushed| && r.visible == |o.pushed| - |i.gone|
    && r.reserved == (if o.slot.Some? then 1 else 0)
    && r.visible + r.reserved <= r.cap
    && (i.held.Some? ==> r.visible >= 1)
    && r.pendR == PendOf(o.slot, p, At(r.head, r.visible, r.cap))
    && r.pendW == PendOf(i.held, q, r.head)
    && (forall j :: 0 <= j < r.visible ==> r.buf[At(r.head, j, r.cap)] == Some(Expected(o, i, j)))
    && (o.slot.Some? ==> r.buf[At(r.head, r.visible, r.cap)] == Some(o.slot.value.val))
    && (forall j :: r.visible + r.reserved <= j < r.cap ==> r.buf[At(r.head, j, r.cap)] == None)
  }

  lemma TakeBackCarries(r: RingState, p: nat, q: nat, o: Out, i: In, kind: KernelType)
    requires Carries(r, p, q, o, i) && o.slot.None? && FreeSlots(r) >= 1
    ensures Carries(TakeBack(r, p, kind), p, q, o.(slot := Some(NewBlk(0, RESERVE, kind))), i)
  {
    AtIsMod(r.head, r.visible, r.cap);
  }

  lemma PushCarries(r: RingState, p: nat, q: nat, o: Out, i: In)
    requires Carries(r, p, q, o, i) && o.slot.Some?
    ensures PushRing(r).Some? <==> ApplyPush(o.slot.value.sm).Moved?
    ensures PushRing(r).Some? ==> Carries(PushRing(r).value, p, q, Out(o.pushed + [o.slot.value.val], None), i)
  {
    if PushRing(r).Some? {
      var r', o' := PushRing(r).value, Out(o.pushed + [o.slot.value.val], None);
      forall j | 0 <= j < r'.visible ensures r'.buf[At(r.head, j, r.cap)] == Some(Expected(o', i, j)) {
        assert j < r.visible ==> r.buf[At(r.head, j, r.cap)] == Some(Expected(o, i, j));
      }
    }
  }

  lemma TakeHeadCarries(r: RingState, p: nat, q: nat, o: Out, i: In, kind: KernelType)
    requires Carries(r, p, q, o, i) && i.held.None? && r.visible >= 1
    ensures Carries(TakeHead(r, q, kind), p, q, o, i.(held := Some(NewBlk(o.pushed[|i.gone|], WAIT, kind))))
  {
    assert r.buf[At(r.head, 0, r.cap)] == Some(Expected(o, i, 0));
  }

  /** Dropping the head slot shifts the window by one. */
  lemma PopCarries(r: RingState, p: nat, q: nat, o: Out, i: In)
    requires Carries(r, p, q, o, i)
    ensures PopRing(r).Some? <==> r.visible >= 1 && (i.held.Some? ==> ApplyPop(i.held.value.sm).Moved?)
    ensures PopRing(r).Some? ==> Carries(PopRing(r).value, p, q, o, In(i.gone + [Expected(o, i, 0)], None))
  {
    hide ApplyPop;
    if PopRing(r).Some? {
      AtIsMod(r.head, 1, r.cap);
      var h, r', i' := At(r.head, 1, r.cap), PopRing(r).value, In(i.gone + [Expected(o, i, 0)], None);
      forall j | 0 <= j < r.cap - 1
        ensures At(h, j, r.cap) == At(r.head, j + 1, r.cap) && At(h, j, r.cap) != r.head {
      }
      assert At(h, r.cap - 1, r.cap) == r.head;
      forall j | 0 <= j < r'.visible ensures r'.buf[At(h, j, r.cap)] == Some(Expected(o, i', j)) {
        assert r.buf[At(r.head, j + 1, r.cap)] == Some(Expected(o, i, j + 1));
      }
      forall j | r'.visible + r'.reserved <= j < r.cap ensures r'.buf[At(h, j, r.cap)] == None {
        assert j < r.cap - 1 ==> r.buf[At(r.head, j + 1, r.cap)] == None;
      }
    }
  }

  /** Writing the reserved block writes the back slot only. */
  lemma WriteReservedCarries(r: RingState, p: nat, q: nat, o: Out, i: In, blk: Blk)
    requires Carries(r, p, q, o, i) && o.slot.Some?
    ensures var slot := At(r.head, r.visible, r.cap);
            r.buf[slot] == Some(o.slot.value.val)
            && Carries(r.(buf := r.buf[slot := Some(blk.val)], pendR := Some(Pend(p, slot, blk.sm, blk.log))),
                       p, q, o.(slot := Some(blk)), i)
  {
  }

  /** Writing the waited block writes the head slot only. */
  lemma WriteWaitedCarries(r: RingState, p: nat, q: nat, o: Out, i: In, blk: Blk)
    requires Carries(r, p, q, o, i) && i.held.Some?
    ensures r.buf[r.head] == Some(i.held.value.val)
            && Carries(r.(buf := r.buf[r.head := Some(blk.val)], pendW := Some(Pend(q, r.head, blk.sm, blk.log))),
                       p, q, o, i.(held := Some(blk)))
  {
    assert r.buf[At(r.head, 0, r.cap)] == Some(Expected(o, i, 0));
    var r' := r.(buf := r.buf[r.head := Some(blk.val)], pendW := Some(Pend(q, r.head, blk.sm, blk.log)));
    var i' := i.(held := Some(blk));
    forall j | 0 <= j < r.visible ensures r'.buf[At(r.head, j, r.cap)] == Some(Expected(o, i', j)) {
      assert r.buf[At(r.head, j, r.cap)] == Some(Expected(o, i, j));
    }
  }

  // ----- The rings of a whole network -----

  ghost predicate Refines(t: Topo, c: Config, b: nat, r: RingState)
    requires WFConfig(t, c) && b < |t.cap|
  {
    r.cap == t.cap[b]
    && Carries(r, t.prod[b], t.cons[b], c[t.prod[b]].outs[b], c[t.cons[b]].ins[b])
  }

  lemma EmptyRefines(t: Topo, b: nat)
    requires WFTopo(t) && b < |t.cap|
    ensures Refines(t, Start(t), b, EmptyRing(t.cap[b]))
  {
  }

  /** The message a receive would deliver. */
  function Incoming(t: Topo, c: Config, k: nat, cmd: Cmd): Value
    requires WFConfig(t, c) && k < |c| && Legal(t, k, cmd)
  {
    if cmd.Recv? && |c[t.sender[cmd.p]].sent[cmd.p]| > c[k].got[cmd.p]
    then Content(t, c, c[t.sender[cmd.p]].sent[cmd.p][c[k].got[cmd.p]]) else 0
  }

  /** The ring's answer to a command agrees with the step of the kernel. */
  ghost predicate Agrees(t: Topo, c: Config, k: nat, b: nat, res: StepRes, ring: RingRes)
    requires WFConfig(t, c) && k < |c| && b < |t.cap|
  {
    match res
    case Halted => false
    case Blocked => ring.RBlocked?
    case Crash => ring.RError?
    case Next(l) => ring.ROk? && WFConfig(t, c[k := l]) && Refines(t, c[k := l], b, ring.r)
  }

  /** A step that changes one end of buffer `b` as its ring is changed keeps the refinement. */
  lemma EndsDecide(t: Topo, c: Config, k: nat, b: nat, r: RingState, l: Local, o: Out, i: In)
    requires WFConfig(t, c) && k < |c| && b < |t.cap| && WFLocal(t, l)
    requires l.outs[b] == (if t.prod[b] == k then o else c[k].outs[b])
    requires l.ins[b] == (if t.cons[b] == k then i else c[k].ins[b])
    requires t.prod[b] != k ==> o == c[t.prod[b]].outs[b]
    requires t.cons[b] != k ==> i == c[t.cons[b]].ins[b]
    requires r.cap == t.cap[b] && Carries(r, t.prod[b], t.cons[b], o, i)
    ensures WFConfig(t, c[k := l]) && Refines(t, c[k := l], b, r)
  {
  }

  lemma ProducerAgrees(t: Topo, c: Config, k: nat, cmd: Cmd, b: nat, r: RingState)
    requires WFConfig(t, c) && k < |c| && Legal(t, k, cmd) && cmd in {Reserve(b), Push(b)} && Refines(t, c, b, r)
    ensures Agrees(t, c, k, b, StepCmd(t, c, k, cmd), RingCmd(r, k, t.kind[k], cmd, 0))
  {
    var o, i := c[k].outs[b], c[t.cons[b]].ins[b];
    if o.slot.Some? {
      PushCarries(r, k, t.cons[b], o, i);
      if PushRing(r).Some? {
        EndsDecide(t, c, k, b, PushRing(r).value, StepCmd(t, c, k, cmd).l, Out(o.pushed + [o.slot.value.val], None), i);
      }
    } else if cmd.Reserve? && FreeSlots(r) >= 1 {
      TakeBackCarries(r, k, t.cons[b], o, i, t.kind[k]);
      EndsDecide(t, c, k, b, TakeBack(r, k, t.kind[k]), StepCmd(t, c, k, cmd).l,
                 o.(slot := Some(NewBlk(0, RESERVE, t.kind[k]))), i);
    }
  }

  lemma ConsumerAgrees(t: Topo, c: Config, k: nat, cmd: Cmd, b: nat, r: RingState)
    requires WFConfig(t, c) && k < |c| && Legal(t, k, cmd) && cmd in {Wait(b), Pop(b)} && Refines(t, c, b, r)
    ensures Agrees(t, c, k, b, StepCmd(t, c, k, cmd), RingCmd(r, k, t.kind[k], cmd, 0))
  {
    var o, i := c[t.prod[b]].outs[b], c[k].ins[b];
    if i.held.Some? || cmd.Pop? {
      PopCarries(r, t.prod[b], k, o, i);
      if PopRing(r).Some? {
        EndsDecide(t, c, k, b, PopRing(r).value, StepCmd(t, c, k, cmd).l, o, In(i.gone + [Expected(o, i, 0)], None));
      }
    } else if r.visible >= 1 {
      TakeHeadCarries(r, t.prod[b], k, o, i, t.kind[k]);
      EndsDecide(t, c, k, b, TakeHead(r, k, t.kind[k]), StepCmd(t, c, k, cmd).l,
                 o, i.(held := Some(NewBlk(o.pushed[|i.gone|], WAIT, t.kind[k]))));
    }
  }

  /** An operation on a pending block: `m` is the kernel's state with its pipe fields updated. */
  lemma OperateAgrees(t: Topo, c: Config, k: nat, b: nat, side: Side, op: OpKey, val: Value, r: RingState,
                      m: Local, v: Value)
    requires WFConfig(t, c) && k < |c| && OwnsBlock(t, k, b, side) && Refines(t, c, b, r)
    requires WFLocal(t, m) && m.outs == c[k].outs && m.ins == c[k].ins
    ensures Agrees(t, c, k, b, OrCrash(Operate(m, b, side, op, val), v), OrError(OperateRing(r, side, op, val)))
  {
    if Pending(m, b, side).Some? && Apply(Pending(m, b, side).value.sm, op).Moved? {
      var blk := Pending(m, b, side).value;
      var blk' := Blk(val, Apply(blk.sm, op).sm, blk.log + [op]);
      var o, i := c[t.prod[b]].outs[b], c[t.cons[b]].ins[b];
      var l, r' := Advance(SetPending(m, b, side, blk'), v), OperateRing(r, side, op, val).value;
      if side.Reserved? {
        WriteReservedCarries(r, k, t.cons[b], o, i, blk');
        EndsDecide(t, c, k, b, r', l, o.(slot := Some(blk')), i);
      } else {
        WriteWaitedCarries(r, t.prod[b], k, o, i, blk');
        EndsDecide(t, c, k, b, r', l, o, i.(held := Some(blk')));
      }
    }
  }

  lemma SlotIsPayload(t: Topo, c: Config, k: nat, b: nat, side: Side, r: RingState)
    requires WFConfig(t, c) && k < |c| && OwnsBlock(t, k, b, side) && Refines(t, c, b, r)
    ensures SlotValue(r, side) == Payload(c[k], b, side)
  {
    var i := c[t.cons[b]].ins[b];
    if side.Waited? && i.held.Some? {
      WriteWaitedCarries(r, t.prod[b], k, c[t.prod[b]].outs[b], i, i.held.value);
    }
  }

  /** What a kernel reads from a command on a pending block is what the slot held before it; what it reads from a
      receive is the message. And the tensor that stands for the block holds what the slot holds. */
  lemma ReadsSlot(t: Topo, c: Config, k: nat, cmd: Cmd, b: nat, side: Side, r: RingState)
    requires WFConfig(t, c) && k < |c| && Legal(t, k, cmd) && StepCmd(t, c, k, cmd).Next? && OnBlock(cmd, b, side)
    requires b < |t.cap| && Refines(t, c, b, r)
    ensures PendIn(r, side).Some? && Content(t, c, TensorOf(c[k], b, side)) == SlotValue(r, side)
    ensures StepCmd(t, c, k, cmd).l.h ==
            c[k].h + [if cmd.Recv? then Incoming(t, c, k, cmd) else SlotValue(r, side)]
  {
    hide Apply;
    SlotIsPayload(t, c, k, b, side, r);
    assert Pending(c[k], b, side).Some?;
  }

  lemma BlockAgrees(t: Topo, c: Config, k: nat, cmd: Cmd, b: nat, r: RingState)
    requires WFConfig(t, c) && k < |c| && Legal(t, k, cmd) && !cmd.Done? && BufferOf(cmd) == b && Refines(t, c, b, r)
    requires !(cmd.Recv? && StepCmd(t, c, k, cmd).Blocked?)
    requires !OnBuffer(cmd)
    ensures Agrees(t, c, k, b, StepCmd(t, c, k, cmd), RingCmd(r, k, t.kind[k], cmd, Incoming(t, c, k, cmd)))
  {
    var l := c[k];
    match cmd {
      case Touch(_, side, op, v) =>
        SlotIsPayload(t, c, k, b, side, r);
        var current := Payload(l, b, side);
        OperateAgrees(t, c, k, b, side, op, if op.StoreDst? then v else current, r, l, current);
      case TxWait(_, side, v) =>
        SlotIsPayload(t, c, k, b, side, r);
        var current := Payload(l, b, side);
        var landing := Pending(l, b, side).Some? && Pending(l, b, side).value.sm.access.NAW?;
        OperateAgrees(t, c, k, b, side, OpKey.TxWait, if landing then v else current, r, l, current);
      case Send(p, _, side) =>
        SlotIsPayload(t, c, k, b, side, r);
        var v := Payload(l, b, side);
        OperateAgrees(t, c, k, b, side, CopySrc, v, r, l.(sent := l.sent[p := l.sent[p] + [TensorOf(l, b, side)]]), v);
      case Recv(p, _, side) =>
        var v := Incoming(t, c, k, cmd);
        OperateAgrees(t, c, k, b, side, OpKey.TxWait, v, r, l.(got := l.got[p := l.got[p] + 1]), v);
    }
  }

  /** Every command on a buffer does to its ring what it does to the logs: the guards agree,
      the errors agree, and the refinement is kept. */
  lemma CommandAgrees(t: Topo, c: Config, k: nat, cmd: Cmd, b: nat, r: RingState)
    requires WFConfig(t, c) && k < |c| && Legal(t, k, cmd) && !cmd.Done? && BufferOf(cmd) == b && Refines(t, c, b, r)
    requires !(cmd.Recv? && StepCmd(t, c, k, cmd).Blocked?)
    ensures Agrees(t, c, k, b, StepCmd(t, c, k, cmd), RingCmd(r, k, t.kind[k], cmd, Incoming(t, c, k, cmd)))
  {
    match cmd {
      case Reserve(_) => ProducerAgrees(t, c, k, cmd, b, r);
      case Push(_) => ProducerAgrees(t, c, k, cmd, b, r);
      case Wait(_) => ConsumerAgrees(t, c, k, cmd, b, r);
      case Pop(_) => ConsumerAgrees(t, c, k, cmd, b, r);
      case _ => BlockAgrees(t, c, k, cmd, b, r);
    }
    hide StepCmd, RingCmd;
  }

  lemma CmdKeepsOthers(t: Topo, c: Config, k: nat, cmd: Cmd, b: nat)
    requires WFConfig(t, c) && k < |c| && Legal(t, k, cmd) && b < |t.cap| && (cmd.Done? || BufferOf(cmd) != b)
    requires StepCmd(t, c, k, cmd).Next?
    ensures var l := StepCmd(t, c, k, cmd).l;
            WFLocal(t, l) && l.outs[b] == c[k].outs[b] && l.ins[b] == c[k].ins[b]
  {
    CmdGrows(t, c, k, cmd);
  }

  /** A command leaves every other buffer's ring alone. */
  lemma OtherBuffersKept(t: Topo, c: Config, k: nat, cmd: Cmd, b: nat, r: RingState)
    requires WFConfig(t, c) && k < |c| && Legal(t, k, cmd) && b < |t.cap| && (cmd.Done? || BufferOf(cmd) != b)
    requires Refines(t, c, b, r) && StepCmd(t, c, k, cmd).Next?
    ensures var d := c[k := StepCmd(t, c, k, cmd).l];
            WFConfig(t, d) && Refines(t, d, b, r)
  {
    CmdKeepsOthers(t, c, k, cmd, b);
    EndsDecide(t, c, k, b, r, StepCmd(t, c, k, cmd).l, c[t.prod[b]].outs[b], c[t.cons[b]].ins[b]);
  }

  /** The rings `rs` follow schedule `s` from `c`, each command done on the ring of its buffer. */
  ghost predicate RingsFollow(t: Topo, ps: seq<Prog>, c: Config, rs: seq<RingState>, s: seq<nat>, rs': seq<RingState>)
    requires WF(t, ps, c) && |rs| == |t.cap|
    decreases |s|
  {
    if s == [] then rs' == rs
    else
      s[0] < |c| && Step(t, ps, c, s[0]).Next? &&
      var k := s[0];
      var cmd := ps[k](c[k].h);
      StepGrows(t, ps, c, k);
      var d := c[k := Step(t, ps, c, k).l];
      var b := BufferOf(cmd);
      ValidRing(rs[b]) &&
      match RingCmd(rs[b], k, t.kind[k], cmd, Incoming(t, c, k, cmd))
      case ROk(r) => RingsFollow(t, ps, d, rs[b := r], s[1..], rs')
      case _ => false
  }

  ghost predicate AllRefine(t: Topo, c: Config, rs: seq<RingState>)
    requires WFConfig(t, c)
  {
    |rs| == |t.cap| && forall b :: 0 <= b < |rs| ==> Refines(t, c, b, rs[b])
  }

  /** Every interleaving of the kernels runs on the rings without an internal error, and the rings
      end up standing for the logs. */
  lemma {:induction false} RunsFitRings(t: Topo, ps: seq<Prog>, c: Config, rs: seq<RingState>, s: seq<nat>, d: Config)
    returns (rs': seq<RingState>)
    requires WF(t, ps, c) && AllRefine(t, c, rs) && Run(t, ps, c, s, d)
    ensures WF(t, ps, d) && RingsFollow(t, ps, c, rs, s, rs') && AllRefine(t, d, rs')
    decreases |s|
  {
    if s == [] {
      rs' := rs;
    } else {
      var k := s[0];
      var cmd := ps[k](c[k].h);
      StepGrows(t, ps, c, k);
      var next := c[k := Step(t, ps, c, k).l];
      var b := BufferOf(cmd);
      CommandAgrees(t, c, k, cmd, b, rs[b]);
      var rs1 := rs[b := RingCmd(rs[b], k, t.kind[k], cmd, Incoming(t, c, k, cmd)).r];
      forall b | 0 <= b < |rs1| ensures Refines(t, next, b, rs1[b]) {
        if (cmd.Done? || BufferOf(cmd) != b) {
          OtherBuffersKept(t, c, k, cmd, b, rs[b]);
        }
      }
      rs' := RunsFitRings(t, ps, next, rs1, s[1..], d);
    }
  }

  /** Slot `j` of the window, by the code's own index arithmetic. */
  function SlotAt(r: RingState, j: nat): Option<Value>
    requires ValidRing(r)
  {
    r.buf[(r.head + j) % r.cap]
  }

  /** The visible window is exactly what was pushed and not yet popped, the reserved slot is the
      back slot, all other slots are empty, and nothing exceeds the capacity. */
  predicate HoldsFifo(r: RingState, o: Out, i: In)
  {
    && ValidRing(r) && r.visible + r.reserved <= r.cap
    && |i.gone| + r.visible == |o.pushed|
    && (forall j :: 0 <= j < r.visible && (j == 0 ==> i.held.None?) ==>
          SlotAt(r, j) == Some(o.pushed[|i.gone| + j]))
    && (o.slot.Some? <==> r.pendR.Some?) && r.reserved == (if o.slot.Some? then 1 else 0)
    && (o.slot.Some? ==> r.pendR.value.slot == BackSlot(r) && r.buf[BackSlot(r)] == Some(o.slot.value.val))
    && (forall j :: r.visible + r.reserved <= j < r.cap ==> SlotAt(r, j) == None)
  }

  lemma CarriesFifo(r: RingState, p: nat, q: nat, o: Out, i: In)
    requires Carries(r, p, q, o, i)
    ensures HoldsFifo(r, o, i)
  {
    forall j | 0 <= j <= r.cap ensures (r.head + j) % r.cap == At(r.head, j, r.cap) {
      AtIsMod(r.head, j, r.cap);
    }
    AtIsMod(r.head, r.visible, r.cap);
    forall j | 0 <= j < r.visible && (j == 0 ==> i.held.None?)
      ensures SlotAt(r, j) == Some(o.pushed[|i.gone| + j]) {
      assert r.buf[At(r.head, j, r.cap)] == Some(Expected(o, i, j));
    }
    forall j | r.visible + r.reserved <= j < r.cap ensures SlotAt(r, j) == None {
      assert r.buf[At(r.head, j, r.cap)] == None;
    }
  }

  function EmptyRings(t: Topo): seq<RingState>
  {
    seq(|t.cap|, b requires 0 <= b < |t.cap| => EmptyRing(t.cap[b]))
  }

  /** Under every interleaving, from fresh buffers, each ring holds its FIFO. */
  lemma RingIsFifo(t: Topo, ps: seq<Prog>, s: seq<nat>, d: Config) returns (rs: seq<RingState>)
    requires WFProgs(t, ps) && Run(t, ps, Start(t), s, d)
    ensures WF(t, ps, d) && |rs| == |t.cap|
    ensures RingsFollow(t, ps, Start(t), EmptyRings(t), s, rs)
    ensures forall b :: 0 <= b < |rs| ==>
              rs[b].cap == t.cap[b] && HoldsFifo(rs[b], d[t.prod[b]].outs[b], d[t.cons[b]].ins[b])
  {
    forall b | 0 <= b < |t.cap| ensures Refines(t, Start(t), b, EmptyRings(t)[b]) {
      EmptyRefines(t, b);
    }
    rs := RunsFitRings(t, ps, Start(t), EmptyRings(t), s, d);
    forall b | 0 <= b < |rs|
      ensures rs[b].cap == t.cap[b] && HoldsFifo(rs[b], d[t.prod[b]].outs[b], d[t.cons[b]].ins[b]) {
      assert Refines(t, d, b, rs[b]);
      CarriesFifo(rs[b], t.prod[b], t.cons[b], d[t.prod[b]].outs[b], d[t.cons[b]].ins[b]);
    }
  }

  /** A reservation is handed the slot of another reservation that is still pending exactly when
      that one belongs to a different kernel: auto-push only serves its owner. */
  lemma ReserveAliasesExactly(r: RingState, p: nat, q: nat, o: Out, i: In, who: nat, kind: KernelType)
    requires Carries(r, p, q, o, i) && o.slot.Some? && ApplyPush(o.slot.value.sm).Moved? && FreeSlots(r) >= 1
    ensures AutoPushRing(r, who).Some?
    ensures var m := AutoPushRing(r, who).value;
            ValidRing(m) && FreeSlots(m) >= 1 &&
            var r' := TakeBack(m, who, kind);
            (r'.pendR.value.slot == r.pendR.value.slot <==> who != p)
            && (who != p ==> r'.buf[r.pendR.value.slot] == Some(0) && r'.reserved == 2)
  {
    AtIsMod(r.head, r.visible, r.cap);
    AtIsMod(r.head, r.visible + 1, r.cap);
  }
}
