/** Copy transactions and the blocks they lock (python/sim/copy.py). */
module Copy {
  import opened Wrappers
  import opened BlockState

  /** The endpoint pairs that have a handler; exactly one endpoint is a block. */
  datatype CopyKind = TensorToBlock | BlockToTensor | BlockToPipe | PipeToBlock

  predicate ReadsBlock(kind: CopyKind) { kind.BlockToTensor? || kind.BlockToPipe? }

  /** A transaction: its flags, and how often the handler's `transfer` has run. */
  datatype Tx = Tx(kind: CopyKind, completed: bool, performed: bool, transfers: nat)

  function StartOp(kind: CopyKind): OpKey { if ReadsBlock(kind) then CopySrc else CopyDst }

  /** A transaction right after copy(): pipe sends transfer at once. */
  function NewTx(kind: CopyKind): Tx
  {
    var now := kind.BlockToPipe?;
    Tx(kind, false, now, if now then 1 else 0)
  }

  /** A transaction after wait(). */
  function WaitedTx(tx: Tx): Tx
  {
    if tx.completed then tx
    else tx.(completed := true, performed := true, transfers := tx.transfers + if tx.performed then 0 else 1)
  }

  /** Right after copy() exactly a pipe send has transferred, nothing is complete, and the first wait leaves every
      transaction complete with one transfer. */
  lemma TransfersAtOnce(kind: CopyKind)
    ensures NewTx(kind).transfers == (if kind.BlockToPipe? then 1 else 0)
    ensures (NewTx(kind).performed <==> kind.BlockToPipe?) && !NewTx(kind).completed && NewTx(kind).kind == kind
    ensures WaitedTx(NewTx(kind)) == Tx(kind, true, true, 1)
  {
  }

  /** A copy into a block locks it against every access, a copy out of it against writing, counted. */
  lemma LocksItsBlock(kind: CopyKind, sm: SM)
    requires Shape(sm) && Apply(sm, StartOp(kind)).Moved?
    ensures var after := Apply(sm, StartOp(kind)).sm;
            match kind
            case TensorToBlock => after.access.NAW?
            case PipeToBlock => after.access.NAW?
            case BlockToTensor => after.access.ROR? && after.ror == if sm.access.ROR? then sm.ror + 1 else 1
            case BlockToPipe => after.access.ROR? && after.ror == if sm.access.ROR? then sm.ror + 1 else 1
  {
  }

  class CopyTransaction {
    const kind: CopyKind
    const blk: BlockStateMachine
    var completed: bool
    var transferPerformed: bool
    ghost var transfers: nat

    ghost function Model(): Tx
      reads this
    {
      Tx(kind, completed, transferPerformed, transfers)
    }

    constructor (kind: CopyKind, blk: BlockStateMachine)
      ensures this.kind == kind && this.blk == blk
      ensures Model() == Tx(kind, false, false, 0)
    {
      this.kind, this.blk := kind, blk;
      completed, transferPerformed, transfers := false, false, 0;
    }

    /** `copy()`: lock the block, then start the transfers that begin at once. */
    static method Start(kind: CopyKind, blk: BlockStateMachine) returns (o: Outcome, tx: CopyTransaction)
      modifies blk
      ensures fresh(tx) && tx.kind == kind && tx.blk == blk
      ensures o == Apply(old(blk.Model()), StartOp(kind))
      ensures blk.Model() == if o.Moved? then o.sm else old(blk.Model())
      ensures o.Moved? ==> tx.Model() == NewTx(kind)
    {
      tx := new CopyTransaction(kind, blk);
      if ReadsBlock(kind) {
        o := blk.Transition(CopySrc);
      } else {
        o := blk.Transition(CopyDst);
      }
      if o.Moved? && kind.BlockToPipe? {
        tx.Transfer();
      }
    }

    /** The handler's transfer, counted. */
    method Transfer()
      modifies this
      ensures Model() == old(Model()).(performed := true, transfers := old(transfers) + 1)
    {
      transferPerformed := true;
      transfers := transfers + 1;
    }

    /** `wait()`, once its turn has come. */
    method Wait() returns (o: Outcome)
      modifies this, blk
      ensures Model() == WaitedTx(old(Model()))
      ensures old(completed) ==> o == Moved(old(blk.Model())) && blk.Model() == old(blk.Model())
      ensures !old(completed) ==> o == Apply(old(blk.Model()), TxWait)
      ensures blk.Model() == if o.Moved? then o.sm else old(blk.Model())
    {
      if completed {
        return Moved(blk.Model());
      }
      if !transferPerformed {
        Transfer();
      }
      completed := true;
      o := blk.Transition(TxWait);
    }
  }

  /** Handles waited for together. */
  class GroupTransfer {
    var transfers: seq<CopyTransaction>
    var waited: bool

    constructor ()
      ensures transfers == [] && !waited
    {
      transfers, waited := [], false;
    }

    method Add(xf: CopyTransaction) returns (ok: bool)
      modifies this
      ensures ok == !old(waited) && waited == old(waited)
      ensures transfers == if ok then old(transfers) + [xf] else old(transfers)
    {
      if waited {
        return false;
      }
      transfers := transfers + [xf];
      ok := true;
    }

    /** Waits for the first n members in order: for all of them, or up to the first whose block refuses. */
    method WaitAll() returns (ok: bool, ghost n: nat)
      modifies this, transfers, set t <- transfers :: t.blk
      ensures waited && transfers == old(transfers) && n <= |transfers|
      ensures if old(waited) then !ok && n == 0 else ok ==> n == |transfers|
      ensures forall t <- transfers[..n] :: t.Model() == WaitedTx(old(t.Model()))
      ensures forall t <- transfers :: t !in transfers[..n] ==> t.Model() == old(t.Model())
    {
      if waited {
        return false, 0;
      }
      waited := true;
      for i := 0 to |transfers|
        invariant waited && transfers == old(transfers)
        invariant forall t <- transfers[..i] :: t.Model() == WaitedTx(old(t.Model()))
        invariant forall t <- transfers :: t !in transfers[..i] ==> t.Model() == old(t.Model())
      {
        var o := transfers[i].Wait();
        assert transfers[..i + 1] == transfers[..i] + [transfers[i]];
        if !o.Moved? {
          return false, i + 1;
        }
      }
      ok, n := true, |transfers|;
      assert transfers[..n] == transfers;
    }
  }

  // ----- Every run over many blocks and transactions -----

  /** Blocks in order of acquisition, and each transaction with the block it locks. */
  datatype World = World(blocks: seq<SM>, txs: seq<(nat, Tx)>)

  datatype Event =
    | Acquire(acq: Acquisition, kernel: KernelType)
    | StartCopy(b: nat, kind: CopyKind)
    | WaitTx(i: nat)
    | Use(b: nat, op: OpKey)
    | PushBlock(b: nat)
    | PopBlock(b: nat)

  /** The world after an event, or None when the simulator raises. */
  function Do(w: World, e: Event): Option<World>
  {
    match e
    case Acquire(acq, kernel) => Some(w.(blocks := w.blocks + [Initial(acq, kernel)]))
    case StartCopy(b, kind) =>
      if b >= |w.blocks| then None
      else (match Apply(w.blocks[b], StartOp(kind))
            case Moved(sm) => Some(World(w.blocks[b := sm], w.txs + [(b, NewTx(kind))]))
            case _ => None)
    case WaitTx(i) =>
      if i >= |w.txs| || w.txs[i].0 >= |w.blocks| then None
      else
        var (b, tx) := w.txs[i];
        if tx.completed then Some(w)
        else (match Apply(w.blocks[b], TxWait)
              case Moved(sm) => Some(World(w.blocks[b := sm], w.txs[i := (b, WaitedTx(tx))]))
              case _ => None)
    case Use(b, op) =>
      if b >= |w.blocks| || op.CopySrc? || op.CopyDst? || op.TxWait? then None
      else (match Apply(w.blocks[b], op)
            case Moved(sm) => Some(w.(blocks := w.blocks[b := sm]))
            case _ => None)
    case PushBlock(b) =>
      if b >= |w.blocks| then None
      else (match ApplyPush(w.blocks[b])
            case Moved(sm) => Some(w.(blocks := w.blocks[b := sm]))
            case _ => None)
    case PopBlock(b) =>
      if b >= |w.blocks| then None
      else (match ApplyPop(w.blocks[b])
            case Moved(sm) => Some(w.(blocks := w.blocks[b := sm]))
            case _ => None)
  }

  function Run(es: seq<Event>): Option<World>
  {
    if es == [] then Some(World([], []))
    else
      var mid := Run(es[..|es| - 1]);
      if mid.None? then None else Do(mid.value, es[|es| - 1])
  }

  /** How many incomplete transactions read (or write) block `b`. */
  function Open(txs: seq<(nat, Tx)>, b: nat, reading: bool): nat
  {
    if txs == [] then 0
    else
      var t := txs[|txs| - 1];
      Open(txs[..|txs| - 1], b, reading)
      + if t.0 == b && ReadsBlock(t.1.kind) == reading && !t.1.completed then 1 else 0
  }

  lemma {:induction false} OpenAppend(txs: seq<(nat, Tx)>, t: (nat, Tx), b: nat, reading: bool)
    ensures Open(txs + [t], b, reading)
            == Open(txs, b, reading) + if t.0 == b && ReadsBlock(t.1.kind) == reading && !t.1.completed then 1 else 0
  {
    assert (txs + [t])[..|txs|] == txs;
  }

  /** Completing one transaction lowers exactly its own counter. */
  lemma {:induction false} OpenComplete(txs: seq<(nat, Tx)>, i: nat, b: nat, reading: bool)
    requires i < |txs| && !txs[i].1.completed
    ensures Open(txs[i := (txs[i].0, WaitedTx(txs[i].1))], b, reading)
            == Open(txs, b, reading) - if txs[i].0 == b && ReadsBlock(txs[i].1.kind) == reading then 1 else 0
  {
    var last := |txs| - 1;
    var upd := txs[i := (txs[i].0, WaitedTx(txs[i].1))];
    if i == last {
      assert upd[..last] == txs[..last];
    } else {
      assert upd[..last] == txs[..last][i := upd[i]];
      OpenComplete(txs[..last], i, b, reading);
    }
  }

  /** Each block's access state is the account of its open transactions. */
  ghost predicate Accounted(w: World, b: nat)
    requires b < |w.blocks|
  {
    var sm := w.blocks[b];
    && Shape(sm)
    && Open(w.txs, b, true) == (if sm.access.ROR? then sm.ror else 0)
    && Open(w.txs, b, false) == (if sm.access.NAW? then 1 else 0)
  }

  ghost predicate Inv(w: World)
  {
    && (forall b :: 0 <= b < |w.blocks| ==> Accounted(w, b))
    && (forall i :: 0 <= i < |w.txs| ==>
          && w.txs[i].0 < |w.blocks|
          && w.txs[i].1.transfers == (if w.txs[i].1.performed then 1 else 0)
          && (w.txs[i].1.completed ==> w.txs[i].1.performed))
    && (forall b :: b >= |w.blocks| ==> Open(w.txs, b, true) == 0 && Open(w.txs, b, false) == 0)
  }

  lemma StartKeepsInv(w: World, b: nat, kind: CopyKind)
    requires Inv(w) && Do(w, StartCopy(b, kind)).Some?
    ensures Inv(Do(w, StartCopy(b, kind)).value)
  {
    var w' := Do(w, StartCopy(b, kind)).value;
    assert Accounted(w, b);
    forall c: nat ensures c < |w'.blocks| ==> Accounted(w', c)
             ensures c >= |w'.blocks| ==> Open(w'.txs, c, true) == 0 && Open(w'.txs, c, false) == 0 {
      OpenAppend(w.txs, (b, NewTx(kind)), c, true);
      OpenAppend(w.txs, (b, NewTx(kind)), c, false);
      assert c < |w.blocks| ==> Accounted(w, c);
    }
  }

  lemma {:induction false} OpenAtLeastOne(txs: seq<(nat, Tx)>, i: nat)
    requires i < |txs| && !txs[i].1.completed
    ensures Open(txs, txs[i].0, ReadsBlock(txs[i].1.kind)) >= 1
  {
    if i < |txs| - 1 {
      OpenAtLeastOne(txs[..|txs| - 1], i);
    }
  }

  /** In any accounted world, waiting for an existing transaction never raises. */
  lemma WaitNeverFails(w: World, i: nat)
    requires Inv(w) && i < |w.txs|
    ensures Do(w, WaitTx(i)).Some?
  {
    if !w.txs[i].1.completed {
      OpenAtLeastOne(w.txs, i);
      assert Accounted(w, w.txs[i].0);
    }
  }

  lemma WaitKeepsInv(w: World, i: nat)
    requires Inv(w) && i < |w.txs|
    ensures Do(w, WaitTx(i)).Some? && Inv(Do(w, WaitTx(i)).value)
  {
    WaitNeverFails(w, i);
    var w' := Do(w, WaitTx(i)).value;
    if !w.txs[i].1.completed {
      OpenAtLeastOne(w.txs, i);
      forall c: nat ensures c < |w'.blocks| ==> Accounted(w', c)
               ensures c >= |w'.blocks| ==> Open(w'.txs, c, true) == 0 && Open(w'.txs, c, false) == 0 {
        OpenComplete(w.txs, i, c, true);
        OpenComplete(w.txs, i, c, false);
        assert c < |w.blocks| ==> Accounted(w, c);
      }
    }
  }

  lemma OtherKeepsInv(w: World, e: Event)
    requires Inv(w) && Do(w, e).Some? && !e.StartCopy? && !e.WaitTx?
    ensures Inv(Do(w, e).value)
  {
    var w' := Do(w, e).value;
    forall c | 0 <= c < |w'.blocks| ensures Accounted(w', c) {
      assert c < |w.blocks| ==> Accounted(w, c);
    }
  }

  lemma DoKeepsInv(w: World, e: Event)
    requires Inv(w) && Do(w, e).Some?
    ensures Inv(Do(w, e).value)
  {
    match e {
      case StartCopy(b, kind) => StartKeepsInv(w, b, kind);
      case WaitTx(i) => WaitKeepsInv(w, i);
      case _ => OtherKeepsInv(w, e);
    }
  }

  lemma {:induction false} RunKeepsInv(es: seq<Event>)
    requires Run(es).Some?
    ensures Inv(Run(es).value)
  {
    if es != [] {
      hide Do, Inv;
      RunKeepsInv(es[..|es| - 1]);
      DoKeepsInv(Run(es[..|es| - 1]).value, es[|es| - 1]);
    }
  }

  /** In every run the access states are exactly the in-flight transactions, each
      transaction has transferred at most once, and pushing or popping
      needs a block with nothing in flight. */
  lemma InFlightAccounting(es: seq<Event>, b: nat)
    requires Run(es).Some? && b < |Run(es).value.blocks|
    ensures var w := Run(es).value;
            var sm := w.blocks[b];
            && (sm.access.ROR? <==> Open(w.txs, b, true) >= 1)
            && (sm.access.ROR? ==> sm.ror == Open(w.txs, b, true))
            && (sm.access.NAW? <==> Open(w.txs, b, false) == 1)
            && Open(w.txs, b, false) <= 1
            && (Open(w.txs, b, true) >= 1 ==> Open(w.txs, b, false) == 0)
            && (ApplyPush(sm).Moved? || ApplyPop(sm).Moved? ==>
                  Open(w.txs, b, true) == 0 && Open(w.txs, b, false) == 0)
            && (forall i :: 0 <= i < |w.txs| ==>
                  w.txs[i].1.transfers <= 1 && (w.txs[i].1.completed ==> w.txs[i].1.transfers == 1))
  {
    RunKeepsInv(es);
    assert Accounted(Run(es).value, b);
  }

  /** Waiting a second time changes nothing. */
  lemma SecondWaitIsFree(es: seq<Event>, i: nat)
    requires Run(es).Some? && i < |Run(es).value.txs|
    ensures Run(es + [WaitTx(i)]).Some?
    ensures Run(es + [WaitTx(i)] + [WaitTx(i)]) == Run(es + [WaitTx(i)])
  {
    var once, twice := es + [WaitTx(i)], es + [WaitTx(i)] + [WaitTx(i)];
    assert once[..|once| - 1] == es && twice[..|twice| - 1] == once;
    RunKeepsInv(es);
    WaitNeverFails(Run(es).value, i);
  }
}
