/** The access state machine of one block (python/sim/blockstate.py). */
module BlockState {
  import opened Wrappers

  datatype AccessState = MW | MR | RW | ROR | NAW | OS

  datatype KernelType = DM | COMPUTE

  datatype Acquisition = RESERVE | WAIT

  datatype ExpectedOp = COPY_SRC | COPY_DST | TX_WAIT | PUSH | POP | STORE | STORE_SRC | DONE

  /** The operation keys of the transition table. */
  datatype OpKey = CopySrc | CopyDst | TxWait | AssignSrc | StoreSrc | StoreDst

  /** The five fields of the state machine. */
  datatype SM = SM(acq: Acquisition, kind: KernelType, access: AccessState,
                   expected: set<ExpectedOp>, ror: nat)

  /** What a transition attempt does: `validate` refuses it, `validate` lets it
      pass but the table has no entry, or the machine moves. */
  datatype Outcome = Rejected | Missing | Moved(sm: SM)

  /** The expected-operation label each call site passes to `validate`. */
  function Label(op: OpKey): ExpectedOp
  {
    match op
    case CopySrc => COPY_SRC
    case CopyDst => COPY_DST
    case TxWait => TX_WAIT
    case AssignSrc => STORE_SRC
    case StoreSrc => STORE_SRC
    case StoreDst => STORE
  }

  const ROR_EXPECTED: set<ExpectedOp> := {TX_WAIT, COPY_SRC}

  /** The constant transition table. */
  function Table(acq: Acquisition, kind: KernelType, op: OpKey, access: AccessState)
    : Option<(AccessState, set<ExpectedOp>)>
  {
    match (acq, kind)
    case (WAIT, DM) =>
      (match (op, access)
       case (CopySrc, MR) => Some((ROR, {TX_WAIT, COPY_SRC}))
       case (CopySrc, RW) => Some((ROR, {TX_WAIT, COPY_SRC}))
       case (CopyDst, RW) => Some((NAW, {TX_WAIT}))
       case (TxWait, ROR) => Some((RW, {COPY_DST, COPY_SRC, POP}))
       case (TxWait, NAW) => Some((MR, {COPY_SRC}))
       case _ => None)
    case (RESERVE, DM) =>
      (match (op, access)
       case (CopySrc, MR) => Some((ROR, {TX_WAIT, COPY_SRC}))
       case (CopySrc, RW) => Some((ROR, {TX_WAIT, COPY_SRC}))
       case (CopyDst, MW) => Some((NAW, {TX_WAIT}))
       case (CopyDst, RW) => Some((NAW, {TX_WAIT}))
       case (TxWait, NAW) => Some((MR, {PUSH, COPY_SRC}))
       case (TxWait, ROR) => Some((RW, {COPY_DST, COPY_SRC, PUSH}))
       case _ => None)
    case (WAIT, COMPUTE) =>
      (match (op, access)
       case (AssignSrc, MR) => Some((RW, {STORE_SRC, STORE, POP}))
       case (AssignSrc, RW) => Some((RW, {STORE_SRC, STORE, POP}))
       case (StoreSrc, MR) => Some((RW, {STORE_SRC, STORE, POP}))
       case (StoreSrc, RW) => Some((RW, {STORE_SRC, STORE, POP}))
       case (StoreDst, RW) => Some((MR, {STORE_SRC}))
       case _ => None)
    case (RESERVE, COMPUTE) =>
      (match (op, access)
       case (StoreSrc, MR) => Some((RW, {STORE_SRC, STORE, PUSH}))
       case (StoreSrc, RW) => Some((RW, {STORE_SRC, STORE, PUSH}))
       case (StoreDst, MW) => Some((MR, {STORE_SRC, PUSH}))
       case (StoreDst, RW) => Some((MR, {STORE_SRC, PUSH}))
       case _ => None)
  }

  /** The state after `initialize`. */
  function Initial(acq: Acquisition, kind: KernelType): SM
  {
    match acq
    case RESERVE => SM(acq, kind, MW, if kind.DM? then {COPY_DST} else {STORE}, 0)
    case WAIT => SM(acq, kind, MR, if kind.DM? then {COPY_SRC} else {STORE_SRC}, 0)
  }

  /** `transition`: validation, the in-state counter of ROR, then the table. */
  function Apply(sm: SM, op: OpKey): Outcome
  {
    if Label(op) !in sm.expected then Rejected
    else if sm.access.ROR? && op.CopySrc? then
      Moved(sm.(ror := sm.ror + 1, expected := ROR_EXPECTED))
    else if sm.access.ROR? && op.TxWait? && sm.ror > 1 then
      Moved(sm.(ror := sm.ror - 1, expected := ROR_EXPECTED))
    else
      match Table(sm.acq, sm.kind, op, sm.access)
      case None => Missing
      case Some((access, expected)) =>
        Moved(sm.(access := access, expected := expected, ror := if access.ROR? then 1 else sm.ror))
  }

  /** `transition_push`. */
  function ApplyPush(sm: SM): Outcome
  {
    if PUSH !in sm.expected || sm.acq.WAIT? then Rejected
    else Moved(sm.(access := OS, expected := {}))
  }

  /** `transition_pop`. */
  function ApplyPop(sm: SM): Outcome
  {
    if POP !in sm.expected || sm.acq.RESERVE? || sm.access !in {MR, RW} then Rejected
    else Moved(sm.(access := OS, expected := {}))
  }

  /** The state machine as the simulator keeps it: fields updated in place. */
  class BlockStateMachine {
    const acquisition: Acquisition
    const kernelType: KernelType
    var accessState: AccessState
    var expectedOps: set<ExpectedOp>
    var rorCount: nat

    function Model(): SM
      reads this
    {
      SM(acquisition, kernelType, accessState, expectedOps, rorCount)
    }

    constructor (acq: Acquisition, kind: KernelType)
      ensures Model() == SM(acq, kind, OS, {}, 0)
    {
      acquisition, kernelType := acq, kind;
      accessState, expectedOps, rorCount := OS, {}, 0;
    }

    method Initialize()
      requires rorCount == 0
      modifies this
      ensures Model() == Initial(acquisition, kernelType)
    {
      if acquisition.RESERVE? {
        accessState := MW;
        if kernelType.DM? {
          expectedOps := {COPY_DST};
        } else {
          expectedOps := {STORE};
        }
      } else {
        accessState := MR;
        if kernelType.DM? {
          expectedOps := {COPY_SRC};
        } else {
          expectedOps := {STORE_SRC};
        }
      }
    }

    method SetUnrestricted()
      modifies this
      ensures Model() == old(Model()).(access := RW, expected := {})
    {
      accessState, expectedOps := RW, {};
    }

    method Validate(op: ExpectedOp) returns (ok: bool)
      ensures ok <==> op in Model().expected
    {
      if expectedOps == {} {
        return false;
      }
      ok := op in expectedOps;
    }

    method Transition(op: OpKey) returns (o: Outcome)
      modifies this
      ensures o == Apply(old(Model()), op)
      ensures Model() == if o.Moved? then o.sm else old(Model())
    {
      var ok := Validate(Label(op));
      if !ok {
        return Rejected;
      }
      if accessState.ROR? {
        if op.CopySrc? {
          rorCount := rorCount + 1;
          expectedOps := ROR_EXPECTED;
          return Moved(Model());
        }
        if op.TxWait? && rorCount > 1 {
          rorCount := rorCount - 1;
          expectedOps := ROR_EXPECTED;
          return Moved(Model());
        }
      }
      var entry := Table(acquisition, kernelType, op, accessState);
      if entry.None? {
        return Missing;
      }
      accessState := entry.value.0;
      if accessState.ROR? {
        rorCount := 1;
      }
      expectedOps := entry.value.1;
      o := Moved(Model());
    }

    method TransitionPush() returns (o: Outcome)
      modifies this
      ensures o == ApplyPush(old(Model()))
      ensures Model() == if o.Moved? then o.sm else old(Model())
    {
      var ok := Validate(PUSH);
      if !ok || !acquisition.RESERVE? {
        return Rejected;
      }
      accessState, expectedOps := OS, {};
      o := Moved(Model());
    }

    method TransitionPop() returns (o: Outcome)
      modifies this
      ensures o == ApplyPop(old(Model()))
      ensures Model() == if o.Moved? then o.sm else old(Model())
    {
      var ok := Validate(POP);
      if !ok || !acquisition.WAIT? || (accessState != MR && accessState != RW) {
        return Rejected;
      }
      accessState, expectedOps := OS, {};
      o := Moved(Model());
    }
  }

  // ----- Every history of one block -----

  /** The machine after the operations of `log`, if none of them was refused. */
  function After(sm: SM, log: seq<OpKey>): Option<SM>
  {
    if log == [] then Some(sm)
    else
      var mid := After(sm, log[..|log| - 1]);
      if mid.None? then None
      else
        match Apply(mid.value, log[|log| - 1])
        case Moved(s) => Some(s)
        case _ => None
  }

  /** The expected set is a function of the acquisition, the kernel and the access state. */
  function ExpectedIn(acq: Acquisition, kind: KernelType, access: AccessState): set<ExpectedOp>
  {
    match (acq, kind, access)
    case (_, _, OS) => {}
    case (_, DM, ROR) => {TX_WAIT, COPY_SRC}
    case (_, DM, NAW) => {TX_WAIT}
    case (WAIT, DM, MR) => {COPY_SRC}
    case (WAIT, DM, RW) => {COPY_DST, COPY_SRC, POP}
    case (RESERVE, DM, MW) => {COPY_DST}
    case (RESERVE, DM, MR) => {PUSH, COPY_SRC}
    case (RESERVE, DM, RW) => {COPY_DST, COPY_SRC, PUSH}
    case (WAIT, COMPUTE, MR) => {STORE_SRC}
    case (WAIT, COMPUTE, RW) => {STORE_SRC, STORE, POP}
    case (RESERVE, COMPUTE, MW) => {STORE}
    case (RESERVE, COMPUTE, MR) => {STORE_SRC, PUSH}
    case (RESERVE, COMPUTE, RW) => {STORE_SRC, STORE, PUSH}
    case _ => {DONE}
  }

  /** The states an active block can be in. */
  predicate Shape(sm: SM)
  {
    && sm.expected == ExpectedIn(sm.acq, sm.kind, sm.access)
    && DONE !in sm.expected
    && (sm.access.ROR? ==> sm.ror >= 1)
  }

  predicate IsWrite(op: OpKey) { op.StoreDst? || op.CopyDst? }

  predicate IsRead(op: OpKey) { op.StoreSrc? || op.AssignSrc? || op.CopySrc? }

  /** Copies started and not yet waited for. */
  function InFlight(log: seq<OpKey>): int
  {
    if log == [] then 0
    else
      var op := log[|log| - 1];
      InFlight(log[..|log| - 1])
      + (if op.CopySrc? || op.CopyDst? then 1 else if op.TxWait? then -1 else 0)
  }

  predicate CopyLanded(log: seq<OpKey>, i: nat)
    requires i < |log|
  {
    exists j :: i < j < |log| && log[j] == TxWait
  }

  /** Some store, or some copy whose wait returned, has filled the block. */
  predicate Filled(log: seq<OpKey>)
  {
    exists i :: 0 <= i < |log| && (log[i] == StoreDst || (log[i] == CopyDst && CopyLanded(log, i)))
  }

  predicate ReadLast(log: seq<OpKey>, i: nat)
    requires i < |log|
  {
    IsRead(log[i]) && forall j :: i < j < |log| ==> !IsWrite(log[j])
  }

  /** The block was read, and not overwritten since. */
  predicate ReadSinceWrite(log: seq<OpKey>)
  {
    exists i :: 0 <= i < |log| && ReadLast(log, i)
  }

  lemma FilledSnoc(log: seq<OpKey>, op: OpKey)
    ensures Filled(log) ==> Filled(log + [op])
    ensures op == StoreDst ==> Filled(log + [op])
    ensures forall i :: 0 <= i < |log| && log[i] == CopyDst && op == TxWait ==> Filled(log + [op])
    ensures Filled(log + [op]) ==> Filled(log) || op == StoreDst || op == TxWait
  {
    var ext := log + [op];
    if Filled(log) {
      var i :| 0 <= i < |log| && (log[i] == StoreDst || (log[i] == CopyDst && CopyLanded(log, i)));
      if log[i] == CopyDst {
        var j :| i < j < |log| && log[j] == TxWait;
        assert ext[j] == TxWait;
        assert CopyLanded(ext, i);
      }
      assert ext[i] == log[i];
    }
    if op == StoreDst {
      assert ext[|log|] == StoreDst;
    }
    forall i | 0 <= i < |log| && log[i] == CopyDst && op == TxWait
      ensures Filled(ext)
    {
      assert ext[|log|] == TxWait;
      assert ext[i] == CopyDst && CopyLanded(ext, i);
    }
    if Filled(ext) && op != StoreDst && op != TxWait {
      var i :| 0 <= i < |ext| && (ext[i] == StoreDst || (ext[i] == CopyDst && CopyLanded(ext, i)));
      if ext[i] == CopyDst {
        var j :| i < j < |ext| && ext[j] == TxWait;
        assert log[j] == TxWait;
        assert CopyLanded(log, i);
      }
      assert log[i] == ext[i];
    }
  }

  lemma ReadSnoc(log: seq<OpKey>, op: OpKey)
    ensures IsRead(op) ==> ReadSinceWrite(log + [op])
    ensures IsWrite(op) ==> !ReadSinceWrite(log + [op])
    ensures !IsRead(op) && !IsWrite(op) ==> (ReadSinceWrite(log + [op]) <==> ReadSinceWrite(log))
  {
    var ext := log + [op];
    if IsRead(op) {
      assert ReadLast(ext, |log|);
    }
    if IsWrite(op) {
      forall i | 0 <= i < |ext| ensures !ReadLast(ext, i) {
        if i < |log| {
          assert IsWrite(ext[|log|]);
        }
      }
    }
    if !IsRead(op) && !IsWrite(op) {
      if ReadSinceWrite(log) {
        var i :| 0 <= i < |log| && ReadLast(log, i);
        assert ReadLast(ext, i);
      }
      if ReadSinceWrite(ext) {
        var i :| 0 <= i < |ext| && ReadLast(ext, i);
        assert i < |log|;
        forall j | i < j < |log| ensures !IsWrite(log[j]) {
          assert ext[j] == log[j];
        }
        assert ReadLast(log, i);
      }
    }
  }

  /** A copy into the block has been started and not yet waited for: nothing else can come in between. */
  predicate BeingFilled(log: seq<OpKey>) { log != [] && log[|log| - 1] == CopyDst }

  /** What the access state says about the operations so far. */
  predicate Accounts(sm: SM, log: seq<OpKey>)
  {
    && InFlight(log) == (if sm.access.ROR? then sm.ror else if sm.access.NAW? then 1 else 0)
    && (sm.acq.RESERVE? ==> (Filled(log) ==> !sm.access.MW?))
    && (sm.acq.RESERVE? && sm.access in {MR, RW, ROR} ==> Filled(log))
    && (sm.acq.RESERVE? && sm.access.MW? ==> log == [])
    && (sm.access.NAW? <==> BeingFilled(log))
    && (ReadSinceWrite(log) <==> sm.access in {RW, ROR})
  }

  lemma MoveKeepsShape(sm: SM, op: OpKey, sm': SM)
    requires Shape(sm) && !sm.access.OS? && Apply(sm, op) == Moved(sm')
    ensures Shape(sm') && !sm'.access.OS? && sm'.acq == sm.acq && sm'.kind == sm.kind
  {
  }

  lemma MoveKeepsAccount(sm: SM, log: seq<OpKey>, op: OpKey, sm': SM)
    requires Shape(sm) && !sm.access.OS? && Accounts(sm, log) && Apply(sm, op) == Moved(sm')
    ensures Accounts(sm', log + [op])
  {
    FilledSnoc(log, op);
    ReadSnoc(log, op);
    var all := log + [op];
    assert all[..|log|] == log && all[|log|] == op;
    assert InFlight(all) == InFlight(log) + if op.CopySrc? || op.CopyDst? then 1 else if op.TxWait? then -1 else 0;
    hide Filled, ReadSinceWrite, InFlight;
    if sm.access.NAW? {
      assert log[|log| - 1] == CopyDst;
      assert op == TxWait ==> Filled(all);
    }
  }

  /** Every history keeps the machine in a known shape that accounts for the history. */
  lemma {:induction false} HistoryInvariant(acq: Acquisition, kind: KernelType, log: seq<OpKey>)
    requires After(Initial(acq, kind), log).Some?
    ensures var sm := After(Initial(acq, kind), log).value;
            sm.acq == acq && sm.kind == kind && !sm.access.OS? && Shape(sm) && Accounts(sm, log)
  {
    if log != [] {
      var most, op := log[..|log| - 1], log[|log| - 1];
      assert log == most + [op];
      HistoryInvariant(acq, kind, most);
      var before, sm := After(Initial(acq, kind), most).value, After(Initial(acq, kind), log).value;
      hide *;
      MoveKeepsShape(before, op, sm);
      MoveKeepsAccount(before, most, op, sm);
    }
  }

  /** The counter of copies in ROR: 0 until the first copy out of the block, at least 1 from then on, and left
      at 1 whenever the block is not in ROR. */
  lemma {:induction false} RorCountKept(acq: Acquisition, kind: KernelType, log: seq<OpKey>)
    requires After(Initial(acq, kind), log).Some?
    ensures var sm := After(Initial(acq, kind), log).value;
            && (sm.ror == 0 <==> CopySrc !in log)
            && (!sm.access.ROR? ==> sm.ror <= 1)
  {
    if log != [] {
      var most, op := log[..|log| - 1], log[|log| - 1];
      assert log == most + [op];
      RorCountKept(acq, kind, most);
      HistoryInvariant(acq, kind, most);
    }
  }

  /** Its documented value outside ROR, 0, is there exactly on blocks that were never copied from: after one
      copy and its wait a block is readable and writable, with a count of 1. */
  lemma RorCountExactly(acq: Acquisition, kind: KernelType, log: seq<OpKey>)
    requires After(Initial(acq, kind), log).Some? && !After(Initial(acq, kind), log).value.access.ROR?
    ensures After(Initial(acq, kind), log).value.ror == if CopySrc in log then 1 else 0
    ensures After(Initial(WAIT, DM), [CopySrc, TxWait]) == Some(SM(WAIT, DM, RW, {COPY_DST, COPY_SRC, POP}, 1))
  {
    RorCountKept(acq, kind, log);
    assert [CopySrc, TxWait][..1] == [CopySrc] && [CopySrc][..0] == [];
    assert After(Initial(WAIT, DM), [CopySrc]) == Some(SM(WAIT, DM, ROR, {TX_WAIT, COPY_SRC}, 1));
  }

  /** A reserved block can be pushed exactly when it has been filled and no copy is in flight. */
  lemma PushExactlyWhenFilled(kind: KernelType, log: seq<OpKey>)
    requires After(Initial(RESERVE, kind), log).Some?
    ensures ApplyPush(After(Initial(RESERVE, kind), log).value).Moved? <==> Filled(log) && InFlight(log) == 0
  {
    HistoryInvariant(RESERVE, kind, log);
  }

  /** A waited block can be popped exactly when it was read after its last overwrite and no copy is in flight. */
  lemma PopExactlyWhenRead(kind: KernelType, log: seq<OpKey>)
    requires After(Initial(WAIT, kind), log).Some?
    ensures ApplyPop(After(Initial(WAIT, kind), log).value).Moved? <==> ReadSinceWrite(log) && InFlight(log) == 0
  {
    HistoryInvariant(WAIT, kind, log);
  }

  /** The internal-inconsistency error is reached by an arithmetic use of a written,
      reserved compute block, and by nothing else. */
  lemma MissingExactly(acq: Acquisition, kind: KernelType, log: seq<OpKey>, op: OpKey)
    requires After(Initial(acq, kind), log).Some?
    ensures Apply(After(Initial(acq, kind), log).value, op).Missing?
            <==> op.AssignSrc? && acq.RESERVE? && kind.COMPUTE? && Filled(log)
  {
    HistoryInvariant(acq, kind, log);
  }

  /** What a block with this history accepts: data movement copies and waits, compute kernels store and do
      arithmetic; a block can be read once it holds something and nothing is landing in it, and it can be written
      once at the start if it was reserved, and afterwards only when what it holds was read. */
  predicate Accepts(acq: Acquisition, kind: KernelType, log: seq<OpKey>, op: OpKey)
  {
    var readable := acq.WAIT? || Filled(log);
    var writable := (acq.RESERVE? && log == []) || ReadSinceWrite(log);
    match op
    case CopySrc => kind.DM? && readable && !BeingFilled(log)
    case CopyDst => kind.DM? && writable && InFlight(log) == 0
    case TxWait => kind.DM? && InFlight(log) > 0
    case AssignSrc => kind.COMPUTE? && acq.WAIT?
    case StoreSrc => kind.COMPUTE? && readable
    case StoreDst => kind.COMPUTE? && writable
  }

  /** An operation is accepted exactly when the history of the block allows it. */
  lemma AcceptedExactly(acq: Acquisition, kind: KernelType, log: seq<OpKey>, op: OpKey)
    requires After(Initial(acq, kind), log).Some?
    ensures Apply(After(Initial(acq, kind), log).value, op).Moved? <==> Accepts(acq, kind, log, op)
  {
    HistoryInvariant(acq, kind, log);
    var sm := After(Initial(acq, kind), log).value;
    assert Shape(sm) && Accounts(sm, log);
    hide Filled, ReadSinceWrite, InFlight, After, Initial;
  }

  /** A temporary block refuses every operation: its expected set is empty. */
  lemma TemporaryRefusesAll(sm: SM, op: OpKey)
    requires sm.expected == {}
    ensures Apply(sm, op).Rejected? && ApplyPush(sm).Rejected? && ApplyPop(sm).Rejected?
  {
  }
}
