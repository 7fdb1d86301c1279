/** Source tracking of block expressions (python/sim/dfb.py): which wait blocks still owe a
    confirmation that a result computed from them was stored. Blocks are numbered in order of creation. */
module Provenance {
  import opened Wrappers
  import opened BlockState

  /** The fields of a block that tracking reads and writes. A block that is not temporary belongs to a
      dataflow buffer. */
  datatype Blk = Blk(temporary: bool, sm: SM, pending: bool, sources: seq<nat>) {
    predicate Tracked() { !temporary && sm.acq.WAIT? && sm.kind.COMPUTE? }
  }

  /** The two trackers: the one behind the operators, and the one behind the block functions. */
  datatype Tracker = Operators | Functions

  /** Does the tracker fire `assign_src` on this operand? */
  predicate Fires(tracker: Tracker, b: Blk)
  {
    match tracker
    case Operators => STORE_SRC in b.sm.expected
    case Functions => b.sm.access.MR?
  }

  /** Temporary blocks have no restrictions and expect nothing. */
  const TEMPORARY := SM(RESERVE, COMPUTE, RW, {}, 0)

  /** Read and not overwritten since, or popped; and no confirmation is owed. */
  predicate Settled(b: Blk) { !b.pending && b.sm.access in {RW, OS} }

  /** A wait block of the compute kernel is readable, used, or popped. */
  predicate TrackedState(sm: SM)
  {
    sm.access in {MR, RW, OS} && sm.expected == ExpectedIn(WAIT, COMPUTE, sm.access)
  }

  function Assigned(b: Blk): Blk
  {
    match Apply(b.sm, AssignSrc)
    case Moved(sm) => b.(sm := sm, pending := true)
    case _ => b
  }

  function Confirmed(b: Blk): Blk
  {
    if b.sm.access.OS? then b.(pending := false)
    else
      match Apply(b.sm, StoreSrc)
      case Moved(sm) => b.(sm := sm, pending := false)
      case _ => b
  }

  lemma TrackedMoves(b: Blk)
    requires b.Tracked() && TrackedState(b.sm)
    ensures STORE_SRC in b.sm.expected <==> !b.sm.access.OS?
    ensures STORE_SRC in b.sm.expected ==> Assigned(b).Tracked() && TrackedState(Assigned(b).sm) && Assigned(b).pending
    ensures Confirmed(b).Tracked() && TrackedState(Confirmed(b).sm) && !Confirmed(b).pending
    ensures Confirmed(b).sources == b.sources == Assigned(b).sources
    ensures Settled(Confirmed(b))
  {
  }

  /** The trackers leave the same confirmation flag on an operand exactly when it is not a used block
      without a pending confirmation: there only the operators register it again. */
  lemma TrackersAgreeExactly(b: Blk)
    requires b.Tracked() && TrackedState(b.sm)
    ensures (if Fires(Operators, b) then Assigned(b) else b).pending ==
              (if Fires(Functions, b) then Assigned(b) else b).pending
       <==> !(b.sm.access.RW? && !b.pending)
  {
    TrackedMoves(b);
  }

  /** What each tracker leaves of a wait block of the compute kernel: an unread one is registered by both, a popped
      one by neither, and one that was read by the operators only; the block can be popped after either, unless it
      was popped already. */
  lemma TrackersLeave(b: Blk, tracker: Tracker)
    requires b.Tracked() && TrackedState(b.sm)
    ensures var after := if Fires(tracker, b) then Assigned(b) else b;
            && after.pending == (b.pending || b.sm.access.MR? || (b.sm.access.RW? && tracker.Operators?))
            && (ApplyPop(after.sm).Moved? <==> !b.sm.access.OS?)
  {
    TrackedMoves(b);
  }

  // ----- What a temporary was computed from -----

  datatype Role = Temporary | Waited | Other

  function RoleOf(b: Blk): Role { if b.temporary then Temporary else if b.Tracked() then Waited else Other }

  /** `operands[id]` are the operands of temporary `id`; they were created before it. */
  ghost predicate Ordered(operands: seq<seq<nat>>)
  {
    forall id, k :: 0 <= id < |operands| && 0 <= k < |operands[id]| ==> operands[id][k] < id
  }

  /** Is wait block `leaf` a leaf of the expression that produced `id`, at any depth? */
  ghost predicate Contributes(roles: seq<Role>, operands: seq<seq<nat>>, leaf: nat, id: nat)
    requires Ordered(operands) && |roles| == |operands| && id < |roles|
    decreases id
  {
    match roles[id]
    case Waited => leaf == id
    case Temporary => exists k :: 0 <= k < |operands[id]| && Contributes(roles, operands, leaf, operands[id][k])
    case Other => false
  }

  lemma {:induction false} ContributesGrows(roles: seq<Role>, operands: seq<seq<nat>>, role: Role, ops: seq<nat>,
                                            leaf: nat, id: nat)
    requires Ordered(operands) && |roles| == |operands| && id < |roles|
    requires forall k :: 0 <= k < |ops| ==> ops[k] < |roles|
    ensures Ordered(operands + [ops])
    ensures Contributes(roles + [role], operands + [ops], leaf, id) <==> Contributes(roles, operands, leaf, id)
    decreases id
  {
    if roles[id].Temporary? {
      forall k | 0 <= k < |operands[id]|
        ensures Contributes(roles + [role], operands + [ops], leaf, operands[id][k]) <==>
                  Contributes(roles, operands, leaf, operands[id][k])
      {
        ContributesGrows(roles, operands, role, ops, leaf, operands[id][k]);
      }
    }
  }

  function Roles(table: seq<Blk>): (r: seq<Role>)
    ensures |r| == |table|
  {
    seq(|table|, i requires 0 <= i < |table| => RoleOf(table[i]))
  }

  ghost predicate IsLeaf(table: seq<Blk>, operands: seq<seq<nat>>, leaf: nat, id: nat)
  {
    Ordered(operands) && |table| == |operands| && id < |table| && Contributes(Roles(table), operands, leaf, id)
  }

  /** What every operation keeps. */
  ghost predicate Consistent(table: seq<Blk>, confirmations: set<nat>, operands: seq<seq<nat>>)
  {
    && Ordered(operands) && |table| == |operands|
    && (forall id :: 0 <= id < |table| ==> BlockOk(table[id]))
    && (forall id: nat :: id in confirmations <==> id < |table| && table[id].pending)
    && (forall id: nat, leaf: nat :: id < |table| && table[id].temporary ==>
          (leaf in table[id].sources <==> IsLeaf(table, operands, leaf, id)))
    && (forall id: nat, leaf: nat :: id < |table| && leaf in table[id].sources ==> IsTracked(table, leaf))
  }

  predicate IsTracked(table: seq<Blk>, id: nat) { id < |table| && table[id].Tracked() }

  predicate BlockOk(b: Blk)
  {
    (b.pending ==> b.Tracked()) && (b.Tracked() ==> TrackedState(b.sm)) && (b.temporary ==> b.sm == TEMPORARY)
  }

  /** Changing a block without changing its role, sources or flag bookkeeping keeps consistency. */
  lemma UpdateKeeps(table: seq<Blk>, confirmations: set<nat>, operands: seq<seq<nat>>, id: nat, b: Blk, after: set<nat>)
    requires Consistent(table, confirmations, operands) && id < |table|
    requires RoleOf(b) == RoleOf(table[id]) && b.sources == table[id].sources && BlockOk(b)
    requires after == if b.pending then confirmations + {id} else confirmations - {id}
    ensures Consistent(table[id := b], after, operands)
    ensures Roles(table[id := b]) == Roles(table)
  {
    var t := table[id := b];
    assert Roles(t) == Roles(table);
    assert forall i: nat :: i < |t| ==> t[i].sources == table[i].sources && RoleOf(t[i]) == RoleOf(table[i]);
    forall i: nat, leaf: nat | i < |t| && t[i].temporary
      ensures leaf in t[i].sources <==> IsLeaf(t, operands, leaf, i)
    {
      assert leaf in table[i].sources <==> IsLeaf(table, operands, leaf, i);
    }
    forall i: nat, leaf: nat | i < |t| && leaf in t[i].sources
      ensures IsTracked(t, leaf)
    {
      assert IsTracked(table, leaf) by { assert leaf in table[i].sources; }
    }
  }

  // ----- The blocks of a run -----

  datatype StoreResult = Stored | CannotWrite | ShapeMismatch | Refused

  class Blocks {
    var table: seq<Blk>
    /** The pending confirmation sets of all buffers. */
    var confirmations: set<nat>
    ghost var operands: seq<seq<nat>>

    ghost predicate Valid()
      reads this
    {
      Consistent(table, confirmations, operands)
    }

    constructor ()
      ensures Valid() && table == []
    {
      table, confirmations, operands := [], {}, [];
    }

    /** A reserve() or wait() of some kernel. */
    method Acquire(acq: Acquisition, kind: KernelType) returns (id: nat)
      requires Valid()
      modifies this
      ensures Valid() && id == old(|table|) && table == old(table) + [Blk(false, Initial(acq, kind), false, [])]
      ensures confirmations == old(confirmations)
    {
      id := |table|;
      var b := Blk(false, Initial(acq, kind), false, []);
      AppendKeeps(table, confirmations, operands, b, []);
      table := table + [b];
      operands := operands + [[]];
    }

    /** `mark_assign_src_complete` */
    method MarkAssignSrc(id: nat)
      requires Valid() && id < |table| && table[id].Tracked() && STORE_SRC in table[id].sm.expected
      modifies `table, `confirmations
      ensures Valid() && table == old(table)[id := Assigned(old(table[id]))]
      ensures Roles(table) == Roles(old(table)) && confirmations == old(confirmations) + {id}
    {
      TrackedMoves(table[id]);
      UpdateKeeps(table, confirmations, operands, id, Assigned(table[id]), confirmations + {id});
      table := table[id := Assigned(table[id])];
      confirmations := confirmations + {id};
    }

    /** `mark_store_read_complete` */
    method MarkStoreRead(id: nat)
      requires Valid() && id < |table| && table[id].Tracked()
      modifies `table, `confirmations
      ensures Valid() && table == old(table)[id := Confirmed(old(table[id]))]
      ensures Roles(table) == Roles(old(table)) && confirmations == old(confirmations) - {id}
      ensures !table[id].pending
    {
      TrackedMoves(table[id]);
      UpdateKeeps(table, confirmations, operands, id, Confirmed(table[id]), confirmations - {id});
      table := table[id := Confirmed(table[id])];
      confirmations := confirmations - {id};
    }

    /** An operator or block function: a new temporary that tracks its operands. */
    method Compute(ops: seq<nat>, tracker: Tracker) returns (id: nat)
      requires Valid() && forall k :: 0 <= k < |ops| ==> ops[k] < |table|
      modifies this
      ensures Valid() && id == old(|table|) && |table| == id + 1 && table[id].temporary
      ensures Roles(table) == Roles(old(table)) + [Temporary]
      ensures forall leaf :: leaf in table[id].sources <==> LeafOfSome(old(table), old(operands), leaf, ops)
      ensures table[..id] == AllAssigned(old(table), ops, tracker)
    {
      hide Contributes;
      var sources := [];
      for k := 0 to |ops|
        invariant Valid() && operands == old(operands) && Roles(table) == Roles(old(table))
        invariant forall leaf :: leaf in sources <==> LeafOfSome(old(table), old(operands), leaf, ops[..k])
        invariant table == AllAssigned(old(table), ops[..k], tracker)
      {
        SourcesAreLeaves(table, confirmations, operands, ops[k]);
        SameLeaves(old(table), table, operands, ops[k]);
        OneMoreOperand(old(table), operands, ops, k);
        AssignOne(old(table), ops, k, tracker);
        sources := sources + TrackedSources(table, ops[k]);
        if table[ops[k]].Tracked() && Fires(tracker, table[ops[k]]) {
          TrackedMoves(table[ops[k]]);
          MarkAssignSrc(ops[k]);
        }
      }
      assert ops[..|ops|] == ops;
      id := |table|;
      var b := Blk(true, TEMPORARY, false, sources);
      forall leaf
        ensures leaf in sources <==> LeafOfSome(table, operands, leaf, ops)
      {
        SameLeavesOfSome(old(table), table, operands, leaf, ops);
      }
      AppendKeeps(table, confirmations, operands, b, ops);
      assert Roles(table + [b]) == Roles(table) + [Temporary];
      table := table + [b];
      operands := operands + [ops];
    }

    /** push() or pop() of a block; its confirmation, if any, stays pending. */
    method Release(id: nat) returns (ok: bool)
      requires Valid() && id < |table| && !table[id].temporary
      modifies `table
      ensures Valid() && Roles(table) == Roles(old(table))
      ensures ok ==> table == old(table)[id := old(table[id]).(sm := old(table[id]).sm.(access := OS, expected := {}))]
      ensures !ok ==> table == old(table)
    {
      var o := if table[id].sm.acq.RESERVE? then ApplyPush(table[id].sm) else ApplyPop(table[id].sm);
      if !o.Moved? {
        return false;
      }
      var b := table[id].(sm := o.sm);
      UpdateKeeps(table, confirmations, operands, id, b, confirmations);
      table := table[id := b];
      ok := true;
    }

    /** Confirm the sources of a store, one by one. */
    method ConfirmAll(marks: seq<nat>)
      requires Valid() && forall k :: 0 <= k < |marks| ==> IsTracked(table, marks[k])
      modifies `table, `confirmations
      ensures Valid() && Roles(table) == Roles(old(table)) && table == AllConfirmed(old(table), marks)
    {
      hide Contributes;
      ghost var before := table;
      for k := 0 to |marks|
        invariant Valid() && operands == old(operands) && Roles(table) == Roles(before)
        invariant table == AllConfirmed(before, marks[..k])
      {
        SameTracked(before, table, marks[k]);
        ConfirmOne(before, marks, k);
        MarkStoreRead(marks[k]);
      }
      assert marks[..|marks|] == marks;
    }

    /** `store`: confirm the sources of `src`, then fire the store on `dst`. After a store of a temporary
        none of the wait blocks it was computed from, at any depth, is pending any more, popped or not, and
        each that is not itself the destination counts as read; so does a wait block that was itself stored. */
    method Store(dst: nat, src: nat, sameTiles: bool) returns (r: StoreResult)
      requires Valid() && dst < |table| && src < |table|
      modifies `table, `confirmations
      ensures Valid() && Roles(table) == Roles(old(table))
      ensures r == StoreOutcome(old(table), dst, src, sameTiles)
      ensures r.CannotWrite? || r.ShapeMismatch? ==> table == old(table)
      ensures r.Refused? ==> table == AllConfirmed(old(table), Marks(old(table), src))
      ensures r.Stored? ==> table == AfterStore(old(table), dst, src)
      ensures r.Stored? && table[src].temporary ==>
                forall leaf: nat :: IsLeaf(table, operands, leaf, src) ==>
                          leaf < |table| && !table[leaf].pending && leaf !in confirmations
                          && (leaf != dst ==> Settled(table[leaf]))
      ensures r.Stored? && old(table[src]).Tracked() && !old(table[src]).sm.access.OS? && src != dst ==>
                Settled(table[src]) && src !in confirmations
    {
      hide Contributes, Marks, AllConfirmed;
      if !table[dst].temporary && table[dst].sm.access in {NAW, ROR, OS} {
        return CannotWrite;
      }
      ghost var before := table;
      var marks := Marks(table, src);
      MarksAreTracked(table, confirmations, operands, src);
      if !sameTiles {
        return ShapeMismatch;
      }
      ConfirmAll(marks);
      ClearedLeaves(before, table, confirmations, operands, src);
      var o := Apply(table[dst].sm, StoreDst);
      if !o.Moved? {
        return Refused;
      }
      var b := table[dst].(sm := o.sm);
      SameLeaves(table, table[dst := b], operands, src);
      UpdateKeeps(table, confirmations, operands, dst, b, confirmations);
      SameLeaves(table, table[dst := b], operands, src);
      table := table[dst := b];
      r := Stored;
    }
  }

  /** The operands of an expression after tracking. */
  function AllAssigned(table: seq<Blk>, ops: seq<nat>, tracker: Tracker): (r: seq<Blk>)
    ensures |r| == |table|
  {
    seq(|table|, i requires 0 <= i < |table| =>
          if i in ops && table[i].Tracked() && Fires(tracker, table[i]) then Assigned(table[i]) else table[i])
  }

  function AllConfirmed(table: seq<Blk>, marks: seq<nat>): (r: seq<Blk>)
    ensures |r| == |table|
  {
    seq(|table|, i requires 0 <= i < |table| => if i in marks then Confirmed(table[i]) else table[i])
  }

  /** Tracking the same operand again changes nothing. */
  lemma AssignOne(table: seq<Blk>, ops: seq<nat>, k: nat, tracker: Tracker)
    requires k < |ops| && ops[k] < |table| && BlockOk(table[ops[k]])
    ensures var (mid, x) := (AllAssigned(table, ops[..k], tracker), ops[k]);
            AllAssigned(table, ops[..k + 1], tracker)
            == if mid[x].Tracked() && Fires(tracker, mid[x]) then mid[x := Assigned(mid[x])] else mid
  {
    assert ops[..k + 1] == ops[..k] + [ops[k]];
    if table[ops[k]].Tracked() {
      TrackedMoves(table[ops[k]]);
    }
  }

  /** Confirming the same source again changes nothing. */
  lemma ConfirmOne(table: seq<Blk>, marks: seq<nat>, k: nat)
    requires k < |marks| && IsTracked(table, marks[k]) && TrackedState(table[marks[k]].sm)
    ensures var (mid, x) := (AllConfirmed(table, marks[..k]), marks[k]);
            AllConfirmed(table, marks[..k + 1]) == mid[x := Confirmed(mid[x])]
  {
    assert marks[..k + 1] == marks[..k] + [marks[k]];
  }

  function StoreOutcome(table: seq<Blk>, dst: nat, src: nat, sameTiles: bool): StoreResult
    requires dst < |table| && src < |table|
  {
    if !table[dst].temporary && table[dst].sm.access in {NAW, ROR, OS} then CannotWrite
    else if !sameTiles then ShapeMismatch
    else if Apply(AllConfirmed(table, Marks(table, src))[dst].sm, StoreDst).Moved? then Stored
    else Refused
  }

  /** The sources of `src` are confirmed and the store has fired on `dst`. */
  function AfterStore(table: seq<Blk>, dst: nat, src: nat): seq<Blk>
    requires dst < |table| && src < |table|
  {
    var mid := AllConfirmed(table, Marks(table, src));
    match Apply(mid[dst].sm, StoreDst)
    case Moved(sm) => mid[dst := mid[dst].(sm := sm)]
    case _ => mid
  }

  lemma AppendKeeps(table: seq<Blk>, confirmations: set<nat>, operands: seq<seq<nat>>, b: Blk, ops: seq<nat>)
    requires Consistent(table, confirmations, operands) && BlockOk(b) && !b.pending
    requires forall k :: 0 <= k < |ops| ==> ops[k] < |table|
    requires forall leaf :: leaf in b.sources <==> b.temporary && LeafOfSome(table, operands, leaf, ops)
    ensures Consistent(table + [b], confirmations, operands + [ops])
    ensures forall id: nat, leaf: nat :: id < |table| ==>
              (IsLeaf(table + [b], operands + [ops], leaf, id) <==> IsLeaf(table, operands, leaf, id))
  {
    var (t, o) := (table + [b], operands + [ops]);
    assert Roles(t) == Roles(table) + [RoleOf(b)];
    assert Ordered(o);
    forall id: nat, leaf: nat | id < |table|
      ensures IsLeaf(t, o, leaf, id) <==> IsLeaf(table, operands, leaf, id)
    {
      ContributesGrows(Roles(table), operands, RoleOf(b), ops, leaf, id);
    }
    forall id: nat, leaf: nat | id < |t| && t[id].temporary
      ensures leaf in t[id].sources <==> IsLeaf(t, o, leaf, id)
    {
      if id == |table| {
        LastIsLeaf(table, operands, b, ops, leaf);
      } else {
        assert leaf in table[id].sources <==> IsLeaf(table, operands, leaf, id);
      }
    }
    forall id: nat, leaf: nat | id < |t| && leaf in t[id].sources
      ensures IsTracked(t, leaf)
    {
      if id < |table| {
        assert IsTracked(table, leaf) by { assert leaf in table[id].sources; }
      } else {
        var k :| 0 <= k < |ops| && IsLeaf(table, operands, leaf, ops[k]);
        LeavesAreTracked(table, confirmations, operands, leaf, ops[k]);
      }
    }
  }

  ghost predicate LeafOfSome(table: seq<Blk>, operands: seq<seq<nat>>, leaf: nat, ops: seq<nat>)
  {
    exists k :: 0 <= k < |ops| && IsLeaf(table, operands, leaf, ops[k])
  }

  lemma LeavesAreTracked(table: seq<Blk>, confirmations: set<nat>, operands: seq<seq<nat>>, leaf: nat, id: nat)
    requires Consistent(table, confirmations, operands) && IsLeaf(table, operands, leaf, id)
    ensures IsTracked(table, leaf)
  {
    if table[id].temporary {
      assert leaf in table[id].sources;
    }
  }

  lemma LastIsLeaf(table: seq<Blk>, operands: seq<seq<nat>>, b: Blk, ops: seq<nat>, leaf: nat)
    requires Ordered(operands) && |table| == |operands| && b.temporary && Ordered(operands + [ops])
    requires forall k :: 0 <= k < |ops| ==> ops[k] < |table|
    ensures IsLeaf(table + [b], operands + [ops], leaf, |table|) <==> LeafOfSome(table, operands, leaf, ops)
  {
    var (t, o) := (table + [b], operands + [ops]);
    assert Roles(t) == Roles(table) + [Temporary];
    forall k | 0 <= k < |ops|
      ensures Contributes(Roles(t), o, leaf, ops[k]) <==> IsLeaf(table, operands, leaf, ops[k])
    {
      ContributesGrows(Roles(table), operands, Temporary, ops, leaf, ops[k]);
    }
    assert o[|table|] == ops;
  }

  function TrackedSources(table: seq<Blk>, id: nat): seq<nat>
    requires id < |table|
  {
    if table[id].Tracked() then [id] else if table[id].temporary then table[id].sources else []
  }

  /** The sources recorded for an operand are the wait blocks it was computed from. */
  lemma SourcesAreLeaves(table: seq<Blk>, confirmations: set<nat>, operands: seq<seq<nat>>, id: nat)
    requires Consistent(table, confirmations, operands) && id < |table|
    ensures forall leaf :: leaf in TrackedSources(table, id) <==> leaf >= 0 && IsLeaf(table, operands, leaf, id)
  {
    forall leaf: nat
      ensures leaf in TrackedSources(table, id) <==> IsLeaf(table, operands, leaf, id)
    {
      if table[id].temporary {
        assert leaf in table[id].sources <==> IsLeaf(table, operands, leaf, id);
      }
    }
  }

  lemma SameLeaves(before: seq<Blk>, after: seq<Blk>, operands: seq<seq<nat>>, id: nat)
    requires Roles(before) == Roles(after)
    ensures forall leaf: nat :: IsLeaf(before, operands, leaf, id) <==> IsLeaf(after, operands, leaf, id)
  {
    assert |before| == |Roles(before)| && |after| == |Roles(after)|;
  }

  lemma SameLeavesOfSome(before: seq<Blk>, after: seq<Blk>, operands: seq<seq<nat>>, leaf: nat, ops: seq<nat>)
    requires Roles(before) == Roles(after)
    ensures LeafOfSome(before, operands, leaf, ops) <==> LeafOfSome(after, operands, leaf, ops)
  {
    assert |before| == |Roles(before)| && |after| == |Roles(after)|;
    forall k | 0 <= k < |ops|
      ensures IsLeaf(before, operands, leaf, ops[k]) <==> IsLeaf(after, operands, leaf, ops[k])
    {
    }
  }

  lemma OneMoreOperand(table: seq<Blk>, operands: seq<seq<nat>>, ops: seq<nat>, k: nat)
    requires k < |ops|
    ensures forall leaf: nat :: LeafOfSome(table, operands, leaf, ops[..k + 1]) <==>
              LeafOfSome(table, operands, leaf, ops[..k]) || IsLeaf(table, operands, leaf, ops[k])
  {
    forall leaf: nat
      ensures LeafOfSome(table, operands, leaf, ops[..k + 1]) <==>
                LeafOfSome(table, operands, leaf, ops[..k]) || IsLeaf(table, operands, leaf, ops[k])
    {
      var (a, b) := (ops[..k], ops[..k + 1]);
      assert forall j :: 0 <= j < k ==> a[j] == b[j];
      assert b[k] == ops[k];
      if LeafOfSome(table, operands, leaf, a) {
        var j :| 0 <= j < k && IsLeaf(table, operands, leaf, a[j]);
        assert IsLeaf(table, operands, leaf, b[j]);
      }
      if LeafOfSome(table, operands, leaf, b) {
        var j :| 0 <= j <= k && IsLeaf(table, operands, leaf, b[j]);
        assert j < k ==> IsLeaf(table, operands, leaf, a[j]);
      }
    }
  }

  /** The blocks that storing `src` confirms. */
  function Marks(table: seq<Blk>, src: nat): seq<nat>
    requires src < |table|
  {
    if table[src].sm.acq.WAIT? && table[src].sm.kind.COMPUTE? && STORE_SRC in table[src].sm.expected then [src]
    else if table[src].temporary then Unconfirmed(table, table[src].sources)
    else []
  }

  function Unconfirmed(table: seq<Blk>, sources: seq<nat>): seq<nat>
  {
    if sources == [] then []
    else
      var (head, last) := (sources[..|sources| - 1], sources[|sources| - 1]);
      Unconfirmed(table, head)
      + if last < |table| && (STORE_SRC in table[last].sm.expected || table[last].pending) then [last] else []
  }

  lemma {:induction false} UnconfirmedExact(table: seq<Blk>, sources: seq<nat>)
    ensures forall id: nat :: id in Unconfirmed(table, sources) <==>
              id in sources && id < |table| && (STORE_SRC in table[id].sm.expected || table[id].pending)
  {
    if sources != [] {
      UnconfirmedExact(table, sources[..|sources| - 1]);
      assert sources == sources[..|sources| - 1] + [sources[|sources| - 1]];
    }
  }

  lemma MarksAreTracked(table: seq<Blk>, confirmations: set<nat>, operands: seq<seq<nat>>, src: nat)
    requires Consistent(table, confirmations, operands) && src < |table|
    ensures forall k :: 0 <= k < |Marks(table, src)| ==> IsTracked(table, Marks(table, src)[k])
  {
    if table[src].temporary {
      UnconfirmedExact(table, table[src].sources);
    }
    forall k | 0 <= k < |Marks(table, src)|
      ensures IsTracked(table, Marks(table, src)[k])
    {
      assert Marks(table, src)[k] in Marks(table, src);
      if table[src].temporary {
        assert Marks(table, src)[k] in table[src].sources;
      }
    }
  }

  lemma SameTracked(before: seq<Blk>, after: seq<Blk>, id: nat)
    requires Roles(before) == Roles(after) && IsTracked(before, id)
    ensures IsTracked(after, id)
  {
    assert |before| == |Roles(before)| && |after| == |Roles(after)|;
    assert Roles(before)[id] == Roles(after)[id];
  }

  lemma ConfirmedFlags(before: seq<Blk>, marks: seq<nat>)
    requires forall k :: 0 <= k < |marks| ==> IsTracked(before, marks[k])
    requires forall id :: 0 <= id < |before| ==> BlockOk(before[id])
    ensures var table := AllConfirmed(before, marks);
            forall i: nat :: i < |table| ==>
              && (if i in marks then Settled(table[i]) else table[i] == before[i])
              && (table[i].pending <==> before[i].pending && i !in marks)
              && table[i].sources == before[i].sources && table[i].temporary == before[i].temporary
  {
    forall i: nat | i < |before| && i in marks
      ensures Settled(Confirmed(before[i])) && Confirmed(before[i]).sources == before[i].sources
    {
      TrackedMoves(before[i]);
    }
  }

  /** A recorded source that a store of `src` does not confirm was popped before. */
  lemma MarkedOrPopped(table: seq<Blk>, src: nat, leaf: nat)
    requires src < |table| && IsTracked(table, leaf) && BlockOk(table[leaf]) && BlockOk(table[src])
    requires if table[src].temporary then leaf in table[src].sources else leaf == src && !table[leaf].sm.access.OS?
    ensures leaf in Marks(table, src) || Settled(table[leaf])
  {
    if table[src].temporary {
      UnconfirmedExact(table, table[src].sources);
    }
    TrackedMoves(table[leaf]);
  }

  lemma SourceSettled(before: seq<Blk>, table: seq<Blk>, src: nat, leaf: nat)
    requires src < |table| == |before| && table == AllConfirmed(before, Marks(before, src))
    requires forall k :: 0 <= k < |Marks(before, src)| ==> IsTracked(before, Marks(before, src)[k])
    requires (forall id :: 0 <= id < |before| ==> BlockOk(before[id])) && IsTracked(before, leaf)
    requires if before[src].temporary then leaf in before[src].sources else leaf == src && !before[leaf].sm.access.OS?
    ensures Settled(table[leaf])
  {
    ConfirmedFlags(before, Marks(before, src));
    MarkedOrPopped(before, src, leaf);
  }

  /** Once the sources of a temporary are confirmed, all its leaves are settled, and so is a block that was itself
      stored. */
  lemma ClearedLeaves(before: seq<Blk>, table: seq<Blk>, confirmations: set<nat>, operands: seq<seq<nat>>, src: nat)
    requires Consistent(table, confirmations, operands) && src < |table| == |before|
    requires table == AllConfirmed(before, Marks(before, src)) && Roles(table) == Roles(before)
    requires forall k :: 0 <= k < |Marks(before, src)| ==> IsTracked(before, Marks(before, src)[k])
    requires forall id :: 0 <= id < |before| ==> BlockOk(before[id])
    ensures table[src].temporary ==>
              forall leaf: nat :: IsLeaf(table, operands, leaf, src) ==>
                        leaf < |table| && Settled(table[leaf]) && leaf !in confirmations
    ensures before[src].Tracked() && !before[src].sm.access.OS? ==> Settled(table[src])
  {
    ConfirmedFlags(before, Marks(before, src));
    hide AllConfirmed, Contributes, Marks, Settled;
    assert table[src].sources == before[src].sources && table[src].temporary == before[src].temporary;
    if table[src].temporary {
      forall leaf: nat | IsLeaf(table, operands, leaf, src)
        ensures leaf < |table| && Settled(table[leaf]) && leaf !in confirmations
      {
        assert leaf in table[src].sources && IsTracked(table, leaf);
        SameTracked(table, before, leaf);
        SourceSettled(before, table, src, leaf);
        NotOwed(table, confirmations, operands, leaf);
      }
    } else if before[src].Tracked() && !before[src].sm.access.OS? {
      SourceSettled(before, table, src, src);
    }
  }

  lemma NotOwed(table: seq<Blk>, confirmations: set<nat>, operands: seq<seq<nat>>, id: nat)
    requires Consistent(table, confirmations, operands) && id < |table| && Settled(table[id])
    ensures id !in confirmations
  {
  }
}
