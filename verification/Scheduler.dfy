/** The cooperative scheduler (python/sim/greenlet_scheduler.py). */
module Scheduler {
  import opened Wrappers
  import opened BlockState
  import opened Network
  import opened Messages
  import opened Confluence

  datatype KernelId = KernelId(node: nat, kind: KernelType, name: string)

  // ----- Synchronisation points -----

  /** The commands that call `block_if_needed`. */
  predicate IsSync(cmd: Cmd) { cmd.Reserve? || cmd.Wait? || cmd.TxWait? || cmd.Recv? }

  /** A block of the same kind is still pending, so reserve() or wait() first pushes or pops it. */
  predicate AutoDue(t: Topo, l: Local, cmd: Cmd)
    requires WFLocal(t, l)
  {
    || (cmd.Reserve? && cmd.b < |l.outs| && l.outs[cmd.b].slot.Some?)
    || (cmd.Wait? && cmd.b < |l.ins| && l.ins[cmd.b].held.Some?)
  }

  /** The `can_wait` or `can_reserve` the scheduler polls. For a pipe it is asked outside any
      node, and answers whether the queue still holds a message. */
  predicate CanOp(t: Topo, c: Config, k: nat, cmd: Cmd)
    requires WFConfig(t, c) && k < |c| && Legal(t, k, cmd)
  {
    match cmd
    case Reserve(b) => Free(t, c, b) >= 1
    case Wait(b) => Visible(t, c, b) >= 1
    case Recv(p, _, _) => exists r <- t.recvs[p] :: c[r].got[p] < |c[t.sender[p]].sent[p]|
    case _ => true
  }

  /** The kernel is unstarted, or the operation it is blocked on can proceed. */
  ghost predicate CanRun(t: Topo, ps: seq<Prog>, c: Config, blocked: seq<Option<Cmd>>, k: nat)
    requires WF(t, ps, c) && k < |c| && |blocked| == |c|
  {
    blocked[k].None? || (blocked[k].value == ps[k](c[k].h) && CanOp(t, c, k, blocked[k].value))
  }

  /** Whoever could run at the start of a pass is among the candidates still to come. */
  ghost predicate Left(ready: set<nat>, candidates: seq<nat>, i: nat)
  {
    i <= |candidates| && forall k <- ready :: k in candidates[i..]
  }

  lemma AllLeft(ready: set<nat>, candidates: seq<nat>)
    requires forall k <- ready :: k in candidates
    ensures Left(ready, candidates, 0)
    ensures Left(ready, candidates, |candidates|) ==> ready == {}
  {
    assert candidates[0..] == candidates;
  }

  lemma OneLeftOut(ready: set<nat>, candidates: seq<nat>, i: nat)
    requires Left(ready, candidates, i) && i < |candidates| && candidates[i] !in ready
    ensures Left(ready, candidates, i + 1)
  {
    assert candidates[i..] == [candidates[i]] + candidates[i + 1..];
  }

  /** Every pipe has at most one receiving kernel. */
  predicate SingleReceiver(t: Topo)
  {
    forall p :: 0 <= p < |t.recvs| ==> forall r <- t.recvs[p], r' <- t.recvs[p] :: r == r'
  }

  /** The poll of a receive says yes although this kernel has every message. */
  predicate Misled(t: Topo, c: Config, k: nat, cmd: Cmd)
    requires WFConfig(t, c) && k < |c| && Legal(t, k, cmd)
  {
    cmd.Recv? && CanOp(t, c, k, cmd) && |c[t.sender[cmd.p]].sent[cmd.p]| <= c[k].got[cmd.p]
  }

  /** At a synchronisation point the poll says exactly whether the step is not blocked, except that it misleads a
      kernel that has every message of a pipe while another receiver does not; with one receiver it never does. */
  lemma PollIsExact(t: Topo, c: Config, k: nat, cmd: Cmd)
    requires WFConfig(t, c) && k < |c| && Legal(t, k, cmd) && IsSync(cmd) && !AutoDue(t, c[k], cmd)
    ensures !StepCmd(t, c, k, cmd).Blocked? ==> CanOp(t, c, k, cmd)
    ensures (CanOp(t, c, k, cmd) <==> !StepCmd(t, c, k, cmd).Blocked?) <==> !Misled(t, c, k, cmd)
    ensures SingleReceiver(t) ==> !Misled(t, c, k, cmd)
  {
  }

  /** A kernel is only ever blocked at a synchronisation point, and when the poll says yes there only if it is
      misled. */
  lemma OnlySyncBlocks(t: Topo, c: Config, k: nat, cmd: Cmd)
    requires WFConfig(t, c) && k < |c| && Legal(t, k, cmd)
    ensures StepCmd(t, c, k, cmd).Blocked? ==>
              IsSync(cmd) && !AutoDue(t, c[k], cmd) && (CanOp(t, c, k, cmd) ==> Misled(t, c, k, cmd))
    ensures StepCmd(t, c, k, cmd).Halted? <==> cmd.Done?
  {
  }

  /** In some configuration of some network, this command of some kernel has to wait. */
  ghost predicate MayBlock(cmd: Cmd)
  {
    exists t: Topo, c: Config, k: nat :: Blocks(t, c, k, cmd)
  }

  predicate Blocks(t: Topo, c: Config, k: nat, cmd: Cmd)
  {
    WFConfig(t, c) && k < |c| && Legal(t, k, cmd) && StepCmd(t, c, k, cmd).Blocked?
  }

  /** The synchronisation points are exactly the commands that may have to wait, and the wait of a copy, which
      never has to. */
  lemma SyncPoints(cmd: Cmd)
    ensures IsSync(cmd) <==> cmd.TxWait? || MayBlock(cmd)
    ensures cmd.TxWait? ==> !MayBlock(cmd)
  {
    if MayBlock(cmd) {
      var t, c, k: nat :| Blocks(t, c, k, cmd);
      OnlySyncBlocks(t, c, k, cmd);
      WaitGoesOn(t, c, k, cmd);
    }
    match cmd {
      case Reserve(b) => ReserveBlocks(b);
      case Wait(b) => WaitBlocks(b);
      case Recv(p, b, side) => RecvBlocks(p, b, side);
      case _ =>
    }
    hide Blocks;
  }

  lemma WaitGoesOn(t: Topo, c: Config, k: nat, cmd: Cmd)
    requires Blocks(t, c, k, cmd)
    ensures !cmd.TxWait?
  {
  }

  lemma ReserveBlocks(b: nat)
    ensures Blocks(LoneTopo(b, 0), [FullLocal(b)], 0, Reserve(b))
  {
  }

  lemma WaitBlocks(b: nat)
    ensures Blocks(LoneTopo(b, 0), Start(LoneTopo(b, 0)), 0, Wait(b))
  {
  }

  lemma RecvBlocks(p: nat, b: nat, side: Side)
    ensures Blocks(LoneTopo(b, p), Start(LoneTopo(b, p)), 0, Recv(p, b, side))
  {
  }

  /** One kernel with a buffer `b` of one slot and a pipe `p`. */
  function LoneTopo(b: nat, p: nat): Topo
  {
    Topo(seq(b + 1, _ => 1), seq(b + 1, _ => 0), seq(b + 1, _ => 0), seq(p + 1, _ => 0), seq(p + 1, _ => {0}), [DM])
  }

  /** It has pushed one block to it. */
  function FullLocal(b: nat): Local
  {
    InitialLocal(LoneTopo(b, 0)).(outs := seq(b + 1, _ => Out([0], None)))
  }

  /** The kernel's next step raises: its own error, or a transfer that finds no message for its node. */
  ghost predicate Fails(t: Topo, ps: seq<Prog>, c: Config, k: nat)
    requires WF(t, ps, c) && k < |c|
  {
    Step(t, ps, c, k).Crash? || Misled(t, c, k, ps[k](c[k].h))
  }

  /** With two receivers the poll can say yes to a kernel that has nothing to receive. */
  lemma PollIsWrongForMulticast(t: Topo, c: Config, p: nat, b: nat, side: Side, r: nat, r': nat)
    requires WFConfig(t, c) && p < |t.recvs| && r in t.recvs[p] && r' in t.recvs[p] && OwnsBlock(t, r, b, side)
    requires c[r'].got[p] < |c[t.sender[p]].sent[p]| == c[r].got[p]
    ensures Misled(t, c, r, Recv(p, b, side)) && StepCmd(t, c, r, Recv(p, b, side)).Blocked?
  {
  }

  // ----- Bounded programs and remaining work -----

  /** No kernel performs more than `n` commands. */
  ghost predicate Finite(ps: seq<Prog>, n: nat)
  {
    forall k: nat, h: seq<Value> {:trigger ps[k](h)} :: k < |ps| && |h| >= n ==> ps[k](h).Done?
  }

  /** The commands a kernel may still perform, weighted so that an automatic push or pop counts. */
  ghost function Remaining(t: Topo, ps: seq<Prog>, n: nat, c: Config, k: nat): nat
    requires WF(t, ps, c) && k < |c|
  {
    (if n >= |c[k].h| then 2 * (n - |c[k].h|) else 0) + (if AutoDue(t, c[k], ps[k](c[k].h)) then 1 else 0)
  }

  lemma StepLowersRemaining(t: Topo, ps: seq<Prog>, n: nat, c: Config, k: nat)
    requires WF(t, ps, c) && Finite(ps, n) && k < |c| && Step(t, ps, c, k).Next?
    ensures WF(t, ps, c[k := Step(t, ps, c, k).l])
    ensures Remaining(t, ps, n, c[k := Step(t, ps, c, k).l], k) < Remaining(t, ps, n, c, k)
  {
    StepGrows(t, ps, c, k);
    assert |c[k].h| < n;
  }

  function Sum(ws: seq<nat>): nat
  {
    if ws == [] then 0 else Sum(ws[..|ws| - 1]) + ws[|ws| - 1]
  }

  lemma {:induction false} SumDrops(v: seq<nat>, w: seq<nat>)
    requires |v| == |w| && forall k :: 0 <= k < |v| ==> v[k] <= w[k]
    ensures Sum(v) <= Sum(w)
    ensures (exists k :: 0 <= k < |v| && v[k] < w[k]) ==> Sum(v) < Sum(w)
  {
    if v != [] {
      SumDrops(v[..|v| - 1], w[..|w| - 1]);
      if exists k :: 0 <= k < |v| && v[k] < w[k] {
        var k :| 0 <= k < |v| && v[k] < w[k];
        if k < |v| - 1 {
          assert v[..|v| - 1][k] < w[..|w| - 1][k];
        }
      }
    }
  }

  /** The activations a kernel may need before its next micro-step: unstarted, or blocked for the first or the
      second time at its synchronisation point. */
  function Delay(blocked: Option<Cmd>, again: bool): nat { if blocked.None? then 2 else if again then 0 else 1 }

  /** Remaining work of every kernel: none once it is inactive. */
  ghost function Weights(t: Topo, ps: seq<Prog>, n: nat, c: Config, active: seq<nat>, blocked: seq<Option<Cmd>>,
                         again: seq<bool>): seq<nat>
    requires WF(t, ps, c) && |blocked| == |again| == |c|
  {
    seq(|c|, k requires 0 <= k < |c| && WF(t, ps, c) && |blocked| == |again| == |c| =>
      if k !in active then 0 else 1 + 2 * Remaining(t, ps, n, c, k) + Delay(blocked[k], again[k]))
  }

  /** Activating one kernel lowers the total. */
  lemma ActivationLowersWork(t: Topo, ps: seq<Prog>, n: nat, k: nat,
                             c: Config, a: seq<nat>, bl: seq<Option<Cmd>>, re: seq<bool>,
                             c': Config, a': seq<nat>, bl': seq<Option<Cmd>>, re': seq<bool>)
    requires WF(t, ps, c) && WF(t, ps, c') && |bl| == |bl'| == |re| == |re'| == |c| && k < |c| && k in a
    requires forall j :: 0 <= j < |c| && j != k ==>
               c'[j] == c[j] && bl'[j] == bl[j] && re'[j] == re[j] && (j in a' <==> j in a)
    requires Remaining(t, ps, n, c', k) <= Remaining(t, ps, n, c, k)
    requires k in a' ==> bl'[k].Some?
    requires k in a' && bl[k].Some? ==>
               Remaining(t, ps, n, c', k) < Remaining(t, ps, n, c, k) || (!re[k] && re'[k])
    ensures Sum(Weights(t, ps, n, c', a', bl', re')) < Sum(Weights(t, ps, n, c, a, bl, re))
  {
    var v, w := Weights(t, ps, n, c', a', bl', re'), Weights(t, ps, n, c, a, bl, re);
    assert v[k] < w[k];
    SumDrops(v, w);
  }

  // ----- The order of the fair algorithm -----

  function KindValue(kind: KernelType): nat { if kind.DM? then 1 else 2 }

  /** Strings by code point, as Python compares them. */
  predicate NameLe(a: string, b: string)
  {
    if a == [] then true
    else if b == [] then false
    else a[0] < b[0] || (a[0] == b[0] && NameLe(a[1..], b[1..]))
  }

  datatype SortKey = SortKey(last: nat, id: KernelId)

  /** The sort key (last run, node, kind, name), lexicographically. */
  predicate KeyLe(a: SortKey, b: SortKey)
  {
    a.last < b.last || (a.last == b.last &&
    (a.id.node < b.id.node || (a.id.node == b.id.node &&
    (KindValue(a.id.kind) < KindValue(b.id.kind) || (KindValue(a.id.kind) == KindValue(b.id.kind) &&
    NameLe(a.id.name, b.id.name))))))
  }

  /** A kernel that never ran has time 0. */
  function KeyOf(last: map<nat, nat>, ids: seq<KernelId>, k: nat): SortKey
  {
    SortKey(if k in last then last[k] else 0, if k < |ids| then ids[k] else KernelId(0, DM, ""))
  }

  lemma {:induction false} NameTotal(a: string, b: string, c: string)
    ensures NameLe(a, b) || NameLe(b, a)
    ensures NameLe(a, b) && NameLe(b, c) ==> NameLe(a, c)
    decreases |a|
  {
    if a != [] && b != [] && c != [] {
      NameTotal(a[1..], b[1..], c[1..]);
    } else if a != [] && b != [] {
      NameTotal(a[1..], b[1..], c);
    }
  }

  lemma KeyTotal(a: SortKey, b: SortKey, c: SortKey)
    ensures KeyLe(a, b) || KeyLe(b, a)
    ensures KeyLe(a, b) && KeyLe(b, c) ==> KeyLe(a, c)
  {
    NameTotal(a.id.name, b.id.name, c.id.name);
  }

  /** Who goes first: the less recently run; of those the lower node; of those data movement before compute; and of
      those the name that is a prefix, or has the smaller character where they first differ. */
  lemma KeyOrder(a: SortKey, b: SortKey, n: nat)
    requires n <= |a.id.name| && n <= |b.id.name| && a.id.name[..n] == b.id.name[..n]
    ensures a.last != b.last ==> (KeyLe(a, b) <==> a.last < b.last)
    ensures a.last == b.last && a.id.node != b.id.node ==> (KeyLe(a, b) <==> a.id.node < b.id.node)
    ensures a.last == b.last && a.id.node == b.id.node && a.id.kind != b.id.kind ==> (KeyLe(a, b) <==> a.id.kind.DM?)
    ensures a.last == b.last && a.id.node == b.id.node && a.id.kind == b.id.kind ==>
              && (n == |a.id.name| ==> KeyLe(a, b))
              && (n == |b.id.name| < |a.id.name| ==> !KeyLe(a, b))
              && (n < |a.id.name| && n < |b.id.name| && a.id.name[n] != b.id.name[n] ==>
                    (KeyLe(a, b) <==> a.id.name[n] < b.id.name[n]))
  {
    NameOrder(a.id.name, b.id.name, n);
  }

  lemma {:induction false} NameOrder(a: string, b: string, n: nat)
    requires n <= |a| && n <= |b| && a[..n] == b[..n]
    ensures n == |a| ==> NameLe(a, b)
    ensures n == |b| < |a| ==> !NameLe(a, b)
    ensures n < |a| && n < |b| && a[n] != b[n] ==> (NameLe(a, b) <==> a[n] < b[n])
  {
    if n > 0 {
      assert a[0] == a[..n][0] == b[..n][0] == b[0];
      assert a[1..][..n - 1] == a[..n][1..] == b[..n][1..] == b[1..][..n - 1];
      NameOrder(a[1..], b[1..], n - 1);
    }
  }

  predicate Sorted(order: seq<nat>, key: nat -> SortKey)
  {
    forall i, j :: 0 <= i < j < |order| ==> KeyLe(key(order[i]), key(order[j]))
  }

  /** Insert `k` into a sorted order. */
  method Insert(order: seq<nat>, k: nat, key: nat -> SortKey) returns (r: seq<nat>)
    requires Sorted(order, key) && Distinct(order) && k !in order
    ensures Sorted(r, key) && Distinct(r) && |r| == |order| + 1
    ensures forall x :: x in r <==> x in order || x == k
  {
    var i := 0;
    while i < |order| && KeyLe(key(order[i]), key(k))
      invariant 0 <= i <= |order|
      invariant forall j :: 0 <= j < i ==> KeyLe(key(order[j]), key(k))
    {
      i := i + 1;
    }
    r := order[..i] + [k] + order[i..];
    forall a, b | 0 <= a < b < |r| ensures KeyLe(key(r[a]), key(r[b])) {
      if i < |order| {
        KeyTotal(key(k), key(order[i]), key(order[if b > i then b - 1 else i]));
      }
    }
  }

  /** The active kernels by least recent run. */
  method FairOrder(active: seq<nat>, key: nat -> SortKey) returns (order: seq<nat>)
    requires Distinct(active)
    ensures Sorted(order, key) && Distinct(order) && |order| == |active|
    ensures forall x :: x in order <==> x in active
  {
    order := [];
    for i := 0 to |active|
      invariant Sorted(order, key) && Distinct(order) && |order| == i
      invariant forall x :: x in order <==> x in active[..i]
    {
      order := Insert(order, active[i], key);
    }
  }

  // ----- Turns and their fairness -----

  /** A kernel offered its turn in the main loop, and whether it was activated. */
  datatype Turn = Turn(k: nat, ran: bool)

  /** Between any two activations of one kernel, kernel `k` had a turn. */
  ghost predicate OneSince(turns: seq<Turn>, k: nat)
  {
    forall x, y :: 0 <= x < y < |turns| && turns[x].ran && turns[y].ran && turns[x].k == turns[y].k != k ==>
      exists z :: x < z < y && turns[z].k == k
  }

  /** Between two consecutive turns of a kernel, every other kernel is activated at most once. */
  ghost predicate LruFair(turns: seq<Turn>)
  {
    forall b :: 0 <= b < |turns| ==> OneSince(turns[..b], turns[b].k)
  }

  /** If `m` ran and `k` has had no turn since, then `m` ran more recently. */
  ghost predicate StampsAgree(turns: seq<Turn>, active: seq<nat>, last: map<nat, nat>)
  {
    forall k <- active, m <- active, x ::
      0 <= x < |turns| && turns[x] == Turn(m, true) && k != m && (forall z :: x < z < |turns| ==> turns[z].k != k)
      && k in last && m in last
      ==> last[k] < last[m]
  }

  /** Active kernels have distinct, nonzero time stamps. */
  ghost predicate Stamped(active: seq<nat>, last: map<nat, nat>, now: nat)
  {
    && (forall k <- active :: k in last && 1 <= last[k] <= now)
    && (forall k <- active, m <- active :: k != m ==> last[k] != last[m])
  }

  lemma TurnKeepsStamps(turns: seq<Turn>, active: seq<nat>, last: map<nat, nat>, now: nat, e: nat, ran: bool,
                        active': seq<nat>)
    requires StampsAgree(turns, active, last) && Stamped(active, last, now) && e in active
    requires forall k <- active' :: k in active
    ensures var last' := if ran then last[e := now + 1] else last;
            StampsAgree(turns + [Turn(e, ran)], active', last')
            && Stamped(active', last', if ran then now + 1 else now)
  {
    var ext := turns + [Turn(e, ran)];
    var last' := if ran then last[e := now + 1] else last;
    forall k, m, x | k in active' && m in active' && 0 <= x < |ext| && ext[x] == Turn(m, true) && k != m
                     && (forall z :: x < z < |ext| ==> ext[z].k != k)
      ensures last'[k] < last'[m]
    {
      if x < |turns| {
        assert ext[|turns|].k == e != k;
        assert turns[x] == Turn(m, true);
        forall z | x < z < |turns| ensures turns[z].k != k {
          assert ext[z] == turns[z];
        }
      }
    }
  }

  lemma OneSinceSnoc(turns: seq<Turn>, e: nat, ran: bool, k: nat)
    requires OneSince(turns, k)
    requires ran && e != k ==> forall x :: 0 <= x < |turns| && turns[x] == Turn(e, true) ==>
                                             exists z :: x < z < |turns| && turns[z].k == k
    ensures OneSince(turns + [Turn(e, ran)], k)
  {
    var ext := turns + [Turn(e, ran)];
    forall x, y | 0 <= x < y < |ext| && ext[x].ran && ext[y].ran && ext[x].k == ext[y].k != k
      ensures exists z :: x < z < y && ext[z].k == k
    {
      if y < |turns| {
        var z :| x < z < y && turns[z].k == k;
        assert ext[z].k == k;
      } else {
        assert turns[x] == Turn(e, true);
        var z :| x < z < |turns| && turns[z].k == k;
        assert ext[z].k == k;
      }
    }
  }

  lemma LruSnoc(turns: seq<Turn>, e: nat, ran: bool)
    requires LruFair(turns) && OneSince(turns, e)
    ensures LruFair(turns + [Turn(e, ran)])
  {
    var ext := turns + [Turn(e, ran)];
    forall b | 0 <= b < |ext| ensures OneSince(ext[..b], ext[b].k) {
      assert ext[..b] == turns[..b];
      assert b == |turns| ==> turns[..b] == turns;
    }
  }

  /** Every other active kernel has had a turn since each activation of `e`. */
  ghost predicate ServedSince(turns: seq<Turn>, active: seq<nat>, e: nat)
  {
    forall k <- active, x :: k != e && 0 <= x < |turns| && turns[x] == Turn(e, true) ==>
      exists z :: x < z < |turns| && turns[z].k == k
  }

  /** What the fair algorithm maintains between turns. */
  ghost predicate FairSoFar(turns: seq<Turn>, active: seq<nat>, last: map<nat, nat>, now: nat)
  {
    && Stamped(active, last, now) && StampsAgree(turns, active, last)
    && LruFair(turns) && (forall k <- active :: OneSince(turns, k))
  }

  lemma TurnKeepsFair(turns: seq<Turn>, active: seq<nat>, last: map<nat, nat>, now: nat, e: nat, ran: bool,
                      active': seq<nat>)
    requires FairSoFar(turns, active, last, now) && e in active && (ran ==> ServedSince(turns, active, e))
    requires forall k <- active' :: k in active
    ensures FairSoFar(turns + [Turn(e, ran)], active', if ran then last[e := now + 1] else last,
                      if ran then now + 1 else now)
  {
    TurnKeepsStamps(turns, active, last, now, e, ran, active');
    LruSnoc(turns, e, ran);
    forall k | k in active' ensures OneSince(turns + [Turn(e, ran)], k) {
      OneSinceSnoc(turns, e, ran, k);
    }
  }

  lemma TurnIsFair(turns: seq<Turn>, active: seq<nat>, last: map<nat, nat>, now: nat, k: nat)
    requires FairSoFar(turns, active, last, now) && k in active
    ensures LruFair(turns + [Turn(k, true)])
  {
    LruSnoc(turns, k, true);
  }

  // ----- The scheduler -----

  datatype Yield = Parked | Finished | Raised

  ghost predicate AtSyncIn(t: Topo, ps: seq<Prog>, world: Config, k: nat)
    requires WF(t, ps, world) && k < |ps|
  {
    var cmd := ps[k](world[k].h);
    IsSync(cmd) && !AutoDue(t, world[k], cmd)
  }

  // ----- What a turn does -----

  /** Kernel k is at a synchronisation point. */
  ghost predicate AtSyncAt(t: Topo, ps: seq<Prog>, c: Config, k: nat)
  {
    WF(t, ps, c) && k < |ps| && AtSyncIn(t, ps, c, k)
  }

  /** Kernel k may yield here: it has ended or raises, or it is at a synchronisation point, in the greedy algorithm at
      one whose operation cannot proceed. */
  ghost predicate YieldsAt(t: Topo, ps: seq<Prog>, fair: bool, c: Config, k: nat)
  {
    && WF(t, ps, c) && k < |ps|
    && (|| ps[k](c[k].h).Done? || Fails(t, ps, c, k)
        || (AtSyncIn(t, ps, c, k) && (fair || Step(t, ps, c, k).Blocked?)))
  }

  /** A stretch of micro-steps of kernel k, from the trail `s` with configurations `c` and world `w` to `s'`, `c'` and
      `w'`: in the fair algorithm only its first `free` steps are taken at synchronisation points. */
  ghost predicate Stretch(t: Topo, ps: seq<Prog>, fair: bool, k: nat, free: nat, s: seq<nat>, c: seq<Config>, w: Config,
                          s': seq<nat>, c': seq<Config>, w': Config)
  {
    && |c| == |s| && |c'| == |s'| && s <= s' && c <= c'
    && (if s == s' then w' == w else |s| < |s'| && c'[|s|] == w)
    && (forall x :: |s| <= x < |s'| ==> s'[x] == k)
    && (fair ==> forall x :: |s| + free <= x < |s'| ==> !AtSyncAt(t, ps, c'[x], k))
  }

  lemma StretchStarts(t: Topo, ps: seq<Prog>, fair: bool, k: nat, free: nat, s: seq<nat>, c: seq<Config>, w: Config)
    requires |c| == |s|
    ensures Stretch(t, ps, fair, k, free, s, c, w, s, c, w)
  {
  }

  lemma StretchSnoc(t: Topo, ps: seq<Prog>, fair: bool, k: nat, free: nat, s: seq<nat>, c: seq<Config>, w: Config,
                    s': seq<nat>, c': seq<Config>, w': Config, w'': Config)
    requires Stretch(t, ps, fair, k, free, s, c, w, s', c', w')
    requires fair && |s'| >= |s| + free ==> !AtSyncAt(t, ps, w', k)
    ensures Stretch(t, ps, fair, k, free, s, c, w, s' + [k], c' + [w'], w'')
  {
    assert s != s' + [k] by { assert |s| < |s' + [k]|; }
  }

  lemma MoreFree(t: Topo, ps: seq<Prog>, fair: bool, k: nat, free: nat, s: seq<nat>, c: seq<Config>, w: Config,
                 s': seq<nat>, c': seq<Config>, w': Config)
    requires free <= 1 && Stretch(t, ps, fair, k, free, s, c, w, s', c', w')
    ensures Stretch(t, ps, fair, k, 1, s, c, w, s', c', w')
  {
  }

  lemma StretchJoin(t: Topo, ps: seq<Prog>, fair: bool, k: nat, free: nat, s: seq<nat>, c: seq<Config>, w: Config,
                    s': seq<nat>, c': seq<Config>, w': Config, s'': seq<nat>, c'': seq<Config>, w'': Config)
    requires Stretch(t, ps, fair, k, free, s, c, w, s', c', w')
    requires Stretch(t, ps, fair, k, 0, s', c', w', s'', c'', w'')
    ensures Stretch(t, ps, fair, k, free, s, c, w, s'', c'', w'')
  {
    if fair {
      forall x | |s| + free <= x < |s''|
        ensures !AtSyncAt(t, ps, c''[x], k)
      {
        assert x < |s'| ==> c''[x] == c'[x];
      }
    }
  }

  /** The configuration before micro-step x. */
  function ConfigAt(path: seq<Config>, world: Config, x: nat): Config { if x < |path| then path[x] else world }

  /** Where the i-th turn ends. */
  function EndOf(starts: seq<nat>, trail: seq<nat>, i: nat): nat
    requires i < |starts|
  {
    if i + 1 < |starts| then starts[i + 1] else |trail|
  }

  /** The turns in order: the i-th began before micro-step `starts[i]`. */
  predicate InOrder(starts: seq<nat>, trail: seq<nat>)
  {
    forall i :: 0 <= i < |starts| ==> starts[i] <= EndOf(starts, trail, i) <= |trail|
  }

  /** Every micro-step since the first turn belongs to a turn in which its kernel was activated. */
  predicate Owned(turns: seq<Turn>, starts: seq<nat>, trail: seq<nat>)
    requires |starts| == |turns| && InOrder(starts, trail)
  {
    forall i, x :: 0 <= i < |starts| && starts[i] <= x < EndOf(starts, trail, i) ==> turns[i] == Turn(trail[x], true)
  }

  /** A kernel that was activated ran until it yields. */
  ghost predicate RanToYield(t: Topo, ps: seq<Prog>, fair: bool, turns: seq<Turn>, starts: seq<nat>, trail: seq<nat>,
                             path: seq<Config>, world: Config)
    requires |starts| == |turns|
  {
    forall i :: 0 <= i < |starts| && turns[i].ran ==>
      YieldsAt(t, ps, fair, ConfigAt(path, world, EndOf(starts, trail, i)), turns[i].k)
  }

  /** In a turn of the fair algorithm no micro-step but the first is taken at a synchronisation point. */
  ghost predicate PassedNone(t: Topo, ps: seq<Prog>, starts: seq<nat>, trail: seq<nat>, path: seq<Config>)
    requires |path| == |trail| && InOrder(starts, trail)
  {
    forall i, x :: 0 <= i < |starts| && starts[i] < x < EndOf(starts, trail, i) ==>
      !AtSyncAt(t, ps, path[x], trail[x])
  }

  /** The first `n` micro-steps, before any turn: only the fair algorithm takes some, and none of them at a
      synchronisation point. */
  ghost predicate Prologue(t: Topo, ps: seq<Prog>, fair: bool, n: nat, s: seq<nat>, c: seq<Config>)
  {
    |c| == |s| && n <= |s| && forall x :: 0 <= x < n ==> fair && !AtSyncAt(t, ps, c[x], s[x])
  }

  /** How the turns explain the micro-steps, with `path` the configuration before each. */
  ghost predicate Explained(t: Topo, ps: seq<Prog>, fair: bool, turns: seq<Turn>, starts: seq<nat>, trail: seq<nat>,
                            path: seq<Config>, world: Config)
  {
    && |starts| == |turns| && |path| == |trail| && InOrder(starts, trail) && Owned(turns, starts, trail)
    && RanToYield(t, ps, fair, turns, starts, trail, path, world)
    && (fair ==> PassedNone(t, ps, starts, trail, path))
    && Prologue(t, ps, fair, if starts == [] then |trail| else starts[0], trail, path)
  }

  lemma OrderSnoc(starts: seq<nat>, s: seq<nat>, s': seq<nat>)
    requires InOrder(starts, s) && s <= s'
    ensures InOrder(starts + [|s|], s')
    ensures forall i :: 0 <= i < |starts| ==> EndOf(starts + [|s|], s', i) == EndOf(starts, s, i)
    ensures EndOf(starts + [|s|], s', |starts|) == |s'|
  {
    var ss := starts + [|s|];
    forall i | 0 <= i < |ss|
      ensures ss[i] <= EndOf(ss, s', i) <= |s'| && (i < |starts| ==> EndOf(ss, s', i) == EndOf(starts, s, i))
    {
      assert i + 1 < |starts| ==> ss[i + 1] == starts[i + 1];
    }
  }

  lemma OwnedSnoc(turns: seq<Turn>, starts: seq<nat>, s: seq<nat>, k: nat, ran: bool, s': seq<nat>)
    requires |starts| == |turns| && InOrder(starts, s) && Owned(turns, starts, s) && s <= s'
    requires (forall x :: |s| <= x < |s'| ==> s'[x] == k) && (!ran ==> s' == s)
    ensures InOrder(starts + [|s|], s') && Owned(turns + [Turn(k, ran)], starts + [|s|], s')
  {
    OrderSnoc(starts, s, s');
    var (us, ss) := (turns + [Turn(k, ran)], starts + [|s|]);
    forall i, x | 0 <= i < |ss| && ss[i] <= x < EndOf(ss, s', i)
      ensures us[i] == Turn(s'[x], true)
    {
      if i < |starts| {
        assert us[i] == turns[i] && x < |s| && s'[x] == s[x];
      }
    }
  }

  lemma YieldSnoc(t: Topo, ps: seq<Prog>, fair: bool, turns: seq<Turn>, starts: seq<nat>, s: seq<nat>, c: seq<Config>,
                  w: Config, k: nat, ran: bool, s': seq<nat>, c': seq<Config>, w': Config)
    requires |starts| == |turns| && |c| == |s| && |c'| == |s'| && InOrder(starts, s) && s <= s' && c <= c'
    requires RanToYield(t, ps, fair, turns, starts, s, c, w) && if s == s' then w' == w else |s| < |s'| && c'[|s|] == w
    requires ran ==> YieldsAt(t, ps, fair, w', k)
    ensures RanToYield(t, ps, fair, turns + [Turn(k, ran)], starts + [|s|], s', c', w')
  {
    OrderSnoc(starts, s, s');
    hide YieldsAt, EndOf;
    var (us, ss) := (turns + [Turn(k, ran)], starts + [|s|]);
    forall i | 0 <= i < |ss| && us[i].ran
      ensures YieldsAt(t, ps, fair, ConfigAt(c', w', EndOf(ss, s', i)), us[i].k)
    {
      if i < |starts| {
        var e := EndOf(starts, s, i);
        assert us[i] == turns[i] && e <= |s|;
        assert ConfigAt(c', w', e) == ConfigAt(c, w, e);
      }
    }
  }

  lemma PassedSnoc(t: Topo, ps: seq<Prog>, starts: seq<nat>, s: seq<nat>, c: seq<Config>, k: nat,
                   s': seq<nat>, c': seq<Config>)
    requires |c| == |s| && |c'| == |s'| && InOrder(starts, s) && s <= s' && c <= c' && PassedNone(t, ps, starts, s, c)
    requires forall x :: |s| <= x < |s'| ==> s'[x] == k
    requires forall x :: |s| + 1 <= x < |s'| ==> !AtSyncAt(t, ps, c'[x], k)
    ensures InOrder(starts + [|s|], s') && PassedNone(t, ps, starts + [|s|], s', c')
  {
    OrderSnoc(starts, s, s');
    hide AtSyncAt;
    var ss := starts + [|s|];
    forall i, x | 0 <= i < |ss| && ss[i] < x < EndOf(ss, s', i)
      ensures !AtSyncAt(t, ps, c'[x], s'[x])
    {
      if i < |starts| {
        assert x < |s| && c'[x] == c[x] && s'[x] == s[x];
      }
    }
  }

  lemma PrologueStays(t: Topo, ps: seq<Prog>, fair: bool, n: nat, s: seq<nat>, c: seq<Config>,
                      s': seq<nat>, c': seq<Config>)
    requires Prologue(t, ps, fair, n, s, c) && |c'| == |s'| && s <= s' && c <= c'
    ensures Prologue(t, ps, fair, n, s', c')
  {
    hide AtSyncAt;
    assert |s| <= |s'|;
    assert forall x :: 0 <= x < n ==> c'[x] == c[x] && s'[x] == s[x];
    assert n > 0 ==> fair by {
      if n > 0 {
        assert !AtSyncAt(t, ps, c[0], s[0]);
      }
    }
    forall x | 0 <= x < n
      ensures !AtSyncAt(t, ps, c'[x], s'[x])
    {
    }
  }

  lemma ExplainedSnoc(t: Topo, ps: seq<Prog>, fair: bool, turns: seq<Turn>, starts: seq<nat>, s: seq<nat>,
                      c: seq<Config>, w: Config, k: nat, ran: bool, s': seq<nat>, c': seq<Config>, w': Config)
    requires Explained(t, ps, fair, turns, starts, s, c, w) && Stretch(t, ps, fair, k, 1, s, c, w, s', c', w')
    requires if ran then YieldsAt(t, ps, fair, w', k) else s' == s
    ensures Explained(t, ps, fair, turns + [Turn(k, ran)], starts + [|s|], s', c', w')
  {
    hide YieldsAt, AtSyncAt, Owned, RanToYield, PassedNone, Prologue, InOrder;
    OwnedSnoc(turns, starts, s, k, ran, s');
    YieldSnoc(t, ps, fair, turns, starts, s, c, w, k, ran, s', c', w');
    if fair {
      PassedSnoc(t, ps, starts, s, c, k, s', c');
    }
    PrologueStays(t, ps, fair, if starts == [] then |s| else starts[0], s, c, s', c');
  }

  lemma PrologueGoesOn(t: Topo, ps: seq<Prog>, k: nat, s: seq<nat>, c: seq<Config>, w: Config,
                       s': seq<nat>, c': seq<Config>, w': Config)
    requires Prologue(t, ps, true, |s|, s, c) && Stretch(t, ps, true, k, 0, s, c, w, s', c', w')
    ensures Prologue(t, ps, true, |s'|, s', c')
  {
    hide AtSyncAt;
    forall x | 0 <= x < |s'|
      ensures !AtSyncAt(t, ps, c'[x], s'[x])
    {
      assert x < |s| ==> c'[x] == c[x] && s'[x] == s[x];
    }
  }

  lemma PrologueExplains(t: Topo, ps: seq<Prog>, fair: bool, s: seq<nat>, c: seq<Config>, w: Config)
    requires Prologue(t, ps, fair, |s|, s, c)
    ensures Explained(t, ps, fair, [], [], s, c, w)
  {
  }

  lemma RecordedLength(t: Topo, ps: seq<Prog>, s: seq<nat>, c: seq<Config>)
    requires WFProgs(t, ps) && Recorded(t, ps, s, c)
    ensures |c| == |s|
  {
  }

  /** `c` has the configuration that the micro-steps before each lead to. */
  ghost predicate Recorded(t: Topo, ps: seq<Prog>, s: seq<nat>, c: seq<Config>)
    requires WFProgs(t, ps)
  {
    |c| == |s| && forall x :: 0 <= x < |s| ==> WF(t, ps, c[x]) && Run(t, ps, Start(t), s[..x], c[x])
  }

  lemma RecordedSnoc(t: Topo, ps: seq<Prog>, s: seq<nat>, c: seq<Config>, w: Config, k: nat)
    requires WFProgs(t, ps) && Recorded(t, ps, s, c) && WF(t, ps, w) && Run(t, ps, Start(t), s, w)
    ensures Recorded(t, ps, s + [k], c + [w])
  {
    assert WF(t, ps, Start(t));
    hide Run, WF, Start;
    forall x | 0 <= x < |s + [k]|
      ensures WF(t, ps, (c + [w])[x]) && Run(t, ps, Start(t), (s + [k])[..x], (c + [w])[x])
    {
      assert (s + [k])[..x] == if x < |s| then s[..x] else s;
    }
  }

  /** Between micro-steps: a suspended kernel is at the synchronisation point it is blocked on, and a
      kernel that is no longer active has returned. */
  ghost predicate Suspended(t: Topo, ps: seq<Prog>, world: Config, active: seq<nat>, blockedOn: seq<Option<Cmd>>)
  {
    && WF(t, ps, world) && |blockedOn| == |ps| && Distinct(active)
    && (forall k <- active :: k < |ps|)
    && (forall k <- active ::
          blockedOn[k].Some? ==> blockedOn[k].value == ps[k](world[k].h) && AtSyncIn(t, ps, world, k))
    && (forall k :: 0 <= k < |ps| && k !in active ==> ps[k](world[k].h).Done?)
  }

  class GreenletScheduler {
    const t: Topo
    const ps: seq<Prog>
    const ids: seq<KernelId>
    const fair: bool
    ghost const bound: nat

    var world: Config
    var active: seq<nat>                  // keys of _active, in insertion order
    var blockedOn: seq<Option<Cmd>>       // the operation a suspended kernel is blocked on
    var again: seq<bool>                  // suspended in the second check of block_if_needed (fair)
    var lastRun: map<nat, nat>
    var timestamp: nat
    var progress: seq<bool>
    var completed: seq<nat>
    ghost var trail: seq<nat>             // the micro-steps so far
    ghost var path: seq<Config>           // the configuration before each of them
    ghost var turns: seq<Turn>            // the turns offered in the main loop
    ghost var starts: seq<nat>            // the length of the trail at the start of each turn

    /** Suspended at its synchronisation point. */
    ghost predicate AtSync(k: nat)
      reads this
      requires WF(t, ps, world) && k < |ps|
    {
      AtSyncIn(t, ps, world, k)
    }

    ghost predicate Valid()
      reads this
    {
      && Finite(ps, bound) && |ids| == |progress| == |again| == |ps|
      && Suspended(t, ps, world, active, blockedOn)
      && Run(t, ps, Start(t), trail, world) && Recorded(t, ps, trail, path)
      && forall k <- active :: k in lastRun
    }

    /** Activating the kernel now lets it run. */
    ghost predicate Ready(k: nat)
      reads this
      requires WF(t, ps, world) && k < |ps| && |blockedOn| == |ps|
    {
      CanRun(t, ps, world, blockedOn, k)
    }

    /** The active kernels that could run now. */
    ghost function ReadySet(): set<nat>
      reads this
      requires Valid()
    {
      set k | k in active && Ready(k)
    }

    /** The kernels as `add_kernel` registers them: active, unstarted, in order. */
    constructor (t: Topo, ps: seq<Prog>, ids: seq<KernelId>, fair: bool, ghost bound: nat)
      requires WFProgs(t, ps) && Finite(ps, bound) && |ids| == |ps|
      ensures Valid() && this.t == t && this.ps == ps && this.fair == fair
      ensures world == Start(t) && turns == [] && starts == [] && trail == [] && timestamp == 0
      ensures forall k <- active :: blockedOn[k].None?
    {
      this.t, this.ps, this.ids, this.fair, this.bound := t, ps, ids, fair, bound;
      world := Start(t);
      var order := seq(|ps|, i requires 0 <= i < |ps| => i);
      active := order;
      blockedOn := seq(|ps|, _ => None);
      again := seq(|ps|, _ => false);
      lastRun := map k | k in order :: 0;
      timestamp := 0;
      progress := seq(|ps|, _ => false);
      completed := [];
      trail, path, turns, starts := [], [], [], [];
      new;
      assert Run(t, ps, Start(t), [], world);
      forall k | 0 <= k < |ps| ensures k in active {
        assert active[k] == k;
      }
    }

    /** `_mark_completed`. */
    method MarkCompleted(k: nat)
      modifies this`active, this`completed, this`lastRun
      requires Distinct(active)
      ensures Distinct(active) && (forall j :: j in active <==> j in old(active) && j != k)
      ensures forall j :: 0 <= j < |old(active)| && old(active)[j] == k ==>
                active == old(active)[..j] + old(active)[j + 1..]
      ensures completed == old(completed) + [k] && lastRun == old(lastRun) - {k}
    {
      var i := 0;
      while i < |active| && active[i] != k
        invariant 0 <= i <= |active| && active == old(active)
        invariant forall j :: 0 <= j < i ==> active[j] != k
      {
        i := i + 1;
      }
      if i < |active| {
        active := active[..i] + active[i + 1..];
      }
      completed := completed + [k];
      lastRun := lastRun - {k};
    }

    /** One micro-step of kernel `k`. */
    method Micro(k: nat)
      requires Valid() && k in active && blockedOn[k].None? && Step(t, ps, world, k).Next?
      modifies `world, `trail, `path
      ensures Valid() && world == old(world)[k := old(Step(t, ps, world, k)).l]
      ensures trail == old(trail) + [k] && path == old(path) + [old(world)]
      ensures Remaining(t, ps, bound, world, k) < old(Remaining(t, ps, bound, world, k))
    {
      StepGrows(t, ps, world, k);
      StepLowersRemaining(t, ps, bound, world, k);
      RunSnoc(t, ps, Start(t), trail, world, k);
      RecordedSnoc(t, ps, trail, path, world, k);
      path := path + [world];
      world := world[k := StepCmd(t, world, k, ps[k](world[k].h)).l];
      trail := trail + [k];
    }

    /** The kernel's function has returned. */
    method Finish(k: nat)
      requires Valid() && k in active && ps[k](world[k].h).Done?
      modifies `active, `completed, `lastRun
      ensures Valid() && (forall j :: j in active <==> j in old(active) && j != k)
      ensures lastRun == old(lastRun) - {k}
    {
      MarkCompleted(k);
    }

    /** `block_current_kernel`, for the first or the second time in a call of `block_if_needed`. */
    method Park(k: nat, second: bool)
      requires Valid() && k in active && AtSync(k)
      modifies `blockedOn, `again
      ensures Valid() && blockedOn == old(blockedOn)[k := Some(ps[k](world[k].h))] && again == old(again)[k := second]
    {
      blockedOn := blockedOn[k := Some(ps[k](world[k].h))];
      again := again[k := second];
    }

    /** `mark_kernel_progress`. */
    method MarkProgress(k: nat)
      requires Valid() && k in active
      modifies `progress
      ensures Valid() && progress == old(progress)[k := true]
    {
      progress := progress[k := true];
    }

    /** Run kernel `k` until it yields or ends: `switch` into its greenlet. A resumed kernel continues inside
        `block_if_needed`; the fair algorithm checks once more there, now inside the node, and a kernel that the
        poll has misled blocks again. */
    method Switch(k: nat, resumed: bool) returns (y: Yield)
      requires Valid() && k in active && blockedOn[k].None?
      requires resumed ==> AtSync(k) && CanOp(t, world, k, ps[k](world[k].h))
      modifies `world, `trail, `path, `active, `completed, `lastRun, `blockedOn, `again, `progress
      ensures Valid() && |world| == old(|world|) && YieldsAt(t, ps, fair, world, k)
      ensures Stretch(t, ps, fair, k, if resumed then 1 else 0, old(trail), old(path), old(world), trail, path, world)
      ensures forall j :: 0 <= j < |world| && j != k ==>
                world[j] == old(world[j]) && blockedOn[j] == old(blockedOn[j]) && again[j] == old(again[j])
      ensures forall j :: j in active <==> j in old(active) && (j != k || !y.Finished?)
      ensures lastRun == if y.Finished? then old(lastRun) - {k} else old(lastRun)
      ensures y.Parked? ==> blockedOn[k].Some? && (fair && !resumed ==> progress[k])
      ensures y.Raised? ==> Fails(t, ps, world, k)
      ensures Remaining(t, ps, bound, world, k) <= old(Remaining(t, ps, bound, world, k))
      ensures resumed && !y.Raised? ==>
                || Remaining(t, ps, bound, world, k) < old(Remaining(t, ps, bound, world, k))
                || (y.Parked? && !old(again[k]) && again[k])
      ensures resumed && old(Step(t, ps, world, k).Blocked?) ==>
                if fair && !old(again[k]) then y.Parked? && again[k] && trail == old(trail) else y.Raised?
    {
      hide Run, Finite, Fails, Distinct, Remaining, Stretch, Recorded, AtSyncAt;
      ghost var s, c, w, free := trail, path, world, if resumed then 1 else 0;
      RecordedLength(t, ps, trail, path);
      StretchStarts(t, ps, fair, k, free, s, c, w);
      if resumed {
        var going: bool;
        y, going := GoOn(k);
        if !going {
          return;
        }
        StretchSnoc(t, ps, fair, k, free, s, c, w, s, c, w, world);
      }
      ghost var s', c', w' := trail, path, world;
      y := RunOn(k);
      StretchJoin(t, ps, fair, k, free, s, c, w, s', c', w', trail, path, world);
    }

    /** The rest of `block_if_needed` and the operation: a fair kernel that still cannot proceed blocks a second
        time, any other performs the operation, and raises if it cannot. */
    method GoOn(k: nat) returns (y: Yield, going: bool)
      requires Valid() && k in active && blockedOn[k].None?
      requires AtSync(k) && CanOp(t, world, k, ps[k](world[k].h))
      modifies `world, `trail, `path, `blockedOn, `again
      ensures Valid() && |world| == old(|world|)
      ensures going <==> old(Step(t, ps, world, k).Next?)
      ensures going ==> trail == old(trail) + [k] && path == old(path) + [old(world)]
      ensures going ==> Remaining(t, ps, bound, world, k) < old(Remaining(t, ps, bound, world, k))
      ensures going ==> blockedOn == old(blockedOn) && again == old(again)
      ensures !going ==> world == old(world) && trail == old(trail) && path == old(path)
      ensures !going ==>
          if fair && !old(again[k]) && Step(t, ps, world, k).Blocked? then y.Parked? && again[k] && blockedOn[k].Some?
          else y.Raised? && Fails(t, ps, world, k)
      ensures forall j :: 0 <= j < |world| && j != k ==>
                world[j] == old(world[j]) && blockedOn[j] == old(blockedOn[j]) && again[j] == old(again[j])
    {
      hide Run, Finite, Fails, Distinct, Remaining, Recorded;
      var blocked := StepCmd(t, world, k, ps[k](world[k].h)).Blocked?;
      if fair && !again[k] && blocked {
        Park(k, true);
        return Parked, false;
      }
      y, going := Execute(k);
    }

    /** Run kernel `k` from inside its code to its next yield. */
    method RunOn(k: nat) returns (y: Yield)
      requires Valid() && k in active && blockedOn[k].None?
      modifies `world, `trail, `path, `active, `completed, `lastRun, `blockedOn, `again, `progress
      ensures Valid() && |world| == old(|world|) && YieldsAt(t, ps, fair, world, k)
      ensures Stretch(t, ps, fair, k, 0, old(trail), old(path), old(world), trail, path, world)
      ensures forall j :: 0 <= j < |world| && j != k ==>
                world[j] == old(world[j]) && blockedOn[j] == old(blockedOn[j]) && again[j] == old(again[j])
      ensures forall j :: j in active <==> j in old(active) && (j != k || !y.Finished?)
      ensures lastRun == if y.Finished? then old(lastRun) - {k} else old(lastRun)
      ensures y.Parked? ==> blockedOn[k].Some? && (fair ==> progress[k])
      ensures y.Raised? ==> Fails(t, ps, world, k)
      ensures Remaining(t, ps, bound, world, k) <= old(Remaining(t, ps, bound, world, k))
    {
      hide Stretch, Recorded, AtSyncAt, YieldsAt;
      RecordedLength(t, ps, trail, path);
      StretchStarts(t, ps, fair, k, 0, trail, path, world);
      var going := true;
      y := Finished;
      while going
        invariant Valid() && |world| == old(|world|) && (!going ==> YieldsAt(t, ps, fair, world, k))
        invariant Stretch(t, ps, fair, k, 0, old(trail), old(path), old(world), trail, path, world)
        invariant going ==> k in active && blockedOn == old(blockedOn) && again == old(again)
        invariant going ==> active == old(active) && lastRun == old(lastRun)
        invariant !going ==>
            && (forall j :: 0 <= j < |world| && j != k ==>
                  blockedOn[j] == old(blockedOn[j]) && again[j] == old(again[j]))
            && (forall j :: j in active <==> j in old(active) && (j != k || !y.Finished?))
            && lastRun == (if y.Finished? then old(lastRun) - {k} else old(lastRun))
            && (y.Parked? ==> blockedOn[k].Some? && (fair ==> progress[k]))
            && (y.Raised? ==> Fails(t, ps, world, k))
        invariant Remaining(t, ps, bound, world, k) <= old(Remaining(t, ps, bound, world, k))
        invariant forall j :: 0 <= j < |world| && j != k ==> world[j] == old(world[j])
        decreases going, Remaining(t, ps, bound, world, k)
      {
        ghost var s, c, w := trail, path, world;
        y, going := Advance(k);
        if going {
          StretchSnoc(t, ps, fair, k, 0, old(trail), old(path), old(world), s, c, w, world);
        }
      }
    }

    /** The kernel's next command: end, yield, raise, or take a micro-step and go on. */
    method Advance(k: nat) returns (y: Yield, going: bool)
      requires Valid() && k in active && blockedOn[k].None?
      modifies `world, `trail, `path, `active, `completed, `lastRun, `blockedOn, `again, `progress
      ensures Valid() && |world| == old(|world|)
      ensures going ==> trail == old(trail) + [k] && path == old(path) + [old(world)]
      ensures going && fair ==> !AtSyncAt(t, ps, old(world), k)
      ensures !going ==> world == old(world) && trail == old(trail) && path == old(path)
      ensures !going ==> YieldsAt(t, ps, fair, world, k)
      ensures fair && old(AtSync(k)) ==> y.Parked? && !going
      ensures !fair && y.Parked? && !going ==> Step(t, ps, world, k).Blocked?
      ensures forall j :: 0 <= j < |world| && j != k ==> world[j] == old(world[j])
      ensures Remaining(t, ps, bound, world, k) <= old(Remaining(t, ps, bound, world, k))
      ensures going ==>
          && blockedOn == old(blockedOn) && again == old(again) && active == old(active) && lastRun == old(lastRun)
          && Remaining(t, ps, bound, world, k) < old(Remaining(t, ps, bound, world, k))
      ensures !going ==>
          && (forall j :: 0 <= j < |world| && j != k ==> blockedOn[j] == old(blockedOn[j]) && again[j] == old(again[j]))
          && (forall j :: j in active <==> j in old(active) && (j != k || !y.Finished?))
          && lastRun == (if y.Finished? then old(lastRun) - {k} else old(lastRun))
          && (y.Parked? ==> blockedOn[k].Some? && (fair ==> progress[k]))
          && (y.Raised? ==> Fails(t, ps, world, k))
    {
      hide Run, Finite, Fails, Distinct, Remaining;
      var cmd := ps[k](world[k].h);
      if cmd.Done? {
        Finish(k);
        return Finished, false;
      }
      if IsSync(cmd) && !AutoDue(t, world[k], cmd) {
        var parked := BlockIfNeeded(k);
        if parked {
          return Parked, false;
        }
      }
      y, going := Execute(k);
    }

    /** `block_if_needed` up to its first yield: the fair algorithm always yields, the greedy one if the operation
        cannot proceed at this node; and it marks progress when the fair algorithm comes here or the check passes. */
    method BlockIfNeeded(k: nat) returns (parked: bool)
      requires Valid() && k in active && blockedOn[k].None? && AtSync(k)
      modifies `blockedOn, `again, `progress
      ensures Valid() && (parked <==> fair || Step(t, ps, world, k).Blocked?)
      ensures parked ==> blockedOn == old(blockedOn)[k := Some(ps[k](world[k].h))] && again == old(again)[k := false]
      ensures !parked ==> blockedOn == old(blockedOn) && again == old(again) && CanOp(t, world, k, ps[k](world[k].h))
      ensures progress == if fair || !parked then old(progress)[k := true] else old(progress)
    {
      var cmd := ps[k](world[k].h);
      if fair {
        MarkProgress(k);
        Park(k, false);
        return true;
      }
      if StepCmd(t, world, k, cmd).Blocked? {
        Park(k, false);
        return true;
      }
      PollIsExact(t, world, k, cmd);
      MarkProgress(k);
      parked := false;
    }

    /** Perform the next command of a kernel that need not wait for it; a receive that was misled raises. */
    method Execute(k: nat) returns (y: Yield, going: bool)
      requires Valid() && k in active && blockedOn[k].None? && !ps[k](world[k].h).Done?
      requires AtSync(k) ==> CanOp(t, world, k, ps[k](world[k].h))
      modifies `world, `trail, `path
      ensures Valid() && |world| == old(|world|)
      ensures going <==> old(Step(t, ps, world, k).Next?)
      ensures going ==> trail == old(trail) + [k] && path == old(path) + [old(world)]
      ensures !going ==> trail == old(trail) && path == old(path)
      ensures forall j :: 0 <= j < |world| && j != k ==> world[j] == old(world[j])
      ensures going ==> Remaining(t, ps, bound, world, k) < old(Remaining(t, ps, bound, world, k))
      ensures !going ==> world == old(world) && y.Raised? && Fails(t, ps, world, k)
    {
      OnlySyncBlocks(t, world, k, ps[k](world[k].h));
      var res := StepCmd(t, world, k, ps[k](world[k].h));
      if res.Crash? || res.Blocked? {
        return Raised, false;
      }
      Micro(k);
      y, going := Finished, true;
    }

    /** Between turns: the micro-steps are explained by the turns, and the fair algorithm has kept its order. */
    ghost predicate Orderly()
      reads this
    {
      && Explained(t, ps, fair, turns, starts, trail, path, world)
      && (fair ==> FairSoFar(turns, active, lastRun, timestamp))
    }

    /** After any turn, also one that raised. */
    ghost predicate FairTurns()
      reads this
    {
      Explained(t, ps, fair, turns, starts, trail, path, world) && (fair ==> LruFair(turns))
    }

    /** The turn of one candidate in the main loop. */
    method TakeTurn(k: nat) returns (ran: bool, y: Yield)
      requires Valid() && k in active && Orderly()
      requires fair ==> ServedSince(turns, active, k)
      modifies this
      ensures Valid() && |world| == old(|world|) && FairTurns() && turns == old(turns) + [Turn(k, ran)]
      ensures !y.Raised? ==> OthersKept(k, old(active), old(lastRun), active, lastRun)
      ensures ran <==> old(Ready(k))
      ensures !ran ==> !y.Raised? && world == old(world) && active == old(active) && blockedOn == old(blockedOn)
      ensures !ran ==> again == old(again)
      ensures y.Raised? ==> Fails(t, ps, world, k)
      ensures !y.Raised? ==> Orderly()
      ensures ran && !y.Raised? ==> Work() < old(Work())
    {
      if blockedOn[k].Some? && !CanOp(t, world, k, blockedOn[k].value) {
        if fair {
          TurnKeepsFair(turns, active, lastRun, timestamp, k, false, active);
        }
        RecordedLength(t, ps, trail, path);
        StretchStarts(t, ps, fair, k, 1, trail, path, world);
        Record(k, false, trail, path, world);
        return false, Parked;
      }
      ran := true;
      y := Activate(k);
    }

    /** The commands still to come, over all kernels. */
    ghost function Work(): nat
      reads this
      requires Valid()
    {
      Sum(Weights(t, ps, bound, world, active, blockedOn, again))
    }

    /** Clear a kernel's blocking state, run it to its next yield, and stamp it. */
    method Activate(k: nat) returns (y: Yield)
      requires Valid() && k in active && Orderly() && Ready(k)
      requires fair ==> ServedSince(turns, active, k)
      modifies this
      ensures Valid() && |world| == old(|world|) && FairTurns() && turns == old(turns) + [Turn(k, true)]
      ensures !y.Raised? ==> OthersKept(k, old(active), old(lastRun), active, lastRun)
      ensures y.Raised? ==> Fails(t, ps, world, k)
      ensures !y.Raised? ==> Orderly() && Work() < old(Work())
    {
      ghost var was, last, s, c, w := active, lastRun, trail, path, world;
      BeforeTurn(k);
      hide *;
      y := Resume(k);
      EndTurn(k, y.Raised?, s, c, w, was, last);
    }

    /** The turn of an activated kernel is over; unless it raised, it is stamped. */
    method EndTurn(k: nat, raised: bool, ghost s: seq<nat>, ghost c: seq<Config>, ghost w: Config,
                   ghost was: seq<nat>, ghost last: map<nat, nat>)
      requires Valid() && Explained(t, ps, fair, turns, starts, s, c, w) && YieldsAt(t, ps, fair, world, k)
      requires Stretch(t, ps, fair, k, 1, s, c, w, trail, path, world)
      requires k in was && HasRun(k, was, last, active, lastRun)
      requires fair ==> FairSoFar(turns, was, last, timestamp) && ServedSince(turns, was, k)
      requires fair ==> LruFair(turns + [Turn(k, true)])
      modifies `turns, `starts, `timestamp, `lastRun
      ensures Valid() && FairTurns() && turns == old(turns) + [Turn(k, true)] && Work() == old(Work())
      ensures !raised ==> Orderly() && OthersKept(k, was, last, active, lastRun)
    {
      ghost var past := turns;
      Record(k, true, s, c, w);
      if !raised {
        Stamp(k, was, last, past);
      }
      AfterTurn();
    }

    lemma BeforeTurn(k: nat)
      requires Orderly() && k in active
      ensures Explained(t, ps, fair, turns, starts, trail, path, world)
      ensures fair ==> FairSoFar(turns, active, lastRun, timestamp) && LruFair(turns + [Turn(k, true)])
    {
      if fair {
        TurnIsFair(turns, active, lastRun, timestamp, k);
      }
    }

    lemma AfterTurn()
      requires Explained(t, ps, fair, turns, starts, trail, path, world) && (fair ==> LruFair(turns))
      ensures FairTurns() && ((fair ==> FairSoFar(turns, active, lastRun, timestamp)) ==> Orderly())
    {
    }

    /** A turn that began after the micro-steps `s` is over. */
    ghost method Record(k: nat, ran: bool, s: seq<nat>, c: seq<Config>, w: Config)
      requires Valid() && Explained(t, ps, fair, turns, starts, s, c, w)
      requires Stretch(t, ps, fair, k, 1, s, c, w, trail, path, world)
      requires if ran then YieldsAt(t, ps, fair, world, k) else trail == s
      modifies `turns, `starts
      ensures Valid() && turns == old(turns) + [Turn(k, ran)]
      ensures Explained(t, ps, fair, turns, starts, trail, path, world)
    {
      ExplainedSnoc(t, ps, fair, turns, starts, s, c, w, k, ran, trail, path, world);
      turns := turns + [Turn(k, ran)];
      starts := starts + [|s|];
    }

    /** Clear a kernel's blocking state and switch into it. */
    method Resume(k: nat) returns (y: Yield)
      requires Valid() && k in active && Ready(k)
      modifies `world, `trail, `path, `active, `completed, `lastRun, `blockedOn, `again, `progress
      ensures Valid() && |world| == old(|world|) && YieldsAt(t, ps, fair, world, k)
      ensures Stretch(t, ps, fair, k, 1, old(trail), old(path), old(world), trail, path, world)
      ensures HasRun(k, old(active), old(lastRun), active, lastRun)
      ensures y.Raised? ==> Fails(t, ps, world, k)
      ensures !y.Raised? ==> Work() < old(Work())
    {
      ghost var c, a, bl, re := world, active, blockedOn, again;
      var resumed := blockedOn[k].Some?;
      blockedOn := blockedOn[k := None];
      y := Switch(k, resumed);
      MoreFree(t, ps, fair, k, if resumed then 1 else 0, old(trail), old(path), old(world), trail, path, world);
      if !y.Raised? {
        ActivationLowersWork(t, ps, bound, k, c, a, bl, re, world, active, blockedOn, again);
      }
    }

    /** After an activation, which followed the turns `past`, the kernel gets the next time stamp. */
    method Stamp(k: nat, ghost was: seq<nat>, ghost last: map<nat, nat>, ghost past: seq<Turn>)
      requires Valid() && k in was && turns == past + [Turn(k, true)]
      requires HasRun(k, was, last, active, lastRun)
      requires fair ==> FairSoFar(past, was, last, timestamp) && ServedSince(past, was, k)
      modifies `timestamp, `lastRun
      ensures Valid() && (fair ==> FairSoFar(turns, active, lastRun, timestamp))
      ensures OthersKept(k, was, last, active, lastRun)
    {
      hide FairSoFar, ServedSince, HasRun, OthersKept, Run, Finite, Distinct, Suspended, Recorded;
      HasRunKeeps(k, was, last, active, lastRun, timestamp + 1);
      if fair {
        TurnKeepsFair(past, was, last, timestamp, k, true, active);
      }
      timestamp := timestamp + 1;
      lastRun := lastRun[k := timestamp];
    }

    /** Offer the i-th candidate of a pass its turn. */
    method Offer(candidates: seq<nat>, i: nat, ghost start: nat, ghost last: map<nat, nat>)
      returns (ran: bool, y: Yield)
      requires Valid() && Orderly() && Distinct(candidates) && i < |candidates| && candidates[i] < |ps|
      requires PassSoFar(turns, active, lastRun, last, start, candidates, i)
      requires forall j :: 0 <= j < |candidates| ==> candidates[j] in last
      requires fair ==> forall a, b :: 0 <= a < b < |candidates| ==> last[candidates[a]] <= last[candidates[b]]
      modifies this
      ensures Valid() && |world| == old(|world|) && FairTurns()
      ensures ran <==> candidates[i] in old(ReadySet())
      ensures !ran ==> !y.Raised? && world == old(world) && active == old(active) && blockedOn == old(blockedOn)
      ensures !ran ==> again == old(again)
      ensures !ran ==> ReadySet() == old(ReadySet())
      ensures y.Raised? ==> Fails(t, ps, world, candidates[i])
      ensures !y.Raised? ==> Orderly() && PassSoFar(turns, active, lastRun, last, start, candidates, i + 1)
      ensures ran && !y.Raised? ==> Work() < old(Work())
    {
      hide PassSoFar, ServedSince, StampsAgree, Explained, OthersKept;
      NextIsActive(turns, active, lastRun, last, start, candidates, i);
      if fair {
        FairAgrees(turns, active, lastRun, timestamp);
        PassServes(turns, active, lastRun, last, start, candidates, i);
      }
      ghost var was, a, l := turns, active, lastRun;
      ran, y := TakeTurn(candidates[i]);
      if !y.Raised? {
        PassGoesOn(was, a, l, last, start, candidates, i, turns, active, lastRun);
      }
    }

    /** i candidates of a pass have had their turn; `ready`, `c`, `a`, `bl` and `work` are as at its start. */
    ghost predicate InPass(candidates: seq<nat>, i: nat, any: bool, start: nat, last: map<nat, nat>, ready: set<nat>,
                           c: Config, a: seq<nat>, bl: seq<Option<Cmd>>, work: nat)
      reads this
    {
      && Valid() && Orderly() && |world| == |c|
      && PassSoFar(turns, active, lastRun, last, start, candidates, i)
      && (any ==> Work() < work && ready != {})
      && (!any ==> world == c && active == a && blockedOn == bl && Work() <= work)
      && (!any ==> ReadySet() == ready && Left(ready, candidates, i))
    }

    /** The next turn of a pass. */
    method NextTurn(candidates: seq<nat>, i: nat, any: bool, ghost start: nat, ghost last: map<nat, nat>,
                    ghost ready: set<nat>, ghost c: Config, ghost a: seq<nat>, ghost bl: seq<Option<Cmd>>,
                    ghost work: nat)
      returns (now: bool, y: Yield)
      requires InPass(candidates, i, any, start, last, ready, c, a, bl, work)
      requires Distinct(candidates) && i < |candidates|
      requires forall j :: 0 <= j < |candidates| ==> candidates[j] in last && candidates[j] < |ps|
      requires fair ==> forall a, b :: 0 <= a < b < |candidates| ==> last[candidates[a]] <= last[candidates[b]]
      modifies this
      ensures Valid() && |world| == old(|world|)
      ensures y.Raised? ==> now && FairTurns() && Fails(t, ps, world, candidates[i])
      ensures !y.Raised? ==> InPass(candidates, i + 1, now, start, last, ready, c, a, bl, work)
    {
      hide PassSoFar, FairSoFar, Suspended, Run, Finite, Distinct, Explained, LruFair, FairTurns, Fails, Orderly;
      var ran: bool;
      ran, y := Offer(candidates, i, start, last);
      now := any || ran;
      if !now {
        OneLeftOut(ready, candidates, i);
      } else if !any {
        assert candidates[i] in ready;
      }
    }

    /** One pass over the candidates: it activates somebody exactly when, at its start, some
        active kernel is unstarted or its operation can proceed. */
    method RunPass(candidates: seq<nat>) returns (any: bool, y: Yield, who: nat)
      requires Valid() && Orderly() && Distinct(candidates)
      requires forall k :: k in candidates <==> k in active
      requires fair ==> forall i, j :: 0 <= i < j < |candidates| ==> lastRun[candidates[i]] <= lastRun[candidates[j]]
      modifies this
      ensures Valid() && |world| == old(|world|) && FairTurns()
      ensures y.Raised? ==> who < |ps| && Fails(t, ps, world, who)
      ensures !y.Raised? ==> Orderly() && (any <==> old(ReadySet()) != {})
      ensures !y.Raised? ==> Offered(old(turns), candidates, turns)
      ensures !y.Raised? && any ==> Work() < old(Work())
      ensures !any ==> world == old(world) && active == old(active) && blockedOn == old(blockedOn)
    {
      hide *;
      any, y, who := false, Parked, 0;
      ghost var was, start, last, ready := turns, |turns|, lastRun, ReadySet();
      ghost var c, a, bl, work := world, active, blockedOn, Work();
      PassStarts(candidates);
      for i := 0 to |candidates|
        invariant !y.Raised? && |world| == |c|
        invariant InPass(candidates, i, any, start, last, ready, c, a, bl, work)
      {
        any, y := NextTurn(candidates, i, any, start, last, ready, c, a, bl, work);
        if y.Raised? {
          return any, y, candidates[i];
        }
      }
      PassEnds(was, candidates, any, last, ready, c, a, bl, work);
      OrderlyIsFair();
    }

    lemma PassStarts(candidates: seq<nat>)
      requires Valid() && Orderly() && Distinct(candidates) && forall k :: k in candidates <==> k in active
      ensures InPass(candidates, 0, false, |turns|, lastRun, ReadySet(), world, active, blockedOn, Work())
      ensures forall j :: 0 <= j < |candidates| ==> candidates[j] < |ps| && candidates[j] in lastRun
    {
      PassBegins(turns, active, lastRun, candidates);
      AllLeft(ReadySet(), candidates);
      forall j | 0 <= j < |candidates|
        ensures candidates[j] < |ps| && candidates[j] in lastRun
      {
        assert candidates[j] in active;
      }
    }

    lemma PassEnds(was: seq<Turn>, candidates: seq<nat>, any: bool, last: map<nat, nat>, ready: set<nat>,
                   c: Config, a: seq<nat>, bl: seq<Option<Cmd>>, work: nat)
      requires InPass(candidates, |candidates|, any, |was|, last, ready, c, a, bl, work)
      ensures Valid() && Orderly() && (any <==> ready != {}) && (any ==> Work() < work)
      ensures Offered(was, candidates, turns)
      ensures !any ==> world == c && active == a && blockedOn == bl
    {
      if !any {
        forall k | k in ready
          ensures k in candidates[|candidates|..]
        {
        }
      }
    }

    lemma OrderlyIsFair()
      requires Orderly()
      ensures FairTurns()
    {
    }

    /** Run one kernel to its first yield, and stamp it if it has made progress. */
    method Initialize(k: nat) returns (y: Yield)
      requires Valid() && fair && k in active && blockedOn[k].None?
      modifies `world, `trail, `path, `active, `completed, `lastRun, `blockedOn, `again, `progress, `timestamp
      ensures Valid() && |world| == old(|world|)
      ensures Stretch(t, ps, fair, k, 0, old(trail), old(path), old(world), trail, path, world)
      ensures y.Raised? ==> Fails(t, ps, world, k)
      ensures !y.Raised? ==> HasStarted(k, old(active), old(blockedOn), old(lastRun), old(timestamp),
                                        active, blockedOn, lastRun, timestamp)
    {
      y := Switch(k, false);
      if y.Finished? {
        MarkCompleted(k); // the wrapper has already done so: completed lists the kernel twice
      } else if y.Parked? && progress[k] {
        timestamp := timestamp + 1;
        lastRun := lastRun[k := timestamp];
      }
    }

    /** `_initialization_phase` (fair algorithm only): run every kernel to its first yield. Whoever is
        still active has passed `mark_kernel_progress`, so it gets a time stamp. */
    method InitializationPhase() returns (y: Yield, who: nat)
      requires Valid() && fair && turns == [] && starts == [] && trail == [] && timestamp == 0
      requires forall k <- active :: blockedOn[k].None?
      modifies `world, `trail, `path, `active, `completed, `lastRun, `blockedOn, `again, `progress, `timestamp
      ensures Valid() && |world| == old(|world|) && FairTurns()
      ensures y.Raised? ==> who < |ps| && Fails(t, ps, world, who)
      ensures !y.Raised? ==> Orderly() && forall k <- active :: blockedOn[k].Some?
    {
      var order := active;
      y, who := Parked, 0;
      assert InitSoFar(order, 0, active, blockedOn, lastRun, timestamp);
      hide InitSoFar, HasStarted, FairSoFar, Explained, LruFair, Fails, Suspended, Run, Finite, Orderly, FairTurns;
      hide Stretch, Prologue, Recorded, AtSyncAt;
      for i := 0 to |order|
        invariant Valid() && !y.Raised? && |world| == old(|world|) && Prologue(t, ps, true, |trail|, trail, path)
        invariant InitSoFar(order, i, active, blockedOn, lastRun, timestamp)
      {
        ghost var a, bl, l, now := active, blockedOn, lastRun, timestamp;
        NextIsUnstarted(order, i, active, blockedOn, lastRun, timestamp);
        ghost var s, c, w := trail, path, world;
        y := Initialize(order[i]);
        PrologueGoesOn(t, ps, order[i], s, c, w, trail, path, world);
        if y.Raised? {
          NoTurnsYet();
          return y, order[i];
        }
        InitGoesOn(order, i, a, bl, l, now, active, blockedOn, lastRun, timestamp);
      }
      NoTurnsYet();
      InitEnds(order, active, blockedOn, lastRun, timestamp);
    }

    lemma NoTurnsYet()
      requires turns == [] && starts == [] && Prologue(t, ps, fair, |trail|, trail, path)
      ensures FairTurns() && (FairSoFar([], active, lastRun, timestamp) ==> Orderly())
    {
      PrologueExplains(t, ps, fair, trail, path, world);
    }

    /** Nobody is active: every kernel has ended. */
    lemma AllDone()
      requires Valid() && active == []
      ensures Result(t, ps, Completed, world)
    {
      forall k | 0 <= k < |world| ensures Step(t, ps, world, k).Halted? {
        OnlySyncBlocks(t, world, k, ps[k](world[k].h));
      }
    }

    /** A pass that activates nobody has found a deadlock. */
    lemma StuckIsDeadlock()
      requires Valid() && active != [] && ReadySet() == {}
      ensures Result(t, ps, Deadlocked, world)
    {
      forall k | 0 <= k < |world|
        ensures !Enabled(t, ps, world, k) && (k in active ==> Step(t, ps, world, k).Blocked?) {
        OnlySyncBlocks(t, world, k, ps[k](world[k].h));
        if k in active {
          assert !Ready(k) by { assert k !in ReadySet(); }
          PollIsExact(t, world, k, ps[k](world[k].h));
        }
      }
      assert active[0] in active;
      assert Step(t, ps, world, active[0]).Blocked?;
    }

    /** The order in which a pass tries the kernels. */
    method Candidates() returns (candidates: seq<nat>)
      requires Valid()
      ensures Distinct(candidates) && forall k :: k in candidates <==> k in active
      ensures !fair ==> candidates == active
      ensures fair ==> forall i, j :: 0 <= i < j < |candidates| ==>
                KeyLe(KeyOf(lastRun, ids, candidates[i]), KeyOf(lastRun, ids, candidates[j]))
                && lastRun[candidates[i]] <= lastRun[candidates[j]]
    {
      if !fair {
        return active;
      }
      var last, names := lastRun, ids;
      var key := (k: nat) => KeyOf(last, names, k);
      candidates := FairOrder(active, key);
      forall i, j | 0 <= i < j < |candidates|
        ensures KeyLe(KeyOf(lastRun, ids, candidates[i]), KeyOf(lastRun, ids, candidates[j]))
                && lastRun[candidates[i]] <= lastRun[candidates[j]]
      {
        assert KeyLe(key(candidates[i]), key(candidates[j]));
      }
    }

    /** `run`: all kernels to completion, to a deadlock, or to the first error. It ends; the micro-steps are those of
        the activated kernels, turn by turn, each up to its next yield; and the fair algorithm's turns are fair. */
    method RunAll() returns (o: Ending)
      requires Valid() && turns == [] && starts == [] && trail == [] && timestamp == 0
      requires forall k <- active :: blockedOn[k].None?
      modifies this
      ensures Valid() && Stopped(t, ps, o, world) && (SingleReceiver(t) ==> Result(t, ps, o, world))
      ensures Explained(t, ps, fair, turns, starts, trail, path, world) && (fair ==> LruFair(turns))
    {
      if fair {
        var y, who := InitializationPhase();
        if y.Raised? {
          FailureStops(t, ps, trail, world, who);
          return Crashed(who);
        }
      }
      while active != []
        invariant Valid() && Orderly()
        decreases Work()
      {
        var candidates := Candidates();
        var any, y, who := RunPass(candidates);
        if y.Raised? {
          FailureStops(t, ps, trail, world, who);
          return Crashed(who);
        }
        if !any && active != [] {
          StuckIsDeadlock();
          return Deadlocked;
        }
      }
      AllDone();
      o := Completed;
    }
  }

  /** Where the scheduler stops: as every schedule does, or at a kernel that the poll of a pipe has misled. */
  ghost predicate Stopped(t: Topo, ps: seq<Prog>, o: Ending, w: Config)
    requires WFProgs(t, ps)
  {
    || Result(t, ps, o, w)
    || (o.Crashed? && (exists s :: Run(t, ps, Start(t), s, w)) && WF(t, ps, w) && o.k < |w|
        && Misled(t, w, o.k, ps[o.k](w[o.k].h)))
  }

  lemma FailureStops(t: Topo, ps: seq<Prog>, s: seq<nat>, w: Config, k: nat)
    requires WFProgs(t, ps) && Run(t, ps, Start(t), s, w) && WF(t, ps, w) && k < |w| && Fails(t, ps, w, k)
    ensures Stopped(t, ps, Crashed(k), w) && (SingleReceiver(t) ==> Result(t, ps, Crashed(k), w))
  {
    assert Legal(t, k, ps[k](w[k].h));
    if SingleReceiver(t) && Misled(t, w, k, ps[k](w[k].h)) {
      PollIsExact(t, w, k, ps[k](w[k].h));
    }
  }

  /** The first `i` kernels of the initialization phase have yielded, with distinct stamps. */
  ghost predicate InitSoFar(order: seq<nat>, i: nat, active: seq<nat>, blocked: seq<Option<Cmd>>,
                            last: map<nat, nat>, now: nat)
  {
    && i <= |order| && Distinct(order)
    && (forall k <- active :: k in order && k in last && k < |blocked|)
    && (forall j :: i <= j < |order| ==> order[j] in active && blocked[order[j]].None?)
    && (forall j :: 0 <= j < i && order[j] in active ==> blocked[order[j]].Some? && 1 <= last[order[j]] <= now)
    && (forall j, l :: 0 <= j < l < i && order[j] in active && order[l] in active ==> last[order[j]] != last[order[l]])
    && (i == |order| ==> FairSoFar([], active, last, now) && forall k <- active :: blocked[k].Some?)
  }

  lemma NextIsUnstarted(order: seq<nat>, i: nat, active: seq<nat>, blocked: seq<Option<Cmd>>, last: map<nat, nat>,
                        now: nat)
    requires i < |order| && InitSoFar(order, i, active, blocked, last, now)
    ensures order[i] in active && order[i] < |blocked| && blocked[order[i]].None?
  {
  }

  lemma InitEnds(order: seq<nat>, active: seq<nat>, blocked: seq<Option<Cmd>>, last: map<nat, nat>, now: nat)
    requires InitSoFar(order, |order|, active, blocked, last, now)
    ensures FairSoFar([], active, last, now) && forall k <- active :: k < |blocked| && blocked[k].Some?
  {
  }

  /** Kernel k has run to its first yield, which is stamped, or to its end. */
  ghost predicate HasStarted(k: nat, active: seq<nat>, blocked: seq<Option<Cmd>>, last: map<nat, nat>, now: nat,
                             active': seq<nat>, blocked': seq<Option<Cmd>>, last': map<nat, nat>, now': nat)
  {
    && |blocked'| == |blocked| && (forall j :: 0 <= j < |blocked| && j != k ==> blocked'[j] == blocked[j])
    && (forall j <- active' :: j in active) && (forall j <- active :: j != k ==> j in active')
    && (k !in active' ==> last' == last - {k} && now' == now)
    && (k in active' ==> k < |blocked| && blocked'[k].Some? && now' == now + 1 && last' == last[k := now'])
  }

  lemma InitGoesOn(order: seq<nat>, i: nat, active: seq<nat>, blocked: seq<Option<Cmd>>, last: map<nat, nat>, now: nat,
                   active': seq<nat>, blocked': seq<Option<Cmd>>, last': map<nat, nat>, now': nat)
    requires i < |order| && InitSoFar(order, i, active, blocked, last, now)
    requires HasStarted(order[i], active, blocked, last, now, active', blocked', last', now')
    ensures InitSoFar(order, i + 1, active', blocked', last', now')
  {
    assert forall j :: 0 <= j < |order| && j != i ==> order[j] != order[i];
  }

  /** `i` candidates have had their turn in this pass, the others are still as they were. */
  ghost predicate PassSoFar(turns: seq<Turn>, active: seq<nat>, lastRun: map<nat, nat>, last: map<nat, nat>,
                            start: nat, candidates: seq<nat>, i: nat)
  {
    && i <= |candidates| && |turns| == start + i
    && (forall z :: start <= z < |turns| ==> turns[z].k == candidates[z - start])
    && (forall k <- active :: k in candidates)
    && (forall j :: i <= j < |candidates| ==>
          candidates[j] in active && candidates[j] in lastRun && candidates[j] in last
          && lastRun[candidates[j]] == last[candidates[j]])
  }

  /** One turn has been offered to each candidate, in order. */
  predicate Offered(turns: seq<Turn>, candidates: seq<nat>, turns': seq<Turn>)
  {
    && |turns'| == |turns| + |candidates|
    && forall j :: 0 <= j < |candidates| ==> turns'[|turns| + j].k == candidates[j]
  }

  lemma PassBegins(turns: seq<Turn>, active: seq<nat>, lastRun: map<nat, nat>, candidates: seq<nat>)
    requires forall k :: k in candidates <==> k in active
    requires forall k <- active :: k in lastRun
    ensures PassSoFar(turns, active, lastRun, lastRun, |turns|, candidates, 0)
  {
  }

  lemma NextIsActive(turns: seq<Turn>, active: seq<nat>, lastRun: map<nat, nat>, last: map<nat, nat>, start: nat,
                     candidates: seq<nat>, i: nat)
    requires i < |candidates| && PassSoFar(turns, active, lastRun, last, start, candidates, i)
    ensures candidates[i] in active
  {
  }

  lemma FairAgrees(turns: seq<Turn>, active: seq<nat>, last: map<nat, nat>, now: nat)
    requires FairSoFar(turns, active, last, now)
    ensures StampsAgree(turns, active, last)
  {
  }

  /** Kernel k has run, and has ended if it is no longer active. */
  ghost predicate HasRun(k: nat, active: seq<nat>, last: map<nat, nat>, active': seq<nat>, last': map<nat, nat>)
  {
    && (forall j :: j in active' <==> j in active && (j != k || k in active'))
    && (forall j <- active :: j in last) && (last' == last || last' == last - {k})
  }

  lemma HasRunKeeps(k: nat, active: seq<nat>, last: map<nat, nat>, active': seq<nat>, last': map<nat, nat>, now: nat)
    requires HasRun(k, active, last, active', last')
    ensures last'[k := now] == last[k := now] && OthersKept(k, active, last, active', last'[k := now])
    ensures forall j <- active' :: j in active && j in last'[k := now]
  {
  }

  /** Nobody joins the active kernels, and apart from k they and their time stamps stay. */
  ghost predicate OthersKept(k: nat, active: seq<nat>, last: map<nat, nat>, active': seq<nat>, last': map<nat, nat>)
  {
    && (forall j <- active' :: j in active)
    && (forall j <- active :: j != k ==> j in active' && j in last && j in last' && last'[j] == last[j])
  }

  lemma PassGoesOn(turns: seq<Turn>, active: seq<nat>, lastRun: map<nat, nat>, last: map<nat, nat>, start: nat,
                   candidates: seq<nat>, i: nat, turns': seq<Turn>, active': seq<nat>, lastRun': map<nat, nat>)
    requires i < |candidates| && PassSoFar(turns, active, lastRun, last, start, candidates, i) && Distinct(candidates)
    requires |turns'| == |turns| + 1 && turns'[..|turns|] == turns && turns'[|turns|].k == candidates[i]
    requires OthersKept(candidates[i], active, lastRun, active', lastRun')
    ensures PassSoFar(turns', active', lastRun', last, start, candidates, i + 1)
  {
    forall z | start <= z < |turns'| ensures turns'[z].k == candidates[z - start] {
      assert z < |turns| ==> turns'[z] == turns'[..|turns|][z];
    }
  }

  /** In least-recently-run order, everybody still to come or already offered in this pass has had
      a turn since the candidate's last activation. */
  lemma PassServes(turns: seq<Turn>, active: seq<nat>, lastRun: map<nat, nat>, last: map<nat, nat>, start: nat,
                   candidates: seq<nat>, i: nat)
    requires StampsAgree(turns, active, lastRun) && Distinct(candidates)
    requires i < |candidates| && PassSoFar(turns, active, lastRun, last, start, candidates, i)
    requires forall k <- active :: k in lastRun
    requires forall k <- candidates :: k in last
    requires forall a, b :: 0 <= a < b < |candidates| ==> last[candidates[a]] <= last[candidates[b]]
    ensures ServedSince(turns, active, candidates[i])
  {
    var e := candidates[i];
    forall k, x | k in active && k != e && 0 <= x < |turns| && turns[x] == Turn(e, true)
      ensures exists z :: x < z < |turns| && turns[z].k == k
    {
      var j :| 0 <= j < |candidates| && candidates[j] == k;
      if j < i {
        assert turns[start + j].k == k;
      } else {
        assert last[e] <= last[k];
      }
    }
  }

  /** Run the same kernels under both algorithms, when no kernel overwrites what it has on a pipe and the poll of a
      multicast pipe misleads neither run (with single-destination pipes it never does). If the kernels pop only what
      they hold, then both end in an error or both end alike; and if any schedule at all runs cleanly to its end,
      then both do, with the same final state of every kernel and buffer. */
  method GreedyAndFairAgree(t: Topo, ps: seq<Prog>, ids: seq<KernelId>, ghost bound: nat)
    returns (greedy: Ending, w: Config, fair: Ending, w': Config)
    requires WFProgs(t, ps) && Finite(ps, bound) && |ids| == |ps|
    ensures Stopped(t, ps, greedy, w) && Stopped(t, ps, fair, w')
    ensures SingleReceiver(t) ==> Result(t, ps, greedy, w) && Result(t, ps, fair, w')
    ensures Result(t, ps, greedy, w) && Result(t, ps, fair, w') && Sealed(t, ps) ==>
              && (PopsHeld(ps) ==> (greedy.Crashed? && fair.Crashed?) || (greedy == fair && w == w'))
              && (HasCleanRun(t, ps) ==> greedy == fair && w == w' && !greedy.Crashed?)
  {
    var s := new GreenletScheduler(t, ps, ids, false, bound);
    greedy := s.RunAll();
    w := s.world;
    var s' := new GreenletScheduler(t, ps, ids, true, bound);
    fair := s'.RunAll();
    w' := s'.world;
    hide *;
    if Result(t, ps, greedy, w) && Result(t, ps, fair, w') && Sealed(t, ps) {
      if PopsHeld(ps) {
        AllSchedulesAgree(t, ps, greedy, w, fair, w');
      }
      if HasCleanRun(t, ps) {
        ScheduleIndependence(t, ps, greedy, w, fair, w');
      }
    }
  }
}
