/** The message queue of a pipe and its per-receiver bookkeeping (python/sim/copyhandlers.py). */
module Multicast {
  import opened Wrappers

  /** A queued message: the sent block's tensor, receivers still to come, id, and the nodes that have it. */
  datatype Msg = Msg(data: Tensor, remaining: int, id: nat, got: set<nat>)

  /** The index of the first message `node` has not received, or the length of the queue. */
  function FirstFor(q: seq<Msg>, node: nat): (i: nat)
    ensures i <= |q| && (i < |q| ==> node !in q[i].got)
    ensures forall j :: 0 <= j < i ==> node in q[j].got
  {
    if q == [] || node !in q[0].got then 0 else 1 + FirstFor(q[1..], node)
  }

  function SendTo(q: seq<Msg>, data: Tensor, receivers: nat, id: nat): seq<Msg>
  {
    q + [Msg(data, receivers, id, {})]
  }

  /** The message `node` receives and the queue it leaves; None when there is none for it. */
  function ReceiveFrom(q: seq<Msg>, node: nat): Option<(Tensor, seq<Msg>)>
  {
    var i := FirstFor(q, node);
    if i == |q| then None
    else
      var m := q[i];
      Some((m.data,
            if m.remaining == 1 then q[..i] + q[i + 1..]
            else q[i := m.(remaining := m.remaining - 1, got := m.got + {node})]))
  }

  /** `can_wait` inside a kernel: some message is still missing at `node`. */
  predicate CanWaitAt(q: seq<Msg>, node: nat)
  {
    exists m <- q :: node !in m.got
  }

  /** `can_wait` outside any kernel, as the scheduler asks it. */
  predicate CanWaitPolled(q: seq<Msg>) { q != [] }

  class PipeEntry {
    var queue: seq<Msg>
    var nextMsgId: nat

    constructor ()
      ensures queue == [] && nextMsgId == 0
    {
      queue, nextMsgId := [], 0;
    }

    method Send(data: Tensor, receivers: nat)
      modifies this
      ensures queue == SendTo(old(queue), data, receivers, old(nextMsgId)) && nextMsgId == old(nextMsgId) + 1
    {
      var id := nextMsgId;
      nextMsgId := nextMsgId + 1;
      queue := queue + [Msg(data, receivers, id, {})];
    }

    method CanWait(node: Option<nat>) returns (can: bool)
      ensures can <==> if node.Some? then CanWaitAt(queue, node.value) else CanWaitPolled(queue)
    {
      if |queue| == 0 {
        return false;
      }
      if node.None? {
        return true;
      }
      can := false;
      for i := 0 to |queue|
        invariant can <==> exists j :: 0 <= j < i && node.value !in queue[j].got
      {
        can := can || node.value !in queue[i].got;
      }
    }

    /** `transfer` at a known node; None stands for the final raise. */
    method Receive(node: nat) returns (data: Option<Tensor>)
      modifies this
      ensures nextMsgId == old(nextMsgId)
      ensures match ReceiveFrom(old(queue), node)
              case None => data == None && queue == old(queue)
              case Some((d, q)) => data == Some(d) && queue == q
    {
      var i := 0;
      while i < |queue|
        invariant i <= |queue| && queue == old(queue) && FirstFor(queue, node) >= i
      {
        var m := queue[i];
        if node !in m.got {
          assert FirstFor(queue, node) == i;
          var remaining := m.remaining - 1;
          if remaining == 0 {
            queue := queue[..i] + queue[i + 1..];
          } else {
            queue := queue[i := m.(remaining := remaining, got := m.got + {node})];
          }
          return Some(m.data);
        }
        i := i + 1;
      }
      data := None;
    }
  }

  // ----- The queue stands for the send log and one cursor per receiver -----

  /** The receivers whose cursor is past position `pos`. */
  function Have(at: map<nat, nat>, pos: nat): set<nat>
  {
    set r | r in at && at[r] > pos
  }

  /** Message `m` is the one sent as number `pos`, some receiver misses it, and `remaining` counts them. */
  predicate Fits(m: Msg, pos: nat, log: seq<Tensor>, at: map<nat, nat>)
  {
    pos < |log| && m.id == pos && m.data == log[pos] && m.got == Have(at, pos)
    && m.remaining == |at| - |m.got| && m.remaining >= 1
  }

  /** Everything sent is in `log`, receiver `r` has consumed the first `at[r]` messages, and the queue
      holds exactly the messages that some receiver still misses. */
  predicate Stands(q: seq<Msg>, log: seq<Tensor>, at: map<nat, nat>)
  {
    && |q| <= |log|
    && (forall i :: 0 <= i < |q| ==> Fits(q[i], |log| - |q| + i, log, at))
    && (forall r <- at :: |log| - |q| <= at[r] <= |log|)
  }

  lemma SendStands(q: seq<Msg>, log: seq<Tensor>, at: map<nat, nat>, data: Tensor)
    requires Stands(q, log, at) && |at| >= 1
    ensures Stands(SendTo(q, data, |at|, |log|), log + [data], at)
  {
    assert Have(at, |log|) == {};
  }

  /** Moving one cursor changes who has one message only. */
  lemma CursorMoves(at: map<nat, nat>, r: nat, pos: nat)
    requires r in at
    ensures var at' := at[r := at[r] + 1];
            && at'.Keys == at.Keys && |at'| == |at|
            && Have(at', pos) == (if pos == at[r] then Have(at, pos) + {r} else Have(at, pos))
            && (pos == at[r] ==> |Have(at', pos)| == |Have(at, pos)| + 1)
  {
    var at' := at[r := at[r] + 1];
    assert |at'| == |at'.Keys| && |at| == |at.Keys| && at'.Keys == at.Keys;
  }

  lemma SubsetSize(a: set<nat>, b: set<nat>)
    requires a <= b
    ensures |a| <= |b| && (|a| == |b| ==> a == b)
  {
    assert b == a + (b - a);
  }

  /** Who has a later message has every earlier one, and `remaining` counts who has not. */
  lemma ReceiveSetsNest(q: seq<Msg>, log: seq<Tensor>, at: map<nat, nat>, i: nat, j: nat)
    requires Stands(q, log, at) && i < j < |q|
    ensures q[j].got <= q[i].got && q[i].remaining + |q[i].got| == |at|
  {
  }

  /** The first message a receiver misses is the one at its cursor. */
  lemma FirstIsCursor(q: seq<Msg>, log: seq<Tensor>, at: map<nat, nat>, r: nat)
    requires Stands(q, log, at) && r in at
    ensures FirstFor(q, r) == at[r] - (|log| - |q|)
  {
    var i := FirstFor(q, r);
    assert i > 0 ==> r in q[i - 1].got;
  }

  /** The last receiver of a message finds it at the front of the queue. */
  lemma LastReceiverIsAtFront(q: seq<Msg>, log: seq<Tensor>, at: map<nat, nat>, r: nat)
    requires Stands(q, log, at) && r in at && at[r] < |log|
    ensures FirstFor(q, r) < |q|
    ensures q[FirstFor(q, r)].remaining == 1 ==>
              FirstFor(q, r) == 0 && q[0].got + {r} == at.Keys
  {
    FirstIsCursor(q, log, at, r);
    var i := FirstFor(q, r);
    var m := q[i];
    assert |at.Keys| == |at|;
    if m.remaining == 1 {
      assert m.got + {r} <= at.Keys;
      assert |m.got + {r}| == |m.got| + 1;
      SubsetSize(m.got + {r}, at.Keys);
      if i > 0 {
        assert m.got + {r} <= q[0].got;
        SubsetSize(m.got + {r}, q[0].got);
      }
    }
  }

  lemma MessageFits(m: Msg, pos: nat, log: seq<Tensor>, at: map<nat, nat>, r: nat)
    requires r in at && Fits(m, pos, log, at)
    ensures pos != at[r] ==> Fits(m, pos, log, at[r := at[r] + 1])
    ensures pos == at[r] && m.remaining > 1 ==>
              Fits(m.(remaining := m.remaining - 1, got := m.got + {r}), pos, log, at[r := at[r] + 1])
  {
    CursorMoves(at, r, pos);
  }

  /** What a receive leaves of the queue: everything, or everything but the first message. */
  lemma ReceiveLeaves(q: seq<Msg>, log: seq<Tensor>, at: map<nat, nat>, r: nat)
    requires Stands(q, log, at) && r in at && at[r] < |log|
    ensures ReceiveFrom(q, r).Some?
    ensures var q' := ReceiveFrom(q, r).value.1;
            && (|q'| == |q| || (q' == q[1..] && q != [] && q[0].remaining == 1 && at[r] == |log| - |q|))
            && forall s :: s in at ==> |log| - |q'| <= at[r := at[r] + 1][s]
  {
    FirstIsCursor(q, log, at, r);
    LastReceiverIsAtFront(q, log, at, r);
    var i, q' := FirstFor(q, r), ReceiveFrom(q, r).value.1;
    assert Fits(q[i], at[r], log, at);
    forall s | s in at
      ensures |log| - |q'| <= at[r := at[r] + 1][s]
    {
      if |q'| < |q| && s != r {
        assert s in q[0].got;
      }
    }
  }

  lemma ReceiveStandsNext(q: seq<Msg>, log: seq<Tensor>, at: map<nat, nat>, r: nat)
    requires Stands(q, log, at) && r in at && at[r] < |log|
    ensures ReceiveFrom(q, r).Some? && Stands(ReceiveFrom(q, r).value.1, log, at[r := at[r] + 1])
  {
    ReceiveLeaves(q, log, at, r);
    FirstIsCursor(q, log, at, r);
    LastReceiverIsAtFront(q, log, at, r);
    var q' := ReceiveFrom(q, r).value.1;
    forall j | 0 <= j < |q'|
      ensures Fits(q'[j], |log| - |q'| + j, log, at[r := at[r] + 1])
    {
      hide Fits;
      MessageFits(q[j + (|q| - |q'|)], |log| - |q'| + j, log, at, r);
    }
  }

  /** A receiver gets the next message of the log, or none when it has them all; a message only
      ever leaves the queue from the front. */
  lemma ReceiveStands(q: seq<Msg>, log: seq<Tensor>, at: map<nat, nat>, r: nat)
    requires Stands(q, log, at) && r in at
    ensures ReceiveFrom(q, r).None? <==> at[r] == |log|
    ensures at[r] < |log| ==>
              var (d, q') := ReceiveFrom(q, r).value;
              && d == log[at[r]] && Stands(q', log, at[r := at[r] + 1])
              && (q' == q[1..] || |q'| == |q|)
  {
    FirstIsCursor(q, log, at, r);
    if at[r] < |log| {
      ReceiveStandsNext(q, log, at, r);
      LastReceiverIsAtFront(q, log, at, r);
    }
  }

  /** A node may wait for exactly what a receive would find: a message somewhere in the queue that it misses. */
  lemma CanWaitFinds(q: seq<Msg>, node: nat)
    ensures CanWaitAt(q, node) <==> ReceiveFrom(q, node).Some?
  {
    if CanWaitAt(q, node) {
      var m :| m in q && node !in m.got;
      var j :| 0 <= j < |q| && q[j] == m;
      assert j >= FirstFor(q, node);
    }
  }

  // ----- Every run of one sender and its receivers -----

  datatype Event = Sent(data: Tensor) | Received(r: nat)

  /** The queue, the send log and what each receiver has consumed. */
  datatype PipeRun = PipeRun(q: seq<Msg>, log: seq<Tensor>, taken: map<nat, seq<Tensor>>)

  /** The run of `es` for the destination nodes `dst`; None when a receive finds no message or
      the receiver is no destination. */
  function RunPipe(dst: set<nat>, es: seq<Event>): Option<PipeRun>
  {
    if es == [] then Some(PipeRun([], [], map r | r in dst :: []))
    else
      var before := RunPipe(dst, es[..|es| - 1]);
      if before.None? then None
      else
        var w := before.value;
        match es[|es| - 1]
        case Sent(data) => Some(PipeRun(SendTo(w.q, data, |dst|, |w.log|), w.log + [data], w.taken))
        case Received(r) =>
          if r !in w.taken then None
          else
            match ReceiveFrom(w.q, r)
            case None => None
            case Some((d, q)) => Some(PipeRun(q, w.log, w.taken[r := w.taken[r] + [d]]))
  }

  function Cursors(taken: map<nat, seq<Tensor>>): map<nat, nat>
  {
    map r | r in taken :: |taken[r]|
  }

  /** The queue stands for the log, and every receiver has consumed a prefix of it. */
  ghost predicate InOrder(dst: set<nat>, w: PipeRun)
  {
    && w.taken.Keys == dst && Cursors(w.taken).Keys == dst && |Cursors(w.taken)| == |dst|
    && Stands(w.q, w.log, Cursors(w.taken))
    && forall r <- dst :: w.taken[r] <= w.log
  }

  lemma SendKeepsOrder(dst: set<nat>, u: PipeRun, data: Tensor)
    requires dst != {} && InOrder(dst, u)
    ensures InOrder(dst, PipeRun(SendTo(u.q, data, |dst|, |u.log|), u.log + [data], u.taken))
  {
    assert |dst| >= 1;
    SendStands(u.q, u.log, Cursors(u.taken), data);
  }

  lemma TakingNext(taken: map<nat, seq<Tensor>>, r: nat, log: seq<Tensor>)
    requires r in taken && taken[r] <= log && |taken[r]| < |log|
    ensures var next := taken[r := taken[r] + [log[|taken[r]|]]];
            && next.Keys == taken.Keys && next[r] <= log
            && Cursors(next) == Cursors(taken)[r := Cursors(taken)[r] + 1]
  {
    var next := taken[r := taken[r] + [log[|taken[r]|]]];
    assert next.Keys == taken.Keys;
    assert next[r] == log[..|taken[r]| + 1];
  }

  lemma ReceiveKeepsOrder(dst: set<nat>, u: PipeRun, r: nat, d: Tensor, q: seq<Msg>)
    requires InOrder(dst, u) && r in dst && ReceiveFrom(u.q, r) == Some((d, q))
    ensures InOrder(dst, PipeRun(q, u.log, u.taken[r := u.taken[r] + [d]]))
  {
    hide Stands, ReceiveFrom;
    ReceiveStands(u.q, u.log, Cursors(u.taken), r);
    CursorMoves(Cursors(u.taken), r, 0);
    TakingNext(u.taken, r, u.log);
  }

  lemma {:induction false} RunsStayInOrder(dst: set<nat>, es: seq<Event>)
    requires dst != {} && RunPipe(dst, es).Some?
    ensures InOrder(dst, RunPipe(dst, es).value)
  {
    if es == [] {
      var at := Cursors(RunPipe(dst, es).value.taken);
      assert |at| == |at.Keys|;
    } else {
      RunsStayInOrder(dst, es[..|es| - 1]);
      var u := RunPipe(dst, es[..|es| - 1]).value;
      match es[|es| - 1] {
        case Sent(data) => SendKeepsOrder(dst, u, data);
        case Received(r) =>
          var (d, q) := ReceiveFrom(u.q, r).value;
          ReceiveKeepsOrder(dst, u, r, d, q);
      }
    }
  }

  /** Every receiver has consumed a prefix of the send log, each message once and in send order, and
      the queue is empty exactly when all of them have consumed everything. */
  lemma ExactlyOnceInOrder(dst: set<nat>, es: seq<Event>)
    requires dst != {} && RunPipe(dst, es).Some?
    ensures var w := RunPipe(dst, es).value;
            && w.taken.Keys == dst && (forall r <- dst :: w.taken[r] <= w.log)
            && (w.q == [] <==> forall r <- dst :: w.taken[r] == w.log)
  {
    RunsStayInOrder(dst, es);
    var w := RunPipe(dst, es).value;
    var at := Cursors(w.taken);
    assert forall r <- dst :: at[r] == |w.taken[r]|;
    if w.q != [] {
      assert w.q[0].got <= dst && w.q[0].got != dst;
      var r :| r in dst && r !in w.q[0].got;
      assert at[r] < |w.log|;
    }
  }

  /** In every run the answer at a destination is yes exactly as long as it has not taken everything that was
      sent, which is exactly as long as its `transfer` would find a message. */
  lemma CanWaitExactly(dst: set<nat>, es: seq<Event>, r: nat)
    requires r in dst && RunPipe(dst, es).Some?
    ensures var w := RunPipe(dst, es).value;
            && r in w.taken && (CanWaitAt(w.q, r) <==> |w.taken[r]| < |w.log|)
            && (CanWaitAt(w.q, r) <==> ReceiveFrom(w.q, r).Some?)
  {
    RunsStayInOrder(dst, es);
    var w := RunPipe(dst, es).value;
    ReceiveStands(w.q, w.log, Cursors(w.taken), r);
    CanWaitFinds(w.q, r);
  }

  lemma UnicastPoll(r: nat, es: seq<Event>)
    requires RunPipe({r}, es).Some?
    ensures CanWaitPolled(RunPipe({r}, es).value.q) <==> CanWaitAt(RunPipe({r}, es).value.q, r)
  {
    RunsStayInOrder({r}, es);
    var w := RunPipe({r}, es).value;
    if w.q != [] {
      assert w.q[0].got <= {r} && w.q[0].got != {r};
      assert w.q[0] in w.q && r !in w.q[0].got;
    }
  }

  /** The scheduler's poll gives every destination the node-aware answer in every run
      exactly when the pipe has a single destination. */
  lemma PollExactlyForUnicast(dst: set<nat>)
    requires dst != {}
    ensures (forall es, r :: RunPipe(dst, es).Some? && r in dst ==>
               (CanWaitPolled(RunPipe(dst, es).value.q) <==> CanWaitAt(RunPipe(dst, es).value.q, r)))
            <==> |dst| == 1
  {
    if |dst| == 1 {
      forall es, r | RunPipe(dst, es).Some? && r in dst
        ensures CanWaitPolled(RunPipe(dst, es).value.q) <==> CanWaitAt(RunPipe(dst, es).value.q, r) {
        SubsetSize({r}, dst);
        UnicastPoll(r, es);
      }
    } else {
      var r :| r in dst;
      SubsetSize({r}, dst);
      MulticastMisleadsPoll(dst, r, Tensor(0, 0));
    }
  }

  /** One message to several destinations, received by one of them: the poll still says yes for that
      node, and its `transfer` would find nothing. */
  lemma MulticastMisleadsPoll(dst: set<nat>, r: nat, x: Tensor)
    requires r in dst && |dst| > 1
    ensures var es := [Sent(x), Received(r)];
            RunPipe(dst, es).Some? && CanWaitPolled(RunPipe(dst, es).value.q)
            && !CanWaitAt(RunPipe(dst, es).value.q, r) && ReceiveFrom(RunPipe(dst, es).value.q, r).None?
  {
    var es := [Sent(x), Received(r)];
    assert es[..1] == [Sent(x)] && [Sent(x)][..0] == [];
    var q := [Msg(x, |dst|, 0, {})];
    assert RunPipe(dst, []) == Some(PipeRun([], [], map s | s in dst :: []));
    assert RunPipe(dst, [Sent(x)]).value.q == q;
    assert FirstFor(q, r) == 0;
    var q' := q[0 := Msg(x, |dst| - 1, 0, {} + {r})];
    assert ReceiveFrom(q, r) == Some((x, q'));
    assert RunPipe(dst, es).value.q == q';
    assert q'[1..] == [];
  }
}
