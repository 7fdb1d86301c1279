/** The end of a kernel (python/sim/program.py): pending blocks are pushed and popped when the kernel
    function has returned, and afterwards the final validation finds none. */
module Cleanup {
  import opened Wrappers
  import opened BlockState
  import opened Network
  import opened Confluence
  import opened Holding
  import opened Messages

  /** The auto push and pop of each buffer in turn. */
  function CleanupOf(p: Prog, h: seq<Value>, n: nat): seq<Cmd>
  {
    if n == 0 then []
    else
      CleanupOf(p, h, n - 1)
      + (if PendingIn(p, h, n - 1, Reserved) then [Push(n - 1)] else [])
      + (if PendingIn(p, h, n - 1, Waited) then [Pop(n - 1)] else [])
  }

  /** When the kernel function returned, if it has. */
  function Returned(p: Prog, h: seq<Value>): Option<nat>
  {
    var before := if h == [] then None else Returned(p, h[..|h| - 1]);
    if before.Some? then before else if p(h).Done? then Some(|h|) else None
  }

  /** `_tagged`: the kernel function, then its cleanup over `bufs` buffers. */
  function Tagged(bufs: nat, p: Prog): Prog
  {
    (h: seq<Value>) => TaggedCmd(bufs, p, h)
  }

  function TaggedCmd(bufs: nat, p: Prog, h: seq<Value>): Cmd
  {
    match Returned(p, h)
    case None => p(h)
    case Some(n) =>
      if n > |h| then Done
      else
        var rest := CleanupOf(p, h[..n], bufs);
        if |h| - n < |rest| then rest[|h| - n] else Done
  }

  // ----- The wrapped kernels are legal -----

  lemma {:induction false} PendingIsOwned(t: Topo, k: nat, p: Prog, h: seq<Value>, b: nat, side: Side)
    requires WFTopo(t) && forall g: seq<Value> {:trigger p(g)} :: Legal(t, k, p(g))
    requires PendingIn(p, h, b, side)
    ensures OwnsBlock(t, k, b, side)
  {
    if PendingIn(p, h[..|h| - 1], b, side) {
      PendingIsOwned(t, k, p, h[..|h| - 1], b, side);
    } else {
      assert Legal(t, k, p(h[..|h| - 1]));
    }
  }

  lemma {:induction false} CleanupIsLegal(t: Topo, k: nat, p: Prog, h: seq<Value>, n: nat)
    requires WFTopo(t) && forall g: seq<Value> {:trigger p(g)} :: Legal(t, k, p(g))
    ensures forall cmd <- CleanupOf(p, h, n) :: Legal(t, k, cmd)
  {
    if n > 0 {
      CleanupIsLegal(t, k, p, h, n - 1);
      if PendingIn(p, h, n - 1, Reserved) {
        PendingIsOwned(t, k, p, h, n - 1, Reserved);
      }
      if PendingIn(p, h, n - 1, Waited) {
        PendingIsOwned(t, k, p, h, n - 1, Waited);
      }
    }
  }

  function TaggedAll(t: Topo, ps: seq<Prog>): (qs: seq<Prog>)
    ensures |qs| == |ps|
  {
    seq(|ps|, k requires 0 <= k < |ps| => Tagged(|t.cap|, ps[k]))
  }

  lemma TaggedIsWF(t: Topo, ps: seq<Prog>)
    requires WFProgs(t, ps)
    ensures WFProgs(t, TaggedAll(t, ps))
  {
    var qs := TaggedAll(t, ps);
    forall k: nat, h: seq<Value> {:trigger qs[k](h)} | k < |qs|
      ensures Legal(t, k, qs[k](h))
    {
      assert Legal(t, k, ps[k](h));
      var r := Returned(ps[k], h);
      if r.Some? && r.value <= |h| {
        forall g: seq<Value>
          ensures Legal(t, k, ps[k](g))
        {
        }
        CleanupIsLegal(t, k, ps[k], h[..r.value], |t.cap|);
      }
    }
  }

  // ----- A run keeps the account of pending blocks -----

  lemma {:induction false} RunKeepsHolds(t: Topo, ps: seq<Prog>, c: Config, s: seq<nat>, d: Config, k: nat)
    requires WF(t, ps, c) && Run(t, ps, c, s, d) && k < |c| && Holds(t, ps[k], c[k])
    ensures WF(t, ps, d) && |d| == |c| && Holds(t, ps[k], d[k])
    decreases |s|
  {
    if s != [] {
      hide Holds;
      StepGrows(t, ps, c, s[0]);
      if s[0] == k {
        CmdKeepsHolds(t, ps, c, k);
      }
      RunKeepsHolds(t, ps, c[s[0] := Step(t, ps, c, s[0]).l], s[1..], d, k);
    }
  }

  // ----- Nothing is pending after the cleanup -----

  lemma {:induction false} CleanupReleases(p: Prog, h: seq<Value>, n: nat, b: nat, side: Side)
    ensures forall i :: 0 <= i < |CleanupOf(p, h, n)| ==> CleanupOf(p, h, n)[i].Push? || CleanupOf(p, h, n)[i].Pop?
    ensures b < n && PendingIn(p, h, b, side) ==> Release(b, side) in CleanupOf(p, h, n)
  {
    if n > 0 {
      CleanupReleases(p, h, n - 1, b, side);
    }
  }

  lemma {:induction false} ReturnedAt(p: Prog, h: seq<Value>)
    ensures var r := Returned(p, h);
            && (r.None? ==> !p(h).Done?)
            && (r.Some? ==> r.value <= |h| && forall j :: r.value <= j <= |h| ==> Returned(p, h[..j]) == r)
            && (r.Some? ==> forall j :: 0 <= j < r.value ==> Returned(p, h[..j]).None?)
  {
    var r := Returned(p, h);
    assert h[..|h|] == h;
    if h != [] {
      var g := h[..|h| - 1];
      ReturnedAt(p, g);
      forall j | 0 <= j < |h|
        ensures h[..j] == g[..j]
      {
      }
      if Returned(p, g).None? && r.Some? {
        NoneBefore(p, g);
      }
    }
  }

  lemma {:induction false} NoneBefore(p: Prog, h: seq<Value>)
    requires Returned(p, h).None?
    ensures forall j :: 0 <= j <= |h| ==> Returned(p, h[..j]).None?
  {
    assert h[..|h|] == h;
    if h != [] {
      var g := h[..|h| - 1];
      NoneBefore(p, g);
      forall j | 0 <= j < |h|
        ensures h[..j] == g[..j]
      {
      }
    }
  }

  /** Until the kernel function returns, the wrapped kernel is that function. */
  lemma {:induction false} SameUntilReturn(bufs: nat, p: Prog, h: seq<Value>, b: nat, side: Side)
    requires forall j :: 0 <= j < |h| ==> Returned(p, h[..j]).None?
    ensures PendingIn(Tagged(bufs, p), h, b, side) == PendingIn(p, h, b, side)
  {
    if h != [] {
      var g := h[..|h| - 1];
      forall j | 0 <= j < |g|
        ensures Returned(p, g[..j]).None?
      {
        assert g[..j] == h[..j];
      }
      SameUntilReturn(bufs, p, g, b, side);
      assert Tagged(bufs, p)(g) == TaggedCmd(bufs, p, g);
    }
  }

  /** The wrapped kernel does what the kernel function does until that returns; then it
      gives back the blocks that are still pending, one after the other, and ends. */
  lemma RunsThenCleans(bufs: nat, p: Prog, h: seq<Value>)
    ensures (forall j :: 0 <= j <= |h| ==> !p(h[..j]).Done?) ==> Tagged(bufs, p)(h) == p(h)
    ensures p(h).Done? && (forall j :: 0 <= j < |h| ==> !p(h[..j]).Done?) ==>
              forall vs: seq<Value> ::
                Tagged(bufs, p)(h + vs) == if |vs| < |CleanupOf(p, h, bufs)| then CleanupOf(p, h, bufs)[|vs|] else Done
  {
    assert h[..|h|] == h;
    if forall j :: 0 <= j < |h| ==> !p(h[..j]).Done? {
      NotReturned(p, h);
      if p(h).Done? {
        forall vs: seq<Value>
          ensures Tagged(bufs, p)(h + vs)
                  == if |vs| < |CleanupOf(p, h, bufs)| then CleanupOf(p, h, bufs)[|vs|] else Done
        {
          StaysReturned(p, h, vs);
          assert (h + vs)[..|h|] == h;
        }
      }
    }
  }

  lemma {:induction false} NotReturned(p: Prog, h: seq<Value>)
    requires forall j :: 0 <= j < |h| ==> !p(h[..j]).Done?
    ensures Returned(p, h) == if p(h).Done? then Some(|h|) else None
  {
    if h != [] {
      var g := h[..|h| - 1];
      forall j | 0 <= j < |g|
        ensures !p(g[..j]).Done?
      {
        assert g[..j] == h[..j];
      }
      NotReturned(p, g);
      assert !p(h[..|h| - 1]).Done?;
    }
  }

  lemma {:induction false} StaysReturned(p: Prog, h: seq<Value>, vs: seq<Value>)
    requires Returned(p, h).Some?
    ensures Returned(p, h + vs) == Returned(p, h)
    decreases |vs|
  {
    if vs == [] {
      assert h + vs == h;
    } else {
      StaysReturned(p, h, vs[..|vs| - 1]);
      assert (h + vs)[..|h + vs| - 1] == h + vs[..|vs| - 1];
    }
  }

  /** The releases come in the order of the buffers, the push of a buffer before its pop. */
  lemma {:induction false} CleanupInOrder(p: Prog, h: seq<Value>, n: nat, i: nat, j: nat)
    requires i < j < |CleanupOf(p, h, n)|
    ensures var (x, y) := (CleanupOf(p, h, n)[i], CleanupOf(p, h, n)[j]);
            && (x.Push? || x.Pop?) && (y.Push? || y.Pop?)
            && x.b <= y.b < n && (x.b == y.b ==> x.Push? && y.Pop?)
  {
    hide PendingIn;
    var m := |CleanupOf(p, h, n - 1)|;
    CleanupBelow(p, h, n);
    CleanupBelow(p, h, n - 1);
    if j < m {
      CleanupInOrder(p, h, n - 1, i, j);
    }
  }

  lemma {:induction false} CleanupBelow(p: Prog, h: seq<Value>, n: nat)
    ensures forall cmd <- CleanupOf(p, h, n) ::
              (cmd.Push? || cmd.Pop?) && cmd.b < n && PendingIn(p, h, cmd.b, if cmd.Push? then Reserved else Waited)
  {
    if n > 0 {
      CleanupBelow(p, h, n - 1);
    }
  }

  /** i commands into the cleanup, what it has released is no longer pending. */
  lemma {:induction false} DuringCleanup(bufs: nat, p: Prog, h: seq<Value>, n: nat, b: nat, side: Side)
    requires n <= |h| && Returned(p, h) == Some(n)
    ensures var rest := CleanupOf(p, h[..n], bufs);
            var done := if |h| - n < |rest| then |h| - n else |rest|;
            PendingIn(Tagged(bufs, p), h, b, side)
            <==> PendingIn(p, h[..n], b, side) && Release(b, side) !in rest[..done]
    decreases |h|
  {
    ReturnedAt(p, h);
    if |h| == n {
      assert h[..n] == h;
      SameUntilReturn(bufs, p, h, b, side);
    } else {
      var g := h[..|h| - 1];
      assert g[..n] == h[..n];
      assert g == h[..|h| - 1];
      DuringCleanup(bufs, p, g, n, b, side);
      CleanupReleases(p, h[..n], bufs, b, side);
      var rest := CleanupOf(p, h[..n], bufs);
      var i := |g| - n;
      assert Tagged(bufs, p)(g) == TaggedCmd(bufs, p, g);
      if i < |rest| {
        assert rest[..i + 1] == rest[..i] + [rest[i]];
      }
    }
  }

  /** When the wrapped kernel has ended, its commands leave nothing pending. */
  lemma NothingLeft(bufs: nat, p: Prog, h: seq<Value>, b: nat, side: Side)
    requires b < bufs && TaggedCmd(bufs, p, h).Done?
    ensures !PendingIn(Tagged(bufs, p), h, b, side)
  {
    ReturnedAt(p, h);
    var r := Returned(p, h);
    if r.Some? {
      var n := r.value;
      var rest := CleanupOf(p, h[..n], bufs);
      CleanupReleases(p, h[..n], bufs, b, side);
      if |h| - n >= |rest| {
        assert rest[..|rest|] == rest;
        DuringCleanup(bufs, p, h, n, b, side);
      }
    }
  }

  /** In every run of the wrapped kernels, a kernel that has ended holds no block: the final validation
      finds no pending reserved or waited block on any buffer. */
  lemma EndedIsTidy(t: Topo, ps: seq<Prog>, s: seq<nat>, d: Config, k: nat, b: nat, side: Side)
    requires WFProgs(t, ps) && WFProgs(t, TaggedAll(t, ps)) && Run(t, TaggedAll(t, ps), Start(t), s, d)
    requires WF(t, TaggedAll(t, ps), d) && k < |d| && b < |t.cap|
    requires Step(t, TaggedAll(t, ps), d, k).Halted?
    ensures Pending(d[k], b, side).None?
  {
    var qs := TaggedAll(t, ps);
    StartHolds(t, qs[k]);
    RunKeepsHolds(t, qs, Start(t), s, d, k);
    HaltedIsDone(t, qs, d, k);
    assert qs[k] == Tagged(|t.cap|, ps[k]);
    NothingLeft(|t.cap|, ps[k], d[k].h, b, side);
  }

  lemma HaltedIsDone(t: Topo, ps: seq<Prog>, c: Config, k: nat)
    requires WF(t, ps, c) && k < |c| && Step(t, ps, c, k).Halted?
    ensures ps[k](c[k].h).Done?
  {
  }

  // ----- The conditions for schedule independence survive the wrapping -----

  lemma {:induction false} SameCount(bufs: nat, p: Prog, h: seq<Value>, b: nat, side: Side)
    requires Returned(p, h).None?
    ensures Released(Tagged(bufs, p), h, b, side) == Released(p, h, b, side)
  {
    if h != [] {
      var g := h[..|h| - 1];
      SameCount(bufs, p, g, b, side);
      NoneBefore(p, g);
      SameUntilReturn(bufs, p, g, b, side);
      assert Tagged(bufs, p)(g) == TaggedCmd(bufs, p, g);
    }
  }

  /** The cleanup only pushes and pops. */
  lemma CleanupCommand(bufs: nat, p: Prog, h: seq<Value>)
    requires Returned(p, h).Some?
    ensures var cmd := Tagged(bufs, p)(h); cmd.Push? || cmd.Pop? || cmd.Done?
  {
    var n := Returned(p, h).value;
    if n <= |h| {
      CleanupReleases(p, h[..n], bufs, 0, Reserved);
    }
  }

  lemma SendsTheSame(bufs: nat, p: Prog, h: seq<Value>, b: nat, side: Side, n: nat)
    requires SendsSlot(Tagged(bufs, p), h, b, side, n)
    ensures SendsSlot(p, h, b, side, n)
  {
    if Returned(p, h).Some? {
      CleanupCommand(bufs, p, h);
    } else {
      SameCount(bufs, p, h, b, side);
    }
  }

  /** Until the kernel function returns, the wrapped kernel has the same logs. */
  lemma {:induction false} SameLogs(bufs: nat, p: Prog, h: seq<Value>, pipe: nat, b: nat, side: Side)
    requires Returned(p, h).None?
    ensures SentIn(Tagged(bufs, p), h, pipe) == SentIn(p, h, pipe)
    ensures GotIn(Tagged(bufs, p), h, pipe) == GotIn(p, h, pipe)
    ensures Landing(Tagged(bufs, p), h, b, side) == Landing(p, h, b, side)
  {
    if h != [] {
      var g := h[..|h| - 1];
      SameLogs(bufs, p, g, pipe, b, side);
      assert Tagged(bufs, p)(g) == TaggedCmd(bufs, p, g);
      if p(g).Send? {
        SameCount(bufs, p, g, p(g).b, p(g).side);
      }
    }
  }

  /** What a wrapped kernel overwrites, its kernel function does. */
  lemma OverwritesTheSame(t: Topo, k: nat, bufs: nat, p: Prog, h: seq<Value>)
    requires |t.sender| == |t.recvs| && Overwrites(t, k, Tagged(bufs, p), h)
    ensures Returned(p, h).None? && Overwrites(t, k, p, h) && Tagged(bufs, p)(h) == p(h)
  {
    if Returned(p, h).Some? {
      CleanupCommand(bufs, p, h);
    } else {
      var cmd := p(h);
      assert Tagged(bufs, p)(h) == cmd;
      if cmd.TxWait? {
        SameLogs(bufs, p, h, 0, cmd.b, cmd.side);
      } else if cmd.Recv? {
        SameLogs(bufs, p, h, cmd.p, cmd.b, cmd.side);
        SameCount(bufs, p, h, cmd.b, cmd.side);
      }
    }
  }

  /** Wrapped kernels overwrite nothing they have on a pipe if the kernel functions do not. */
  lemma TaggedIsSealed(t: Topo, ps: seq<Prog>)
    requires WFProgs(t, ps) && WFProgs(t, TaggedAll(t, ps)) && Sealed(t, ps)
    ensures Sealed(t, TaggedAll(t, ps))
  {
    var (qs, bufs) := (TaggedAll(t, ps), |t.cap|);
    forall k: nat, h: seq<Value> {:trigger qs[k](h)} | k < |qs| && Overwrites(t, k, qs[k], h)
      ensures Unsent(t, qs, k, h, qs[k](h).b, qs[k](h).side)
    {
      assert qs[k] == Tagged(bufs, ps[k]);
      OverwritesTheSame(t, k, bufs, ps[k], h);
      UnsentStill(t, ps, k, h, ps[k](h).b, ps[k](h).side);
    }
  }

  lemma UnsentStill(t: Topo, ps: seq<Prog>, k: nat, h: seq<Value>, b: nat, side: Side)
    requires WFTopo(t) && |ps| == |t.kind| && k < |ps| && Returned(ps[k], h).None? && Unsent(t, ps, k, h, b, side)
    ensures Unsent(t, TaggedAll(t, ps), k, h, b, side)
  {
    var (qs, bufs) := (TaggedAll(t, ps), |t.cap|);
    SameCount(bufs, ps[k], h, b, side);
    var n := Released(ps[k], h, b, side);
    forall i | 0 <= i < |h|
      ensures !SendsSlot(qs[k], h[..i], b, side, n)
    {
      if SendsSlot(qs[k], h[..i], b, side, n) {
        SendsTheSame(bufs, ps[k], h[..i], b, side, n);
      }
    }
    forall g: seq<Value> | side.Waited? && b < |t.cap|
      ensures !SendsSlot(qs[t.prod[b]], g, b, Reserved, n)
    {
      if SendsSlot(qs[t.prod[b]], g, b, Reserved, n) {
        SendsTheSame(bufs, ps[t.prod[b]], g, b, Reserved, n);
      }
    }
  }

  lemma CleanupStep(p: Prog, h: seq<Value>, n: nat) returns (push: seq<Cmd>, pop: seq<Cmd>)
    requires n > 0
    ensures CleanupOf(p, h, n) == CleanupOf(p, h, n - 1) + (push + pop)
    ensures push == if PendingIn(p, h, n - 1, Reserved) then [Push(n - 1)] else []
    ensures pop == if PendingIn(p, h, n - 1, Waited) then [Pop(n - 1)] else []
  {
    push := if PendingIn(p, h, n - 1, Reserved) then [Push(n - 1)] else [];
    pop := if PendingIn(p, h, n - 1, Waited) then [Pop(n - 1)] else [];
  }

  predicate OnlyOnce(cs: seq<Cmd>, cmd: Cmd)
  {
    forall i :: 0 <= i < |cs| && cs[i] == cmd ==> cmd !in cs[..i]
  }

  lemma OnceMore(before: seq<Cmd>, push: seq<Cmd>, pop: seq<Cmd>, n: nat, b: nat, side: Side)
    requires OnlyOnce(before, Release(b, side)) && (Release(b, side) in before ==> b < n)
    requires (push == [] || push == [Push(n)]) && (pop == [] || pop == [Pop(n)])
    ensures OnlyOnce(before + (push + pop), Release(b, side))
  {
    var (all, cmd) := (before + (push + pop), Release(b, side));
    forall i | 0 <= i < |all| && all[i] == cmd
      ensures cmd !in all[..i]
    {
      if i < |before| {
        assert all[..i] == before[..i];
      } else {
        assert all[..i] == before + (push + pop)[..i - |before|];
      }
    }
  }

  /** The new commands release what is pending on buffer n. */
  lemma NewlyReleased(p: Prog, h: seq<Value>, n: nat, b: nat, side: Side)
    requires Release(b, side) in CleanupOf(p, h, n + 1) && Release(b, side) !in CleanupOf(p, h, n)
    ensures b == n && PendingIn(p, h, b, side)
  {
    var push, pop := CleanupStep(p, h, n + 1);
    hide CleanupOf, PendingIn;
    assert Release(b, side) in push + pop;
    if side.Waited? {
      assert Release(b, side) == Pop(b);
    }
  }

  lemma NothingReleased(p: Prog, h: seq<Value>, cmd: Cmd)
    ensures CleanupOf(p, h, 0) == [] && OnlyOnce(CleanupOf(p, h, 0), cmd)
  {
  }

  /** The cleanup releases each pending block once, and nothing else. */
  lemma {:induction false} CleanupOnce(p: Prog, h: seq<Value>, n: nat, b: nat, side: Side)
    ensures Release(b, side) in CleanupOf(p, h, n) ==> b < n && PendingIn(p, h, b, side)
    ensures OnlyOnce(CleanupOf(p, h, n), Release(b, side))
  {
    hide CleanupOf, PendingIn, OnlyOnce, Release;
    if n == 0 {
      NothingReleased(p, h, Release(b, side));
    } else {
      CleanupOnce(p, h, n - 1, b, side);
      var push, pop := CleanupStep(p, h, n);
      OnceMore(CleanupOf(p, h, n - 1), push, pop, n - 1, b, side);
      if Release(b, side) in CleanupOf(p, h, n) && Release(b, side) !in CleanupOf(p, h, n - 1) {
        NewlyReleased(p, h, n - 1, b, side);
      }
    }
  }

  /** Wrapped kernels pop only what they hold if the kernel functions do. */
  lemma TaggedPopsHeld(t: Topo, ps: seq<Prog>)
    requires PopsHeld(ps)
    ensures PopsHeld(TaggedAll(t, ps))
  {
    var (qs, bufs) := (TaggedAll(t, ps), |t.cap|);
    forall k: nat, h: seq<Value> {:trigger qs[k](h)} | k < |qs| && qs[k](h).Pop?
      ensures PendingIn(qs[k], h, qs[k](h).b, Waited)
    {
      assert qs[k] == Tagged(bufs, ps[k]);
      var b := qs[k](h).b;
      ReturnedAt(ps[k], h);
      if Returned(ps[k], h).None? {
        NoneBefore(ps[k], h);
        SameUntilReturn(bufs, ps[k], h, b, Waited);
      } else {
        var n := Returned(ps[k], h).value;
        CleanupOnce(ps[k], h[..n], bufs, b, Waited);
        DuringCleanup(bufs, ps[k], h, n, b, Waited);
      }
    }
  }
}
