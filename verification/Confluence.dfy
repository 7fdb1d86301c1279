/** Schedule independence: what a set of kernels computes does not depend on the order
    in which the scheduler lets them run. */
module Confluence {
  import opened Wrappers
  import opened BlockState
  import opened Network
  import opened Holding
  import opened Messages

  /** Schedule `s` takes `c` to `d` without an error. */
  ghost predicate Run(t: Topo, ps: seq<Prog>, c: Config, s: seq<nat>, d: Config)
    requires WF(t, ps, c)
    decreases |s|
  {
    if s == [] then c == d
    else
      s[0] < |c| && Step(t, ps, c, s[0]).Next?
      && (StepGrows(t, ps, c, s[0]); Run(t, ps, c[s[0] := Step(t, ps, c, s[0]).l], s[1..], d))
  }

  /** As `Run`, and no kernel pops a block it is not holding. */
  ghost predicate CleanRun(t: Topo, ps: seq<Prog>, c: Config, s: seq<nat>, d: Config)
    requires WF(t, ps, c)
    decreases |s|
  {
    if s == [] then c == d
    else
      s[0] < |c| && Step(t, ps, c, s[0]).Next? && !StrayPop(t, ps, c, s[0])
      && (StepGrows(t, ps, c, s[0]); CleanRun(t, ps, c[s[0] := Step(t, ps, c, s[0]).l], s[1..], d))
  }

  lemma {:induction false} RunSnoc(t: Topo, ps: seq<Prog>, c: Config, s: seq<nat>, d: Config, k: nat)
    requires WF(t, ps, c) && Run(t, ps, c, s, d)
    requires WF(t, ps, d) && k < |d| && Step(t, ps, d, k).Next?
    ensures Run(t, ps, c, s + [k], d[k := Step(t, ps, d, k).l])
    decreases |s|
  {
    if s != [] {
      StepGrows(t, ps, c, s[0]);
      RunSnoc(t, ps, c[s[0] := Step(t, ps, c, s[0]).l], s[1..], d, k);
      assert (s + [k])[1..] == s[1..] + [k];
    } else {
      StepGrows(t, ps, c, k);
      assert (s + [k])[1..] == [];
    }
  }

  // ----- Two kernels do not disturb each other -----

  /** Enabled steps of two kernels commute, and neither disables the other. */
  lemma Diamond(t: Topo, ps: seq<Prog>, c: Config, k: nat, j: nat)
    requires WF(t, ps, c) && Sound(t, ps, c) && k < |c| && j < |c| && k != j
    requires Step(t, ps, c, k).Next? && !StrayPop(t, ps, c, k)
    requires Step(t, ps, c, j).Next? && !StrayPop(t, ps, c, j)
    ensures var lk, lj := Step(t, ps, c, k).l, Step(t, ps, c, j).l;
            && WF(t, ps, c[k := lk]) && WF(t, ps, c[j := lj])
            && Step(t, ps, c[k := lk], j) == Next(lj)
            && Step(t, ps, c[j := lj], k) == Next(lk)
            && c[k := lk][j := lj] == c[j := lj][k := lk]
  {
    AfterOther(t, ps, c, j, k);
    AfterOther(t, ps, c, k, j);
  }

  /** After another kernel's step, a kernel is where it was, and stray exactly if it was. */
  lemma AfterOther(t: Topo, ps: seq<Prog>, c: Config, j: nat, k: nat)
    requires WF(t, ps, c) && Sound(t, ps, c) && k < |c| && j < |c| && k != j && Step(t, ps, c, j).Next?
    ensures var d := c[j := Step(t, ps, c, j).l];
            && WF(t, ps, d) && Sound(t, ps, d) && OthersGrow(t, ps, c, d, k)
            && (StrayPop(t, ps, d, k) <==> StrayPop(t, ps, c, k))
            && (Enabled(t, ps, c, k) && !StrayPop(t, ps, c, k) ==> Step(t, ps, d, k) == Step(t, ps, c, k))
            && (StrayPop(t, ps, c, k) ==> Enabled(t, ps, d, k))
  {
    StepGrows(t, ps, c, j);
    StepIsSound(t, ps, c, j);
    hide Sound, ContentsKept;
    var d := c[j := Step(t, ps, c, j).l];
    assert OthersGrow(t, ps, c, d, k);
    if Enabled(t, ps, c, k) && !StrayPop(t, ps, c, k) {
      EnabledIsStable(t, ps, c, d, k);
    }
  }

  // ----- One clean complete run decides all others -----

  /** A kernel that is enabled somewhere gets its turn in every clean complete run,
      and its step is neither an error nor a stray pop. */
  lemma {:induction false} EnabledIsServed(t: Topo, ps: seq<Prog>, c: Config, s: seq<nat>, d: Config, k: nat)
    requires WF(t, ps, c) && Sound(t, ps, c) && CleanRun(t, ps, c, s, d) && WF(t, ps, d) && Quiescent(t, ps, d)
    requires k < |c| && Enabled(t, ps, c, k)
    ensures Step(t, ps, c, k).Next? && !StrayPop(t, ps, c, k)
    decreases |s|
  {
    if s != [] && s[0] != k {
      var next := c[s[0] := Step(t, ps, c, s[0]).l];
      AfterOther(t, ps, c, s[0], k);
      EnabledIsServed(t, ps, next, s[1..], d, k);
    }
  }

  /** Taking any enabled step first still leads to the same end, one step sooner. */
  lemma {:induction false} Strip(t: Topo, ps: seq<Prog>, c: Config, s: seq<nat>, d: Config, k: nat)
    returns (rest: seq<nat>)
    requires WF(t, ps, c) && Sound(t, ps, c) && CleanRun(t, ps, c, s, d) && WF(t, ps, d) && Quiescent(t, ps, d)
    requires k < |c| && Enabled(t, ps, c, k)
    ensures Step(t, ps, c, k).Next? && !StrayPop(t, ps, c, k) && |s| > 0
    ensures WF(t, ps, c[k := Step(t, ps, c, k).l])
    ensures CleanRun(t, ps, c[k := Step(t, ps, c, k).l], rest, d) && |rest| == |s| - 1
    decreases |s|
  {
    EnabledIsServed(t, ps, c, s, d, k);
    StepGrows(t, ps, c, k);
    assert s != [];
    if s[0] == k {
      rest := s[1..];
    } else {
      var j := s[0];
      AfterOther(t, ps, c, j, k);
      AfterOther(t, ps, c, k, j);
      var afterJ, afterK := c[j := Step(t, ps, c, j).l], c[k := Step(t, ps, c, k).l];
      var tail := Strip(t, ps, afterJ, s[1..], d, k);
      Diamond(t, ps, c, k, j);
      rest := [j] + tail;
      assert rest[1..] == tail;
    }
  }

  /** From a configuration with one clean complete run, every run can be continued to the
      same end, meets no error and no stray pop, and is no longer than that run. */
  lemma {:induction false} EveryRunContinues(t: Topo, ps: seq<Prog>, c: Config, s: seq<nat>, d: Config,
                                              s': seq<nat>, d': Config)
    returns (rest: seq<nat>)
    requires WF(t, ps, c) && Sound(t, ps, c) && CleanRun(t, ps, c, s, d) && WF(t, ps, d) && Quiescent(t, ps, d)
    requires Run(t, ps, c, s', d') && WF(t, ps, d')
    ensures CleanRun(t, ps, c, s', d') && Sound(t, ps, d')
    ensures CleanRun(t, ps, d', rest, d) && |s'| + |rest| == |s|
    decreases |s'|
  {
    if s' == [] {
      rest := s;
    } else {
      var k := s'[0];
      StepIsSound(t, ps, c, k);
      var tail := Strip(t, ps, c, s, d, k);
      rest := EveryRunContinues(t, ps, c[k := Step(t, ps, c, k).l], tail, d, s'[1..], d');
    }
  }

  // ----- Results of a scheduler -----

  datatype Ending = Completed | Deadlocked | Crashed(k: nat)

  ghost predicate StopsAt(t: Topo, ps: seq<Prog>, o: Ending, w: Config)
    requires WF(t, ps, w)
  {
    match o
    case Completed => forall k :: 0 <= k < |w| ==> Step(t, ps, w, k).Halted?
    case Deadlocked => Quiescent(t, ps, w) && exists k :: 0 <= k < |w| && !Step(t, ps, w, k).Halted?
    case Crashed(k) => k < |w| && Step(t, ps, w, k).Crash?
  }

  /** `w` is where some schedule of the kernels stopped, with outcome `o`. */
  ghost predicate Result(t: Topo, ps: seq<Prog>, o: Ending, w: Config)
    requires WFProgs(t, ps)
  {
    (exists s :: Run(t, ps, Start(t), s, w)) && WF(t, ps, w) && StopsAt(t, ps, o, w)
  }

  /** One schedule runs to the end without an error, popping only blocks that are held. */
  ghost predicate HasCleanRun(t: Topo, ps: seq<Prog>)
    requires WFProgs(t, ps)
  {
    exists s, d :: CleanRun(t, ps, Start(t), s, d) && WF(t, ps, d) && Quiescent(t, ps, d)
  }

  /** If no kernel overwrites a block it has on a pipe and one schedule runs cleanly to the end, then all
      schedules give the same outcome, the same pushed, popped, sent and received logs, and the same values
      to every kernel. */
  lemma ScheduleIndependence(t: Topo, ps: seq<Prog>, o: Ending, w: Config, o': Ending, w': Config)
    requires WFProgs(t, ps) && Sealed(t, ps) && HasCleanRun(t, ps)
    requires Result(t, ps, o, w) && Result(t, ps, o', w')
    ensures o == o' && w == w' && !o.Crashed?
  {
    var s, d :| CleanRun(t, ps, Start(t), s, d) && WF(t, ps, d) && Quiescent(t, ps, d);
    EndsAt(t, ps, s, d, o, w);
    EndsAt(t, ps, s, d, o', w');
  }

  lemma EndsAt(t: Topo, ps: seq<Prog>, s: seq<nat>, d: Config, o: Ending, w: Config)
    requires WFProgs(t, ps) && Sealed(t, ps) && CleanRun(t, ps, Start(t), s, d) && WF(t, ps, d) && Quiescent(t, ps, d)
    requires Result(t, ps, o, w)
    ensures !o.Crashed? && w == d
  {
    StartIsAccounted(t, ps);
    var s' :| Run(t, ps, Start(t), s', w);
    var rest := EveryRunContinues(t, ps, Start(t), s, d, s', w);
    if o.Crashed? {
      EnabledIsServed(t, ps, w, rest, d, o.k);
    } else if rest != [] {
      FirstIsEnabled(t, ps, w, rest, d);
    }
  }

  lemma FirstIsEnabled(t: Topo, ps: seq<Prog>, w: Config, s: seq<nat>, d: Config)
    requires WF(t, ps, w) && CleanRun(t, ps, w, s, d) && s != []
    ensures s[0] < |w| && Enabled(t, ps, w, s[0])
  {
  }

  // ----- Kernels that only pop what they hold -----

  /** Every pop of every kernel is of a block it is holding. */
  ghost predicate PopsHeld(ps: seq<Prog>)
  {
    forall k: nat, h: seq<Value> {:trigger ps[k](h)} :: k < |ps| && ps[k](h).Pop? ==>
      PendingIn(ps[k], h, ps[k](h).b, Waited)
  }

  /** Such kernels never pop a block they are not holding. */
  lemma NeverStray(t: Topo, ps: seq<Prog>, c: Config, k: nat)
    requires WF(t, ps, c) && PopsHeld(ps) && Sound(t, ps, c) && k < |c|
    ensures !StrayPop(t, ps, c, k)
  {
    assert Tracked(t, ps, k, c[k]);
    assert Legal(t, k, ps[k](c[k].h));
  }

  lemma {:induction false} RunIsSound(t: Topo, ps: seq<Prog>, c: Config, s: seq<nat>, d: Config)
    requires WF(t, ps, c) && Sound(t, ps, c) && Run(t, ps, c, s, d)
    ensures WF(t, ps, d) && Sound(t, ps, d)
    decreases |s|
  {
    if s != [] {
      StepIsSound(t, ps, c, s[0]);
      RunIsSound(t, ps, c[s[0] := Step(t, ps, c, s[0]).l], s[1..], d);
    }
  }

  lemma RunCons(t: Topo, ps: seq<Prog>, c: Config, k: nat, s: seq<nat>, d: Config)
    requires WF(t, ps, c) && k < |c| && Step(t, ps, c, k).Next?
    requires WF(t, ps, c[k := Step(t, ps, c, k).l]) && Run(t, ps, c[k := Step(t, ps, c, k).l], s, d)
    ensures Run(t, ps, c, [k] + s, d)
  {
    assert ([k] + s)[1..] == s;
  }

  lemma RunTail(t: Topo, ps: seq<Prog>, c: Config, s: seq<nat>, d: Config)
    requires WF(t, ps, c) && Run(t, ps, c, s, d) && s != []
    ensures s[0] < |c| && Step(t, ps, c, s[0]).Next? && WF(t, ps, c[s[0] := Step(t, ps, c, s[0]).l])
    ensures Run(t, ps, c[s[0] := Step(t, ps, c, s[0]).l], s[1..], d)
  {
    StepGrows(t, ps, c, s[0]);
  }

  lemma RunNil(t: Topo, ps: seq<Prog>, c: Config, s: seq<nat>, d: Config)
    requires WF(t, ps, c) && Run(t, ps, c, s, d) && s == []
    ensures c == d
  {
  }

  lemma {:induction false} RunAppend(t: Topo, ps: seq<Prog>, c: Config, s: seq<nat>, d: Config, s': seq<nat>, e: Config)
    requires WF(t, ps, c) && Run(t, ps, c, s, d) && WF(t, ps, d) && Run(t, ps, d, s', e)
    ensures Run(t, ps, c, s + s', e)
    decreases |s|
  {
    hide *;
    if s == [] {
      RunNil(t, ps, c, s, d);
      assert s + s' == s';
    } else {
      RunTail(t, ps, c, s, d);
      var next := c[s[0] := Step(t, ps, c, s[0]).l];
      RunAppend(t, ps, next, s[1..], d, s', e);
      RunCons(t, ps, c, s[0], s[1..] + s', e);
      assert s + s' == [s[0]] + (s[1..] + s');
    }
  }

  /** One step and a run from the same place can be joined: the run is repeated after the step, and the step
      after the run unless the run has taken it. */
  lemma {:induction false} StepJoins(t: Topo, ps: seq<Prog>, c: Config, k: nat, s: seq<nat>, d: Config)
    returns (rest: seq<nat>, last: seq<nat>, e: Config)
    requires WF(t, ps, c) && Sound(t, ps, c) && PopsHeld(ps) && k < |c| && Step(t, ps, c, k).Next?
    requires Run(t, ps, c, s, d)
    ensures WF(t, ps, c[k := Step(t, ps, c, k).l]) && WF(t, ps, d)
    ensures Run(t, ps, c[k := Step(t, ps, c, k).l], rest, e) && Run(t, ps, d, last, e)
    decreases |s|
  {
    StepGrows(t, ps, c, k);
    var afterK := c[k := Step(t, ps, c, k).l];
    if s == [] {
      rest, last, e := [], [k], afterK;
      assert last[1..] == [];
    } else if s[0] == k {
      RunIsSound(t, ps, c, s, d);
      rest, last, e := s[1..], [], d;
    } else {
      var j := s[0];
      NeverStray(t, ps, c, k);
      NeverStray(t, ps, c, j);
      AfterOther(t, ps, c, j, k);
      Diamond(t, ps, c, k, j);
      var tail: seq<nat>;
      tail, last, e := StepJoins(t, ps, c[j := Step(t, ps, c, j).l], k, s[1..], d);
      rest := [j] + tail;
      assert rest[1..] == tail;
    }
  }

  /** Any two runs, finished or not, can be continued to the same configuration: no choice of the scheduler
      decides anything. */
  lemma {:induction false} RunsJoin(t: Topo, ps: seq<Prog>, c: Config, s: seq<nat>, d: Config, s': seq<nat>, d': Config)
    returns (rest: seq<nat>, rest': seq<nat>, e: Config)
    requires WF(t, ps, c) && Sound(t, ps, c) && PopsHeld(ps) && Run(t, ps, c, s, d) && Run(t, ps, c, s', d')
    ensures WF(t, ps, d) && WF(t, ps, d') && Run(t, ps, d, rest, e) && Run(t, ps, d', rest', e)
    decreases |s|
  {
    RunIsSound(t, ps, c, s, d);
    RunIsSound(t, ps, c, s', d');
    if s == [] {
      rest, rest', e := s', [], d';
    } else {
      var k := s[0];
      StepIsSound(t, ps, c, k);
      var next := c[k := Step(t, ps, c, k).l];
      var again, last, m := StepJoins(t, ps, c, k, s', d');
      RunIsSound(t, ps, d', last, m);
      var more: seq<nat>;
      rest, more, e := RunsJoin(t, ps, next, s[1..], d, again, m);
      rest' := last + more;
      RunAppend(t, ps, d', last, m, more, e);
    }
  }

  /** A kernel that raises keeps doing so whatever the others do. */
  lemma {:induction false} CrashStays(t: Topo, ps: seq<Prog>, c: Config, s: seq<nat>, d: Config, k: nat)
    requires WF(t, ps, c) && Sound(t, ps, c) && PopsHeld(ps) && Run(t, ps, c, s, d)
    requires k < |c| && Step(t, ps, c, k).Crash?
    ensures WF(t, ps, d) && k < |d| && Step(t, ps, d, k).Crash?
    decreases |s|
  {
    if s != [] {
      NeverStray(t, ps, c, k);
      AfterOther(t, ps, c, s[0], k);
      CrashStays(t, ps, c[s[0] := Step(t, ps, c, s[0]).l], s[1..], d, k);
    }
  }

  lemma RunStartsEnabled(t: Topo, ps: seq<Prog>, w: Config, s: seq<nat>, d: Config)
    requires WF(t, ps, w) && Run(t, ps, w, s, d) && s != []
    ensures s[0] < |w| && Enabled(t, ps, w, s[0])
  {
  }

  lemma StopsForGood(t: Topo, ps: seq<Prog>, o: Ending, w: Config, s: seq<nat>, e: Config)
    requires WF(t, ps, w) && Sound(t, ps, w) && PopsHeld(ps) && Run(t, ps, w, s, e) && StopsAt(t, ps, o, w)
    ensures WF(t, ps, e) && StopsAt(t, ps, o, if o.Crashed? then e else w) && (!o.Crashed? ==> e == w)
  {
    RunIsSound(t, ps, w, s, e);
    if o.Crashed? {
      CrashStays(t, ps, w, s, e, o.k);
    } else if s != [] {
      RunStartsEnabled(t, ps, w, s, e);
    }
  }

  lemma OneOutcome(t: Topo, ps: seq<Prog>, o: Ending, o': Ending, w: Config)
    requires WF(t, ps, w) && StopsAt(t, ps, o, w) && StopsAt(t, ps, o', w)
    ensures (o.Crashed? && o'.Crashed?) || o == o'
  {
    if o.Crashed? {
      assert Enabled(t, ps, w, o.k);
    } else if o'.Crashed? {
      assert Enabled(t, ps, w, o'.k);
    }
  }

  /** If the kernels pop only what they hold and overwrite nothing they have on a pipe, then all schedules end
      alike: either every one of them ends in an error, or all of them give the same outcome and the same logs
      and values. */
  lemma AllSchedulesAgree(t: Topo, ps: seq<Prog>, o: Ending, w: Config, o': Ending, w': Config)
    requires WFProgs(t, ps) && Sealed(t, ps) && PopsHeld(ps) && Result(t, ps, o, w) && Result(t, ps, o', w')
    ensures (o.Crashed? && o'.Crashed?) || (o == o' && w == w')
  {
    StartIsAccounted(t, ps);
    var s :| Run(t, ps, Start(t), s, w);
    var s' :| Run(t, ps, Start(t), s', w');
    var rest, rest', e := RunsJoin(t, ps, Start(t), s, w, s', w');
    RunIsSound(t, ps, Start(t), s, w);
    RunIsSound(t, ps, Start(t), s', w');
    StopsForGood(t, ps, o, w, rest, e);
    StopsForGood(t, ps, o', w', rest', e);
    hide *;
    if !o.Crashed? || !o'.Crashed? {
      OneOutcome(t, ps, o, o', e);
      OneOutcome(t, ps, o', o, e);
    }
  }
}
