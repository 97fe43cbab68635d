/** What the generation protocol promises about every run. */
module GenerationTheorems {
  import opened GenerationProtocol
  import opened GenerationSafety

  /** A run: states and the actions between them, from start-up on. */
  ghost predicate IsRun(run: seq<State>, acts: seq<Action>) {
    && |run| == |acts| + 1
    && run[0] == INITIAL
    && forall i :: 0 <= i < |acts| ==> Follows(run[i], acts[i], run[i + 1])
  }

  ghost predicate Follows(s: State, a: Action, s': State) {
    WellFormed(s) && Enabled(s, a) && s' == Step(s, a)
  }

  lemma {:induction false} RunInv(run: seq<State>, acts: seq<Action>, i: nat)
    requires IsRun(run, acts) && i < |run|
    ensures Inv(run[i])
  {
    if i == 0 {
      InitialInv();
    } else {
      RunInv(run, acts, i - 1);
      assert Follows(run[i - 1], acts[i - 1], run[i]);
      StepKeepsInv(run[i - 1], acts[i - 1]);
    }
  }

  lemma EvolvesTransitive(a: State, b: State, c: State)
    requires Evolves(a, b) && Evolves(b, c)
    ensures Evolves(a, c)
  {
    forall g | 0 <= g < |a.gens| ensures GenEvolves(a, c, g) {
      assert GenEvolves(a, b, g) && GenEvolves(b, c, g);
    }
  }

  lemma EvolvesReflexive(s: State)
    ensures Evolves(s, s)
  {
  }

  lemma FollowsEvolves(s: State, a: Action, s': State)
    requires Inv(s) && Follows(s, a, s')
    ensures Evolves(s, s')
  {
    StepEvolves(s, a);
  }

  lemma {:induction false} RunEvolvesTo(run: seq<State>, acts: seq<Action>, i: nat, j: nat)
    requires IsRun(run, acts) && i <= j < |run|
    ensures Evolves(run[i], run[j])
  {
    hide Inv, Follows, Evolves;
    if i == j {
      EvolvesReflexive(run[i]);
    } else {
      RunEvolvesTo(run, acts, i, j - 1);
      RunInv(run, acts, j - 1);
      FollowsEvolves(run[j - 1], acts[j - 1], run[j]);
      EvolvesTransitive(run[i], run[j - 1], run[j]);
    }
  }

  // ---------- No use after close ----------

  /** Before shutdown, a closed generation is not the serving one and no request holds it or is about to. */
  lemma NoUseAfterClose(run: seq<State>, acts: seq<Action>, i: nat, g: nat, t: nat)
    requires IsRun(run, acts) && i < |run|
    requires g < |run[i].gens| && run[i].gens[g].closed && t < |run[i].threads|
    requires !run[i].shutdown
    ensures run[i].gens[g].refs == 0 && g != run[i].current
    ensures run[i].threads[t] !in {RequestRead(g), RequestPinned(g), RequestServing(g)}
  {
    RunInv(run, acts, i);
    assert GenInv(run[i], g) && ThreadInv(run[i], run[i].threads[t]);
    if Plays(run[i].threads[t], Holding, g) {
      CountPositive(run[i].threads, t, Holding, g);
    }
  }

  /**
   Once closed, a generation is never acquired again, but for a handler that the server has given up and that
   comes to the pin after the drain.
  */
  lemma NeverAcquiredAgain(run: seq<State>, acts: seq<Action>, i: nat, j: nat, g: nat, t: nat)
    requires IsRun(run, acts) && i <= j < |acts|
    requires g < |run[i].gens| && run[i].gens[g].closed
    requires acts[j] == Run(t) && t < |run[j].threads|
    ensures run[j].threads[t] == RequestRead(g) ==> run[j].shutdown && run[j].stray && g == run[j].current
  {
    RunEvolvesTo(run, acts, i, j);
    RunInv(run, acts, j);
    assert GenEvolves(run[i], run[j], g) && GenInv(run[j], g) && ThreadInv(run[j], run[j].threads[t]);
  }

  /**
   Even during shutdown, a generation is closed under a request in flight only when the deadline has passed,
   or when a handler the server had given up took it after the drain.
  */
  lemma ClosedInUseOnlyAfterDeadline(run: seq<State>, acts: seq<Action>, i: nat, g: nat)
    requires IsRun(run, acts) && i < |run| && g < |run[i].gens|
    requires run[i].gens[g].closed && run[i].gens[g].refs != 0
    ensures run[i].shutdown && (run[i].expired || run[i].stray)
  {
    RunInv(run, acts, i);
    assert GenInv(run[i], g);
  }

  lemma ClosedByCloseAll() returns (run: seq<State>, acts: seq<Action>, s: State)
    ensures IsRun(run, acts) && run[|acts|] == s
    ensures s == State([CLOSED_GEN], {0}, 0, [Hooking(0, true, CloseAll([0], 0))], true, false, true, false)
  {
    run, acts, s := [INITIAL], [], INITIAL;
    run, acts, s := Extend(run, acts, s, ServerDrained);
    run, acts, s := Extend(run, acts, s, BeginCloseAll([0]));
    assert s.threads == [IdleWait([0], 0)];
    run, acts, s := Extend(run, acts, s, Run(0));
    assert s.threads == [Closer(0, CloseAll([0], 0))];
    run, acts, s := ClaimAndClose(run, acts, s);
  }

  lemma ClaimAndClose(run0: seq<State>, acts0: seq<Action>, s0: State)
    returns (run: seq<State>, acts: seq<Action>, s: State)
    requires IsRun(run0, acts0) && run0[|acts0|] == s0
    requires s0 == State([HOOKED_GEN], {0}, 0, [Closer(0, CloseAll([0], 0))], true, false, true, false)
    ensures IsRun(run, acts) && run[|acts|] == s
    ensures s == State([CLOSED_GEN], {0}, 0, [Hooking(0, true, CloseAll([0], 0))], true, false, true, false)
  {
    hide IsRun;
    run, acts, s := Extend(run0, acts0, s0, Run(0));
    assert s.threads == [Closing(0, true, CloseAll([0], 0))];
    run, acts, s := Extend(run, acts, s, Run(0));
    assert s.threads == [Hooking(0, true, CloseAll([0], 0))] && s.gens == [CLOSED_GEN];
  }

  /** A run in which such a handler does take a closed generation, with time left. */
  lemma GivenUpHandlerAcquiresClosed() returns (run: seq<State>, acts: seq<Action>)
    ensures IsRun(run, acts)
    ensures var s := run[|acts|];
            |s.gens| == 1 && s.gens[0].closed && s.gens[0].done && s.gens[0].refs == 1 && !s.expired
            && s.threads == [Hooking(0, true, CloseAll([0], 0)), RequestPinned(0)]
  {
    var s;
    run, acts, s := ClosedByCloseAll();
    run, acts, s := Extend(run, acts, s, BeginRequest);
    assert s.threads == [Hooking(0, true, CloseAll([0], 0)), RequestRead(0)];
    run, acts, s := Extend(run, acts, s, Run(1));
    assert s.threads == [Hooking(0, true, CloseAll([0], 0)), RequestPinned(0)];
  }

  // ---------- Closed at most once ----------

  /** The step that calls `Close` on the entities of `g`. */
  ghost predicate CallsClose(s: State, a: Action, g: nat) {
    && WellFormed(s) && a.Run? && a.t < |s.threads| && g < |s.gens|
    && s.threads[a.t].Closer? && s.threads[a.t].g == g && !s.gens[g].closed
  }

  lemma ClosedAtMostOnce(run: seq<State>, acts: seq<Action>, i: nat, j: nat, g: nat)
    requires IsRun(run, acts) && i < j < |acts|
    requires CallsClose(run[i], acts[i], g)
    ensures !CallsClose(run[j], acts[j], g)
    ensures g < |run[j].gens| && run[j].gens[g].closed && run[j].gens[g].closes == 1
  {
    RunInv(run, acts, i);
    RunInv(run, acts, j);
    assert Follows(run[i], acts[i], run[i + 1]);
    assert ThreadOk(run[i], run[i].threads[acts[i].t]);
    assert run[i + 1].gens[g].closed;
    RunEvolvesTo(run, acts, i + 1, j);
    assert GenEvolves(run[i + 1], run[j], g) && GenInv(run[j], g);
  }

  /** `closeNow` returns only after the close has finished, unless the caller's context has expired. */
  lemma CloseNowWaits(run: seq<State>, acts: seq<Action>, i: nat, t: nat)
    requires IsRun(run, acts) && i < |acts| && acts[i] == Run(t) && t < |run[i].threads|
    requires run[i].threads[t].Waiter? || run[i].threads[t].Hooking?
    ensures run[i + 1].threads[t] == Return(run[i].threads[t].caller)
    ensures run[i].threads[t].g < |run[i + 1].gens|
    ensures run[i + 1].gens[run[i].threads[t].g].done || (run[i].threads[t].caller.CloseAll? && run[i].expired)
  {
    RunInv(run, acts, i);
    assert Follows(run[i], acts[i], run[i + 1]);
    assert ThreadOk(run[i], run[i].threads[t]) && ThreadInv(run[i], run[i].threads[t]);
  }

  // ---------- No lost wakeup ----------

  /** A generation that is swapped out: neither serving nor still being brought up by its reload. */
  ghost predicate Retired(s: State, g: nat) {
    && g < |s.gens| && g != s.current
    && forall t :: 0 <= t < |s.threads| ==> s.threads[t] !in {ReloadMade(g), ReloadHooked(g), ReloadListed(g)}
  }

  /** Something is on its way that will close `g`. */
  predicate PendingCloser(p: Thread, g: nat) {
    p == ReloadSwapped(g) || p == Floor(g) || (p.Closer? && p.g == g)
  }

  lemma NoLostWakeup(run: seq<State>, acts: seq<Action>, i: nat, g: nat) returns (t: nat)
    requires IsRun(run, acts) && i < |run| && Retired(run[i], g)
    requires run[i].gens[g].refs <= 0 && !run[i].gens[g].closed
    ensures t < |run[i].threads| && PendingCloser(run[i].threads[t], g)
  {
    RunInv(run, acts, i);
    assert GenInv(run[i], g);
    if run[i].gens[g].closing {
      t := CountWitness(run[i].threads, Deciding, g);
    } else {
      t := CountWitness(run[i].threads, Owning, g);
    }
  }

  // ---------- Everything comes to rest ----------

  ghost predicate AtRest(s: State) {
    forall t :: 0 <= t < |s.threads| ==> Over(s.threads[t])
  }

  /** At rest the serving generation is the only one listed, and every other one was closed exactly once. */
  lemma RestIsClean(s: State, g: nat)
    requires Inv(s) && AtRest(s) && g < |s.gens|
    ensures s.gens[g].refs == 0
    ensures g != s.current ==> s.gens[g].closed && s.gens[g].done && s.gens[g].closes == 1 && g !in s.live
    ensures g == s.current && !s.shutdown ==> !s.gens[g].closed && s.gens[g].closes == 0 && g in s.live
  {
    assert GenInv(s, g);
    forall k: Role ensures Count(s.threads, k, g) == 0 {
      if Count(s.threads, k, g) > 0 {
        var t := CountWitness(s.threads, k, g);
        assert false;
      }
    }
  }

  /** No deadlock: unless every thread is over, some thread can move. */
  lemma NoDeadlock(s: State, t: nat) returns (u: nat)
    requires Inv(s) && t < |s.threads| && !Over(s.threads[t])
    ensures CanRun(s, u)
  {
    assert ThreadOk(s, s.threads[t]) && ThreadInv(s, s.threads[t]);
    u := t;
    if !CanRun(s, t) {
      match s.threads[t]
      case ReloadListed(_) => u :| 0 <= u < |s.threads| && InReadLock(s.threads[u]);
      case Waiter(g, _) =>
        assert GenInv(s, g);
        u := CountWitness(s.threads, InClose, g);
      case IdleWait(order, i) =>
        assert GenInv(s, order[i]);
        u := CountWitness(s.threads, Holding, order[i]);
    }
  }

  /** What a thread still has to do after `closeNow` returns to it. */
  function WorkAfter(caller: Caller): nat {
    if caller.CloseAll? && caller.i < |caller.order| then 1 + 5 * (|caller.order| - caller.i - 1) else 0
  }

  /** A bound on the steps thread `p` and the threads it starts can still make. */
  function Work(p: Thread): nat {
    match p
    case RequestRead(_) => 6
    case RequestPinned(_) => 5
    case RequestServing(_) => 4
    case ReloadMade(_) => 8
    case ReloadHooked(_) => 7
    case ReloadListed(_) => 6
    case ReloadSwapped(_) => 5
    case Floor(_) => 4
    case Closer(_, caller) => 3 + WorkAfter(caller)
    case Closing(_, _, caller) => 2 + WorkAfter(caller)
    case Hooking(_, _, caller) => 1 + WorkAfter(caller)
    case Waiter(_, caller) => 1 + WorkAfter(caller)
    case IdleWait(order, i) => if i < |order| then 5 * (|order| - i) else 0
    case Removing(order, i) => if i < |order| then 1 + 5 * (|order| - i - 1) else 0
    case ShutdownDone(_) => 0
    case Finished => 0
  }

  function TotalWork(ps: seq<Thread>): nat {
    if ps == [] then 0 else TotalWork(ps[..|ps| - 1]) + Work(ps[|ps| - 1])
  }

  lemma {:induction false} TotalUpdate(ps: seq<Thread>, t: nat, p: Thread)
    requires t < |ps|
    ensures TotalWork(ps[t := p]) + Work(ps[t]) == TotalWork(ps) + Work(p)
  {
    var n := |ps| - 1;
    if t < n {
      TotalUpdate(ps[..n], t, p);
      assert ps[t := p][..n] == ps[..n][t := p];
    } else {
      assert ps[t := p][..n] == ps[..n];
    }
  }

  lemma TotalSpawned(ps: seq<Thread>, q: Thread)
    ensures TotalWork(ps + Spawned(q)) == TotalWork(ps) + (if q.ReloadSwapped? then Work(Floor(q.g)) else 0)
  {
    if q.ReloadSwapped? {
      assert (ps + [Floor(q.g)])[..|ps|] == ps;
    } else {
      assert ps + Spawned(q) == ps;
    }
  }

  /** Every step of a thread that is already there uses up work. */
  lemma RunUsesWork(s: State, t: nat)
    requires WellFormed(s) && CanRun(s, t) && ThreadOk(s, s.threads[t])
    ensures TotalWork(RunThread(s, t).threads) < TotalWork(s.threads)
  {
    assert t < |s.threads|;
    hide Next, Effect, CanRun, ThreadOk, WellFormed, RunThread, TotalWork;
    RunIsMove(s, t);
    WorkShrinks(s, t);
    var p := RunThread(s, t).threads[t];
    TotalUpdate(s.threads, t, p);
    TotalSpawned(s.threads[t := p], s.threads[t]);
  }

  lemma WorkShrinks(s: State, t: nat)
    requires WellFormed(s) && CanRun(s, t) && ThreadOk(s, s.threads[t])
    ensures Work(RunThread(s, t).threads[t]) + (if s.threads[t].ReloadSwapped? then Work(Floor(0)) else 0)
            < Work(s.threads[t])
  {
    var p := s.threads[t];
    if p.Closer? || p.Waiter? || p.Closing? || p.Hooking? {
      ClosingWorkShrinks(s, t);
    } else if p.IdleWait? || p.Removing? {
      ListWorkShrinks(s, t);
    } else {
      EarlyWorkShrinks(s, t);
    }
  }

  lemma EarlyWorkShrinks(s: State, t: nat)
    requires WellFormed(s) && CanRun(s, t)
    requires var p := s.threads[t];
             !(p.Closer? || p.Waiter? || p.Closing? || p.Hooking? || p.IdleWait? || p.Removing?)
    ensures Work(RunThread(s, t).threads[t]) + (if s.threads[t].ReloadSwapped? then Work(Floor(0)) else 0)
            < Work(s.threads[t])
  {
  }

  lemma ClosingWorkShrinks(s: State, t: nat)
    requires WellFormed(s) && CanRun(s, t) && ThreadOk(s, s.threads[t])
    requires var p := s.threads[t]; p.Closer? || p.Waiter? || p.Closing? || p.Hooking?
    ensures Work(RunThread(s, t).threads[t]) < Work(s.threads[t])
  {
  }

  lemma ListWorkShrinks(s: State, t: nat)
    requires WellFormed(s) && CanRun(s, t) && ThreadOk(s, s.threads[t])
    requires s.threads[t].IdleWait? || s.threads[t].Removing?
    ensures Work(RunThread(s, t).threads[t]) < Work(s.threads[t])
  {
  }

  /**
   Left alone, the protocol comes to rest.  From any state of any run, let the threads that are there run
   in any order, with no new request, reload or shutdown: they make at most `TotalWork` steps, and when
   none of them can move every retired generation has been closed exactly once and drained.
  */
  lemma {:induction false} LeftAloneItRests(tail: seq<State>, turns: seq<nat>)
    requires |tail| == |turns| + 1 && Inv(tail[0])
    requires forall i :: 0 <= i < |turns| ==> Follows(tail[i], Run(turns[i]), tail[i + 1])
    ensures |turns| <= TotalWork(tail[0].threads)
    ensures Inv(tail[|turns|])
    ensures (forall t: nat :: !CanRun(tail[|turns|], t)) ==> AtRest(tail[|turns|])
  {
    if turns == [] {
      var s := tail[0];
      if forall t: nat :: !CanRun(s, t) {
        forall t | 0 <= t < |s.threads| ensures Over(s.threads[t]) {
          if !Over(s.threads[t]) {
            var u := NoDeadlock(s, t);
          }
        }
      }
    } else {
      assert Follows(tail[0], Run(turns[0]), tail[1]);
      assert ThreadOk(tail[0], tail[0].threads[turns[0]]);
      StepKeepsInv(tail[0], Run(turns[0]));
      RunUsesWork(tail[0], turns[0]);
      forall i | 0 <= i < |turns[1..]| ensures Follows(tail[1..][i], Run(turns[1..][i]), tail[1..][i + 1]) {
        assert Follows(tail[i + 1], Run(turns[i + 1]), tail[i + 2]);
      }
      LeftAloneItRests(tail[1..], turns[1..]);
    }
  }

  // ---------- The registry and shutdown ----------

  /** A generation missing from the registry has been closed, unless its reload has not listed it yet. */
  lemma MissingMeansClosed(run: seq<State>, acts: seq<Action>, i: nat, g: nat)
    requires IsRun(run, acts) && i < |run| && g < |run[i].gens| && g !in run[i].live
    requires forall t :: 0 <= t < |run[i].threads| ==> run[i].threads[t] !in {ReloadMade(g), ReloadHooked(g)}
    ensures run[i].gens[g].closed
  {
    RunInv(run, acts, i);
    assert GenInv(run[i], g);
    if !run[i].gens[g].closed {
      var t := CountWitness(run[i].threads, Unlisted, g);
    }
  }

  /**
   When `closeAll` returns, every generation that was listed when it was called is closed, gone from the
   registry and, unless the deadline has passed, completely drained.
  */
  lemma CloseAllCovers(run: seq<State>, acts: seq<Action>, i: nat, j: nat, order: seq<nat>, g: nat, t: nat)
    requires IsRun(run, acts) && i < j < |run| && acts[i] == BeginCloseAll(order)
    requires g in run[i].live && t < |run[j].threads| && run[j].threads[t] == ShutdownDone(order)
    ensures g < |run[j].gens| && run[j].gens[g].closed && g !in run[j].live
    ensures run[j].gens[g].done || run[j].expired
  {
    assert Follows(run[i], acts[i], run[i + 1]);
    RunInv(run, acts, j);
    assert ThreadOk(run[j], run[j].threads[t]) && ThreadInv(run[j], run[j].threads[t]);
    var k :| 0 <= k < |order| && order[k] == g;
    assert Settled(run[j], order[k]);
  }

  /** One action more at the end of a run that is in state `s`. */
  lemma Extend(run: seq<State>, acts: seq<Action>, s: State, a: Action)
    returns (run': seq<State>, acts': seq<Action>, s': State)
    requires IsRun(run, acts) && run[|acts|] == s && WellFormed(s) && Enabled(s, a)
    ensures IsRun(run', acts') && run'[|acts'|] == s' && s' == Step(s, a)
  {
    s' := Step(s, a);
    run', acts' := run + [s'], acts + [a];
    forall i | 0 <= i < |acts'| ensures Follows(run'[i], acts'[i], run'[i + 1]) {
      if i < |acts| {
        assert Follows(run[i], acts[i], run[i + 1]);
      }
    }
  }

  const HOOKED_GEN := NEW_GEN.(hooked := true)
  const CLOSED_GEN := HOOKED_GEN.(closed := true, closes := 1, done := true)

  lemma ReloadHalfDone() returns (run: seq<State>, acts: seq<Action>, s: State)
    ensures IsRun(run, acts) && run[|acts|] == s
    ensures s == State([HOOKED_GEN, HOOKED_GEN], {0}, 0, [ReloadHooked(1)], true, false, false, false)
  {
    run, acts, s := [INITIAL], [], INITIAL;
    run, acts, s := Extend(run, acts, s, BeginReload);
    assert s.gens == [HOOKED_GEN, NEW_GEN] && s.threads == [ReloadMade(1)];
    run, acts, s := Extend(run, acts, s, Run(0));
    assert s.gens == [HOOKED_GEN, HOOKED_GEN] && s.threads == [ReloadHooked(1)];
    run, acts, s := Extend(run, acts, s, ServerDrained);
  }

  lemma SnapshotTaken() returns (run: seq<State>, acts: seq<Action>, s: State)
    ensures IsRun(run, acts) && run[|acts|] == s
    ensures s == State([HOOKED_GEN, HOOKED_GEN], {0}, 0, [ReloadHooked(1), Closer(0, CloseAll([0], 0))], true,
            false, true, false)
  {
    run, acts, s := ReloadHalfDone();
    run, acts, s := Extend(run, acts, s, BeginCloseAll([0]));
    assert s.threads == [ReloadHooked(1), IdleWait([0], 0)];
    run, acts, s := Extend(run, acts, s, Run(1));
    assert s.threads == [ReloadHooked(1), Closer(0, CloseAll([0], 0))];
  }

  lemma SnapshotDrained() returns (run: seq<State>, acts: seq<Action>, s: State)
    ensures IsRun(run, acts) && run[|acts|] == s
    ensures s == State([CLOSED_GEN, HOOKED_GEN], {0}, 0, [ReloadHooked(1), Hooking(0, true, CloseAll([0], 0))],
            true, false, true, false)
  {
    run, acts, s := SnapshotTaken();
    run, acts, s := Extend(run, acts, s, Run(1));
    assert s.threads == [ReloadHooked(1), Closing(0, true, CloseAll([0], 0))];
    run, acts, s := Extend(run, acts, s, Run(1));
    assert s.threads == [ReloadHooked(1), Hooking(0, true, CloseAll([0], 0))];
    assert s.gens == [CLOSED_GEN, HOOKED_GEN];
  }

  lemma SnapshotClosed() returns (run: seq<State>, acts: seq<Action>, s: State)
    ensures IsRun(run, acts) && run[|acts|] == s
    ensures s == State([CLOSED_GEN, HOOKED_GEN], {}, 0, [ReloadHooked(1), ShutdownDone([0])], true, false, true, false)
  {
    run, acts, s := SnapshotDrained();
    run, acts, s := Extend(run, acts, s, Run(1));
    assert s.threads == [ReloadHooked(1), Removing([0], 0)] && s.live == {};
    run, acts, s := Extend(run, acts, s, Run(1));
    assert s.threads == [ReloadHooked(1), ShutdownDone([0])] && s.live == {};
  }

  /**
   The limit of `CloseAllCovers`: a reload that lists its generation after `closeAll` took its snapshot is
   not covered.  In this run `closeAll` has returned in time and generation 1 is listed, serving and open.
  */
  lemma LateGenerationEscapes() returns (run: seq<State>, acts: seq<Action>)
    ensures IsRun(run, acts)
    ensures var s := run[|acts|];
            && ShutdownDone([0]) in s.threads && !s.expired
            && s.current == 1 && 1 in s.live && |s.gens| == 2 && !s.gens[1].closed
  {
    var s: State;
    run, acts, s := SnapshotClosed();
    run, acts, s := Extend(run, acts, s, Run(0));
    assert s.threads == [ReloadListed(1), ShutdownDone([0])];
    run, acts, s := Extend(run, acts, s, Run(0));
    assert s.threads == [ReloadSwapped(0), ShutdownDone([0])];
    assert s.threads[1] == ShutdownDone([0]);
  }
}
