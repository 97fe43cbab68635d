/** Which generations shutdown closes: exactly those its snapshots of the registry hold, besides the retired ones. */
module GenerationShutdown {
  import opened GenerationProtocol
  import opened GenerationSafety
  import opened GenerationTheorems

  /** The snapshot a thread of `closeAll` works through. */
  function OrderOf(p: Thread): seq<nat> {
    match p
    case IdleWait(order, _) => order
    case Removing(order, _) => order
    case ShutdownDone(order) => order
    case Closer(_, CloseAll(order, _)) => order
    case Waiter(_, CloseAll(order, _)) => order
    case Closing(_, _, CloseAll(order, _)) => order
    case Hooking(_, _, CloseAll(order, _)) => order
    case _ => []
  }

  lemma NextKeepsOrder(s: State, t: nat)
    requires WellFormed(s) && t < |s.threads|
    ensures OrderOf(Next(s, t)) == OrderOf(s.threads[t])
  {
  }

  /** A thread keeps its snapshot, and only a call of `closeAll` brings a new one. */
  lemma OrdersStay(s: State, a: Action, s': State, t: nat)
    requires Follows(s, a, s') && t < |s'.threads|
    ensures t < |s.threads| ==> OrderOf(s'.threads[t]) == OrderOf(s.threads[t])
    ensures t >= |s.threads| ==> OrderOf(s'.threads[t]) == if a.BeginCloseAll? then a.order else []
    ensures |s'.threads| >= |s.threads|
    ensures a.BeginCloseAll? ==> |s'.threads| == |s.threads| + 1
  {
    if a.Run? {
      NextKeepsOrder(s, a.t);
      RunKeepsOthers(s, a.t);
      RunMoves(s, a.t);
      hide RunThread, Next, WellFormed, CanRun;
    }
  }

  lemma FoundInRegistry(s: State, a: Action, s': State)
    requires Follows(s, a, s')
    ensures a.BeginCloseAll? ==> forall g <- a.order :: g in s.live
  {
  }

  /** `closeAll` found `g` in the registry, in one of its calls among the first `n` actions. */
  ghost predicate InSnapshot(run: seq<State>, acts: seq<Action>, n: nat, g: nat)
    requires n <= |acts| < |run|
  {
    exists i :: 0 <= i < n && acts[i].BeginCloseAll? && g in run[i].live
  }

  lemma {:induction false} OrdersAreSnapshots(run: seq<State>, acts: seq<Action>, n: nat, g: nat, t: nat)
    requires IsRun(run, acts) && n < |run| && t < |run[n].threads| && g in OrderOf(run[n].threads[t])
    ensures InSnapshot(run, acts, n, g)
  {
    if n > 0 {
      var s, a := run[n - 1], acts[n - 1];
      assert Follows(s, a, run[n]);
      hide OrderOf, Follows;
      OrdersStay(s, a, run[n], t);
      FoundInRegistry(s, a, run[n]);
      if t < |s.threads| {
        OrdersAreSnapshots(run, acts, n - 1, g, t);
      }
    }
  }

  lemma {:induction false} SnapshotsAreCarried(run: seq<State>, acts: seq<Action>, i: nat, n: nat)
    requires IsRun(run, acts) && i < n < |run| && acts[i].BeginCloseAll?
    ensures |run[i].threads| < |run[n].threads|
    ensures OrderOf(run[n].threads[|run[i].threads|]) == acts[i].order
  {
    var s, a := run[n - 1], acts[n - 1];
    assert Follows(s, a, run[n]);
    if i == n - 1 {
      OrdersStay(s, a, run[n], |s.threads|);
    } else {
      SnapshotsAreCarried(run, acts, i, n - 1);
      OrdersStay(s, a, run[n], |run[i].threads|);
    }
  }

  /** A generation that was closed without being retired is in the snapshot of some thread. */
  ghost predicate ClosedByShutdown(s: State, g: nat)
    requires g < |s.gens|
  {
    s.gens[g].closed && !s.gens[g].closing ==> exists t :: 0 <= t < |s.threads| && g in OrderOf(s.threads[t])
  }

  lemma ThreadsStay(s: State, a: Action, s': State)
    requires Follows(s, a, s')
    ensures |s'.threads| >= |s.threads|
  {
  }

  lemma OnlyClosersClose(s: State, t: nat, g: nat)
    requires WellFormed(s) && CanRun(s, t) && g < |s.gens| && !s.gens[g].closed
    ensures |RunThread(s, t).gens| == |s.gens| && (s.gens[g].closing ==> RunThread(s, t).gens[g].closing)
    ensures RunThread(s, t).gens[g].closed ==> s.threads[t].Closer? && s.threads[t].g == g
  {
    RunIsEffect(s, t);
    hide RunThread, Next, CanRun, WellFormed;
  }

  /** The step that closes a generation which is not retired is a step of a thread whose snapshot holds it. */
  lemma CloserHasSnapshot(s: State, a: Action, s': State, g: nat)
    requires Inv(s) && Follows(s, a, s') && g < |s'.gens| && s'.gens[g].closed && !s'.gens[g].closing
    requires g < |s.gens| ==> !s.gens[g].closed
    ensures g < |s.gens| && a.Run? && a.t < |s.threads| && g in OrderOf(s.threads[a.t])
  {
    if a.Run? {
      RunKeepsFlags(s, a.t);
      OnlyClosersClose(s, a.t, g);
      hide RunThread, CanRun, GenInv;
      assert ThreadOk(s, s.threads[a.t]) && ThreadInv(s, s.threads[a.t]);
    }
  }

  /** A step closes a generation that is not retired only on behalf of a snapshot that holds it. */
  lemma StepClosesFromSnapshot(s: State, a: Action, s': State, g: nat) returns (t: nat)
    requires Inv(s) && Follows(s, a, s') && g < |s'.gens| && s'.gens[g].closed && !s'.gens[g].closing
    requires g < |s.gens| ==> ClosedByShutdown(s, g)
    ensures t < |s'.threads| && g in OrderOf(s'.threads[t])
  {
    if g < |s.gens| && s.gens[g].closed {
      StillOpen(s, a, s', g);
      t :| 0 <= t < |s.threads| && g in OrderOf(s.threads[t]);
    } else {
      CloserHasSnapshot(s, a, s', g);
      t := a.t;
    }
    hide *;
    ThreadsStay(s, a, s');
    OrdersStay(s, a, s', t);
  }

  /** Nothing takes back that a generation is retired. */
  lemma StillOpen(s: State, a: Action, s': State, g: nat)
    requires Inv(s) && Follows(s, a, s') && g < |s.gens|
    ensures g < |s'.gens| && (s.gens[g].closing ==> s'.gens[g].closing)
  {
    StepEvolves(s, a);
    assert GenEvolves(s, s', g);
  }

  lemma {:induction false} RunClosesFromSnapshot(run: seq<State>, acts: seq<Action>, n: nat, g: nat)
    requires IsRun(run, acts) && n < |run| && g < |run[n].gens|
    ensures ClosedByShutdown(run[n], g)
  {
    if n > 0 && run[n].gens[g].closed && !run[n].gens[g].closing {
      var s, a := run[n - 1], acts[n - 1];
      RunInv(run, acts, n - 1);
      assert Follows(s, a, run[n]);
      if g < |s.gens| {
        RunClosesFromSnapshot(run, acts, n - 1, g);
      }
      var t := StepClosesFromSnapshot(s, a, run[n], g);
    }
  }

  /**
   What shutdown releases, exactly.  In every run that has come to rest a generation is closed if and only
   if it is not the serving one, or the registry held it when some `closeAll` was called: a snapshot that
   is known at the call decides about the serving generation.
  */
  lemma RestClosesExactly(run: seq<State>, acts: seq<Action>, g: nat)
    requires IsRun(run, acts) && AtRest(run[|acts|]) && g < |run[|acts|].gens|
    ensures run[|acts|].gens[g].closed <==> g != run[|acts|].current || InSnapshot(run, acts, |acts|, g)
  {
    var n := |acts|;
    var s := run[n];
    RunInv(run, acts, n);
    RestIsClean(s, g);
    if g == s.current && s.gens[g].closed {
      RunClosesFromSnapshot(run, acts, n, g);
      assert GenInv(s, g);
      var t :| 0 <= t < |s.threads| && g in OrderOf(s.threads[t]);
      OrdersAreSnapshots(run, acts, n, g, t);
    }
    if InSnapshot(run, acts, n, g) {
      var i :| 0 <= i < n && acts[i].BeginCloseAll? && g in run[i].live;
      SnapshotIsClosed(run, acts, i, g);
    }
  }

  lemma SnapshotIsClosed(run: seq<State>, acts: seq<Action>, i: nat, g: nat)
    requires IsRun(run, acts) && AtRest(run[|acts|]) && i < |acts| && acts[i].BeginCloseAll? && g in run[i].live
    ensures g < |run[|acts|].gens| && run[|acts|].gens[g].closed
  {
    var n, t := |acts|, |run[i].threads|;
    assert Follows(run[i], acts[i], run[i + 1]);
    SnapshotsAreCarried(run, acts, i, n);
    assert Over(run[n].threads[t]);
    assert run[n].threads[t] == ShutdownDone(acts[i].order);
    CloseAllCovers(run, acts, i, n, acts[i].order, g, t);
  }

  /** The same, read off the state: some `closeAll` that returned has the serving generation in its snapshot. */
  lemma ServingClosedExactly(run: seq<State>, acts: seq<Action>)
    requires IsRun(run, acts) && AtRest(run[|acts|])
    ensures var s := run[|acts|];
            s.current < |s.gens| &&
            (s.gens[s.current].closed <==>
             exists t :: 0 <= t < |s.threads| && s.threads[t].ShutdownDone? && s.current in s.threads[t].order)
  {
    var n := |acts|;
    var s := run[n];
    RunInv(run, acts, n);
    var g := s.current;
    RunClosesFromSnapshot(run, acts, n, g);
    assert GenInv(s, g);
    if s.gens[g].closed {
      var t :| 0 <= t < |s.threads| && g in OrderOf(s.threads[t]);
      assert Over(s.threads[t]);
      assert s.threads[t].ShutdownDone? && g in s.threads[t].order;
    }
    if t :| 0 <= t < |s.threads| && s.threads[t].ShutdownDone? && g in s.threads[t].order {
      assert ThreadOk(s, s.threads[t]) && ThreadInv(s, s.threads[t]);
      var k :| 0 <= k < |s.threads[t].order| && s.threads[t].order[k] == g;
      assert Settled(s, s.threads[t].order[k]);
    }
  }
}
