/** Shutdown keeps its deadline: once it has passed, nothing a request does or fails to do holds `closeAll` up. */
module GenerationDeadline {
  import opened GenerationProtocol
  import opened GenerationSafety
  import opened GenerationTheorems
  import opened GenerationShutdown

  /** The thread is inside `closeAll`: between two generations, or inside a `closeNow` that `closeAll` called. */
  predicate InCloseAll(p: Thread) {
    || p.IdleWait? || p.Removing?
    || ((p.Closer? || p.Waiter? || p.Closing? || p.Hooking?) && p.caller.CloseAll?)
  }

  /** After the deadline `closeAll` waits for nobody: neither for requests to drain nor for another's close. */
  lemma DeadlineFrees(s: State, t: nat)
    requires WellFormed(s) && s.expired && t < |s.threads| && InCloseAll(s.threads[t])
    ensures CanRun(s, t)
  {
  }

  /** Before the deadline it does wait: for the requests in flight, and for a close that is under way. */
  lemma BeforeDeadlineWaits(s: State, t: nat)
    requires WellFormed(s) && !s.expired && t < |s.threads|
    ensures var p := s.threads[t];
            && (p.IdleWait? && p.i < |p.order| && p.order[p.i] < |s.gens| ==>
                  (CanRun(s, t) <==> s.gens[p.order[p.i]].refs <= 0))
            && (p.Waiter? && p.g < |s.gens| ==> (CanRun(s, t) <==> s.gens[p.g].done))
  {
  }

  // ---------- The thread of one call ----------

  /** How many of the actions from `i` up to `j` are steps of thread `t`. */
  function OwnSteps(acts: seq<Action>, i: nat, j: nat, t: nat): nat
    requires i <= j <= |acts|
    decreases j - i
  {
    if i == j then 0 else OwnSteps(acts, i, j - 1, t) + if acts[j - 1] == Run(t) then 1 else 0
  }

  lemma OthersStay(s: State, a: Action, s': State, t: nat)
    requires Follows(s, a, s') && t < |s.threads| && a != Run(t)
    ensures t < |s'.threads| && s'.threads[t] == s.threads[t]
  {
    if a.Run? {
      RunKeepsOthers(s, a.t);
      hide RunThread, CanRun, WellFormed;
    }
  }

  lemma OwnStepUsesWork(s: State, t: nat, s': State)
    requires Inv(s) && Follows(s, Run(t), s')
    ensures t < |s.threads| && t < |s'.threads| && Work(s'.threads[t]) < Work(s.threads[t])
  {
    assert ThreadOk(s, s.threads[t]);
    RunMoves(s, t);
    WorkShrinks(s, t);
    hide Work;
  }

  lemma StepUsesOwnWork(s: State, a: Action, s': State, t: nat)
    requires Inv(s) && Follows(s, a, s') && t < |s.threads|
    ensures t < |s'.threads|
    ensures Work(s'.threads[t]) + (if a == Run(t) then 1 else 0) <= Work(s.threads[t])
  {
    if a == Run(t) {
      OwnStepUsesWork(s, t, s');
    } else {
      OthersStay(s, a, s', t);
    }
    hide *;
  }

  /** A thread's own steps are bounded by the work it starts with, whatever the others do. */
  lemma {:induction false} OwnStepsUseWork(run: seq<State>, acts: seq<Action>, i: nat, j: nat, t: nat)
    requires IsRun(run, acts) && i <= j < |run| && t < |run[i].threads|
    ensures t < |run[j].threads|
    ensures OwnSteps(acts, i, j, t) + Work(run[j].threads[t]) <= Work(run[i].threads[t])
  {
    if i < j {
      OwnStepsUseWork(run, acts, i, j - 1, t);
      RunInv(run, acts, j - 1);
      assert Follows(run[j - 1], acts[j - 1], run[j]);
      hide Work, Inv, Follows, IsRun;
      StepUsesOwnWork(run[j - 1], acts[j - 1], run[j], t);
    }
  }

  /** A thread of `closeAll` stays in `closeAll` until that has returned. */
  lemma StaysInCloseAll(s: State, a: Action, s': State, t: nat)
    requires Follows(s, a, s') && t < |s.threads| && (InCloseAll(s.threads[t]) || s.threads[t].ShutdownDone?)
    ensures t < |s'.threads| && (InCloseAll(s'.threads[t]) || s'.threads[t].ShutdownDone?)
  {
    if a == Run(t) {
      RunMoves(s, t);
      hide RunThread, CanRun, WellFormed;
    } else {
      OthersStay(s, a, s', t);
    }
  }

  lemma {:induction false} CallStaysInCloseAll(run: seq<State>, acts: seq<Action>, i: nat, j: nat)
    requires IsRun(run, acts) && i < j < |run| && acts[i].BeginCloseAll?
    ensures var t := |run[i].threads|;
            t < |run[j].threads| && (InCloseAll(run[j].threads[t]) || run[j].threads[t].ShutdownDone?)
  {
    assert Follows(run[j - 1], acts[j - 1], run[j]);
    if i + 1 < j {
      CallStaysInCloseAll(run, acts, i, j - 1);
      StaysInCloseAll(run[j - 1], acts[j - 1], run[j], |run[i].threads|);
    }
  }

  /** Thread `t` of `closeAll` has returned, or can go on by itself once the deadline has passed. */
  ghost predicate HeldUpByNobody(s: State, t: nat, order: seq<nat>) {
    && WellFormed(s) && t < |s.threads|
    && (s.threads[t] == ShutdownDone(order) || (s.expired ==> CanRun(s, t)))
  }

  /**
   The deadline of shutdown.  Take a call of `closeAll` and any later state of the run, whatever requests,
   reloads and other closers have done in between, a request that never ends included.  The call has made at
   most five steps for each generation in its snapshot; when it has made that many it has returned; and
   while it has not, it can go on by itself as soon as the deadline has passed.
  */
  lemma CloseAllMeetsDeadline(run: seq<State>, acts: seq<Action>, i: nat, j: nat, order: seq<nat>)
    requires IsRun(run, acts) && i < j < |run| && acts[i] == BeginCloseAll(order)
    ensures var t := |run[i].threads|;
            && t < |run[j].threads|
            && OwnSteps(acts, i + 1, j, t) <= 5 * |order|
            && (OwnSteps(acts, i + 1, j, t) == 5 * |order| ==> run[j].threads[t] == ShutdownDone(order))
            && HeldUpByNobody(run[j], t, order)
  {
    var t := |run[i].threads|;
    assert Follows(run[i], acts[i], run[i + 1]);
    CallStarts(run[i], order, run[i + 1]);
    hide Follows, Work;
    OwnStepsUseWork(run, acts, i + 1, j, t);
    CallStaysInCloseAll(run, acts, i, j);
    SnapshotsAreCarried(run, acts, i, j);
    RunInv(run, acts, j);
    hide *;
    CallGoesOn(run[j], t, order);
  }

  lemma CallStarts(s: State, order: seq<nat>, s': State)
    requires Follows(s, BeginCloseAll(order), s')
    ensures |s'.threads| == |s.threads| + 1 && Work(s'.threads[|s.threads|]) == 5 * |order|
  {
  }

  lemma CallGoesOn(s: State, t: nat, order: seq<nat>)
    requires Inv(s) && t < |s.threads| && OrderOf(s.threads[t]) == order
    requires InCloseAll(s.threads[t]) || s.threads[t].ShutdownDone?
    ensures Work(s.threads[t]) == 0 ==> s.threads[t] == ShutdownDone(order)
    ensures HeldUpByNobody(s, t, order)
  {
    WorkLeft(s, t);
    if s.expired && InCloseAll(s.threads[t]) {
      DeadlineFrees(s, t);
    }
    hide Work, WellFormed, ThreadInv, GenInv;
  }

  lemma WorkLeft(s: State, t: nat)
    requires Inv(s) && t < |s.threads|
    ensures InCloseAll(s.threads[t]) ==> Work(s.threads[t]) > 0
  {
    assert ThreadOk(s, s.threads[t]);
  }

  // ---------- A request that never ends ----------

  const HELD_GEN := HOOKED_GEN.(refs := 1)

  lemma ServedRequest() returns (run: seq<State>, acts: seq<Action>, s: State)
    ensures IsRun(run, acts) && run[|acts|] == s
    ensures s == State([HELD_GEN], {0}, 0, [RequestServing(0)], false, false, false, false)
  {
    run, acts, s := [INITIAL], [], INITIAL;
    run, acts, s := Extend(run, acts, s, BeginRequest);
    assert s.threads == [RequestRead(0)];
    hide IsRun;
    run, acts, s := Extend(run, acts, s, Run(0));
    assert s.threads == [RequestPinned(0)] && s.gens == [HELD_GEN];
    run, acts, s := Extend(run, acts, s, Run(0));
    assert s.threads == [RequestServing(0)];
  }

  lemma HungRequest() returns (run: seq<State>, acts: seq<Action>, s: State)
    ensures IsRun(run, acts) && run[|acts|] == s
    ensures s == State([HELD_GEN], {0}, 0, [RequestServing(0), IdleWait([0], 0)], true, true, true, false)
  {
    run, acts, s := ServedRequest();
    hide IsRun;
    run, acts, s := Extend(run, acts, s, ServerDrained);
    run, acts, s := Extend(run, acts, s, BeginCloseAll([0]));
    assert s.threads == [RequestServing(0), IdleWait([0], 0)];
    run, acts, s := Extend(run, acts, s, DeadlinePasses);
  }

  lemma ClosedInUse() returns (run: seq<State>, acts: seq<Action>, s: State)
    ensures IsRun(run, acts) && run[|acts|] == s
    ensures s == State([HELD_GEN.(closed := true, closes := 1)], {0}, 0,
                       [RequestServing(0), Closing(0, true, CloseAll([0], 0))], true, true, true, false)
  {
    run, acts, s := HungRequest();
    hide IsRun;
    run, acts, s := Extend(run, acts, s, Run(1));
    assert s.threads == [RequestServing(0), Closer(0, CloseAll([0], 0))];
    run, acts, s := Extend(run, acts, s, Run(1));
    assert s.threads == [RequestServing(0), Closing(0, true, CloseAll([0], 0))];
  }

  /** A run in which a request hangs: after the deadline `closeAll` closes its generation all the same, and returns. */
  lemma HungRequestIsLeftBehind() returns (run: seq<State>, acts: seq<Action>)
    ensures IsRun(run, acts)
    ensures var s := run[|acts|];
            && s.threads == [RequestServing(0), ShutdownDone([0])] && |s.gens| == 1
            && s.gens[0].refs == 1 && s.gens[0].closed && s.gens[0].done && s.live == {}
  {
    var s;
    run, acts, s := ClosedInUse();
    hide IsRun;
    run, acts, s := Extend(run, acts, s, Run(1));
    assert s.threads == [RequestServing(0), Hooking(0, true, CloseAll([0], 0))];
    run, acts, s := Extend(run, acts, s, Run(1));
    assert s.threads == [RequestServing(0), Removing([0], 0)] && s.live == {};
    run, acts, s := Extend(run, acts, s, Run(1));
    assert s.threads == [RequestServing(0), ShutdownDone([0])] && s.live == {};
  }
}
