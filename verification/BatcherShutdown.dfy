/** The batcher left to itself: blocked producers are served, the seal becomes possible, and `Close` can return. */
module BatcherShutdown {
  import opened BatcherProtocol
  import opened BatcherTheorems

  /** More than a producer adds to the work of the others by sending its event. */
  function ProducerWork(p: Producer): nat {
    match p
    case Checking(_) => 6
    case Sending(_) => 5
    case Returned(_, _) => 0
  }

  function ProducersWork(ps: seq<Producer>): nat {
    if ps == [] then 0 else ProducersWork(ps[..|ps| - 1]) + ProducerWork(ps[|ps| - 1])
  }

  lemma {:induction false} ProducersUpdate(ps: seq<Producer>, i: nat, p: Producer)
    requires i < |ps|
    ensures ProducersWork(ps[i := p]) + ProducerWork(ps[i]) == ProducersWork(ps) + ProducerWork(p)
  {
    var n := |ps| - 1;
    if i < n {
      ProducersUpdate(ps[..n], i, p);
      assert ps[i := p][..n] == ps[..n][i := p];
    } else {
      assert ps[i := p][..n] == ps[..n];
    }
  }

  /** A bound on the steps that are left while no new event comes in, the seal included. */
  function Remaining(s: State): nat {
    Left(s) + ProducersWork(s.producers) + if s.closed then 0 else 1
  }

  /** A step after which everything is as before but for the clock. */
  predicate Idle(s: State, a: Action, s': State) {
    a.TimePasses? || (a.Tick? && s' == s)
  }

  lemma ProducerStepUses(s: State, a: Action)
    requires Enabled(s, a) && (a.Check? || a.Send? || a.Drop? || a.Cancel? || a.SeeDone?)
    ensures Remaining(Step(s, a)) < Remaining(s)
  {
    ProducersUpdate(s.producers, a.p, Step(s, a).producers[a.p]);
  }

  /** Every step but a new `Add` uses up some of what remains, unless it is idle. */
  lemma StepUsesUp(s: State, a: Action)
    requires Inv(s) && Enabled(s, a) && !a.BeginAdd?
    ensures Remaining(Step(s, a)) <= Remaining(s)
    ensures Remaining(Step(s, a)) < Remaining(s) || Idle(s, a, Step(s, a))
  {
    if OfWorker(a) {
      WorkerStepsRunOut(s, a);
      WorkerFrame(s, a);
    } else if !a.Seal? && !a.TimePasses? {
      ProducerStepUses(s, a);
    }
  }

  /** A step the batcher makes by itself: no new event, no cancelled producer, no mere tick. */
  predicate Own(a: Action) {
    !a.BeginAdd? && !a.TimePasses? && !a.Tick? && !a.Cancel?
  }

  /** Until `Close` can return with every `Add` over, the batcher always has a step of its own. */
  lemma MovesOn(s: State) returns (a: Action)
    requires Inv(s) && !(CloseReturns(s) && forall p <- s.producers :: p.Returned?)
    ensures Enabled(s, a) && Own(a)
  {
    if p :| 0 <= p < |s.producers| && s.producers[p].Checking? {
      a := Check(p);
    } else if p :| 0 <= p < |s.producers| && s.producers[p].Sending? {
      a := Serve(s, p);
    } else if !s.closed {
      a := Seal;
    } else {
      a := SealedBatcherMovesOn(s);
    }
  }

  /** A producer at the queue can send, is dropped, or waits for a worker that can go on. */
  lemma Serve(s: State, p: nat) returns (a: Action)
    requires Inv(s) && SendingAt(s, p)
    ensures Enabled(s, a) && Own(a)
  {
    assert WorkerOk(s, 0);
    if |s.queue| < s.cfg.queueSize {
      a := Send(p);
    } else if !Blocks(s) {
      a := Drop(p);
    } else if s.workers[0].flushing {
      a := FlushReturns(0);
    } else {
      a := Receive(0);
    }
  }

  // ---------- Whole tails of runs ----------

  /** A stretch of a run in which no new event comes in. */
  ghost predicate IsTail(tail: seq<State>, acts: seq<Action>) {
    && |tail| == |acts| + 1 && Inv(tail[0])
    && forall i :: 0 <= i < |acts| ==> Follows(tail[i], acts[i], tail[i + 1]) && !acts[i].BeginAdd?
  }

  function BusySteps(tail: seq<State>, acts: seq<Action>): nat
    requires |tail| == |acts| + 1
    decreases |acts|
  {
    if acts == [] then 0
    else
      var n := |acts| - 1;
      BusySteps(tail[..n + 1], acts[..n]) + if Idle(tail[n], acts[n], tail[n + 1]) then 0 else 1
  }

  lemma TailPrefix(tail: seq<State>, acts: seq<Action>)
    requires IsTail(tail, acts) && acts != []
    ensures IsTail(tail[..|acts|], acts[..|acts| - 1])
    ensures Follows(tail[|acts| - 1], acts[|acts| - 1], tail[|acts|]) && !acts[|acts| - 1].BeginAdd?
  {
    var n := |acts| - 1;
    forall i | 0 <= i < n
      ensures Follows(tail[..n + 1][i], acts[..n][i], tail[..n + 1][i + 1]) && !acts[..n][i].BeginAdd?
    {
      assert Follows(tail[i], acts[i], tail[i + 1]);
    }
  }

  lemma {:induction false} TailBound(tail: seq<State>, acts: seq<Action>)
    requires IsTail(tail, acts)
    ensures Inv(tail[|acts|]) && tail[|acts|].cfg == tail[0].cfg
    ensures BusySteps(tail, acts) + Remaining(tail[|acts|]) <= Remaining(tail[0])
    decreases |acts|
  {
    if acts != [] {
      var n := |acts| - 1;
      TailPrefix(tail, acts);
      hide Inv, Remaining, Idle, IsTail;
      TailBound(tail[..n + 1], acts[..n]);
      FollowsUsesUp(tail[n], acts[n], tail[n + 1]);
    }
  }

  lemma FollowsUsesUp(s: State, a: Action, s': State)
    requires Inv(s) && Follows(s, a, s') && !a.BeginAdd?
    ensures Inv(s') && s'.cfg == s.cfg && Remaining(s') <= Remaining(s)
    ensures Remaining(s') < Remaining(s) || Idle(s, a, s')
  {
    hide Inv, Remaining, Idle;
    StepKeepsInv(s, a);
    StepUsesUp(s, a);
  }

  /** The batcher has no step of its own left. */
  ghost predicate Still(s: State) {
    forall a :: Enabled(s, a) ==> !Own(a)
  }

  /**
   Left alone, the batcher shuts down.  From any reachable state on, with no new `Add`, all steps in any
   order are idle but for at most `Remaining` of them; and where the batcher stands still the seal is on,
   every `Add` has returned, and `Close` can return nil.
  */
  lemma LeftAloneItCloses(tail: seq<State>, acts: seq<Action>)
    requires IsTail(tail, acts)
    ensures BusySteps(tail, acts) <= Remaining(tail[0])
    ensures var s := tail[|acts|]; Still(s) ==> CloseReturns(s) && forall p <- s.producers :: p.Returned?
  {
    TailBound(tail, acts);
    var s := tail[|acts|];
    if Still(s) && !(CloseReturns(s) && forall p <- s.producers :: p.Returned?) {
      var a := MovesOn(s);
    }
  }

  /** A step serves a blocked producer or leaves it where it is, unless its own context is cancelled. */
  lemma BlockedStep(s: State, a: Action, s': State, p: nat)
    requires Inv(s) && Blocks(s) && Follows(s, a, s') && p < |s.producers| && a != Cancel(p)
    requires s.producers[p].Sending? || Ended(s.producers[p], Accepted)
    ensures p < |s'.producers|
    ensures s'.producers[p] == s.producers[p] || s'.producers[p] == Returned(s.producers[p].event, Accepted)
  {
  }

  lemma {:induction false} BlockedIsServed(tail: seq<State>, acts: seq<Action>, p: nat)
    requires IsTail(tail, acts) && Blocks(tail[0]) && SendingAt(tail[0], p)
    requires forall i :: 0 <= i < |acts| ==> acts[i] != Cancel(p)
    ensures p < |tail[|acts|].producers|
    ensures tail[|acts|].producers[p] in {tail[0].producers[p], Returned(tail[0].producers[p].event, Accepted)}
    decreases |acts|
  {
    if acts != [] {
      var n := |acts| - 1;
      TailPrefix(tail, acts);
      BlockedIsServed(tail[..n + 1], acts[..n], p);
      TailBound(tail[..n + 1], acts[..n]);
      BlockedStep(tail[n], acts[n], tail[n + 1], p);
    }
  }

  /** In block mode a producer that waits for room, and is not cancelled, gets its event into the queue in the end. */
  lemma NoProducerStarves(tail: seq<State>, acts: seq<Action>, p: nat)
    requires IsTail(tail, acts) && Blocks(tail[0]) && SendingAt(tail[0], p) && Still(tail[|acts|])
    requires forall i :: 0 <= i < |acts| ==> acts[i] != Cancel(p)
    ensures p < |tail[|acts|].producers| && tail[|acts|].producers[p] == Returned(tail[0].producers[p].event, Accepted)
  {
    BlockedIsServed(tail, acts, p);
    LeftAloneItCloses(tail, acts);
    assert tail[|acts|].producers[p] in tail[|acts|].producers;
  }
}
