/** What becomes of the events that `Add` was given, and what the two policies promise its callers. */
module BatcherEvents {
  import opened BatcherProtocol
  import opened BatcherTheorems

  lemma {:induction false} EventsUpdate(ps: seq<Producer>, i: nat, p: Producer, o: Outcome)
    requires i < |ps| && !ps[i].Returned?
    ensures EventsOf(ps[i := p], o) == EventsOf(ps, o) + if Ended(p, o) then multiset{p.event} else multiset{}
  {
    var n := |ps| - 1;
    if i < n {
      EventsUpdate(ps[..n], i, p, o);
      assert ps[i := p][..n] == ps[..n][i := p];
    } else {
      assert ps[i := p][..n] == ps[..n];
    }
  }

  lemma EventsAppend(ps: seq<Producer>, p: Producer, o: Outcome)
    ensures EventsOf(ps + [p], o) == EventsOf(ps, o) + if Ended(p, o) then multiset{p.event} else multiset{}
  {
    assert (ps + [p])[..|ps|] == ps;
  }

  // ---------- Calls and their events ----------

  /** The events given to the calls of `Add`, in the order of the calls. */
  function Given(acts: seq<Action>): seq<Event> {
    if acts == [] then []
    else
      var n := |acts| - 1;
      Given(acts[..n]) + if acts[n].BeginAdd? then [acts[n].event] else []
  }

  /** Call `p` of a state is the call of `Add` number `p`, and still has the event it was given. */
  lemma {:induction false} CallsAreAdds(cfg: Config, run: seq<State>, acts: seq<Action>, n: nat)
    requires IsRun(cfg, run, acts) && n < |run|
    ensures |run[n].producers| == |Given(acts[..n])|
    ensures forall p :: 0 <= p < |run[n].producers| ==> run[n].producers[p].event == Given(acts[..n])[p]
  {
    if n > 0 {
      CallsAreAdds(cfg, run, acts, n - 1);
      assert Follows(run[n - 1], acts[n - 1], run[n]);
      assert acts[..n][..n - 1] == acts[..n - 1];
      StepKeepsEvents(run[n - 1], acts[n - 1], run[n]);
    }
  }

  lemma StepKeepsEvents(s: State, a: Action, s': State)
    requires Follows(s, a, s')
    ensures |s'.producers| == |s.producers| + if a.BeginAdd? then 1 else 0
    ensures forall p :: 0 <= p < |s.producers| ==> s'.producers[p].event == s.producers[p].event
    ensures a.BeginAdd? ==> s'.producers[|s.producers|].event == a.event
  {
  }

  /** The events that were sent, in the order of the sends: each is the one its call was given. */
  function Sent(acts: seq<Action>, given: seq<Event>): seq<Event> {
    if acts == [] then []
    else
      var n := |acts| - 1;
      Sent(acts[..n], given) + if acts[n].Send? && acts[n].p < |given| then [given[acts[n].p]] else []
  }

  lemma {:induction false} GivenGrows(acts: seq<Action>, m: nat, n: nat)
    requires m <= n <= |acts|
    ensures Given(acts[..m]) <= Given(acts[..n])
  {
    if m < n {
      GivenGrows(acts, m, n - 1);
      assert acts[..n][..n - 1] == acts[..n - 1];
    }
  }

  /** What the queue accepts are the events given to the calls that sent them, in the order of the sends. */
  lemma {:induction false} AcceptedInOrder(cfg: Config, run: seq<State>, acts: seq<Action>, n: nat)
    requires IsRun(cfg, run, acts) && n < |run|
    ensures run[n].accepted == Sent(acts[..n], Given(acts))
  {
    if n > 0 {
      var s, a := run[n - 1], acts[n - 1];
      AcceptedInOrder(cfg, run, acts, n - 1);
      assert Follows(s, a, run[n]);
      assert acts[..n][..n - 1] == acts[..n - 1];
      CallsAreAdds(cfg, run, acts, n - 1);
      GivenGrows(acts, n - 1, |acts|);
      assert acts[..|acts|] == acts;
      StepAccepts(s, a, run[n]);
    }
  }

  lemma StepAccepts(s: State, a: Action, s': State)
    requires Follows(s, a, s')
    ensures a.Send? ==> a.p < |s.producers| && s'.accepted == s.accepted + [s.producers[a.p].event]
    ensures a.Send? ==> s'.queue == s.queue + [s.producers[a.p].event]
    ensures !a.Send? ==> s'.accepted == s.accepted
  {
  }

  /** In every state the accepted events are those given to the calls that returned as accepted. */
  lemma {:induction false} AcceptedAreGiven(cfg: Config, run: seq<State>, acts: seq<Action>, n: nat)
    requires IsRun(cfg, run, acts) && n < |run|
    ensures multiset(run[n].accepted) == EventsOf(run[n].producers, Accepted)
  {
    if n == 0 {
      assert run[0] == Initial(cfg, run[0].now);
    } else {
      AcceptedAreGiven(cfg, run, acts, n - 1);
      assert Follows(run[n - 1], acts[n - 1], run[n]);
      StepKeepsAccepted(run[n - 1], acts[n - 1], run[n]);
    }
  }

  lemma StepKeepsAccepted(s: State, a: Action, s': State)
    requires Follows(s, a, s') && multiset(s.accepted) == EventsOf(s.producers, Accepted)
    ensures multiset(s'.accepted) == EventsOf(s'.producers, Accepted)
  {
    if a.BeginAdd? {
      EventsAppend(s.producers, Checking(a.event), Accepted);
    } else if a.Check? || a.Send? || a.Drop? || a.Cancel? || a.SeeDone? {
      EventsUpdate(s.producers, a.p, s'.producers[a.p], Accepted);
    }
  }

  /**
   Exactly-once hand-off.  When `Close` can return nil, what the flush function was given is what the callers
   of `Add` gave to the calls that were accepted.
  */
  lemma HandsOverWhatWasGiven(cfg: Config, run: seq<State>, acts: seq<Action>, n: nat)
    requires IsRun(cfg, run, acts) && n < |run| && CloseReturns(run[n])
    ensures Handed(run[n].workers) == EventsOf(run[n].producers, Accepted)
  {
    CloseLosesNothing(cfg, run, acts, n);
    AcceptedAreGiven(cfg, run, acts, n);
  }

  /** With one worker it is handed over in the order of the sends. */
  lemma OneWorkerHandsOverInOrder(cfg: Config, run: seq<State>, acts: seq<Action>, n: nat)
    requires IsRun(cfg, run, acts) && n < |run| && cfg.workers == 1 && CloseReturns(run[n])
    ensures |run[n].workers| == 1 && Flat(run[n].workers[0].out) == Sent(acts[..n], Given(acts))
  {
    OneWorkerIsFifo(cfg, run, acts, n);
    AcceptedInOrder(cfg, run, acts, n);
    CloseLosesNothing(cfg, run, acts, n);
    RunInv(cfg, run, acts, n);
    assert WorkerOk(run[n], 0) && run[n].workers[0].phase.Exited?;
  }

  // ---------- The two policies ----------

  /** An event is dropped only in drop mode, only when the queue is full, and nothing else is touched. */
  lemma DropsOnlyWhenFull(cfg: Config, run: seq<State>, acts: seq<Action>, i: nat, p: nat)
    requires IsRun(cfg, run, acts) && i < |acts| && acts[i] == Drop(p)
    ensures cfg.onFull == "drop" && |run[i].queue| == cfg.queueSize
    ensures run[i + 1].queue == run[i].queue && run[i + 1].dropped == run[i].dropped + 1
  {
    RunInv(cfg, run, acts, i);
    assert Follows(run[i], acts[i], run[i + 1]);
  }

  /** In block mode no event is ever dropped. */
  lemma {:induction false} BlockNeverDrops(cfg: Config, run: seq<State>, acts: seq<Action>, n: nat)
    requires IsRun(cfg, run, acts) && n < |run| && cfg.onFull == "block"
    ensures run[n].dropped == 0
  {
    if n > 0 {
      BlockNeverDrops(cfg, run, acts, n - 1);
      RunInv(cfg, run, acts, n - 1);
      assert Follows(run[n - 1], acts[n - 1], run[n]);
    }
  }

  /** In drop mode a producer at the queue can always go on by itself, and never by giving up. */
  lemma DropNeverWaits(cfg: Config, run: seq<State>, acts: seq<Action>, n: nat, p: nat)
    requires IsRun(cfg, run, acts) && n < |run| && cfg.onFull == "drop" && SendingAt(run[n], p)
    ensures Enabled(run[n], Send(p)) || Enabled(run[n], Drop(p))
    ensures !Enabled(run[n], Cancel(p))
  {
    RunInv(cfg, run, acts, n);
  }

  // ---------- When a batch goes ---------

  /** A tick hands over the buffer exactly when its first event has waited for `MaxAge`. */
  lemma TickFlushesExactly(cfg: Config, run: seq<State>, acts: seq<Action>, i: nat, w: nat)
    requires IsRun(cfg, run, acts) && i < |acts| && acts[i] == Tick(w)
    ensures w < |run[i].workers| == |run[i + 1].workers|
    ensures var x, x' := run[i].workers[w], run[i + 1].workers[w];
            |x.stamps| == |x.buf| &&
            if x.buf != [] && run[i].now - x.stamps[0] >= cfg.maxAge then x'.flushing && x'.out == x.out + [x.buf]
            else x' == x
  {
    RunInv(cfg, run, acts, i);
    assert Follows(run[i], acts[i], run[i + 1]);
    assert WorkerOk(run[i], w);
  }

  /** An event that arrives is buffered, and the buffer is handed over exactly when that fills it. */
  lemma ReceiveFlushesExactly(cfg: Config, run: seq<State>, acts: seq<Action>, i: nat, w: nat)
    requires IsRun(cfg, run, acts) && i < |acts| && acts[i] == Receive(w)
    ensures w < |run[i].workers| == |run[i + 1].workers| && run[i].queue != [] && run[i + 1].queue == run[i].queue[1..]
    ensures var x, x' := run[i].workers[w], run[i + 1].workers[w];
            && x'.buf == x.buf + [run[i].queue[0]] && x'.stamps == x.stamps + [run[i].now]
            && (x'.flushing <==> |x'.buf| == cfg.maxSize)
            && x'.out == if x'.flushing then x.out + [x'.buf] else x.out
  {
    RunInv(cfg, run, acts, i);
    assert Follows(run[i], acts[i], run[i + 1]);
    assert WorkerOk(run[i], w);
  }
}
