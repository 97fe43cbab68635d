/** What every step of the batcher keeps, and what it means for the events. */
module BatcherTheorems {
  import opened BatcherProtocol

  // ---------- The histories, one element at a time ----------

  lemma FlatAppend<T>(bs: seq<seq<T>>, b: seq<T>)
    ensures Flat(bs + [b]) == Flat(bs) + b
  {
    assert (bs + [b])[..|bs|] == bs;
  }

  lemma TakenAppend(ts: seq<(Event, nat)>, e: Event, v: nat, w: nat)
    ensures Events(ts + [(e, v)]) == Events(ts) + [e]
    ensures TakenBy(ts + [(e, v)], w) == TakenBy(ts, w) + if v == w then [e] else []
  {
    assert (ts + [(e, v)])[..|ts|] == ts;
  }

  lemma CountAppend(ps: seq<Producer>, p: Producer, o: Outcome)
    ensures CountOutcome(ps + [p], o) == CountOutcome(ps, o) + if Ended(p, o) then 1 else 0
  {
    assert (ps + [p])[..|ps|] == ps;
  }

  lemma {:induction false} CountUpdate(ps: seq<Producer>, i: nat, p: Producer, o: Outcome)
    requires i < |ps| && !ps[i].Returned?
    ensures CountOutcome(ps[i := p], o) == CountOutcome(ps, o) + if Ended(p, o) then 1 else 0
  {
    var n := |ps| - 1;
    if i < n {
      CountUpdate(ps[..n], i, p, o);
      assert ps[i := p][..n] == ps[..n][i := p];
    } else {
      assert ps[i := p][..n] == ps[..n];
    }
  }

  // ---------- The invariant ----------

  predicate WorkerInv(w: Worker, now: int, maxSize: nat) {
    && (forall i :: 0 <= i < |w.out| ==> 1 <= |w.out[i]| <= maxSize)
    && (if w.flushing then 1 <= |w.buf| <= maxSize else |w.buf| < maxSize)
    && (w.flushing ==> w.out != [] && w.out[|w.out| - 1] == w.buf)
    && (w.phase.Leaving? ==> w.flushing)
    && (w.phase.Exited? ==> !w.flushing && w.buf == [])
    && |w.stamps| == |w.buf|
    && (forall i, j :: 0 <= i <= j < |w.stamps| ==> w.stamps[i] <= w.stamps[j] <= now)
    && (w.phase.Running? && w.buf != [] ==> w.oldest == w.stamps[0])
  }

  /** Worker `w` has exactly the events it took, in the order it took them. */
  predicate WorkerAccount(s: State, w: nat)
    requires w < |s.workers|
  {
    TakenBy(s.taken, w) == Kept(s.workers[w])
  }

  /** A worker stops running only after the seal, and stops looking only at an empty queue. */
  predicate WorkerStops(s: State, x: Worker) {
    && (!x.phase.Running? ==> s.done)
    && (x.phase in {Leaving, Exited} ==> s.queue == [])
  }

  /** The producers against the seal and the two counters. */
  ghost predicate ProducersInv(ps: seq<Producer>, closed: bool, accepted: nat, dropped: nat) {
    && (closed ==> forall p :: 0 <= p < |ps| ==> !ps[p].Sending?)
    && (forall p :: 0 <= p < |ps| ==> Ended(ps[p], Refused) ==> closed)
    && accepted == CountOutcome(ps, Accepted)
    && dropped == CountOutcome(ps, Dropped)
  }

  predicate WorkerOk(s: State, w: nat)
    requires w < |s.workers|
  {
    WorkerInv(s.workers[w], s.now, s.cfg.maxSize) && WorkerAccount(s, w) && WorkerStops(s, s.workers[w])
  }

  ghost predicate WorkersInv(s: State) {
    |s.workers| == s.cfg.workers && forall w :: 0 <= w < |s.workers| ==> WorkerOk(s, w)
  }

  ghost predicate Inv(s: State) {
    && Usable(s.cfg)
    && s.closed == s.done
    && |s.queue| <= s.cfg.queueSize
    && s.accepted == Events(s.taken) + s.queue
    && (forall i :: 0 <= i < |s.taken| ==> s.taken[i].1 < |s.workers|)
    && ProducersInv(s.producers, s.closed, |s.accepted|, s.dropped)
    && WorkersInv(s)
  }

  lemma InitialInv(cfg: Config, now: int)
    requires Usable(cfg)
    ensures Inv(Initial(cfg, now))
  {
  }

  /** A producer adds to the queue only while the seal is off, when no worker has stopped yet. */
  lemma ProducerKeepsInv(s: State, a: Action)
    requires Inv(s) && Enabled(s, a)
    requires a.Check? || a.Send? || a.Drop? || a.Cancel? || a.SeeDone?
    ensures Inv(Step(s, a))
  {
    var s' := Step(s, a);
    CountUpdate(s.producers, a.p, s'.producers[a.p], Accepted);
    CountUpdate(s.producers, a.p, s'.producers[a.p], Dropped);
    forall w | 0 <= w < |s'.workers| ensures WorkerOk(s', w) {
      assert WorkerOk(s, w);
    }
  }

  /** What the steps outside the workers leave alone. */
  lemma WorkersUntouched(s: State, s': State)
    requires WorkersInv(s) && s'.workers == s.workers && s'.taken == s.taken && s'.queue == s.queue && s'.cfg == s.cfg
    requires s.now <= s'.now && (s.done ==> s'.done)
    ensures WorkersInv(s')
  {
    forall w | 0 <= w < |s'.workers| ensures WorkerOk(s', w) {
      assert WorkerOk(s, w);
    }
  }

  lemma OutsideKeepsInv(s: State, a: Action)
    requires Inv(s) && Enabled(s, a) && (a.TimePasses? || a.BeginAdd? || a.Seal?)
    ensures Inv(Step(s, a))
  {
    WorkersUntouched(s, Step(s, a));
    if a.BeginAdd? {
      CountAppend(s.producers, Checking(a.event), Accepted);
      CountAppend(s.producers, Checking(a.event), Dropped);
    }
  }

  lemma StartFlushOk(w: Worker, now: int, maxSize: nat)
    requires !w.flushing && 1 <= |w.buf| <= maxSize && |w.stamps| == |w.buf| && !w.phase.Exited?
    requires forall i :: 0 <= i < |w.out| ==> 1 <= |w.out[i]| <= maxSize
    requires forall i, j :: 0 <= i <= j < |w.stamps| ==> w.stamps[i] <= w.stamps[j] <= now
    requires w.phase.Running? && w.buf != [] ==> w.oldest == w.stamps[0]
    ensures WorkerInv(StartFlush(w), now, maxSize) && Kept(StartFlush(w)) == Kept(w)
  {
    FlatAppend(w.out, w.buf);
  }

  lemma TakeEventOk(w: Worker, e: Event, now: int, maxSize: nat)
    requires WorkerInv(w, now, maxSize) && !w.flushing && w.phase in {Running, Draining}
    ensures WorkerInv(TakeEvent(w, e, now, maxSize), now, maxSize)
    ensures Kept(TakeEvent(w, e, now, maxSize)) == Kept(w) + [e]
  {
    var w1 := Received(w, e, now);
    assert Kept(w1) == Kept(w) + [e];
    if |w1.buf| >= maxSize {
      StartFlushOk(w1, now, maxSize);
    }
  }

  lemma TakeTickOk(w: Worker, now: int, maxAge: nat, maxSize: nat)
    requires WorkerInv(w, now, maxSize) && !w.flushing && w.phase.Running?
    ensures WorkerInv(TakeTick(w, now, maxAge), now, maxSize) && Kept(TakeTick(w, now, maxAge)) == Kept(w)
  {
    if |w.buf| > 0 {
      StartFlushOk(w, now, maxSize);
    }
  }

  lemma FindEmptyOk(w: Worker, now: int, maxSize: nat)
    requires WorkerInv(w, now, maxSize) && !w.flushing && w.phase.Draining?
    ensures WorkerInv(FindEmpty(w), now, maxSize) && Kept(FindEmpty(w)) == Kept(w)
  {
    if |w.buf| > 0 {
      StartFlushOk(w.(phase := Leaving), now, maxSize);
    }
  }

  lemma EndFlushOk(w: Worker, now: int, maxSize: nat)
    requires WorkerInv(w, now, maxSize) && w.flushing
    ensures WorkerInv(EndFlush(w, now), now, maxSize) && Kept(EndFlush(w, now)) == Kept(w)
  {
  }

  predicate OfWorker(a: Action) {
    a.Receive? || a.Tick? || a.BeginDrain? || a.EndDrain? || a.FlushReturns?
  }

  lemma WorkerStepOk(s: State, a: Action)
    requires Usable(s.cfg) && Enabled(s, a) && OfWorker(a)
    requires WorkerInv(s.workers[a.w], s.now, s.cfg.maxSize)
    ensures var x, x' := s.workers[a.w], Step(s, a).workers[a.w];
            && WorkerInv(x', s.now, s.cfg.maxSize)
            && Kept(x') == Kept(x) + if a.Receive? then [s.queue[0]] else []
  {
    var x := s.workers[a.w];
    match a
    case Receive(_) => TakeEventOk(x, s.queue[0], s.now, s.cfg.maxSize);
    case Tick(_) => TakeTickOk(x, s.now, s.cfg.maxAge, s.cfg.maxSize);
    case EndDrain(_) => FindEmptyOk(x, s.now, s.cfg.maxSize);
    case FlushReturns(_) => EndFlushOk(x, s.now, s.cfg.maxSize);
    case _ =>
  }

  lemma WorkerStepAccounts(s: State, a: Action, w: nat)
    requires Enabled(s, a) && OfWorker(a) && w < |s.workers| && WorkerAccount(s, w)
    requires Kept(Step(s, a).workers[a.w]) == Kept(s.workers[a.w]) + if a.Receive? then [s.queue[0]] else []
    ensures WorkerAccount(Step(s, a), w)
  {
    if a.Receive? {
      TakenAppend(s.taken, s.queue[0], a.w, w);
    }
  }

  lemma WorkerStepStops(s: State, a: Action, w: nat)
    requires Enabled(s, a) && OfWorker(a) && w < |s.workers|
    requires WorkerStops(s, s.workers[w]) && WorkerStops(s, s.workers[a.w])
    ensures WorkerStops(Step(s, a), Step(s, a).workers[w])
  {
  }

  lemma HeadMoves<T>(xs: seq<T>, q: seq<T>)
    requires q != []
    ensures xs + q == (xs + [q[0]]) + q[1..]
  {
  }

  lemma QueueAccount(s: State, a: Action)
    requires Enabled(s, a) && OfWorker(a) && s.accepted == Events(s.taken) + s.queue
    ensures Step(s, a).accepted == Events(Step(s, a).taken) + Step(s, a).queue
  {
    if a.Receive? {
      TakenAppend(s.taken, s.queue[0], a.w, a.w);
      HeadMoves(Events(s.taken), s.queue);
    }
  }

  lemma WorkerKeepsWorker(s: State, a: Action, w: nat)
    requires Usable(s.cfg) && Enabled(s, a) && OfWorker(a) && w < |s.workers|
    requires WorkerOk(s, w) && WorkerOk(s, a.w)
    ensures WorkerOk(Step(s, a), w)
  {
    WorkerStepAccounts(s, a, w) by {
      WorkerStepOk(s, a);
    }
    WorkerStepStops(s, a, w);
    if w == a.w {
      WorkerStepOk(s, a);
    } else {
      assert Step(s, a).workers[w] == s.workers[w];
    }
  }

  lemma WorkerKeepsWorkers(s: State, a: Action)
    requires Usable(s.cfg) && WorkersInv(s) && Enabled(s, a) && OfWorker(a)
    ensures WorkersInv(Step(s, a))
  {
    forall w | 0 <= w < |s.workers| ensures WorkerOk(Step(s, a), w) {
      assert WorkerOk(s, w) && WorkerOk(s, a.w);
      WorkerKeepsWorker(s, a, w);
    }
  }

  /** What a worker's step leaves alone. */
  lemma WorkerFrame(s: State, a: Action)
    requires Enabled(s, a) && OfWorker(a)
    requires forall i :: 0 <= i < |s.taken| ==> s.taken[i].1 < |s.workers|
    ensures var s' := Step(s, a);
            && s'.cfg == s.cfg && s'.closed == s.closed && s'.done == s.done && s'.dropped == s.dropped
            && s'.producers == s.producers && s'.accepted == s.accepted
            && |s'.queue| <= |s.queue| && |s'.workers| == |s.workers|
            && (forall i :: 0 <= i < |s'.taken| ==> s'.taken[i].1 < |s'.workers|)
  {
  }

  lemma WorkerKeepsInv(s: State, a: Action)
    requires Inv(s) && Enabled(s, a) && OfWorker(a)
    ensures Inv(Step(s, a))
  {
    WorkerFrame(s, a);
    QueueAccount(s, a);
    WorkerKeepsWorkers(s, a);
  }

  lemma StepKeepsInv(s: State, a: Action)
    requires Inv(s) && Enabled(s, a)
    ensures Inv(Step(s, a)) && Step(s, a).cfg == s.cfg
  {
    if a.TimePasses? || a.BeginAdd? || a.Seal? {
      OutsideKeepsInv(s, a);
    } else if OfWorker(a) {
      WorkerKeepsInv(s, a);
    } else {
      ProducerKeepsInv(s, a);
    }
  }

  // ---------- Runs ----------

  /** A run of the batcher from its construction on. */
  ghost predicate IsRun(cfg: Config, run: seq<State>, acts: seq<Action>) {
    && Usable(cfg)
    && |run| == |acts| + 1
    && run[0] == Initial(cfg, run[0].now)
    && forall i :: 0 <= i < |acts| ==> Follows(run[i], acts[i], run[i + 1])
  }

  ghost predicate Follows(s: State, a: Action, s': State) {
    Enabled(s, a) && s' == Step(s, a)
  }

  lemma FollowsKeepsInv(s: State, a: Action, s': State)
    requires Inv(s) && Follows(s, a, s')
    ensures Inv(s') && s'.cfg == s.cfg
  {
    StepKeepsInv(s, a);
  }

  lemma {:induction false} RunInv(cfg: Config, run: seq<State>, acts: seq<Action>, i: nat)
    requires IsRun(cfg, run, acts) && i < |run|
    ensures Inv(run[i]) && run[i].cfg == cfg
  {
    hide Inv, Follows;
    if i == 0 {
      InitialInv(cfg, run[0].now);
    } else {
      RunInv(cfg, run, acts, i - 1);
      FollowsKeepsInv(run[i - 1], acts[i - 1], run[i]);
    }
  }

  // ---------- Conservation ----------

  /** What the first `n` workers took, together. */
  function TakenUpTo(ts: seq<(Event, nat)>, n: nat): multiset<Event> {
    if n == 0 then multiset{} else TakenUpTo(ts, n - 1) + multiset(TakenBy(ts, n - 1))
  }

  lemma {:induction false} TakenUpToAppend(ts: seq<(Event, nat)>, e: Event, v: nat, n: nat)
    ensures TakenUpTo(ts + [(e, v)], n) == TakenUpTo(ts, n) + if v < n then multiset{e} else multiset{}
  {
    if n > 0 {
      TakenUpToAppend(ts, e, v, n - 1);
      TakenAppend(ts, e, v, n - 1);
    }
  }

  /** Every event that left the queue went to exactly one worker. */
  lemma {:induction false} TakenSplits(ts: seq<(Event, nat)>, n: nat)
    requires forall i :: 0 <= i < |ts| ==> ts[i].1 < n
    ensures multiset(Events(ts)) == TakenUpTo(ts, n)
  {
    if ts == [] {
      NothingTaken(n);
    } else {
      var last := ts[|ts| - 1];
      TakenSplits(ts[..|ts| - 1], n);
      TakenUpToAppend(ts[..|ts| - 1], last.0, last.1, n);
      assert ts == ts[..|ts| - 1] + [(last.0, last.1)];
    }
  }

  lemma {:induction false} NothingTaken(n: nat)
    ensures TakenUpTo([], n) == multiset{}
  {
    if n > 0 {
      NothingTaken(n - 1);
    }
  }

  lemma {:induction false} HeldIsTaken(ws: seq<Worker>, ts: seq<(Event, nat)>)
    requires forall w :: 0 <= w < |ws| ==> TakenBy(ts, w) == Kept(ws[w])
    ensures Held(ws) == TakenUpTo(ts, |ws|)
  {
    hide Kept, TakenBy;
    if ws != [] {
      var n := |ws| - 1;
      assert TakenBy(ts, n) == Kept(ws[n]);
      HeldIsTaken(ws[..n], ts);
    }
  }

  /** At every step each accepted event is in the queue, in one worker's buffer, or handed to the flush function. */
  lemma Conservation(cfg: Config, run: seq<State>, acts: seq<Action>, i: nat)
    requires IsRun(cfg, run, acts) && i < |run|
    ensures multiset(run[i].accepted) == multiset(run[i].queue) + Held(run[i].workers)
  {
    RunInv(cfg, run, acts, i);
    var s := run[i];
    TakenSplits(s.taken, |s.workers|);
    forall w | 0 <= w < |s.workers| ensures TakenBy(s.taken, w) == Kept(s.workers[w]) {
      assert WorkerOk(s, w);
    }
    HeldIsTaken(s.workers, s.taken);
  }

  /** All the events in the batches the workers handed over. */
  function Handed(ws: seq<Worker>): multiset<Event> {
    if ws == [] then multiset{} else Handed(ws[..|ws| - 1]) + multiset(Flat(ws[|ws| - 1].out))
  }

  lemma {:induction false} NothingHeldBack(ws: seq<Worker>)
    requires forall w :: 0 <= w < |ws| ==> Residue(ws[w]) == []
    ensures Held(ws) == Handed(ws)
  {
    if ws != [] {
      NothingHeldBack(ws[..|ws| - 1]);
      assert Flat(ws[|ws| - 1].out) + [] == Flat(ws[|ws| - 1].out);
    }
  }

  /** Once `Close` can return nil, every accepted event was handed over exactly once, by whichever worker. */
  lemma CloseLosesNothing(cfg: Config, run: seq<State>, acts: seq<Action>, i: nat)
    requires IsRun(cfg, run, acts) && i < |run| && CloseReturns(run[i])
    ensures run[i].queue == []
    ensures Handed(run[i].workers) == multiset(run[i].accepted)
  {
    RunInv(cfg, run, acts, i);
    var s := run[i];
    assert WorkerOk(s, 0) && s.workers[0].phase.Exited?;
    Conservation(cfg, run, acts, i);
    forall w | 0 <= w < |s.workers| ensures Residue(s.workers[w]) == [] {
      assert WorkerOk(s, w) && s.workers[w].phase.Exited?;
    }
    NothingHeldBack(s.workers);
  }

  // ---------- Order and shape ----------

  lemma {:induction false} OneTakesAll(ts: seq<(Event, nat)>)
    requires forall i :: 0 <= i < |ts| ==> ts[i].1 == 0
    ensures TakenBy(ts, 0) == Events(ts)
  {
    if ts != [] {
      OneTakesAll(ts[..|ts| - 1]);
    }
  }

  /** With one worker, the batches, then its buffer, then the queue are the accepted events in order. */
  lemma OneWorkerIsFifo(cfg: Config, run: seq<State>, acts: seq<Action>, i: nat)
    requires IsRun(cfg, run, acts) && i < |run| && cfg.workers == 1
    ensures |run[i].workers| == 1
    ensures run[i].accepted == Flat(run[i].workers[0].out) + Residue(run[i].workers[0]) + run[i].queue
  {
    RunInv(cfg, run, acts, i);
    assert WorkerOk(run[i], 0);
    OneTakesAll(run[i].taken);
  }

  /** Every batch handed over has between one and `maxSize` events. */
  lemma BatchesHaveShape(cfg: Config, run: seq<State>, acts: seq<Action>, i: nat, w: nat, b: nat)
    requires IsRun(cfg, run, acts) && i < |run|
    requires w < |run[i].workers| && b < |run[i].workers[w].out|
    ensures 1 <= |run[i].workers[w].out[b]| <= cfg.maxSize
  {
    RunInv(cfg, run, acts, i);
    assert WorkerOk(run[i], w);
  }

  /** A tick that has been handled leaves nothing in the buffer that is `maxAge` old. */
  lemma TickLeavesNothingOld(cfg: Config, run: seq<State>, acts: seq<Action>, i: nat, w: nat, k: nat)
    requires IsRun(cfg, run, acts) && i < |acts| && acts[i] == Tick(w)
    requires w < |run[i + 1].workers| && !run[i + 1].workers[w].flushing
    requires k < |run[i + 1].workers[w].stamps|
    ensures run[i + 1].now - run[i + 1].workers[w].stamps[k] < cfg.maxAge
  {
    RunInv(cfg, run, acts, i);
    assert Follows(run[i], acts[i], run[i + 1]);
    assert WorkerOk(run[i], w);
  }

  // ---------- The seal ----------

  /** `Add` never leaves through its case on the done channel. */
  lemma DoneCaseIsDead(cfg: Config, run: seq<State>, acts: seq<Action>, i: nat, p: nat)
    requires IsRun(cfg, run, acts) && i < |run|
    ensures !Enabled(run[i], SeeDone(p))
  {
    RunInv(cfg, run, acts, i);
  }

  /** After the seal nothing is sent and nothing is dropped: the queue only drains. */
  lemma {:induction false} SealHolds(cfg: Config, run: seq<State>, acts: seq<Action>, i: nat, j: nat)
    requires IsRun(cfg, run, acts) && i <= j < |run| && run[i].done
    ensures run[j].done && run[j].accepted == run[i].accepted && run[j].dropped == run[i].dropped
    ensures |run[j].queue| <= |run[i].queue|
    ensures forall p :: !Enabled(run[j], Send(p)) && !Enabled(run[j], Drop(p))
  {
    RunInv(cfg, run, acts, j);
    if i < j {
      SealHolds(cfg, run, acts, i, j - 1);
      assert Follows(run[j - 1], acts[j - 1], run[j]);
    }
  }

  /** A worker that has stopped looking at the queue leaves it empty for good. */
  lemma StoppedWorkerLeavesEmpty(cfg: Config, run: seq<State>, acts: seq<Action>, i: nat, j: nat, w: nat)
    requires IsRun(cfg, run, acts) && i <= j < |run| && w < |run[i].workers|
    requires run[i].workers[w].phase in {Leaving, Exited}
    ensures run[j].queue == []
  {
    RunInv(cfg, run, acts, i);
    assert WorkerOk(run[i], w);
    SealHolds(cfg, run, acts, i, j);
  }

  /** Every `Add` that returned nil was either accepted or counted as dropped, never both and never neither. */
  lemma NilMeansAcceptedOrCounted(cfg: Config, run: seq<State>, acts: seq<Action>, i: nat)
    requires IsRun(cfg, run, acts) && i < |run|
    ensures CountOutcome(run[i].producers, Accepted) == |run[i].accepted|
    ensures CountOutcome(run[i].producers, Dropped) == run[i].dropped
    ensures forall p <- run[i].producers :: Ended(p, Refused) ==> run[i].closed
  {
    RunInv(cfg, run, acts, i);
  }

  // ---------- The drain ends ----------

  function Effort(w: Worker): nat {
    (match w.phase case Running => 4 case Draining => 3 case Leaving => 1 case Exited => 0)
    + (if w.flushing then 1 else if w.buf != [] then 2 else 0)
  }

  function TotalEffort(ws: seq<Worker>): nat {
    if ws == [] then 0 else TotalEffort(ws[..|ws| - 1]) + Effort(ws[|ws| - 1])
  }

  lemma {:induction false} EffortUpdate(ws: seq<Worker>, i: nat, w: Worker)
    requires i < |ws|
    ensures TotalEffort(ws[i := w]) + Effort(ws[i]) == TotalEffort(ws) + Effort(w)
  {
    var n := |ws| - 1;
    if i < n {
      EffortUpdate(ws[..n], i, w);
      assert ws[i := w][..n] == ws[..n][i := w];
    } else {
      assert ws[i := w][..n] == ws[..n];
    }
  }

  /** A bound on the worker steps that are left once the batcher is sealed. */
  function Left(s: State): nat {
    4 * |s.queue| + TotalEffort(s.workers)
  }

  /** Every worker step uses up some of what is left, except a tick that finds nothing to do. */
  lemma WorkerStepsRunOut(s: State, a: Action)
    requires Inv(s) && Enabled(s, a) && OfWorker(a)
    ensures Left(Step(s, a)) < Left(s) || (a.Tick? && Step(s, a) == s)
  {
    assert WorkerOk(s, a.w);
    EffortUpdate(s.workers, a.w, Step(s, a).workers[a.w]);
    if a.Tick? && Step(s, a).workers[a.w] == s.workers[a.w] {
      assert s.workers[a.w := s.workers[a.w]] == s.workers;
    }
  }

  /** A sealed batcher never sticks: some worker can go on until `Close` can return. */
  lemma SealedBatcherMovesOn(s: State) returns (a: Action)
    requires Inv(s) && s.done && !CloseReturns(s)
    ensures Enabled(s, a) && OfWorker(a) && !a.Tick?
  {
    var w :| 0 <= w < |s.workers| && !s.workers[w].phase.Exited?;
    assert WorkerOk(s, w);
    if s.workers[w].flushing {
      a := FlushReturns(w);
    } else if s.workers[w].phase.Running? {
      a := BeginDrain(w);
    } else if s.queue != [] {
      a := Receive(w);
    } else {
      a := EndDrain(w);
    }
  }
}
