/**
 The analytics batcher as a transition system: producers inside `Add`, workers inside `work`, and the seal
 `Close` puts on the queue.  A step is one critical section or one channel operation.
 */
module BatcherProtocol {
  import opened Wrappers

  datatype Event = Event(layer: string, z: int, x: int, y: int, user: string)

  datatype Config = Config(maxSize: nat, maxAge: nat, queueSize: nat, workers: nat, onFull: string)

  const ON_FULL_DROP := "drop"
  const ON_FULL_BLOCK := "block"

  predicate Usable(c: Config) {
    c.maxSize > 0 && c.maxAge > 0 && c.queueSize > 0 && c.workers > 0 && c.onFull in {ON_FULL_DROP, ON_FULL_BLOCK}
  }

  const DEFAULTS := Config(1000, 10, 10000, 1, ON_FULL_DROP)

  /** `d` agrees with `c` where `c` is set and with the defaults elsewhere. */
  predicate Completes(d: Config, c: Config) {
    && d.maxSize in {c.maxSize, 1000} && (c.maxSize > 0 ==> d.maxSize == c.maxSize)
    && d.maxAge in {c.maxAge, 10} && (c.maxAge > 0 ==> d.maxAge == c.maxAge)
    && d.queueSize in {c.queueSize, 10000} && (c.queueSize > 0 ==> d.queueSize == c.queueSize)
    && d.workers in {c.workers, 1} && (c.workers > 0 ==> d.workers == c.workers)
    && d.onFull in {c.onFull, "drop"} && (c.onFull != "" ==> d.onFull == c.onFull)
  }

  /** Fills in what was left unset, and nothing else.  The result is usable unless `onFull` names no known policy. */
  function ApplyBatchDefaults(c: Config): (r: Result<Config>)
    ensures r.Ok? <==> c.onFull in {"", "drop", "block"}
    ensures r.Ok? ==> Usable(r.value) && Completes(r.value, c)
    ensures r.Ok? ==> forall d :: Usable(d) && Completes(d, c) ==> d == r.value
  {
    var d := Config(
      if c.maxSize == 0 then DEFAULTS.maxSize else c.maxSize,
      if c.maxAge == 0 then DEFAULTS.maxAge else c.maxAge,
      if c.queueSize == 0 then DEFAULTS.queueSize else c.queueSize,
      if c.workers == 0 then DEFAULTS.workers else c.workers,
      if c.onFull == "" then DEFAULTS.onFull else c.onFull);
    if d.onFull != ON_FULL_DROP && d.onFull != ON_FULL_BLOCK then Error("analytics.batch.onfull") else Ok(d)
  }

  // ---------- One worker ----------

  datatype Phase = Running | Draining | Leaving | Exited

  /**
   `stamps` and `out` are histories: when each buffered event was received, and the batches handed to the
   flush function.  While `flushing`, the events in `buf` have been handed over already.
  */
  datatype Worker = Worker(phase: Phase, buf: seq<Event>, stamps: seq<int>, oldest: int,
                           flushing: bool, out: seq<seq<Event>>)

  const NEW_WORKER := Worker(Running, [], [], 0, false, [])

  /** What the worker has taken from the queue and not yet handed over. */
  function Residue(w: Worker): seq<Event> {
    if w.flushing then [] else w.buf
  }

  /** Everything worker `w` has taken so far, as far as the worker itself knows. */
  function Kept(w: Worker): seq<Event> {
    Flat(w.out) + Residue(w)
  }

  function Received(w: Worker, e: Event, now: int): Worker {
    w.(buf := w.buf + [e], stamps := w.stamps + [now],
       oldest := if w.phase.Running? && w.buf == [] then now else w.oldest)
  }

  function StartFlush(w: Worker): Worker {
    w.(flushing := true, out := w.out + [w.buf])
  }

  function EndFlush(w: Worker, now: int): Worker {
    w.(flushing := false, buf := [], stamps := [],
       oldest := if w.phase.Running? then now else w.oldest,
       phase := if w.phase.Leaving? then Exited else w.phase)
  }

  function TakeEvent(w: Worker, e: Event, now: int, maxSize: nat): Worker {
    var w1 := Received(w, e, now);
    if |w1.buf| >= maxSize then StartFlush(w1) else w1
  }

  function TakeTick(w: Worker, now: int, maxAge: nat): Worker {
    if |w.buf| > 0 && now - w.oldest >= maxAge then StartFlush(w) else w
  }

  function FindEmpty(w: Worker): Worker {
    if |w.buf| > 0 then StartFlush(w.(phase := Leaving)) else w.(phase := Exited)
  }

  // ---------- Producers ----------

  datatype Outcome = Accepted | Dropped | Refused | Cancelled

  /** A call of `Add`: holding the read lock before and after its check, or returned. */
  datatype Producer =
    | Checking(event: Event)
    | Sending(event: Event)
    | Returned(event: Event, outcome: Outcome)

  predicate Ended(p: Producer, o: Outcome) {
    p.Returned? && p.outcome == o
  }

  predicate InReadLock(p: Producer) {
    !p.Returned?
  }

  // ---------- The system ----------

  /** `accepted` and `taken` are histories: what went into the queue, and what came out and to which worker. */
  datatype State = State(
    cfg: Config,
    queue: seq<Event>,
    closed: bool,
    done: bool,
    now: int,
    dropped: nat,
    producers: seq<Producer>,
    workers: seq<Worker>,
    accepted: seq<Event>,
    taken: seq<(Event, nat)>)

  datatype Action =
    | TimePasses(d: nat)
    | BeginAdd(event: Event)
    | Check(p: nat)
    | Send(p: nat)
    | Drop(p: nat)
    | Cancel(p: nat)
    | SeeDone(p: nat) // Add's case on the done channel
    | Seal
    | Receive(w: nat)
    | Tick(w: nat)
    | BeginDrain(w: nat)
    | EndDrain(w: nat)
    | FlushReturns(w: nat)

  predicate Blocks(s: State) {
    s.cfg.onFull == ON_FULL_BLOCK
  }

  predicate SendingAt(s: State, p: nat) {
    p < |s.producers| && s.producers[p].Sending?
  }

  predicate WorkerFree(s: State, w: nat) {
    w < |s.workers| && !s.workers[w].flushing
  }

  predicate Enabled(s: State, a: Action) {
    match a
    case TimePasses(_) => true
    case BeginAdd(_) => true
    case Check(p) => p < |s.producers| && s.producers[p].Checking?
    case Send(p) => SendingAt(s, p) && |s.queue| < s.cfg.queueSize
    case Drop(p) => SendingAt(s, p) && !Blocks(s) && |s.queue| >= s.cfg.queueSize
    case Cancel(p) => SendingAt(s, p) && Blocks(s)
    case SeeDone(p) => SendingAt(s, p) && Blocks(s) && s.done
    case Seal => !s.closed && forall p :: 0 <= p < |s.producers| ==> !InReadLock(s.producers[p])
    case Receive(w) => WorkerFree(s, w) && s.workers[w].phase in {Running, Draining} && s.queue != []
    case Tick(w) => WorkerFree(s, w) && s.workers[w].phase.Running?
    case BeginDrain(w) => WorkerFree(s, w) && s.workers[w].phase.Running? && s.done
    case EndDrain(w) => WorkerFree(s, w) && s.workers[w].phase.Draining? && s.queue == []
    case FlushReturns(w) => w < |s.workers| && s.workers[w].flushing
  }

  function Return(s: State, p: nat, o: Outcome): State
    requires p < |s.producers|
  {
    s.(producers := s.producers[p := Returned(s.producers[p].event, o)])
  }

  function SetWorker(s: State, w: nat, x: Worker): State
    requires w < |s.workers|
  {
    s.(workers := s.workers[w := x])
  }

  function Step(s: State, a: Action): State
    requires Enabled(s, a)
  {
    match a
    case TimePasses(d) => s.(now := s.now + d)
    case BeginAdd(e) => s.(producers := s.producers + [Checking(e)])
    case Check(p) =>
      if s.closed then Return(s, p, Refused)
      else s.(producers := s.producers[p := Sending(s.producers[p].event)])
    case Send(p) =>
      var e := s.producers[p].event;
      Return(s.(queue := s.queue + [e], accepted := s.accepted + [e]), p, Accepted)
    case Drop(p) => Return(s.(dropped := s.dropped + 1), p, Dropped)
    case Cancel(p) => Return(s, p, Cancelled)
    case SeeDone(p) => Return(s, p, Refused)
    case Seal => s.(closed := true, done := true)
    case Receive(w) =>
      var e := s.queue[0];
      SetWorker(s.(queue := s.queue[1..], taken := s.taken + [(e, w)]), w,
                TakeEvent(s.workers[w], e, s.now, s.cfg.maxSize))
    case Tick(w) => SetWorker(s, w, TakeTick(s.workers[w], s.now, s.cfg.maxAge))
    case BeginDrain(w) => SetWorker(s, w, s.workers[w].(phase := Draining))
    case EndDrain(w) => SetWorker(s, w, FindEmpty(s.workers[w]))
    case FlushReturns(w) => SetWorker(s, w, EndFlush(s.workers[w], s.now))
  }

  function Initial(cfg: Config, now: int): State {
    State(cfg, [], false, false, now, 0, [], seq(cfg.workers, _ => NEW_WORKER), [], [])
  }

  /** `Close` can return nil: the seal is on and every worker has finished. */
  predicate CloseReturns(s: State) {
    s.closed && forall w <- s.workers :: w.phase.Exited?
  }

  // ---------- Reading the histories ----------

  function Flat<T>(bs: seq<seq<T>>): seq<T> {
    if bs == [] then [] else Flat(bs[..|bs| - 1]) + bs[|bs| - 1]
  }

  function Events(ts: seq<(Event, nat)>): seq<Event> {
    if ts == [] then [] else Events(ts[..|ts| - 1]) + [ts[|ts| - 1].0]
  }

  /** The events worker `w` took, in the order it took them. */
  function TakenBy(ts: seq<(Event, nat)>, w: nat): seq<Event> {
    if ts == [] then []
    else TakenBy(ts[..|ts| - 1], w) + if ts[|ts| - 1].1 == w then [ts[|ts| - 1].0] else []
  }

  function CountOutcome(ps: seq<Producer>, o: Outcome): nat {
    if ps == [] then 0 else CountOutcome(ps[..|ps| - 1], o) + if Ended(ps[|ps| - 1], o) then 1 else 0
  }

  /** The events given to the calls that ended with `o`. */
  function EventsOf(ps: seq<Producer>, o: Outcome): multiset<Event> {
    if ps == [] then multiset{}
    else
      var n := |ps| - 1;
      EventsOf(ps[..n], o) + if Ended(ps[n], o) then multiset{ps[n].event} else multiset{}
  }

  /** All the events the first `n` workers hold or have handed over. */
  function Held(ws: seq<Worker>): multiset<Event> {
    if ws == [] then multiset{} else Held(ws[..|ws| - 1]) + multiset(Kept(ws[|ws| - 1]))
  }
}
