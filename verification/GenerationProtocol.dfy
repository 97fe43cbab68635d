/**
 The life of a generation of entities under hot reload and shutdown, as a transition system.

 Every step is one critical section of the program (one lock held from start to end), or one wait that
 became possible.  Threads are never removed: a thread that returned is `Finished`.
 */
module GenerationProtocol {

  /** The mutable part of a generation: the fields its mutex guards, and whether the `done` channel is closed. */
  datatype Gen = Gen(refs: int, closing: bool, closed: bool, closes: nat, done: bool, hooked: bool)

  const NEW_GEN := Gen(0, false, false, 0, false, false)

  // ---------- The critical sections of a generation, as functions on its fields ----------

  function Acquired(g: Gen): Gen {
    g.(refs := g.refs + 1)
  }

  function Released(g: Gen): Gen {
    g.(refs := g.refs - 1)
  }

  /** What `release` decides inside its critical section, from the fields it leaves behind. */
  predicate LastOut(g: Gen) {
    g.closing && g.refs <= 0 && !g.closed
  }

  /** What the floor goroutine decides when its sleep is over. */
  predicate FloorFinds(g: Gen) {
    g.refs <= 0 && !g.closed
  }

  /** The claim at the top of `closeNow`: only the first caller wins. */
  function Claimed(g: Gen): Gen {
    if g.closed then g else g.(closed := true, closes := g.closes + 1)
  }

  // ---------- Threads ----------

  /** Who called `closeNow`: a goroutine that returns afterwards, or `closeAll` at position `i` of its snapshot. */
  datatype Caller = Background | CloseAll(order: seq<nat>, i: nat)

  datatype Thread =
    | RequestRead(g: nat)        // holds the read lock and has read the pointer
    | RequestPinned(g: nat)      // has taken its reference, still under the read lock
    | RequestServing(g: nat)     // read lock released; the deferred release is still to come
    | ReloadMade(g: nat)         // newGeneration returned
    | ReloadHooked(g: nat)       // registry.add has installed onClosed
    | ReloadListed(g: nat)       // registry.add has put it into live
    | ReloadSwapped(g: nat)      // g is the outgoing generation, markClosing is still to come
    | Floor(g: nat)              // sleeping before it trusts the reference count
    | Closer(g: nat, caller: Caller) // decided to close, closeNow is still to come
    | Waiter(g: nat, caller: Caller) // closeNow found it closed, waits for done
    | Closing(g: nat, hook: bool, caller: Caller) // won the claim, inside all.Close
    | Hooking(g: nat, hook: bool, caller: Caller) // closed done, onClosed is still to come
    | IdleWait(order: seq<nat>, i: nat)       // closeAll inside waitForIdle
    | Removing(order: seq<nat>, i: nat)       // closeAll about to call remove
    | ShutdownDone(order: seq<nat>)           // closeAll returned
    | Finished

  datatype State = State(
    gens: seq<Gen>,
    live: set<nat>,
    current: nat,
    threads: seq<Thread>,
    quiet: bool,    // the HTTP server has drained: only handlers it has given up can still start
    expired: bool,  // the deadline shared by the shutdown phases has passed
    shutdown: bool, // closeAll has been called
    stray: bool)    // a handler the server has given up came to the pin after the drain

  // ---------- Steps ----------

  datatype Action =
    | BeginRequest
    | BeginReload
    | ServerDrained
    | DeadlinePasses
    | BeginCloseAll(order: seq<nat>)
    | Run(t: nat)

  predicate InReadLock(p: Thread) {
    p.RequestRead? || p.RequestPinned?
  }

  /** Some request is at the pin. */
  predicate Pinning(s: State) {
    exists u :: 0 <= u < |s.threads| && InReadLock(s.threads[u])
  }

  predicate Over(p: Thread) {
    p.Finished? || p.ShutdownDone?
  }

  predicate IndexOk(s: State, g: nat) {
    g < |s.gens|
  }

  predicate ListOk(s: State, order: seq<nat>) {
    forall j :: 0 <= j < |order| ==> order[j] < |s.gens|
  }

  predicate CallerOk(s: State, g: nat, caller: Caller) {
    caller.CloseAll? ==> caller.i < |caller.order| && caller.order[caller.i] == g && ListOk(s, caller.order)
  }

  /** Every index a thread carries is the index of a generation. */
  predicate ThreadOk(s: State, p: Thread) {
    match p
    case Finished => true
    case ShutdownDone(order) => ListOk(s, order)
    case IdleWait(order, i) => i < |order| && ListOk(s, order)
    case Removing(order, i) => i < |order| && ListOk(s, order)
    case Closer(g, caller) => IndexOk(s, g) && CallerOk(s, g, caller)
    case Waiter(g, caller) => IndexOk(s, g) && CallerOk(s, g, caller)
    case Closing(g, _, caller) => IndexOk(s, g) && CallerOk(s, g, caller)
    case Hooking(g, _, caller) => IndexOk(s, g) && CallerOk(s, g, caller)
    case _ => IndexOk(s, p.g)
  }

  predicate WellFormed(s: State) {
    && s.current < |s.gens|
    && (forall g <- s.live :: IndexOk(s, g))
    && (forall t :: 0 <= t < |s.threads| ==> ThreadOk(s, s.threads[t]))
  }

  /** Thread `t` has a next step: it is not over, blocked on a lock, or waiting for a channel. */
  predicate CanRun(s: State, t: nat)
    requires WellFormed(s)
  {
    && t < |s.threads|
    && match s.threads[t]
       case ReloadListed(_) => forall u :: 0 <= u < |s.threads| ==> !InReadLock(s.threads[u])
       case Waiter(g, caller) => s.gens[g].done || (caller.CloseAll? && s.expired)
       case IdleWait(order, i) => s.gens[order[i]].refs <= 0 || s.expired
       case p => !Over(p)
  }

  predicate Enabled(s: State, a: Action)
    requires WellFormed(s)
  {
    match a
    case BeginRequest => true
    case BeginReload => true
    case ServerDrained => true
    case DeadlinePasses => true
    case BeginCloseAll(order) =>
      // The phases before closeAll end with the server drained, or the sequence stops.
      && s.quiet
      && (forall g <- order :: g in s.live)
      && (forall g <- s.live :: g in order)
      && |order| == |s.live|
    case Run(t) => CanRun(s, t)
  }

  /** Where the caller of `closeNow` goes when that call returns. */
  function Return(caller: Caller): Thread {
    match caller
    case Background => Finished
    case CloseAll(order, i) => Removing(order, i)
  }

  /** The thread that comes into being besides the one that moves. */
  function Spawned(p: Thread): seq<Thread> {
    if p.ReloadSwapped? then [Floor(p.g)] else []
  }

  function Moved(s: State, t: nat, p: Thread): State
    requires t < |s.threads|
  {
    s.(threads := s.threads[t := p] + Spawned(s.threads[t]))
  }

  function SetGen(s: State, g: nat, x: Gen): State
    requires g < |s.gens|
  {
    s.(gens := s.gens[g := x])
  }

  /** `closeAll` at the head of its loop, with `order[..i]` behind it. */
  function StartOf(order: seq<nat>, i: nat): Thread {
    if i < |order| then IdleWait(order, i) else ShutdownDone(order)
  }

  /** What the next step of thread `t` does to the fields all threads share. */
  function Effect(s: State, t: nat): State
    requires WellFormed(s) && t < |s.threads|
  {
    match s.threads[t]
    case RequestRead(g) => SetGen(s, g, Acquired(s.gens[g]))
    case RequestServing(g) => SetGen(s, g, Released(s.gens[g]))
    case ReloadMade(g) => SetGen(s, g, s.gens[g].(hooked := true))
    case ReloadHooked(g) => s.(live := s.live + {g})
    case ReloadListed(g) => s.(current := g)
    case ReloadSwapped(g) => SetGen(s, g, s.gens[g].(closing := true))
    case Closer(g, _) => SetGen(s, g, Claimed(s.gens[g]))
    case Closing(g, _, _) => SetGen(s, g, s.gens[g].(done := true))
    case Hooking(g, hook, _) => if hook then s.(live := s.live - {g}) else s
    case Removing(order, i) => s.(live := s.live - {order[i]})
    case _ => s
  }

  /** Where thread `t` stands after its next step. */
  function Next(s: State, t: nat): Thread
    requires WellFormed(s) && t < |s.threads|
  {
    match s.threads[t]
    case RequestRead(g) => RequestPinned(g)
    case RequestPinned(g) => RequestServing(g)
    case RequestServing(g) => if LastOut(Released(s.gens[g])) then Closer(g, Background) else Finished
    case ReloadMade(g) => ReloadHooked(g)
    case ReloadHooked(g) => ReloadListed(g)
    case ReloadListed(g) => ReloadSwapped(s.current)
    case ReloadSwapped(_) => Finished
    case Floor(g) => if FloorFinds(s.gens[g]) then Closer(g, Background) else Finished
    case Closer(g, caller) => if s.gens[g].closed then Waiter(g, caller) else Closing(g, s.gens[g].hooked, caller)
    case Waiter(_, caller) => Return(caller)
    case Closing(g, hook, caller) => Hooking(g, hook, caller)
    case Hooking(_, _, caller) => Return(caller)
    case IdleWait(order, i) => Closer(order[i], CloseAll(order, i))
    case Removing(order, i) => StartOf(order, i + 1)
    case p => p
  }

  function RunThread(s: State, t: nat): State
    requires WellFormed(s) && CanRun(s, t)
  {
    Moved(Effect(s, t), t, Next(s, t))
  }

  function Step(s: State, a: Action): State
    requires WellFormed(s) && Enabled(s, a)
  {
    match a
    case BeginRequest => s.(threads := s.threads + [RequestRead(s.current)], stray := s.stray || s.quiet)
    case BeginReload => s.(gens := s.gens + [NEW_GEN], threads := s.threads + [ReloadMade(|s.gens|)])
    case ServerDrained => s.(quiet := true, stray := s.stray || Pinning(s))
    case DeadlinePasses => s.(expired := true)
    case BeginCloseAll(order) => s.(shutdown := true, threads := s.threads + [StartOf(order, 0)])
    case Run(t) => RunThread(s, t)
  }

  /** `setupHandlers`: one generation, already listed and serving. */
  const INITIAL := State([NEW_GEN.(hooked := true)], {0}, 0, [], false, false, false, false)

  // ---------- Counting threads ----------

  datatype Role = Holding | Owning | Unlisted | Deciding | InClose | Hook

  /** Whether thread `p` plays role `k` for generation `g`. */
  predicate Plays(p: Thread, k: Role, g: nat) {
    match k
    case Holding => p == RequestPinned(g) || p == RequestServing(g)
    case Owning => p == ReloadMade(g) || p == ReloadHooked(g) || p == ReloadListed(g) || p == ReloadSwapped(g)
    case Unlisted => p == ReloadMade(g) || p == ReloadHooked(g)
    case Deciding => p == Floor(g) || (p.Closer? && p.g == g)
    case InClose => p.Closing? && p.g == g
    case Hook => (p.Closing? || p.Hooking?) && p.g == g && p.hook
  }

  function One(p: Thread, k: Role, g: nat): nat {
    if Plays(p, k, g) then 1 else 0
  }

  function Count(ps: seq<Thread>, k: Role, g: nat): nat {
    if ps == [] then 0 else Count(ps[..|ps| - 1], k, g) + One(ps[|ps| - 1], k, g)
  }

  lemma CountAppend(ps: seq<Thread>, p: Thread, k: Role, g: nat)
    ensures Count(ps + [p], k, g) == Count(ps, k, g) + One(p, k, g)
  {
    assert (ps + [p])[..|ps|] == ps;
  }

  lemma {:induction false} CountUpdate(ps: seq<Thread>, t: nat, p: Thread, k: Role, g: nat)
    requires t < |ps|
    ensures Count(ps[t := p], k, g) + One(ps[t], k, g) == Count(ps, k, g) + One(p, k, g)
  {
    var n := |ps| - 1;
    if t < n {
      CountUpdate(ps[..n], t, p, k, g);
      assert ps[t := p][..n] == ps[..n][t := p];
    } else {
      assert ps[t := p][..n] == ps[..n];
    }
  }

  /** Some thread plays the role exactly when the count is positive. */
  lemma {:induction false} CountWitness(ps: seq<Thread>, k: Role, g: nat) returns (t: nat)
    requires Count(ps, k, g) > 0
    ensures t < |ps| && Plays(ps[t], k, g)
  {
    if Plays(ps[|ps| - 1], k, g) {
      t := |ps| - 1;
    } else {
      t := CountWitness(ps[..|ps| - 1], k, g);
    }
  }

  lemma {:induction false} CountPositive(ps: seq<Thread>, t: nat, k: Role, g: nat)
    requires t < |ps| && Plays(ps[t], k, g)
    ensures Count(ps, k, g) > 0
  {
    if t < |ps| - 1 {
      CountPositive(ps[..|ps| - 1], t, k, g);
    }
  }

  lemma {:induction false} UnlistedIsOwned(ps: seq<Thread>, g: nat)
    ensures Count(ps, Unlisted, g) <= Count(ps, Owning, g)
  {
    if ps != [] {
      UnlistedIsOwned(ps[..|ps| - 1], g);
    }
  }

  lemma {:induction false} CountTwo(ps: seq<Thread>, t: nat, u: nat, k: Role, g: nat)
    requires t < u < |ps| && Plays(ps[t], k, g) && Plays(ps[u], k, g)
    ensures Count(ps, k, g) > 1
  {
    if u < |ps| - 1 {
      CountTwo(ps[..|ps| - 1], t, u, k, g);
    } else {
      CountPositive(ps[..u], t, k, g);
    }
  }
}
