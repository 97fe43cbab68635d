/** What every step of the generation protocol keeps. */
module GenerationSafety {
  import opened GenerationProtocol

  /** How many threads play each role for one generation. */
  datatype Counts = Counts(holding: nat, owning: nat, unlisted: nat, deciding: nat, inClose: nat, hook: nat)

  function CountsOf(ps: seq<Thread>, g: nat): Counts {
    Counts(Count(ps, Holding, g), Count(ps, Owning, g), Count(ps, Unlisted, g),
           Count(ps, Deciding, g), Count(ps, InClose, g), Count(ps, Hook, g))
  }

  /**
   The invariant of one generation.  `serving` says whether it is the handler's current one, `listed`
   whether the registry holds it, `forced` whether shutdown may close it in use.
   */
  predicate GenOk(x: Gen, n: Counts, serving: bool, listed: bool, shutdown: bool, forced: bool) {
    && x.refs == n.holding
    && x.closes == (if x.closed then 1 else 0)
    && (x.done ==> x.closed)
    && (serving ==> !x.closing)
    && (serving || x.closing || x.closed || listed ==> x.hooked)
    // A reload in flight owns each generation that is neither serving nor retired.
    && n.owning == (if serving || x.closing then 0 else 1)
    && n.unlisted == (if listed || x.closed then 0 else 1)
    // No lost wakeup.
    && (x.closing && x.refs == 0 && !x.closed ==> n.deciding > 0)
    && n.inClose == (if x.closed && !x.done then 1 else 0)
    && (x.closed && listed ==> n.hook > 0)
    // No use after close.
    && (x.closed ==> (x.refs == 0 && (x.closing || shutdown)) || (shutdown && forced))
  }

  /** The deadline has passed, or the server has given up a handler that is not over. */
  predicate Forced(s: State) {
    s.expired || s.stray
  }

  ghost predicate GenInv(s: State, g: nat)
    requires g < |s.gens|
  {
    GenOk(s.gens[g], CountsOf(s.threads, g), g == s.current, g in s.live, s.shutdown, Forced(s))
  }

  /** What `closeAll` has established about a generation it left behind. */
  predicate Settled(s: State, g: nat)
    requires g < |s.gens|
  {
    s.gens[g].closed && g !in s.live && (s.gens[g].done || s.expired)
  }

  predicate ListInv(s: State, order: seq<nat>, i: nat)
    requires ListOk(s, order) && i <= |order|
  {
    && s.shutdown
    && (forall j :: 0 <= j < |order| ==> order[j] in s.live || s.gens[order[j]].closed)
    && (forall j :: 0 <= j < i ==> Settled(s, order[j]))
  }

  predicate CallerInv(s: State, caller: Caller)
    requires caller.CloseAll? ==> ListOk(s, caller.order) && caller.i < |caller.order|
  {
    caller.CloseAll? ==> ListInv(s, caller.order, caller.i)
  }

  predicate ThreadInv(s: State, p: Thread)
    requires ThreadOk(s, p)
  {
    match p
    case RequestRead(g) => g == s.current && (s.quiet ==> s.stray)
    case RequestPinned(g) => g == s.current && (s.quiet ==> s.stray)
    case RequestServing(_) => true
    case ReloadMade(_) => true
    case ReloadHooked(g) => s.gens[g].hooked
    case ReloadListed(g) => s.gens[g].hooked
    case ReloadSwapped(g) => s.gens[g].hooked && g != s.current
    case Floor(g) => s.gens[g].closing
    case Closer(g, caller) =>
      && s.gens[g].hooked
      && (if caller.Background? then s.gens[g].closing && s.gens[g].refs == 0 else Forced(s) || s.gens[g].refs == 0)
      && CallerInv(s, caller)
    case Waiter(g, caller) => s.gens[g].closed && CallerInv(s, caller)
    case Closing(g, hook, caller) => s.gens[g].closed && hook && CallerInv(s, caller)
    case Hooking(g, hook, caller) => s.gens[g].done && s.gens[g].closed && hook && CallerInv(s, caller)
    case IdleWait(order, i) => ListInv(s, order, i)
    case Removing(order, i) =>
      && ListInv(s, order, i)
      && s.gens[order[i]].closed && (s.gens[order[i]].done || s.expired)
    case ShutdownDone(order) => ListInv(s, order, |order|)
    case Finished => true
  }

  ghost predicate Inv(s: State) {
    && WellFormed(s)
    && (s.shutdown ==> s.quiet)
    && (forall g :: 0 <= g < |s.gens| ==> GenInv(s, g))
    && (forall t :: 0 <= t < |s.threads| ==> ThreadInv(s, s.threads[t]))
  }

  lemma InitialInv()
    ensures Inv(INITIAL)
  {
  }

  function Bump(n: Counts, p: Thread, g: nat): Counts {
    Counts(n.holding + One(p, Holding, g), n.owning + One(p, Owning, g), n.unlisted + One(p, Unlisted, g),
           n.deciding + One(p, Deciding, g), n.inClose + One(p, InClose, g), n.hook + One(p, Hook, g))
  }

  /** The counts of the threads other than the moving one, after the step. */
  function RestAfter(p: Thread, g: nat, rest: Counts): Counts {
    if p == ReloadSwapped(g) then Bump(rest, Floor(g), g) else rest
  }

  lemma CountsAppended(ps: seq<Thread>, p: Thread, g: nat)
    ensures CountsOf(ps + [p], g) == Bump(CountsOf(ps, g), p, g)
  {
    CountAppend(ps, p, Holding, g);
    CountAppend(ps, p, Owning, g);
    CountAppend(ps, p, Unlisted, g);
    CountAppend(ps, p, Deciding, g);
    CountAppend(ps, p, InClose, g);
    CountAppend(ps, p, Hook, g);
  }

  lemma CountsUpdated(ps: seq<Thread>, t: nat, p: Thread, g: nat)
    requires t < |ps| && ps[t] == Finished
    ensures CountsOf(ps[t := p], g) == Bump(CountsOf(ps, g), p, g)
  {
    CountUpdate(ps, t, p, Holding, g);
    CountUpdate(ps, t, p, Owning, g);
    CountUpdate(ps, t, p, Unlisted, g);
    CountUpdate(ps, t, p, Deciding, g);
    CountUpdate(ps, t, p, InClose, g);
    CountUpdate(ps, t, p, Hook, g);
  }

  lemma CountsSpawned(ps: seq<Thread>, q: Thread, g: nat)
    ensures CountsOf(ps + Spawned(q), g) == RestAfter(q, g, CountsOf(ps, g))
  {
    if q.ReloadSwapped? {
      CountsAppended(ps, Floor(q.g), g);
    } else {
      assert ps + Spawned(q) == ps;
    }
  }

  /** The counts of generation `g` before and after thread `t` moved to `p`: the other threads make up `rest`. */
  lemma CountsMoved(ps: seq<Thread>, t: nat, p: Thread, g: nat) returns (rest: Counts)
    requires t < |ps|
    ensures rest.unlisted <= rest.owning
    ensures CountsOf(ps, g) == Bump(rest, ps[t], g)
    ensures CountsOf(ps[t := p] + Spawned(ps[t]), g) == Bump(RestAfter(ps[t], g, rest), p, g)
  {
    var others := ps[t := Finished];
    rest := CountsOf(others, g);
    UnlistedIsOwned(others, g);
    CountsUpdated(others, t, ps[t], g);
    assert others[t := ps[t]] == ps;
    CountsUpdated(others, t, p, g);
    assert others[t := p] == ps[t := p];
    CountsSpawned(ps[t := p], ps[t], g);
  }

  /** The invariant of generation `g`, with thread `t` set apart from the others. */
  predicate GenOkWith(s: State, t: nat, g: nat, rest: Counts)
    requires t < |s.threads| && g < |s.gens|
  {
    GenOk(s.gens[g], Bump(rest, s.threads[t], g), g == s.current, g in s.live, s.shutdown, Forced(s))
  }

  lemma RequestKeepsGen(s: State, t: nat, g: nat, rest: Counts)
    requires WellFormed(s) && CanRun(s, t) && g < |s.gens| && ThreadInv(s, s.threads[t])
    requires s.threads[t].RequestRead? || s.threads[t].RequestPinned? || s.threads[t].RequestServing?
    requires (s.shutdown ==> s.quiet) && GenOkWith(s, t, g, rest)
    ensures GenOkWith(RunThread(s, t), t, g, rest)
  {
  }

  lemma ReloadKeepsGen(s: State, t: nat, g: nat, rest: Counts)
    requires WellFormed(s) && CanRun(s, t) && g < |s.gens| && ThreadInv(s, s.threads[t])
    requires s.threads[t].ReloadMade? || s.threads[t].ReloadHooked? || s.threads[t].ReloadListed?
    requires rest.unlisted <= rest.owning && GenOkWith(s, t, g, rest)
    ensures GenOkWith(RunThread(s, t), t, g, rest)
  {
  }

  lemma RetireKeepsGen(s: State, t: nat, g: nat, rest: Counts)
    requires WellFormed(s) && CanRun(s, t) && g < |s.gens| && ThreadInv(s, s.threads[t])
    requires s.threads[t].ReloadSwapped? || s.threads[t].Floor?
    requires rest.unlisted <= rest.owning && GenOkWith(s, t, g, rest)
    ensures GenOkWith(RunThread(s, t), t, g, if s.threads[t] == ReloadSwapped(g) then Bump(rest, Floor(g), g) else rest)
  {
  }

  lemma CloserKeepsGen(s: State, t: nat, g: nat, rest: Counts)
    requires WellFormed(s) && CanRun(s, t) && g < |s.gens| && ThreadInv(s, s.threads[t])
    requires s.threads[t].Closer?
    requires rest.unlisted <= rest.owning && GenOkWith(s, t, g, rest)
    ensures GenOkWith(RunThread(s, t), t, g, rest)
  {
    var p := s.threads[t];
    if p.caller.CloseAll? {
      assert p.caller.order[p.caller.i] == p.g;
    }
    hide CanRun;
  }

  lemma CloseKeepsGen(s: State, t: nat, g: nat, rest: Counts)
    requires WellFormed(s) && CanRun(s, t) && g < |s.gens| && ThreadInv(s, s.threads[t])
    requires var p := s.threads[t]; p.Waiter? || p.Closing? || p.Hooking? || p.IdleWait? || p.Removing?
    requires GenOkWith(s, t, g, rest)
    ensures GenOkWith(RunThread(s, t), t, g, rest)
  {
  }

  lemma RunKeepsGenOk(s: State, t: nat, g: nat, rest: Counts)
    requires WellFormed(s) && CanRun(s, t) && g < |s.gens| && ThreadInv(s, s.threads[t])
    requires (s.shutdown ==> s.quiet) && rest.unlisted <= rest.owning && GenOkWith(s, t, g, rest)
    ensures GenOkWith(RunThread(s, t), t, g, RestAfter(s.threads[t], g, rest))
  {
    match s.threads[t]
    case RequestRead(_) => RequestKeepsGen(s, t, g, rest);
    case RequestPinned(_) => RequestKeepsGen(s, t, g, rest);
    case RequestServing(_) => RequestKeepsGen(s, t, g, rest);
    case ReloadMade(_) => ReloadKeepsGen(s, t, g, rest);
    case ReloadHooked(_) => ReloadKeepsGen(s, t, g, rest);
    case ReloadListed(_) => ReloadKeepsGen(s, t, g, rest);
    case ReloadSwapped(_) => RetireKeepsGen(s, t, g, rest);
    case Floor(_) => RetireKeepsGen(s, t, g, rest);
    case Closer(_, _) => CloserKeepsGen(s, t, g, rest);
    case _ => CloseKeepsGen(s, t, g, rest);
  }

  lemma RunIsMove(s: State, t: nat)
    requires WellFormed(s) && CanRun(s, t)
    ensures RunThread(s, t).threads == Moved(s, t, RunThread(s, t).threads[t]).threads
  {
  }

  lemma RunKeepsGen(s: State, t: nat, g: nat)
    requires WellFormed(s) && CanRun(s, t) && g < |s.gens| && ThreadInv(s, s.threads[t])
    requires (s.shutdown ==> s.quiet) && GenInv(s, g)
    ensures GenInv(RunThread(s, t), g)
  {
    var s' := RunThread(s, t);
    hide GenOk, Effect, Next, ThreadInv, Forced, Count, Plays;
    var rest := CountsMoved(s.threads, t, s'.threads[t], g);
    RunKeepsGenOk(s, t, g, rest);
    RunIsMove(s, t);
  }

  /** No two reloads own the same generation. */
  lemma OneOwner(s: State, t: nat, u: nat, g: nat)
    requires Inv(s) && t < |s.threads| && u < |s.threads| && t != u && g < |s.gens|
    ensures !(Plays(s.threads[t], Owning, g) && Plays(s.threads[u], Owning, g))
  {
    assert GenInv(s, g);
    if Plays(s.threads[t], Owning, g) && Plays(s.threads[u], Owning, g) {
      CountTwo(s.threads, if t < u then t else u, if t < u then u else t, Owning, g);
    }
  }

  /** A thread holding a reference sees a positive count; one under the read lock holds the serving generation. */
  lemma HolderSees(s: State, t: nat)
    requires Inv(s) && t < |s.threads|
    ensures (s.threads[t].RequestPinned? || s.threads[t].RequestServing?) ==> s.gens[s.threads[t].g].refs > 0
    ensures s.threads[t].RequestRead? ==> !s.gens[s.threads[t].g].closing
  {
    var p := s.threads[t];
    assert ThreadInv(s, p);
    if p.RequestPinned? || p.RequestServing? {
      assert GenInv(s, p.g);
      CountPositive(s.threads, t, Holding, p.g);
    } else if p.RequestRead? {
      assert GenInv(s, p.g);
    }
  }

  /** What never goes back: a generation that was closed, drained or retired stays so, and is not listed again. */
  predicate Evolves(s: State, s': State) {
    && |s.gens| <= |s'.gens|
    && (s.quiet ==> s'.quiet) && (s.expired ==> s'.expired) && (s.shutdown ==> s'.shutdown)
    && (s.stray ==> s'.stray)
    && forall g :: 0 <= g < |s.gens| ==> GenEvolves(s, s', g)
  }

  predicate GenEvolves(s: State, s': State, g: nat)
    requires g < |s.gens| && g < |s'.gens|
  {
    var x, x' := s.gens[g], s'.gens[g];
    && (x.hooked ==> x'.hooked) && (x.closing ==> x'.closing)
    && (x.closed ==> x'.closed) && (x.done ==> x'.done)
    && x.closes <= x'.closes
    && (x.closed && g !in s.live ==> g !in s'.live)
    && (g in s.live ==> g in s'.live || x'.closed)
  }

  /** Where the thread goes and what it starts touches no field that threads share. */
  lemma RunIsEffect(s: State, t: nat)
    requires WellFormed(s) && CanRun(s, t)
    ensures RunThread(s, t) == Effect(s, t).(threads := RunThread(s, t).threads)
  {
    hide Effect, Next, Spawned, WellFormed;
  }

  lemma RunKeepsFlags(s: State, t: nat)
    requires WellFormed(s) && CanRun(s, t)
    ensures var s' := RunThread(s, t);
            && |s'.gens| == |s.gens| && s'.quiet == s.quiet && s'.expired == s.expired
            && s'.shutdown == s.shutdown && s'.stray == s.stray
  {
    RunIsEffect(s, t);
    hide RunThread, Next, CanRun, WellFormed;
  }

  lemma RunEvolves(s: State, t: nat, g: nat)
    requires WellFormed(s) && CanRun(s, t) && ThreadInv(s, s.threads[t]) && g < |s.gens|
    requires s.threads[t] == ReloadHooked(g) ==> !s.gens[g].closed
    ensures GenEvolves(s, RunThread(s, t), g)
  {
    RunIsEffect(s, t);
    hide RunThread, CanRun, Next, WellFormed;
  }

  lemma ListEvolves(s: State, s': State, order: seq<nat>, i: nat)
    requires Evolves(s, s') && ListOk(s, order) && i <= |order| && ListInv(s, order, i)
    ensures ListOk(s', order) && ListInv(s', order, i)
  {
    forall j | 0 <= j < |order| ensures order[j] in s'.live || s'.gens[order[j]].closed {
      assert GenEvolves(s, s', order[j]);
    }
    forall j | 0 <= j < i ensures Settled(s', order[j]) {
      assert Settled(s, order[j]) && GenEvolves(s, s', order[j]);
    }
  }

  lemma CallerEvolves(s: State, s': State, g: nat, caller: Caller)
    requires Evolves(s, s') && g < |s.gens| && CallerOk(s, g, caller) && CallerInv(s, caller)
    ensures CallerOk(s', g, caller) && CallerInv(s', caller)
  {
    if caller.CloseAll? {
      ListEvolves(s, s', caller.order, caller.i);
    }
  }

  /** What a thread relies on survives the steps of the others. */
  lemma ThreadInvEvolves(s: State, s': State, q: Thread)
    requires Evolves(s, s') && ThreadOk(s, q) && ThreadInv(s, q)
    requires InReadLock(q) ==> s'.current == s.current && (s'.quiet ==> s.quiet || s'.stray)
    requires q.ReloadSwapped? ==> q.g != s'.current
    requires q.Closer? && s.gens[q.g].refs == 0 ==> s'.gens[q.g].refs == 0 || (q.caller.CloseAll? && s'.stray)
    ensures ThreadOk(s', q) && ThreadInv(s', q)
  {
    match q
    case Closer(g, caller) => assert GenEvolves(s, s', g); CallerEvolves(s, s', g, caller);
    case Waiter(g, caller) => assert GenEvolves(s, s', g); CallerEvolves(s, s', g, caller);
    case Closing(g, _, caller) => assert GenEvolves(s, s', g); CallerEvolves(s, s', g, caller);
    case Hooking(g, _, caller) => assert GenEvolves(s, s', g); CallerEvolves(s, s', g, caller);
    case IdleWait(order, i) => ListEvolves(s, s', order, i);
    case Removing(order, i) => assert GenEvolves(s, s', order[i]); ListEvolves(s, s', order, i);
    case ShutdownDone(order) => ListEvolves(s, s', order, |order|);
    case Finished =>
    case _ => assert GenEvolves(s, s', q.g);
  }

  /** A generation that is about to be listed was never closed. */
  lemma UnlistedIsOpen(s: State, t: nat)
    requires Inv(s) && t < |s.threads| && s.threads[t].ReloadHooked?
    ensures !s.gens[s.threads[t].g].closed
  {
    assert ThreadOk(s, s.threads[t]) && GenInv(s, s.threads[t].g);
    CountPositive(s.threads, t, Unlisted, s.threads[t].g);
  }

  lemma StepEvolves(s: State, a: Action)
    requires Inv(s) && Enabled(s, a)
    ensures Evolves(s, Step(s, a))
  {
    if a.Run? {
      assert ThreadInv(s, s.threads[a.t]);
      if s.threads[a.t].ReloadHooked? {
        UnlistedIsOpen(s, a.t);
      }
      RunKeepsFlags(s, a.t);
      hide RunThread, CanRun, GenEvolves;
      forall g | 0 <= g < |s.gens| ensures GenEvolves(s, Step(s, a), g) {
        RunEvolves(s, a.t, g);
      }
    }
  }

  /** The step of thread `t` leaves alone what another thread `q` watches. */
  lemma RunLeavesWatched(s: State, t: nat, q: Thread)
    requires WellFormed(s) && CanRun(s, t) && ThreadOk(s, q) && ThreadInv(s, q)
    requires var p := s.threads[t];
             && (p.RequestRead? ==> !s.gens[p.g].closing && p.g == s.current && (s.quiet ==> s.stray))
             && (p.RequestServing? ==> s.gens[p.g].refs > 0)
             && (p.ReloadListed? ==> !InReadLock(q) && q != ReloadSwapped(p.g))
    requires q.Closer? && q.caller.CloseAll? ==> s.quiet
    ensures var s' := RunThread(s, t);
            && (InReadLock(q) ==> s'.current == s.current && s'.quiet == s.quiet)
            && (q.ReloadSwapped? ==> q.g != s'.current)
            && (q.Closer? && s.gens[q.g].refs == 0 ==> s'.gens[q.g].refs == 0 || (q.caller.CloseAll? && s'.stray))
  {
  }

  lemma RunKeepsThread(s: State, t: nat, u: nat)
    requires Inv(s) && CanRun(s, t) && u < |s.threads| && u != t
    ensures ThreadOk(RunThread(s, t), s.threads[u]) && ThreadInv(RunThread(s, t), s.threads[u])
  {
    var p, q := s.threads[t], s.threads[u];
    assert ThreadInv(s, p) && ThreadInv(s, q);
    HolderSees(s, t);
    if p.ReloadListed? {
      OneOwner(s, t, u, p.g);
    }
    RunLeavesWatched(s, t, q);
    StepEvolves(s, Run(t));
    ThreadInvEvolves(s, RunThread(s, t), q);
  }

  /** Where the moving thread arrives, it has what it relies on there. */
  lemma MoverInv(s: State, t: nat)
    requires WellFormed(s) && CanRun(s, t) && ThreadInv(s, s.threads[t])
    requires var p := s.threads[t];
             && !p.Removing? && !p.IdleWait? && !p.Closer? && !p.Waiter? && !p.Closing? && !p.Hooking?
             && (p.ReloadListed? ==> p.g != s.current && s.gens[s.current].hooked)
             && (p.RequestServing? ==> s.gens[p.g].refs > 0)
             && (p.Floor? ==> s.gens[p.g].refs >= 0)
             && (p.RequestServing? || p.Floor? ==> s.gens[p.g].closing ==> s.gens[p.g].hooked)
    ensures var s' := RunThread(s, t); ThreadOk(s', s'.threads[t]) && ThreadInv(s', s'.threads[t])
  {
    var p := s.threads[t];
    if p.RequestRead? || p.RequestPinned? || p.RequestServing? {
      RequestMoverInv(s, t);
    } else {
      ReloadMoverInv(s, t);
    }
  }

  lemma RequestMoverInv(s: State, t: nat)
    requires WellFormed(s) && CanRun(s, t) && ThreadInv(s, s.threads[t])
    requires var p := s.threads[t];
             && (p.RequestRead? || p.RequestPinned? || p.RequestServing?)
             && (p.RequestServing? ==> s.gens[p.g].refs > 0 && (s.gens[p.g].closing ==> s.gens[p.g].hooked))
    ensures var s' := RunThread(s, t); ThreadOk(s', s'.threads[t]) && ThreadInv(s', s'.threads[t])
  {
  }

  lemma ReloadMoverInv(s: State, t: nat)
    requires WellFormed(s) && CanRun(s, t) && ThreadInv(s, s.threads[t])
    requires var p := s.threads[t];
             && (p.ReloadMade? || p.ReloadHooked? || p.ReloadListed? || p.ReloadSwapped? || p.Floor?)
             && (p.ReloadListed? ==> p.g != s.current && s.gens[s.current].hooked)
             && (p.Floor? ==> s.gens[p.g].refs >= 0 && (s.gens[p.g].closing ==> s.gens[p.g].hooked))
    ensures var s' := RunThread(s, t); ThreadOk(s', s'.threads[t]) && ThreadInv(s', s'.threads[t])
  {
  }

  lemma CloseMoverInv(s: State, s': State, t: nat)
    requires WellFormed(s) && CanRun(s, t) && ThreadInv(s, s.threads[t])
    requires s' == RunThread(s, t) && Evolves(s, s')
    requires var p := s.threads[t]; p.Closer? || p.Waiter? || p.Closing? || p.Hooking?
    ensures ThreadOk(s', s'.threads[t]) && ThreadInv(s', s'.threads[t])
  {
    CallerEvolves(s, s', s.threads[t].g, s.threads[t].caller);
  }

  lemma CloseAllMoverInv(s: State, s': State, t: nat)
    requires WellFormed(s) && CanRun(s, t) && ThreadInv(s, s.threads[t])
    requires s' == RunThread(s, t) && Evolves(s, s')
    requires var p := s.threads[t]; p.IdleWait? || p.Removing?
    requires var g := s.threads[t].order[s.threads[t].i]; s.gens[g].hooked && s.gens[g].refs >= 0
    ensures ThreadOk(s', s'.threads[t]) && ThreadInv(s', s'.threads[t])
  {
    var p := s.threads[t];
    ListEvolves(s, s', p.order, p.i);
    if p.Removing? {
      assert GenEvolves(s, s', p.order[p.i]) && Settled(s', p.order[p.i]);
    }
  }

  lemma StepKeepsMover(s: State, t: nat)
    requires Inv(s) && CanRun(s, t)
    requires var p := s.threads[t];
             !p.Removing? && !p.IdleWait? && !p.Closer? && !p.Waiter? && !p.Closing? && !p.Hooking?
    ensures ThreadOk(RunThread(s, t), RunThread(s, t).threads[t])
    ensures ThreadInv(RunThread(s, t), RunThread(s, t).threads[t])
  {
    var p := s.threads[t];
    assert ThreadOk(s, p) && ThreadInv(s, p) && GenInv(s, s.current);
    HolderSees(s, t);
    if p.ReloadListed? || p.Floor? || p.RequestServing? {
      assert GenInv(s, p.g);
      Owned(s, t, p.g);
    }
    hide RunThread, CanRun;
    MoverInv(s, t);
  }

  lemma CloserKeepsMover(s: State, t: nat)
    requires Inv(s) && CanRun(s, t)
    requires var p := s.threads[t];
             p.Removing? || p.IdleWait? || p.Closer? || p.Waiter? || p.Closing? || p.Hooking?
    ensures ThreadOk(RunThread(s, t), RunThread(s, t).threads[t])
    ensures ThreadInv(RunThread(s, t), RunThread(s, t).threads[t])
  {
    var p := s.threads[t];
    assert ThreadOk(s, p) && ThreadInv(s, p);
    StepEvolves(s, Run(t));
    assert Step(s, Run(t)) == RunThread(s, t);
    hide RunThread, CanRun, Step, Evolves;
    if p.IdleWait? || p.Removing? {
      assert GenInv(s, p.order[p.i]);
      CloseAllMoverInv(s, RunThread(s, t), t);
    } else {
      CloseMoverInv(s, RunThread(s, t), t);
    }
  }

  lemma RunKeepsMover(s: State, t: nat)
    requires Inv(s) && CanRun(s, t)
    ensures ThreadOk(RunThread(s, t), RunThread(s, t).threads[t])
    ensures ThreadInv(RunThread(s, t), RunThread(s, t).threads[t])
  {
    var p := s.threads[t];
    hide Inv, RunThread, ThreadOk, ThreadInv;
    if p.Removing? || p.IdleWait? || p.Closer? || p.Waiter? || p.Closing? || p.Hooking? {
      CloserKeepsMover(s, t);
    } else {
      StepKeepsMover(s, t);
    }
  }

  lemma Owned(s: State, t: nat, g: nat)
    requires Inv(s) && t < |s.threads| && g < |s.gens|
    ensures Plays(s.threads[t], Owning, g) ==> g != s.current && !s.gens[g].closing
  {
    assert GenInv(s, g);
    if Plays(s.threads[t], Owning, g) {
      CountPositive(s.threads, t, Owning, g);
    }
  }

  lemma RunKeepsGens(s: State, t: nat)
    requires WellFormed(s) && CanRun(s, t) && ThreadOk(s, s.threads[t])
    ensures var s' := RunThread(s, t);
            && |s'.gens| == |s.gens| && s'.current < |s'.gens| && (forall g <- s'.live :: IndexOk(s', g))
            && (s.threads[t].ReloadSwapped? ==> s'.gens[s.threads[t].g].closing)
  {
    RunIsEffect(s, t);
    hide RunThread, Next, CanRun;
  }

  lemma RunKeepsOthers(s: State, t: nat)
    requires WellFormed(s) && CanRun(s, t)
    ensures var s' := RunThread(s, t);
            && |s'.threads| == |s.threads| + |Spawned(s.threads[t])|
            && (forall u :: 0 <= u < |s.threads| && u != t ==> s'.threads[u] == s.threads[u])
            && (forall u :: |s.threads| <= u < |s'.threads| ==>
                  s.threads[t].ReloadSwapped? && s'.threads[u] == Floor(s.threads[t].g))
  {
    RunIsEffect(s, t);
    hide Next, Effect, WellFormed;
  }

  lemma RunMoves(s: State, t: nat)
    requires WellFormed(s) && CanRun(s, t)
    ensures t < |RunThread(s, t).threads| && RunThread(s, t).threads[t] == Next(s, t)
  {
    RunIsEffect(s, t);
    hide Next, WellFormed;
  }

  lemma RunKeepsShape(s: State, t: nat)
    requires WellFormed(s) && CanRun(s, t) && ThreadOk(s, s.threads[t])
    ensures var s' := RunThread(s, t);
            && |s'.gens| == |s.gens| && s'.current < |s'.gens| && (forall g <- s'.live :: IndexOk(s', g))
            && (s'.shutdown == s.shutdown && s'.quiet == s.quiet)
            && |s'.threads| == |s.threads| + |Spawned(s.threads[t])|
            && (forall u :: 0 <= u < |s.threads| && u != t ==> s'.threads[u] == s.threads[u])
            && (forall u :: |s.threads| <= u < |s'.threads| ==>
                  s'.threads[u] == Floor(s.threads[t].g) && s'.gens[s.threads[t].g].closing)
  {
    RunKeepsGens(s, t);
    RunKeepsOthers(s, t);
    RunKeepsFlags(s, t);
    hide RunThread, CanRun;
  }

  lemma RunKeepsThreads(s: State, t: nat, u: nat)
    requires Inv(s) && CanRun(s, t) && u < |RunThread(s, t).threads|
    ensures ThreadOk(RunThread(s, t), RunThread(s, t).threads[u])
    ensures ThreadInv(RunThread(s, t), RunThread(s, t).threads[u])
  {
    assert ThreadOk(s, s.threads[t]) && ThreadInv(s, s.threads[t]);
    RunKeepsShape(s, t);
    if u == t {
      RunKeepsMover(s, t);
    } else if u < |s.threads| {
      RunKeepsThread(s, t, u);
    }
  }

  lemma RunKeepsInv(s: State, t: nat)
    requires Inv(s) && CanRun(s, t)
    ensures Inv(RunThread(s, t))
  {
    var s' := RunThread(s, t);
    RunKeepsShape(s, t);
    forall u | 0 <= u < |s'.threads| ensures ThreadOk(s', s'.threads[u]) && ThreadInv(s', s'.threads[u]) {
      RunKeepsThreads(s, t, u);
    }
    forall g | 0 <= g < |s'.gens| ensures GenInv(s', g) {
      assert GenInv(s, g);
      RunKeepsGen(s, t, g);
    }
  }

  /** No thread plays a role for a generation that does not exist yet. */
  lemma NotYetCounted(s: State, k: Role)
    requires WellFormed(s)
    ensures Count(s.threads, k, |s.gens|) == 0
  {
    if Count(s.threads, k, |s.gens|) > 0 {
      var t := CountWitness(s.threads, k, |s.gens|);
      assert false;
    }
  }

  /** The shared fields changed as `s'` says, and thread `p` was added. */
  lemma AddThreadKeepsInv(s: State, s': State, p: Thread)
    requires Inv(s) && Evolves(s, s') && s'.threads == s.threads + [p]
    requires s'.current == s.current && s'.live == s.live && s'.quiet == s.quiet && s'.expired == s.expired
    requires s'.shutdown ==> s'.quiet
    requires ThreadOk(s', p) && ThreadInv(s', p)
    requires forall g :: 0 <= g < |s.gens| ==>
               s'.gens[g] == s.gens[g] && Bump(CountsOf(s.threads, g), p, g) == CountsOf(s.threads, g)
    requires forall g :: |s.gens| <= g < |s'.gens| ==> GenInv(s', g)
    ensures Inv(s')
  {
    forall u | 0 <= u < |s'.threads| ensures ThreadOk(s', s'.threads[u]) && ThreadInv(s', s'.threads[u]) {
      if u < |s.threads| {
        assert ThreadInv(s, s.threads[u]);
        ThreadInvEvolves(s, s', s.threads[u]);
      }
    }
    forall g | 0 <= g < |s'.gens| ensures GenInv(s', g) {
      if g < |s.gens| {
        assert GenInv(s, g);
        CountsAppended(s.threads, p, g);
      }
    }
  }

  lemma BeginReloadKeepsInv(s: State)
    requires Inv(s)
    ensures Inv(Step(s, BeginReload))
  {
    var n := |s.gens|;
    var s' := Step(s, BeginReload);
    forall k: Role ensures Count(s.threads, k, n) == 0 {
      NotYetCounted(s, k);
    }
    CountsAppended(s.threads, ReloadMade(n), n);
    StepEvolves(s, BeginReload);
    AddThreadKeepsInv(s, s', ReloadMade(n));
  }

  /** The steps that add no thread leave every count alone. */
  lemma FlagKeepsInv(s: State, a: Action)
    requires Inv(s) && Enabled(s, a) && (a.ServerDrained? || a.DeadlinePasses?)
    ensures Inv(Step(s, a))
  {
    var s' := Step(s, a);
    forall u | 0 <= u < |s'.threads| ensures ThreadOk(s', s'.threads[u]) && ThreadInv(s', s'.threads[u]) {
      assert ThreadInv(s, s.threads[u]);
      if !InReadLock(s.threads[u]) {
        StepEvolves(s, a);
        ThreadInvEvolves(s, s', s.threads[u]);
      }
    }
    forall g | 0 <= g < |s'.gens| ensures GenInv(s', g) {
      assert GenInv(s, g);
    }
  }

  lemma BeginRequestKeepsInv(s: State)
    requires Inv(s)
    ensures Inv(Step(s, BeginRequest))
  {
    StepEvolves(s, BeginRequest);
    AddThreadKeepsInv(s, Step(s, BeginRequest), RequestRead(s.current));
  }

  lemma BeginCloseAllKeepsInv(s: State, order: seq<nat>)
    requires Inv(s) && Enabled(s, BeginCloseAll(order))
    ensures Inv(Step(s, BeginCloseAll(order)))
  {
    assert forall j :: 0 <= j < |order| ==> order[j] in order;
    StepEvolves(s, BeginCloseAll(order));
    hide GenEvolves;
    AddThreadKeepsInv(s, Step(s, BeginCloseAll(order)), StartOf(order, 0));
  }

  lemma StepKeepsInv(s: State, a: Action)
    requires Inv(s) && Enabled(s, a)
    ensures Inv(Step(s, a))
  {
    assert WellFormed(s);
    hide Inv, WellFormed, RunThread, CanRun;
    match a
    case Run(t) => RunKeepsInv(s, t);
    case BeginRequest => BeginRequestKeepsInv(s);
    case BeginReload => BeginReloadKeepsInv(s);
    case BeginCloseAll(order) => BeginCloseAllKeepsInv(s, order);
    case _ => FlagKeepsInv(s, a);
  }
}
