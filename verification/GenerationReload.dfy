/** A reload takes effect: its generation serves from the swap on, and the one that served before is retired. */
module GenerationReload {
  import opened GenerationProtocol
  import opened GenerationSafety
  import opened GenerationTheorems

  /** The action lets a reload swap the pointer. */
  predicate Swaps(s: State, a: Action) {
    a.Run? && a.t < |s.threads| && s.threads[a.t].ReloadListed?
  }

  /** The generation of the last reload that swapped the pointer among the first `n` actions, or that of start-up. */
  function LastSwapped(run: seq<State>, acts: seq<Action>, n: nat): nat
    requires n <= |acts| < |run|
  {
    if n == 0 then 0
    else if Swaps(run[n - 1], acts[n - 1]) then run[n - 1].threads[acts[n - 1].t].g
    else LastSwapped(run, acts, n - 1)
  }

  /** What a swap does: the reload's generation serves, and its thread goes on to retire the one that served. */
  lemma SwapTakesEffect(s: State, a: Action, s': State)
    requires Inv(s) && Follows(s, a, s') && Swaps(s, a)
    ensures s'.current == s.threads[a.t].g && s'.current != s.current
    ensures a.t < |s'.threads| && s'.threads[a.t] == ReloadSwapped(s.current)
    ensures s'.gens == s.gens && s'.live == s.live
  {
    assert ThreadOk(s, s.threads[a.t]);
    Owned(s, a.t, s.threads[a.t].g);
  }

  /** Nothing else moves the pointer. */
  lemma OnlySwapsMove(s: State, a: Action, s': State)
    requires Follows(s, a, s') && !Swaps(s, a)
    ensures s'.current == s.current
  {
    if a.Run? {
      RunIsEffect(s, a.t);
      hide RunThread, Next, CanRun, WellFormed;
    }
  }

  /** What retiring does: the generation is marked, a floor goroutine watches it, and no other one is marked. */
  lemma RetireTakesEffect(s: State, t: nat, g: nat)
    requires Inv(s) && CanRun(s, t) && s.threads[t] == ReloadSwapped(g)
    ensures var s' := RunThread(s, t);
            && |s'.gens| == |s.gens| && g < |s.gens| && g != s.current && s'.current == s.current
            && s'.gens[g] == s.gens[g].(closing := true)
            && (forall h :: 0 <= h < |s.gens| && h != g ==> s'.gens[h] == s.gens[h])
            && s'.threads[t] == Finished && s'.threads[|s.threads|..] == [Floor(g)]
  {
    assert ThreadOk(s, s.threads[t]) && ThreadInv(s, s.threads[t]);
  }

  /** The serving generation is always that of the last reload that has swapped. */
  lemma {:induction false} LastSwapServes(run: seq<State>, acts: seq<Action>, n: nat)
    requires IsRun(run, acts) && n < |run|
    ensures run[n].current == LastSwapped(run, acts, n)
  {
    if n > 0 {
      LastSwapServes(run, acts, n - 1);
      RunInv(run, acts, n - 1);
      assert Follows(run[n - 1], acts[n - 1], run[n]);
      if Swaps(run[n - 1], acts[n - 1]) {
        SwapTakesEffect(run[n - 1], acts[n - 1], run[n]);
      } else {
        OnlySwapsMove(run[n - 1], acts[n - 1], run[n]);
      }
    }
  }

  // ---------- Every reload gets its turn ----------

  /** The reload of `g` has not come to its swap yet. */
  predicate BringsUp(p: Thread, g: nat) {
    p == ReloadMade(g) || p == ReloadHooked(g) || p == ReloadListed(g)
  }

  ghost predicate BroughtUp(s: State, g: nat) {
    exists t :: 0 <= t < |s.threads| && BringsUp(s.threads[t], g)
  }

  ghost predicate HasServed(run: seq<State>, n: nat, g: nat)
    requires n < |run|
  {
    exists j :: 0 <= j <= n && run[j].current == g
  }

  /** A step that ends the bringing up of a generation is its swap; and a new generation is brought up. */
  lemma StepBringsUp(s: State, a: Action, s': State, g: nat)
    requires Inv(s) && Follows(s, a, s') && g < |s'.gens|
    requires g < |s.gens| ==> BroughtUp(s, g)
    ensures BroughtUp(s', g) || s'.current == g
  {
    if g < |s.gens| {
      var t :| 0 <= t < |s.threads| && BringsUp(s.threads[t], g);
      ThreadGoesOn(s, a, s', t, g);
    } else {
      NewIsBroughtUp(s, a, s', g);
    }
  }

  lemma ThreadGoesOn(s: State, a: Action, s': State, t: nat, g: nat)
    requires Inv(s) && Follows(s, a, s') && t < |s.threads| && BringsUp(s.threads[t], g)
    ensures t < |s'.threads| && (BringsUp(s'.threads[t], g) || s'.current == g)
  {
    if a.Run? {
      RunKeepsOthers(s, a.t);
      RunMoves(s, a.t);
      RunIsEffect(s, a.t);
      hide RunThread, CanRun, Inv, WellFormed;
    }
  }

  lemma NewIsBroughtUp(s: State, a: Action, s': State, g: nat)
    requires Inv(s) && Follows(s, a, s') && |s.gens| <= g < |s'.gens|
    ensures BroughtUp(s', g)
  {
    if a.Run? {
      RunKeepsFlags(s, a.t);
    } else {
      assert s'.threads[|s.threads|] == ReloadMade(g);
    }
  }

  /** Every generation that was ever made is still being brought up by its reload, or has been the serving one. */
  lemma {:induction false} EveryReloadServes(run: seq<State>, acts: seq<Action>, n: nat, g: nat)
    requires IsRun(run, acts) && n < |run| && g < |run[n].gens|
    ensures BroughtUp(run[n], g) || HasServed(run, n, g)
  {
    if n == 0 {
      assert run[0].current == g;
    } else {
      var s, a := run[n - 1], acts[n - 1];
      RunInv(run, acts, n - 1);
      assert Follows(s, a, run[n]);
      if g < |s.gens| && !BroughtUp(s, g) {
        EveryReloadServes(run, acts, n - 1, g);
        var j :| 0 <= j <= n - 1 && run[j].current == g;
        assert HasServed(run, n, g);
      } else {
        StepBringsUp(s, a, run[n], g);
      }
    }
  }

  /** When everything is at rest, every configuration that was loaded has served, and the last one swapped in serves. */
  lemma AtRestAllHaveServed(run: seq<State>, acts: seq<Action>, g: nat)
    requires IsRun(run, acts) && AtRest(run[|acts|]) && g < |run[|acts|].gens|
    ensures HasServed(run, |acts|, g) && run[|acts|].current == LastSwapped(run, acts, |acts|)
  {
    EveryReloadServes(run, acts, |acts|, g);
    LastSwapServes(run, acts, |acts|);
    NothingBroughtUpAtRest(run[|acts|], g);
  }

  lemma NothingBroughtUpAtRest(s: State, g: nat)
    requires AtRest(s)
    ensures !BroughtUp(s, g)
  {
    assert forall t :: 0 <= t < |s.threads| ==> Over(s.threads[t]) && !BringsUp(s.threads[t], g);
  }

  /** The generation a reload retires is the one that served when it swapped. */
  lemma {:induction false} RetiresThePrevious(run: seq<State>, acts: seq<Action>, i: nat, j: nat)
    requires IsRun(run, acts) && i < j < |run| && Swaps(run[i], acts[i])
    ensures var t := acts[i].t;
            && t < |run[j].threads|
            && (run[j].threads[t] == ReloadSwapped(run[i].current)
                || (run[j].threads[t] == Finished
                    && run[i].current < |run[j].gens| && run[j].gens[run[i].current].closing))
  {
    var t, previous := acts[i].t, run[i].current;
    RunInv(run, acts, j - 1);
    assert Follows(run[j - 1], acts[j - 1], run[j]);
    if j == i + 1 {
      SwapTakesEffect(run[i], acts[i], run[j]);
    } else {
      RetiresThePrevious(run, acts, i, j - 1);
      RetireGoesOn(run[j - 1], acts[j - 1], run[j], t, previous);
    }
  }

  lemma RetireGoesOn(s: State, a: Action, s': State, t: nat, g: nat)
    requires Inv(s) && Follows(s, a, s') && t < |s.threads|
    requires s.threads[t] == ReloadSwapped(g)
             || (s.threads[t] == Finished && g < |s.gens| && s.gens[g].closing)
    ensures t < |s'.threads|
    ensures s'.threads[t] == ReloadSwapped(g)
            || (s'.threads[t] == Finished && g < |s'.gens| && s'.gens[g].closing)
  {
    StepEvolves(s, a);
    assert g < |s.gens| ==> GenEvolves(s, s', g);
    if a == Run(t) {
      RetireTakesEffect(s, t, g);
    }
  }
}
