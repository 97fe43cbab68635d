/**
 The objects of the hot-reload machinery.  Each method is one critical section, or the program's own
 sequence of critical sections run without interleaving; `View` ties it to a step of the protocol.
 */
module Generation {
  import P = GenerationProtocol

  class Generation {
    var refs: int
    var closing: bool
    var closed: bool
    var closes: nat
    var done: bool
    var registry: GenerationRegistry? // where the onClosed hook removes the generation from

    ghost function View(): P.Gen
      reads this
    {
      P.Gen(refs, closing, closed, closes, done, registry != null)
    }

    constructor ()
      ensures View() == P.NEW_GEN && registry == null
    {
      refs, closing, closed, closes, done, registry := 0, false, false, 0, false, null;
    }

    method Acquire()
      modifies `refs
      ensures View() == P.Acquired(old(View()))
    {
      refs := refs + 1;
    }

    /** The critical section of `release`, with its decision. */
    method Drop() returns (shouldClose: bool)
      modifies `refs
      ensures View() == P.Released(old(View()))
      ensures shouldClose == P.LastOut(View())
    {
      refs := refs - 1;
      shouldClose := closing && refs <= 0 && !closed;
    }

    method Release()
      modifies this, registry
      ensures var x := P.Released(old(View()));
              View() == if P.LastOut(x) then P.Claimed(x).(done := true) else x
      ensures registry == old(registry)
      ensures registry != null ==>
                registry.live
                    == if P.LastOut(P.Released(old(View()))) then old(registry.live) - {this} else old(registry.live)
    {
      var shouldClose := Drop();
      if shouldClose {
        CloseNow();
      }
    }

    /** The critical section of `markClosing`. */
    method MarkClosing()
      modifies `closing
      ensures View() == old(View()).(closing := true)
    {
      closing := true;
    }

    /** What the floor goroutine does once its sleep is over. */
    method FloorOver()
      modifies this, registry
      ensures View() == if P.FloorFinds(old(View())) then P.Claimed(old(View())).(done := true) else old(View())
      ensures registry == old(registry)
      ensures registry != null ==>
                registry.live == if P.FloorFinds(old(View())) then old(registry.live) - {this} else old(registry.live)
    {
      var shouldClose := refs <= 0 && !closed;
      if shouldClose {
        CloseNow();
      }
    }

    /** The claim at the top of `closeNow`. */
    method Claim() returns (first: bool)
      modifies `closed, `closes
      ensures first == !old(closed)
      ensures View() == P.Claimed(old(View()))
    {
      first := !closed;
      if first {
        closed := true;
        closes := closes + 1;
      }
    }

    /** `closeNow` by a caller that wins the claim, or comes when the close is over. */
    method CloseNow()
      modifies this, registry
      ensures registry == old(registry)
      ensures View() == if old(closed) then old(View()) else P.Claimed(old(View())).(done := true)
      ensures registry != null ==>
                registry.live == if old(closed) then old(registry.live) else old(registry.live) - {this}
    {
      var first := Claim();
      if first {
        done := true;
        if registry != null {
          registry.Remove(this);
        }
      }
    }
  }

  class GenerationRegistry {
    var live: set<Generation>

    constructor ()
      ensures live == {}
    {
      live := {};
    }

    method Add(g: Generation)
      modifies this, g`registry
      ensures live == old(live) + {g} && g.registry == this
    {
      g.registry := this;
      live := live + {g};
    }

    method Remove(g: Generation)
      modifies this
      ensures live == old(live) - {g}
    {
      live := live - {g};
    }

    /** `closeAll` with nothing else running: the map is walked in any order. */
    method CloseAll()
      requires forall g <- live :: g.registry == this && (g.closed ==> g.done)
      modifies this, live
      ensures live == {}
      ensures forall g <- old(live) ::
                g.View() == if old(g.closed) then old(g.View()) else P.Claimed(old(g.View())).(done := true)
      ensures forall g <- old(live) :: g.closed && g.done
    {
      ghost var all := live;
      var todo := live;
      while todo != {}
        invariant todo <= all && live <= todo
        invariant forall g <- todo :: g.registry == this && g.View() == old(g.View())
        invariant forall g <- all - todo ::
                    g.View() == if old(g.closed) then old(g.View()) else P.Claimed(old(g.View())).(done := true)
        decreases todo
      {
        var g :| g in todo;
        todo := todo - {g};
        g.CloseNow();
        Remove(g);
      }
    }
  }

  class TileHandler {
    var current: Generation

    constructor (g: Generation)
      ensures current == g
    {
      current := g;
    }

    /** The critical section at the head of `ServeHTTP`: read the pointer and take a reference. */
    method Pin() returns (g: Generation)
      modifies current`refs
      ensures g == current && g.View() == P.Acquired(old(g.View()))
    {
      g := current;
      g.Acquire();
    }

    /** `reloadEntities`: swap the pointer, then retire what it pointed to. */
    method Reload(g: Generation)
      modifies `current, current`closing
      ensures current == g
      ensures old(current).View() == old(current.View()).(closing := true)
    {
      var outgoing := current;
      current := g;
      outgoing.MarkClosing();
    }
  }
}
