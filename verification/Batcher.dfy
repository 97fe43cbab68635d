/**
 One batcher worker as the program runs it: a buffer that is filled, copied, handed over and reused.
 The worker's own steps are those of the protocol; here they work in place on an array.
 */
module Batcher {
  import opened BatcherProtocol
  import opened BatcherTheorems

  /** What the select of the main loop delivers: an event or a tick, and the clock when that is over. */
  datatype Input = Arrives(event: Event, now: int, later: int) | TickAt(now: int, later: int)

  function AfterFlush(w: Worker, later: int): Worker {
    if w.flushing then EndFlush(w, later) else w
  }

  function Handle(w: Worker, x: Input, maxSize: nat, maxAge: nat): Worker {
    match x
    case Arrives(e, now, later) => AfterFlush(TakeEvent(w, e, now, maxSize), later)
    case TickAt(now, later) => AfterFlush(TakeTick(w, now, maxAge), later)
  }

  function HandleAll(w: Worker, xs: seq<Input>, maxSize: nat, maxAge: nat): Worker {
    if xs == [] then w else Handle(HandleAll(w, xs[..|xs| - 1], maxSize, maxAge), xs[|xs| - 1], maxSize, maxAge)
  }

  function Arrivals(xs: seq<Input>): seq<Event> {
    if xs == [] then []
    else Arrivals(xs[..|xs| - 1]) + if xs[|xs| - 1].Arrives? then [xs[|xs| - 1].event] else []
  }

  /** The drain: the events still queued, then the final flush. */
  function DrainAll(w: Worker, es: seq<Event>, maxSize: nat): Worker {
    if es == [] then w.(phase := Draining)
    else AfterFlush(TakeEvent(DrainAll(w, es[..|es| - 1], maxSize), es[|es| - 1], 0, maxSize), 0)
  }

  /** A whole life of a worker between flushes: what it must keep, with the clock left out. */
  predicate Shaped(w: Worker, maxSize: nat) {
    && !w.flushing && |w.buf| < maxSize && |w.stamps| == |w.buf|
    && forall i :: 0 <= i < |w.out| ==> 1 <= |w.out[i]| <= maxSize
  }

  lemma TakeShaped(w: Worker, e: Event, now: int, later: int, maxSize: nat)
    requires Shaped(w, maxSize) && w.phase in {Running, Draining}
    ensures var w' := AfterFlush(TakeEvent(w, e, now, maxSize), later);
            Shaped(w', maxSize) && Kept(w') == Kept(w) + [e] && w'.phase == w.phase
  {
    var w' := AfterFlush(TakeEvent(w, e, now, maxSize), later);
    if |w.buf| + 1 >= maxSize {
      FlatAppend(w.out, w.buf + [e]);
      assert Kept(w') == Flat(w.out) + (w.buf + [e]);
    } else {
      assert Kept(w') == Flat(w.out) + (w.buf + [e]);
    }
  }

  lemma TickShaped(w: Worker, now: int, later: int, maxSize: nat, maxAge: nat)
    requires Shaped(w, maxSize)
    ensures var w' := AfterFlush(TakeTick(w, now, maxAge), later);
            Shaped(w', maxSize) && Kept(w') == Kept(w) && (w.phase.Running? ==> w'.phase.Running?)
  {
    FlatAppend(w.out, w.buf);
  }

  lemma {:induction false} HandleAllShaped(xs: seq<Input>, maxSize: nat, maxAge: nat)
    requires maxSize > 0
    ensures var w := HandleAll(NEW_WORKER, xs, maxSize, maxAge);
            Shaped(w, maxSize) && w.phase.Running? && Kept(w) == Arrivals(xs)
  {
    if xs != [] {
      var w, x := HandleAll(NEW_WORKER, xs[..|xs| - 1], maxSize, maxAge), xs[|xs| - 1];
      HandleAllShaped(xs[..|xs| - 1], maxSize, maxAge);
      hide AfterFlush, TakeEvent, TakeTick, Kept, Shaped;
      if x.Arrives? {
        TakeShaped(w, x.event, x.now, x.later, maxSize);
      } else {
        TickShaped(w, x.now, x.later, maxSize, maxAge);
      }
    } else {
      assert NEW_WORKER.out == [];
    }
  }

  lemma {:induction false} DrainAllShaped(w: Worker, es: seq<Event>, maxSize: nat)
    requires Shaped(w, maxSize) && w.phase.Running?
    ensures var d := DrainAll(w, es, maxSize);
            Shaped(d, maxSize) && d.phase.Draining? && Kept(d) == Kept(w) + es
  {
    if es != [] {
      DrainAllShaped(w, es[..|es| - 1], maxSize);
      TakeShaped(DrainAll(w, es[..|es| - 1], maxSize), es[|es| - 1], 0, 0, maxSize);
    }
  }

  /** What a worker that ran to its end has handed over. */
  function Life(xs: seq<Input>, rest: seq<Event>, maxSize: nat, maxAge: nat): Worker {
    AfterFlush(FindEmpty(DrainAll(HandleAll(NEW_WORKER, xs, maxSize, maxAge), rest, maxSize)), 0)
  }

  /** The final flush hands over what is left. */
  lemma LastFlushHandsOver(d: Worker, maxSize: nat)
    requires Shaped(d, maxSize) && maxSize > 0
    ensures var out := AfterFlush(FindEmpty(d), 0).out;
            Flat(out) == Kept(d) && forall i :: 0 <= i < |out| ==> 1 <= |out[i]| <= maxSize
  {
    FlatAppend(d.out, d.buf);
  }

  /** It is every event it was given, in order, in batches of the right size. */
  lemma LifeHandsOverAll(xs: seq<Input>, rest: seq<Event>, maxSize: nat, maxAge: nat)
    requires maxSize > 0
    ensures var out := Life(xs, rest, maxSize, maxAge).out;
            Flat(out) == Arrivals(xs) + rest && forall i :: 0 <= i < |out| ==> 1 <= |out[i]| <= maxSize
  {
    var w := HandleAll(NEW_WORKER, xs, maxSize, maxAge);
    HandleAllShaped(xs, maxSize, maxAge);
    DrainAllShaped(w, rest, maxSize);
    var d := DrainAll(w, rest, maxSize);
    assert Life(xs, rest, maxSize, maxAge) == AfterFlush(FindEmpty(d), 0);
    hide *;
    LastFlushHandsOver(d, maxSize);
  }

  // ---------- In place ----------

  ghost function Contents(bs: seq<array<Event>>): seq<seq<Event>>
    reads bs
  {
    seq(|bs|, i requires 0 <= i < |bs| reads bs => bs[i][..])
  }

  class BatchWorker {
    const maxSize: nat
    const maxAge: nat
    const buf: array<Event>
    var len: nat
    var oldest: int
    var handed: seq<array<Event>> // the batches the flush function was given
    ghost var stamps: seq<int>
    var phase: Phase // which of its loops the worker is in

    /** No batch handed over shares memory with the buffer. */
    ghost predicate Valid()
      reads this
    {
      && 0 < maxSize && buf.Length == maxSize && len < maxSize
      && buf !in handed
    }

    ghost function View(): Worker
      requires len <= buf.Length
      reads this, buf, handed
    {
      Worker(phase, buf[..len], stamps, oldest, false, Contents(handed))
    }

    constructor (maxSize: nat, maxAge: nat)
      requires maxSize > 0
      ensures Valid() && View() == NEW_WORKER && fresh(buf) && handed == []
      ensures this.maxSize == maxSize && this.maxAge == maxAge
    {
      this.maxSize, this.maxAge := maxSize, maxAge;
      buf := new Event[maxSize](_ => Event("", 0, 0, 0, ""));
      len, oldest, handed, stamps, phase := 0, 0, [], [], Running;
    }

    /** Hands over a copy of the buffered events, so that the buffer can be reused. */
    method DoFlush()
      requires len <= buf.Length && buf !in handed
      modifies `handed
      ensures len == 0 ==> handed == old(handed)
      ensures len > 0 ==> |handed| == |old(handed)| + 1 && handed[..|old(handed)|] == old(handed)
      ensures len > 0 ==> fresh(handed[|old(handed)|]) && handed[|old(handed)|][..] == buf[..len]
    {
      if len == 0 {
        return;
      }
      var batch := new Event[len](_ => Event("", 0, 0, 0, ""));
      for i := 0 to len
        invariant handed == old(handed) && batch[..i] == buf[..i]
      {
        batch[i] := buf[i];
      }
      assert batch[..] == buf[..len];
      handed := handed + [batch];
    }

    /** Flushes and empties the buffer. */
    method Flush(later: int)
      requires 0 < maxSize && buf.Length == maxSize && 0 < len <= maxSize && buf !in handed
      modifies this
      ensures Valid() && View() == EndFlush(StartFlush(old(View())), later)
      ensures fresh(set b <- handed | b !in old(handed)) && old(handed) <= handed
    {
      hide Flat, Kept;
      DoFlush();
      len := 0;
      stamps := [];
      if phase == Running {
        oldest := later;
      }
      if phase == Leaving {
        phase := Exited;
      }
      assert Contents(handed) == old(Contents(handed)) + [old(buf[..len])];
    }

    method Append(e: Event, now: int, later: int)
      requires Valid()
      modifies this, buf
      ensures Valid() && View() == AfterFlush(TakeEvent(old(View()), e, now, maxSize), later)
      ensures fresh(set b <- handed | b !in old(handed)) && old(handed) <= handed
    {
      if len == 0 && phase == Running {
        oldest := now;
      }
      buf[len] := e;
      len := len + 1;
      stamps := stamps + [now];
      assert View() == Received(old(View()), e, now);
      if len >= maxSize {
        Flush(later);
      }
    }

    method HandleTick(now: int, later: int)
      requires Valid()
      modifies this
      ensures Valid() && View() == AfterFlush(TakeTick(old(View()), now, maxAge), later)
      ensures fresh(set b <- handed | b !in old(handed)) && old(handed) <= handed
    {
      if len > 0 && now - oldest >= maxAge {
        Flush(later);
      }
    }

    /**
     The worker from start to exit: `inputs` is what its select delivers until the done channel wins,
     `rest` what the drain still finds in the queue.
    */
    method Work(inputs: seq<Input>, rest: seq<Event>)
      requires Valid() && View() == NEW_WORKER
      modifies this, buf
      ensures Valid() && View() == Life(inputs, rest, maxSize, maxAge)
      ensures Flat(Contents(handed)) == Arrivals(inputs) + rest
    {
      hide Flat, Arrivals, TakeEvent, TakeTick;
      for i := 0 to |inputs|
        invariant Valid() && View() == HandleAll(NEW_WORKER, inputs[..i], maxSize, maxAge)
        invariant fresh(set b <- handed | b !in old(handed))
      {
        assert inputs[..i + 1][..i] == inputs[..i];
        match inputs[i]
        case Arrives(e, now, later) => Append(e, now, later);
        case TickAt(now, later) => HandleTick(now, later);
      }
      assert inputs[..|inputs|] == inputs;
      phase := Draining;
      for i := 0 to |rest|
        invariant Valid() && View() == DrainAll(HandleAll(NEW_WORKER, inputs, maxSize, maxAge), rest[..i], maxSize)
        invariant fresh(set b <- handed | b !in old(handed))
      {
        assert rest[..i + 1][..i] == rest[..i];
        Append(rest[i], 0, 0);
      }
      assert rest[..|rest|] == rest;
      DrainAllShapedFrom(inputs, rest);
      if len > 0 {
        phase := Leaving;
        Flush(0);
      } else {
        phase := Exited;
      }
      LifeHandsOverAll(inputs, rest, maxSize, maxAge);
    }

    lemma DrainAllShapedFrom(inputs: seq<Input>, rest: seq<Event>)
      requires maxSize > 0
      ensures DrainAll(HandleAll(NEW_WORKER, inputs, maxSize, maxAge), rest, maxSize).phase.Draining?
    {
      HandleAllShaped(inputs, maxSize, maxAge);
      DrainAllShaped(HandleAll(NEW_WORKER, inputs, maxSize, maxAge), rest, maxSize);
    }
  }
}
