/** The pixel transformation: threads that share the pixels of an image, under any schedule. */
module Transform {
  import opened RowMajor

  /** The pixels of one thread: from the first up to but not including the second. */
  function Chunk(t: nat, count: nat, threads: nat): (r: (nat, nat))
    requires t < threads
    ensures r.0 <= r.1 <= count
    ensures r.0 == t * (count / threads) && r.1 == if t == threads - 1 then count else (t + 1) * (count / threads)
  {
    var per := count / threads;
    var start := t * per;
    ChunksFit(t, count, threads);
    (start, if t == threads - 1 then count else if start + per < count then start + per else count)
  }

  lemma ChunksFit(t: nat, count: nat, threads: nat)
    requires t < threads
    ensures 0 <= t * (count / threads) <= (t + 1) * (count / threads) <= count
  {
    var per := count / threads;
    assert count == threads * per + count % threads;
    NotNegative(threads - (t + 1), per);
    NotNegative(t, per);
    assert (threads - (t + 1)) * per == threads * per - (t + 1) * per;
  }

  /** The thread whose chunk a pixel is in. */
  function Owner(i: nat, count: nat, threads: nat): (t: nat)
    requires threads > 0
    ensures t < threads
  {
    var per := count / threads;
    if per > 0 && i / per < threads then i / per else threads - 1
  }

  /** The chunks cover every pixel, and no two of them share one. */
  lemma OwnerExactly(i: nat, count: nat, threads: nat, t: nat)
    requires i < count && t < threads
    ensures Chunk(t, count, threads).0 <= i < Chunk(t, count, threads).1 <==> t == Owner(i, count, threads)
  {
    var per := count / threads;
    ChunksFit(t, count, threads);
    if per > 0 {
      QuotientIs(i, per, t);
      QuotientIs(i, per, threads - 1);
      LastChunk(i, per, threads);
    } else {
      assert t * per == 0 && (t + 1) * per == 0;
    }
  }

  lemma QuotientIs(i: nat, per: nat, t: nat)
    requires per > 0
    ensures t * per <= i < (t + 1) * per <==> i / per == t
  {
    var q := i / per;
    assert i == per * q + i % per;
    Multiples(per, q - t);
    assert per * (q - t) == per * q - t * per;
    assert (t + 1) * per == t * per + per;
  }

  lemma LastChunk(i: nat, per: nat, threads: nat)
    requires per > 0 && threads > 0
    ensures (threads - 1) * per <= i <==> i / per >= threads - 1
  {
    var q := i / per;
    assert i == per * q + i % per;
    Multiples(per, q - (threads - 1));
    assert per * (q - (threads - 1)) == per * q - (threads - 1) * per;
  }

  /** The chunks follow one another from the first pixel to the last. */
  lemma ChunksAreContiguous(t: nat, count: nat, threads: nat)
    requires t < threads
    ensures t == 0 ==> Chunk(t, count, threads).0 == 0
    ensures t > 0 ==> Chunk(t, count, threads).0 == Chunk(t - 1, count, threads).1
    ensures t == threads - 1 ==> Chunk(t, count, threads).1 == count
  {
  }

  method SplitPixels(count: nat, threads: nat) returns (split: seq<(nat, nat)>)
    requires threads > 0
    ensures |split| == threads && forall t :: 0 <= t < threads ==> split[t] == Chunk(t, count, threads)
  {
    var perThread := count / threads;
    split := [];
    for t := 0 to threads
      invariant |split| == t && forall k :: 0 <= k < t ==> split[k] == Chunk(k, count, threads)
    {
      ChunksFit(t, count, threads);
      var start := t * perThread;
      var end := if t == threads - 1 then count else if start + perThread < count then start + perThread else count;
      split := split + [(start, end)];
    }
  }

  // ---------- The threads ----------

  /** The pixels that are still to be done. */
  function Left(pos: seq<nat>, split: seq<(nat, nat)>): int
    requires |pos| == |split|
  {
    if pos == [] then 0
    else
      var n := |pos| - 1;
      Left(pos[..n], split[..n]) + split[n].1 as int - pos[n] as int
  }

  lemma {:induction false} LeftFalls(pos: seq<nat>, split: seq<(nat, nat)>, t: nat)
    requires |pos| == |split| && t < |pos|
    ensures Left(pos[t := pos[t] + 1], split) == Left(pos, split) - 1
  {
    var n := |pos| - 1;
    var after := pos[t := pos[t] + 1];
    if t < n {
      LeftFalls(pos[..n], split[..n], t);
      assert after[..n] == pos[..n][t := pos[t] + 1];
    } else {
      assert after[..n] == pos[..n];
    }
  }

  lemma {:induction false} LeftIsNatural(pos: seq<nat>, split: seq<(nat, nat)>)
    requires |pos| == |split| && forall t :: 0 <= t < |pos| ==> pos[t] <= split[t].1
    ensures Left(pos, split) >= 0
  {
    if pos != [] {
      LeftIsNatural(pos[..|pos| - 1], split[..|pos| - 1]);
    }
  }

  /** The position of each thread is in its chunk. */
  predicate InChunks(pos: seq<nat>, split: seq<(nat, nat)>) {
    |pos| == |split| && forall t :: 0 <= t < |pos| ==> split[t].0 <= pos[t] <= split[t].1
  }

  lemma StepInChunks(pos: seq<nat>, split: seq<(nat, nat)>, t: nat)
    requires InChunks(pos, split) && t < |pos| && pos[t] < split[t].1
    ensures InChunks(pos[t := pos[t] + 1], split)
    ensures 0 <= Left(pos[t := pos[t] + 1], split) < Left(pos, split)
  {
    LeftFalls(pos, split, t);
    LeftIsNatural(pos[t := pos[t] + 1], split);
  }

  /** The number of a pixel. */
  function Number(x: nat, y: nat, w: nat): nat {
    NotNegative(y, w);
    y * w + x
  }

  predicate Done(x: nat, y: nat, w: nat, count: nat, pos: seq<nat>)
    requires |pos| > 0
  {
    Number(x, y, w) < pos[Owner(Number(x, y, w), count, |pos|)]
  }

  lemma PixelInImage(i: nat, w: nat, h: nat)
    requires i < w * h
    ensures w > 0 && i % w < w && i / w < h && Number(i % w, i / w, w) == i
  {
    if w > 0 {
      RowInGrid(i, w, h);
    }
  }

  lemma NumberInImage(x: nat, y: nat, w: nat, h: nat)
    requires x < w && y < h
    ensures Number(x, y, w) < w * h && Number(x, y, w) % w == x && Number(x, y, w) / w == y
  {
    SlotInGrid(y, x, w, h);
    SlotParts(y, x, w);
  }

  /** One step of a thread finishes the pixel it stands at and no other. */
  lemma StepFinishesOne(x: nat, y: nat, w: nat, h: nat, count: nat, pos: seq<nat>, t: nat)
    requires x < w && y < h && t < |pos| && count == w * h
    requires Chunk(t, count, |pos|).0 <= pos[t] < Chunk(t, count, |pos|).1
    ensures Done(x, y, w, count, pos[t := pos[t] + 1]) <==>
            Done(x, y, w, count, pos) || (x == pos[t] % w && y == pos[t] / w)
    ensures x == pos[t] % w && y == pos[t] / w ==> !Done(x, y, w, count, pos)
  {
    var i := Number(x, y, w);
    NumberInImage(x, y, w, h);
    PixelInImage(pos[t], w, h);
    OwnerExactly(i, count, |pos|, t);
    OwnerExactly(pos[t], count, |pos|, t);
  }

  /** At the end every pixel is done, at the start none is. */
  lemma AllOrNothing(x: nat, y: nat, w: nat, h: nat, count: nat, pos: seq<nat>)
    requires x < w && y < h && |pos| > 0 && count == w * h
    ensures (forall t :: 0 <= t < |pos| ==> pos[t] == Chunk(t, count, |pos|).0) ==> !Done(x, y, w, count, pos)
    ensures (forall t :: 0 <= t < |pos| ==> pos[t] == Chunk(t, count, |pos|).1) ==> Done(x, y, w, count, pos)
  {
    NumberInImage(x, y, w, h);
    var i := Number(x, y, w);
    OwnerExactly(i, count, |pos|, Owner(i, count, |pos|));
  }

  lemma NoneDone(w: nat, h: nat, count: nat, pos: seq<nat>)
    requires |pos| > 0 && count == w * h && forall t :: 0 <= t < |pos| ==> pos[t] == Chunk(t, count, |pos|).0
    ensures forall x: nat, y: nat :: x < w && y < h ==> !Done(x, y, w, count, pos)
  {
    forall x: nat, y: nat | x < w && y < h ensures !Done(x, y, w, count, pos) {
      AllOrNothing(x, y, w, h, count, pos);
    }
  }

  lemma AllDone(w: nat, h: nat, count: nat, pos: seq<nat>)
    requires |pos| > 0 && count == w * h && forall t :: 0 <= t < |pos| ==> pos[t] == Chunk(t, count, |pos|).1
    ensures forall x: nat, y: nat :: x < w && y < h ==> Done(x, y, w, count, pos)
  {
    forall x: nat, y: nat | x < w && y < h ensures Done(x, y, w, count, pos) {
      AllOrNothing(x, y, w, h, count, pos);
    }
  }

  /** The image that is made, how often each of its pixels has been set, and what it is to become. */
  class Canvas<Color(0)> {
    const w: nat
    const h: nat
    const image: array2<Color>
    const want: (int, int) -> Color
    ghost var writes: map<(nat, nat), nat>

    constructor (w: nat, h: nat, want: (int, int) -> Color)
      ensures this.w == w && this.h == h && this.want == want && fresh(image)
      ensures image.Length0 == w && image.Length1 == h
      ensures forall x: nat, y: nat :: x < w && y < h ==> (x, y) in writes && writes[(x, y)] == 0
    {
      this.w, this.h, this.want := w, h, want;
      image := new Color[w, h];
      writes := map x: nat, y: nat | 0 <= x < w && 0 <= y < h :: (x, y) := 0;
    }

    /** The pixels that are done have been set, once and to what they are to become; the others have not. */
    ghost predicate AsFarAs(count: nat, pos: seq<nat>)
      requires |pos| > 0
      reads this, image
    {
      && image.Length0 == w && image.Length1 == h
      && forall x: nat, y: nat :: x < w && y < h ==>
           && (x, y) in writes && writes[(x, y)] == (if Done(x, y, w, count, pos) then 1 else 0)
           && (Done(x, y, w, count, pos) ==> image[x, y] == want(x, y))
    }

    /** Thread `t` sets the pixel it stands at. */
    method Step(count: nat, pos: seq<nat>, t: nat)
      requires t < |pos| && count == w * h && AsFarAs(count, pos)
      requires Chunk(t, count, |pos|).0 <= pos[t] < Chunk(t, count, |pos|).1
      modifies this`writes, image
      ensures AsFarAs(count, pos[t := pos[t] + 1])
    {
      hide Done, Chunk;
      PixelInImage(pos[t], w, h);
      var dx, dy := pos[t] % w, pos[t] / w;
      image[dx, dy] := want(dx, dy);
      writes := writes[(dx, dy) := writes[(dx, dy)] + 1];
      forall x: nat, y: nat | x < w && y < h
        ensures
          && (x, y) in writes && writes[(x, y)] == (if Done(x, y, w, count, pos[t := pos[t] + 1]) then 1 else 0)
          && (Done(x, y, w, count, pos[t := pos[t] + 1]) ==> image[x, y] == want(x, y))
      {
        StepFinishesOne(x, y, w, h, count, pos, t);
      }
    }

    /** The threads take their steps in any order until none has a pixel left. */
    method Run(threads: nat)
      requires threads > 0 && image.Length0 == w && image.Length1 == h
      requires forall x: nat, y: nat :: x < w && y < h ==> (x, y) in writes && writes[(x, y)] == 0
      modifies this`writes, image
      ensures forall x: nat, y: nat :: x < w && y < h ==>
                (x, y) in writes && writes[(x, y)] == 1 && image[x, y] == want(x, y)
    {
      hide Done, Chunk, Left, AsFarAs;
      var count := w * h;
      var split := SplitPixels(count, threads);
      var pos: seq<nat> := seq(threads, (t: nat) requires t < threads => split[t].0);
      Begin(count, pos);
      while exists t :: 0 <= t < threads && pos[t] < split[t].1
        invariant InChunks(pos, split) && |pos| == threads && AsFarAs(count, pos)
        decreases Left(pos, split)
      {
        var t :| 0 <= t < threads && pos[t] < split[t].1;
        StepInChunks(pos, split, t);
        Step(count, pos, t);
        pos := pos[t := pos[t] + 1];
      }
      End(count, pos);
    }

    lemma Begin(count: nat, pos: seq<nat>)
      requires image.Length0 == w && image.Length1 == h && count == w * h
      requires forall x: nat, y: nat :: x < w && y < h ==> (x, y) in writes && writes[(x, y)] == 0
      requires |pos| > 0 && forall t :: 0 <= t < |pos| ==> pos[t] == Chunk(t, count, |pos|).0
      ensures AsFarAs(count, pos)
    {
      hide Done, Chunk;
      NoneDone(w, h, count, pos);
    }

    lemma End(count: nat, pos: seq<nat>)
      requires |pos| > 0 && count == w * h && AsFarAs(count, pos)
      requires forall t :: 0 <= t < |pos| ==> pos[t] == Chunk(t, count, |pos|).1
      requires image.Length0 == w && image.Length1 == h
      ensures forall x: nat, y: nat :: x < w && y < h ==>
                (x, y) in writes && writes[(x, y)] == 1 && image[x, y] == want(x, y)
    {
      hide Done, Chunk;
      AllDone(w, h, count, pos);
    }
  }

  /** The image `source` with `f` applied to every pixel. */
  method GenerateTile<Color(0)>(source: (int, int) -> Color, f: Color -> Color,
                                minX: int, minY: int, w: nat, h: nat, threads: nat)
    returns (image: array2<Color>)
    requires threads > 0
    ensures fresh(image) && image.Length0 == w && image.Length1 == h
    ensures forall x: nat, y: nat :: x < w && y < h ==> image[x, y] == f(source(x + minX, y + minY))
  {
    var canvas := new Canvas(w, h, (x, y) => f(source(x + minX, y + minY)));
    canvas.Run(threads);
    image := canvas.image;
  }
}
