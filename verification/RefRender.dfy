/** Rendering through references: it ends for every layer table, after ten nested hops at the most. */
module RefRender {
  import opened Strings
  import opened LayerGraph
  import opened LayerValidation
  import opened PatternCaptures
  import opened Wrappers
  import Pattern

  /**
   A provider: one that fetches, a reference to a layer, or one that combines others (blend, fallback and the
   like).
  */
  datatype Provider = Leaf | Ref(layer: string) | Nest(children: seq<Provider>)

  /** `valid` is the check of the captured parameters. */
  datatype Layer = Layer(id: string, pattern: seq<Pattern.Segment>, valid: map<string, string> -> bool, skipCache: bool,
                         provider: Provider)

  datatype Render = Image | NoImage | AuthError | DepthError | Failed

  const MAX_REF_DEPTH := 10

  // ---------- Finding a layer ----------

  predicate MatchesName(l: Layer, name: string) {
    var m := Pattern.Greedy(l.pattern, name, None, map[]);
    m.0 && l.valid(m.1)
  }

  /** A layer answers to the names that the shortest values rebuild, when those values are valid. */
  lemma MatchesExactly(l: Layer, name: string)
    requires Pattern.WellFormed(l.pattern)
    ensures MatchesName(l, name) <==>
            exists w: map<string, string> ::
              w.Keys == Pattern.Names(l.pattern) && Pattern.Render(l.pattern, w) == name && Shortest(l.pattern, w)
              && l.valid(w)
  {
    var m := Pattern.Greedy(l.pattern, name, None, map[]);
    if m.0 {
      Pattern.MatchIsSound(l.pattern, name);
      GreedyTakesShortest(l.pattern, name, None, map[]);
    }
    if w: map<string, string> :|
      w.Keys == Pattern.Names(l.pattern) && Pattern.Render(l.pattern, w) == name && Shortest(l.pattern, w)
      && l.valid(w)
    {
      CapturesAreShortest(l.pattern, name, w);
      Pattern.MatchIsSound(l.pattern, name);
      SameValues(m.1, w);
    }
  }

  lemma SameValues(m: map<string, string>, w: map<string, string>)
    requires m.Keys == w.Keys && forall v <- m.Keys :: Pattern.Value(m, v) == Pattern.Value(w, v)
    ensures m == w
  {
    forall v | v in m ensures m[v] == w[v] {
      assert Pattern.Value(m, v) == Pattern.Value(w, v);
    }
  }

  /** The place of the first layer from `i` on that matches, or the end. */
  function FirstMatch(layers: seq<Layer>, name: string, i: nat): (k: nat)
    requires i <= |layers|
    ensures i <= k <= |layers| && (k < |layers| ==> MatchesName(layers[k], name))
    ensures forall j :: i <= j < k ==> !MatchesName(layers[j], name)
    decreases |layers| - i
  {
    if i == |layers| || MatchesName(layers[i], name) then i else FirstMatch(layers, name, i + 1)
  }

  function FindLayer(layers: seq<Layer>, name: string): Option<Layer> {
    var k := FirstMatch(layers, name, 0);
    if k < |layers| then Some(layers[k]) else None
  }

  /** A layer without a pattern answers to its id and to nothing else. */
  lemma {:induction false} LiteralMatchesItself(id: string, name: string)
    ensures Pattern.Greedy([Pattern.Literal(id)], name, None, map[]).0 <==> name == id
  {
    var segs := [Pattern.Literal(id)];
    assert segs[1..] == [];
    var k := Index(name, id);
    if name == id {
      assert IsAt(name, id, 0);
    } else if k == 0 {
      assert name[0..|id|] == id && name == id + name[|id|..];
    }
  }

  // ---------- Hops ----------

  predicate AsksFor(p: Provider, target: string) {
    match p
    case Leaf => false
    case Ref(t) => t == target
    case Nest(children) => exists i :: 0 <= i < |children| && AsksFor(children[i], target)
  }

  /** Rendering `a` may ask for `b` through a reference. */
  predicate Hop(layers: seq<Layer>, a: string, b: string) {
    FindLayer(layers, a).Some? && AsksFor(FindLayer(layers, a).value.provider, b)
  }

  predicate IsHops(layers: seq<Layer>, p: seq<string>) {
    forall i :: 0 <= i < |p| - 1 ==> Hop(layers, p[i], p[i + 1])
  }

  /** `n` hops can be made from `name`. */
  ghost predicate CanHop(layers: seq<Layer>, name: string, n: nat) {
    exists p: seq<string> :: |p| == n + 1 && p[0] == name && IsHops(layers, p)
  }

  lemma CanHopFirst(layers: seq<Layer>, a: string, n: nat)
    requires n > 0
    ensures CanHop(layers, a, n) <==> exists b :: Hop(layers, a, b) && CanHop(layers, b, n - 1)
  {
    if p: seq<string> :| |p| == n + 1 && p[0] == a && IsHops(layers, p) {
      forall i | 0 <= i < |p[1..]| - 1 ensures Hop(layers, p[1..][i], p[1..][i + 1]) {
        assert Hop(layers, p[i + 1], p[i + 2]);
      }
      assert IsHops(layers, p[1..]);
      assert Hop(layers, p[0], p[1]) && CanHop(layers, p[1], n - 1);
    }
    if b :| Hop(layers, a, b) && CanHop(layers, b, n - 1) {
      var q: seq<string> :| |q| == n && q[0] == b && IsHops(layers, q);
      var p := [a] + q;
      forall i | 0 <= i < |p| - 1 ensures Hop(layers, p[i], p[i + 1]) {
        assert i > 0 ==> Hop(layers, q[i - 1], q[i]);
      }
      assert IsHops(layers, p);
    }
  }

  // ---------- What rendering can answer ----------

  /** `exceeded`: some reference that was followed has reported the depth error. */
  datatype Answer = Answer(out: Render, exceeded: bool)

  predicate AnyExceeded(asked: seq<Option<Answer>>) {
    exists i :: 0 <= i < |asked| && asked[i].Some? && asked[i].value.exceeded
  }

  lemma OneMoreAsked(asked: seq<Option<Answer>>, answer: Option<Answer>)
    ensures AnyExceeded(asked + [answer]) <==> AnyExceeded(asked) || (answer.Some? && answer.value.exceeded)
  {
    var all := asked + [answer];
    if i :| 0 <= i < |asked| && asked[i].Some? && asked[i].value.exceeded {
      assert all[i] == asked[i];
    }
    assert all[|asked|] == answer;
  }

  /**
   The answers of a provider at a depth.  A combining one asks any of its children and makes of their
   answers what it likes.
  */
  ghost predicate CanGenerate(layers: seq<Layer>, p: Provider, depth: nat, a: Answer)
    requires depth <= MAX_REF_DEPTH
    decreases MAX_REF_DEPTH - depth, 0, p
  {
    match p
    case Leaf => a.out != DepthError && !a.exceeded
    case Ref(t) =>
      if depth >= MAX_REF_DEPTH then a == Answer(DepthError, true) else CanRender(layers, t, depth + 1, true, a)
    case Nest(children) =>
      exists asked: seq<Option<Answer>> ::
        && a.exceeded == AnyExceeded(asked) && |asked| == |children|
        && forall i :: 0 <= i < |children| ==>
             asked[i].Some? ==> CanGenerate(layers, children[i], depth, asked[i].value)
  }

  /** The answers of a layer: its authentication may fail, and an authentication error is tried a second time. */
  ghost predicate CanRenderLayer(layers: seq<Layer>, l: Layer, depth: nat, a: Answer)
    requires depth <= MAX_REF_DEPTH
    decreases MAX_REF_DEPTH - depth, 1, Leaf
  {
    || (!l.provider.Ref? && a == Answer(Failed, false))
    || (exists first: Answer :: CanGenerate(layers, l.provider, depth, first) &&
          if first.out != AuthError then a == first
          else
            || (!l.provider.Ref? && a == Answer(Failed, first.exceeded))
            || exists second: Answer :: CanGenerate(layers, l.provider, depth, second)
                                        && a == Answer(second.out, first.exceeded || second.exceeded))
  }

  ghost predicate CanRenderNoCache(layers: seq<Layer>, name: string, depth: nat, permitted: bool, a: Answer)
    requires depth <= MAX_REF_DEPTH
    decreases MAX_REF_DEPTH - depth, 2, Leaf
  {
    var l := FindLayer(layers, name);
    if l.None? || !permitted then a == Answer(Failed, false) else CanRenderLayer(layers, l.value, depth, a)
  }

  /** The answers of the layer group: the cache may have the tile, and a missing image is an error behind it. */
  ghost predicate CanRender(layers: seq<Layer>, name: string, depth: nat, permitted: bool, a: Answer)
    requires depth <= MAX_REF_DEPTH
    decreases MAX_REF_DEPTH - depth, 3, Leaf
  {
    var l := FindLayer(layers, name);
    if l.Some? && l.value.skipCache then CanRenderNoCache(layers, name, depth, permitted, a)
    else if l.None? || !permitted then a == Answer(Failed, false)
    else
      || a == Answer(Image, false)
      || exists b: Answer :: CanRenderNoCache(layers, name, depth, permitted, b)
                             && a == Answer(if b.out == NoImage then Failed else b.out, b.exceeded)
  }

  lemma LayerReports(layers: seq<Layer>, l: Layer, depth: nat)
    requires depth <= MAX_REF_DEPTH
    ensures (exists a: Answer :: CanRenderLayer(layers, l, depth, a) && a.exceeded)
            <==> exists a: Answer :: CanGenerate(layers, l.provider, depth, a) && a.exceeded
  {
    if a: Answer :| CanGenerate(layers, l.provider, depth, a) && a.exceeded {
      assert CanRenderLayer(layers, l, depth, a);
    }
  }

  lemma NoCacheIsLayer(layers: seq<Layer>, name: string, depth: nat, a: Answer)
    requires depth <= MAX_REF_DEPTH && FindLayer(layers, name).Some?
    ensures CanRenderNoCache(layers, name, depth, true, a)
            <==> CanRenderLayer(layers, FindLayer(layers, name).value, depth, a)
  {
    hide FindLayer;
  }

  lemma {:induction false} RenderReports(layers: seq<Layer>, name: string, depth: nat)
    requires depth <= MAX_REF_DEPTH
    ensures (exists a: Answer :: CanRender(layers, name, depth, true, a) && a.exceeded)
            <==> FindLayer(layers, name).Some? &&
                 exists a: Answer ::
                   CanGenerate(layers, FindLayer(layers, name).value.provider, depth, a) && a.exceeded
  {
    var l := FindLayer(layers, name);
    if l.Some? {
      LayerReports(layers, l.value, depth);
      if a: Answer :| CanRenderLayer(layers, l.value, depth, a) && a.exceeded {
        NoCacheIsLayer(layers, name, depth, a);
        var b := if l.value.skipCache then a else Answer(if a.out == NoImage then Failed else a.out, true);
        assert CanRender(layers, name, depth, true, b);
      }
      if b: Answer :| CanRender(layers, name, depth, true, b) && b.exceeded {
        var a: Answer :| CanRenderNoCache(layers, name, depth, true, a) && a.exceeded;
        NoCacheIsLayer(layers, name, depth, a);
      }
    }
  }

  /**
   Some behaviour reports the depth error: caches may miss, a combining provider may ask any of its
   children, and a reference goes one hop deeper until the limit.
  */
  ghost predicate MayExceed(layers: seq<Layer>, p: Provider, depth: nat)
    requires depth <= MAX_REF_DEPTH
    decreases MAX_REF_DEPTH - depth, p
  {
    match p
    case Leaf => false
    case Ref(t) =>
      depth == MAX_REF_DEPTH
      || (FindLayer(layers, t).Some? && MayExceed(layers, FindLayer(layers, t).value.provider, depth + 1))
    case Nest(children) => exists i :: 0 <= i < |children| && MayExceed(layers, children[i], depth)
  }

  lemma HopsOfTarget(layers: seq<Layer>, t: string, n: nat)
    requires n > 0 && FindLayer(layers, t).Some?
    ensures CanHop(layers, t, n) <==>
            exists b :: AsksFor(FindLayer(layers, t).value.provider, b) && CanHop(layers, b, n - 1)
  {
    CanHopFirst(layers, t, n);
    var q := FindLayer(layers, t).value.provider;
    if CanHop(layers, t, n) {
      var b :| Hop(layers, t, b) && CanHop(layers, b, n - 1);
      assert AsksFor(q, b);
    }
    if b :| AsksFor(q, b) && CanHop(layers, b, n - 1) {
      assert Hop(layers, t, b);
    }
  }

  /** For every table of layers the error is possible exactly when the hops that are left, and one more, can be made. */
  lemma {:induction false} MayExceedIsHops(layers: seq<Layer>, p: Provider, depth: nat)
    requires depth <= MAX_REF_DEPTH
    ensures MayExceed(layers, p, depth) <==> exists b :: AsksFor(p, b) && CanHop(layers, b, MAX_REF_DEPTH - depth)
    decreases MAX_REF_DEPTH - depth, p
  {
    match p
    case Leaf =>
    case Ref(t) =>
      assert forall b :: AsksFor(p, b) <==> b == t;
      if depth == MAX_REF_DEPTH {
        assert IsHops(layers, [t]);
        assert CanHop(layers, t, 0);
      } else {
        CanHopFirst(layers, t, MAX_REF_DEPTH - depth);
        if FindLayer(layers, t).Some? {
          var q := FindLayer(layers, t).value.provider;
          MayExceedIsHops(layers, q, depth + 1);
          HopsOfTarget(layers, t, MAX_REF_DEPTH - depth);
        }
      }
      assert AsksFor(p, t);
    case Nest(children) =>
      forall i | 0 <= i < |children|
        ensures MayExceed(layers, children[i], depth)
                <==> exists b :: AsksFor(children[i], b) && CanHop(layers, b, MAX_REF_DEPTH - depth)
      {
        MayExceedIsHops(layers, children[i], depth);
      }
      if i :| 0 <= i < |children| && MayExceed(layers, children[i], depth) {
        var b :| AsksFor(children[i], b) && CanHop(layers, b, MAX_REF_DEPTH - depth);
        assert AsksFor(p, b);
      }
  }

  lemma {:induction false} GenerateReports(layers: seq<Layer>, p: Provider, depth: nat)
    requires depth <= MAX_REF_DEPTH
    ensures (exists a: Answer :: CanGenerate(layers, p, depth, a) && a.exceeded) <==> MayExceed(layers, p, depth)
    decreases MAX_REF_DEPTH - depth, p
  {
    match p
    case Leaf =>
    case Ref(t) =>
      if depth == MAX_REF_DEPTH {
        assert CanGenerate(layers, p, depth, Answer(DepthError, true));
      } else {
        RefReports(layers, p, depth);
        RenderReports(layers, t, depth + 1);
        if FindLayer(layers, t).Some? {
          GenerateReports(layers, FindLayer(layers, t).value.provider, depth + 1);
        }
      }
    case Nest(children) =>
      forall i | 0 <= i < |children|
        ensures (exists a: Answer :: CanGenerate(layers, children[i], depth, a) && a.exceeded)
                <==> MayExceed(layers, children[i], depth)
      {
        GenerateReports(layers, children[i], depth);
      }
      NestReports(layers, p, depth);
  }

  lemma RefReports(layers: seq<Layer>, p: Provider, depth: nat)
    requires depth < MAX_REF_DEPTH && p.Ref?
    ensures forall a: Answer :: CanGenerate(layers, p, depth, a) <==> CanRender(layers, p.layer, depth + 1, true, a)
  {
  }

  /** A combining provider can pass on the error of any one child. */
  lemma NestReports(layers: seq<Layer>, p: Provider, depth: nat)
    requires depth <= MAX_REF_DEPTH && p.Nest?
    ensures (exists a: Answer :: CanGenerate(layers, p, depth, a) && a.exceeded)
            <==> exists i :: 0 <= i < |p.children|
                             && exists a: Answer :: CanGenerate(layers, p.children[i], depth, a) && a.exceeded
  {
    var n := |p.children|;
    if a: Answer :| CanGenerate(layers, p, depth, a) && a.exceeded {
      var asked: seq<Option<Answer>> :|
        && a.exceeded == AnyExceeded(asked) && |asked| == n
        && forall i :: 0 <= i < n ==> asked[i].Some? ==> CanGenerate(layers, p.children[i], depth, asked[i].value);
      var i :| 0 <= i < |asked| && asked[i].Some? && asked[i].value.exceeded;
      assert CanGenerate(layers, p.children[i], depth, asked[i].value);
    }
    if i, a: Answer :| 0 <= i < n && CanGenerate(layers, p.children[i], depth, a) && a.exceeded {
      var asked := seq(n, j => if j == i then Some(a) else None);
      assert asked[i] == Some(a);
      assert AnyExceeded(asked);
      assert CanGenerate(layers, p, depth, Answer(Image, true));
    }
  }

  /**
   The depth error, exactly.  For every table of layers, with caches, second attempts and combining providers
   as they are, rendering can meet the error if and only if one hop more than are left can be made.
  */
  lemma ErrorExactlyWhenHops(layers: seq<Layer>, name: string, depth: nat)
    requires depth <= 10
    ensures (exists a: Answer :: CanRender(layers, name, depth, true, a) && a.exceeded)
            <==> CanHop(layers, name, 11 - depth)
  {
    RenderReports(layers, name, depth);
    var l := FindLayer(layers, name);
    if l.Some? {
      GenerateReports(layers, l.value.provider, depth);
      MayExceedIsHops(layers, l.value.provider, depth);
      HopsOfTarget(layers, name, MAX_REF_DEPTH + 1 - depth);
    } else {
      CanHopFirst(layers, name, MAX_REF_DEPTH + 1 - depth);
    }
  }

  // ---------- The program ----------

  /** No cache and no combining provider: what is rendered does not depend on anything else. */
  predicate Bare(layers: seq<Layer>) {
    forall i :: 0 <= i < |layers| ==> layers[i].skipCache && !layers[i].provider.Nest?
  }

  class LayerGroup {
    const layers: seq<Layer>

    constructor (layers: seq<Layer>)
      ensures this.layers == layers
    {
      this.layers := layers;
    }

    method Find(name: string) returns (r: Option<Layer>)
      ensures r == FindLayer(layers, name)
      ensures r.None? <==> forall k :: 0 <= k < |layers| ==> !MatchesName(layers[k], name)
      ensures r.Some? ==> exists k :: 0 <= k < |layers| && r.value == layers[k] && MatchesName(layers[k], name)
                                      && forall j :: 0 <= j < k ==> !MatchesName(layers[j], name)
    {
      for i := 0 to |layers|
        invariant FirstMatch(layers, name, i) == FirstMatch(layers, name, 0)
      {
        var doesMatch, matches := Pattern.Match(layers[i].pattern, name);
        if doesMatch && layers[i].valid(matches) {
          return Some(layers[i]);
        }
      }
      return None;
    }

    /**
     A tile of the layer that `name` selects, for a request that has made `depth` hops; `permitted` is the
     outcome of the permission check.  `exceeded` says that some reference has reported the depth error, and
     `deepest` how many hops any part of the rendering has made.
    */
    method RenderTile(name: string, depth: nat, permitted: bool) returns (out: Render, exceeded: bool, deepest: nat)
      requires depth <= 10
      ensures depth <= deepest <= 10
      ensures FindLayer(layers, name).None? || !permitted ==> out == Failed && !exceeded
      ensures out == NoImage ==> FindLayer(layers, name).Some? && FindLayer(layers, name).value.skipCache
      ensures CanRender(layers, name, depth, permitted, Answer(out, exceeded))
      ensures exceeded ==> CanHop(layers, name, 11 - depth)
      ensures Bare(layers) && permitted ==>
                (out == DepthError <==> exceeded) && (exceeded <==> CanHop(layers, name, 11 - depth))
      decreases MAX_REF_DEPTH - depth, 3, Leaf
    {
      var l := Find(name);
      if l.None? {
        CanHopFirst(layers, name, MAX_REF_DEPTH + 1 - depth);
        return Failed, false, depth;
      }
      if l.value.skipCache {
        out, exceeded, deepest := RenderTileNoCache(name, depth, permitted);
        return;
      }
      if !permitted {
        return Failed, false, depth;
      }
      if * {
        return Image, false, depth;
      }
      out, exceeded, deepest := RenderTileNoCache(name, depth, permitted);
      if out == NoImage {
        out := Failed;
      }
    }

    method RenderTileNoCache(name: string, depth: nat, permitted: bool)
      returns (out: Render, exceeded: bool, deepest: nat)
      requires depth <= MAX_REF_DEPTH
      ensures depth <= deepest <= 10
      ensures FindLayer(layers, name).None? || !permitted ==> out == Failed && !exceeded
      ensures CanRenderNoCache(layers, name, depth, permitted, Answer(out, exceeded))
      ensures exceeded ==> CanHop(layers, name, MAX_REF_DEPTH + 1 - depth)
      ensures Bare(layers) && permitted ==>
                (out == DepthError <==> exceeded) && (exceeded <==> CanHop(layers, name, MAX_REF_DEPTH + 1 - depth))
      decreases MAX_REF_DEPTH - depth, 2, Leaf
    {
      CanHopFirst(layers, name, MAX_REF_DEPTH + 1 - depth);
      var l := Find(name);
      if l.None? || !permitted {
        return Failed, false, depth;
      }
      out, exceeded, deepest := RenderLayer(l.value, depth);
      if exceeded {
        ghost var b :| AsksFor(l.value.provider, b) && CanHop(layers, b, MAX_REF_DEPTH - depth);
        assert Hop(layers, name, b);
      }
    }

    /** Authenticates the provider where it must, and tries a second time when the provider asks for it. */
    method RenderLayer(l: Layer, depth: nat) returns (out: Render, exceeded: bool, deepest: nat)
      requires depth <= MAX_REF_DEPTH
      ensures depth <= deepest <= 10
      ensures CanRenderLayer(layers, l, depth, Answer(out, exceeded))
      ensures exceeded ==> Beyond(l.provider, depth)
      ensures Bare(layers) && !l.provider.Nest?
              ==> (out == DepthError <==> exceeded) && (exceeded <==> Beyond(l.provider, depth))
      decreases MAX_REF_DEPTH - depth, 1, Leaf
    {
      var refused: bool := *;
      if refused && !l.provider.Ref? {
        return Failed, false, depth;
      }
      out, exceeded, deepest := GenerateTile(l.provider, depth);
      ghost var first := Answer(out, exceeded);
      assert CanGenerate(layers, l.provider, depth, first);
      if out == AuthError {
        refused := *;
        if refused && !l.provider.Ref? {
          return Failed, exceeded, deepest;
        }
        var again, deeper;
        out, again, deeper := GenerateTile(l.provider, depth);
        ghost var second := Answer(out, again);
        assert CanGenerate(layers, l.provider, depth, second);
        exceeded := exceeded || again;
        deepest := if deeper > deepest then deeper else deepest;
      }
    }

    /** Some reference in `p`, followed at `depth`, leads further than the limit. */
    ghost predicate Beyond(p: Provider, depth: nat)
      requires depth <= MAX_REF_DEPTH
    {
      exists b :: AsksFor(p, b) && CanHop(layers, b, MAX_REF_DEPTH - depth)
    }

    /** Which children a combining provider asks, and what it makes of their tiles, is left open. */
    method GenerateTile(p: Provider, depth: nat) returns (out: Render, exceeded: bool, deepest: nat)
      requires depth <= MAX_REF_DEPTH
      ensures depth <= deepest <= 10
      ensures CanGenerate(layers, p, depth, Answer(out, exceeded))
      ensures exceeded ==> Beyond(p, depth)
      ensures Bare(layers) && !p.Nest? ==> (out == DepthError <==> exceeded) && (exceeded <==> Beyond(p, depth))
      decreases MAX_REF_DEPTH - depth, 0, p
    {
      exceeded, deepest := false, depth;
      match p {
        case Leaf =>
          out :| out != DepthError;
        case Ref(target) =>
          if depth >= MAX_REF_DEPTH {
            assert IsHops(layers, [target]);
            assert AsksFor(p, target) && CanHop(layers, target, 0);
            return DepthError, true, depth;
          }
          out, exceeded, deepest := RenderTile(target, depth + 1, true);
          if exceeded {
            assert AsksFor(p, target);
          }
        case Nest(children) =>
          ghost var asked: seq<Option<Answer>> := [];
          for i := 0 to |children|
            invariant depth <= deepest <= MAX_REF_DEPTH
            invariant exceeded ==> Beyond(p, depth)
            invariant |asked| == i && exceeded == AnyExceeded(asked)
            invariant forall j :: 0 <= j < i ==>
                        asked[j].Some? ==> CanGenerate(layers, children[j], depth, asked[j].value)
          {
            ghost var before, answer: Option<Answer> := asked, None;
            if * {
              var child, deeper;
              out, child, deeper := GenerateTile(children[i], depth);
              if child {
                ghost var b :| AsksFor(children[i], b) && CanHop(layers, b, MAX_REF_DEPTH - depth);
                assert AsksFor(p, b);
              }
              answer := Some(Answer(out, child));
              exceeded := exceeded || child;
              deepest := if deeper > deepest then deeper else deepest;
            }
            asked := asked + [answer];
            OneMoreAsked(before, answer);
          }
          out := *;
      }
    }
  }

  // ---------- Configurations that were checked ----------

  /** The segments a layer is matched by: its pattern where it has one of its own, and its id otherwise. */
  function SegmentsOf(c: LayerConfig): seq<Pattern.Segment> {
    if c.pattern != "" && c.pattern != c.id then Pattern.ParsePattern(c.pattern).0 else [Pattern.Literal(c.id)]
  }

  /** The start-up check sees the layer by its id exactly when the layer, once built, answers to its id alone. */
  lemma MatchedByIdMeans(c: LayerConfig, name: string)
    requires c.pattern == "" || c.pattern == c.id || Pattern.ParsePattern(c.pattern).1 == []
    ensures MatchedById(c) ==> (Pattern.Greedy(SegmentsOf(c), name, None, map[]).0 <==> name == c.id)
    ensures !MatchedById(c) ==> c.pattern != "" && c.pattern != c.id && Pattern.Print(SegmentsOf(c)) == c.pattern
  {
    LiteralMatchesItself(c.id, name);
    if !MatchedById(c) {
      Pattern.ParseThenPrint(c.pattern);
    }
  }

  /** The layers of a configuration without patterns, whose references are all in sight of the start-up check. */
  ghost predicate Built(cfgs: seq<LayerConfig>, layers: seq<Layer>) {
    && |layers| == |cfgs| && !HasPattern(cfgs)
    && forall i :: 0 <= i < |cfgs| ==> BuiltLayer(cfgs[i], layers[i])
  }

  ghost predicate BuiltLayer(c: LayerConfig, l: Layer) {
    l.id == c.id && l.pattern == SegmentsOf(c) && RefsInSight(c, l)
  }

  ghost predicate RefsInSight(c: LayerConfig, l: Layer) {
    forall t :: AsksFor(l.provider, t) ==> t in RefTargets(c.provider)
  }

  /** The layers that refer to something. */
  function Referring(cfgs: seq<LayerConfig>): set<string> {
    set i | 0 <= i < |cfgs| && RefTargets(cfgs[i].provider) != [] :: cfgs[i].id
  }

  lemma HopIsEdge(cfgs: seq<LayerConfig>, layers: seq<Layer>, a: string, b: string)
    requires Built(cfgs, layers) && Hop(layers, a, b)
    ensures a in Referring(cfgs) && Mentions(cfgs, a, b) && IsLayer(cfgs, a)
  {
    var i := FirstMatch(layers, a, 0);
    assert BuiltLayer(cfgs[i], layers[i]) && MatchedById(cfgs[i]);
    LiteralMatchesItself(cfgs[i].id, a);
    assert b in RefTargets(cfgs[i].provider);
  }

  /** More places than values: some value comes twice. */
  lemma {:induction false} Pigeonhole(p: seq<string>, s: set<string>) returns (i: nat, j: nat)
    requires |p| > |s| && forall k :: 0 <= k < |p| ==> p[k] in s
    ensures i < j < |p| && p[i] == p[j]
  {
    var n := |p| - 1;
    if p[n] in p[..n] {
      i :| 0 <= i < n && p[i] == p[n];
      j := n;
    } else {
      i, j := Pigeonhole(p[..n], s - {p[n]});
    }
  }

  /** More hops than layers that refer to others pass through some layer twice. */
  lemma HopsRepeat(cfgs: seq<LayerConfig>, layers: seq<Layer>, p: seq<string>) returns (q: seq<string>)
    requires Built(cfgs, layers) && IsHops(layers, p) && |p| - 1 > |Referring(cfgs)|
    ensures LayerCycle(cfgs, q)
  {
    forall k | 0 <= k < |p| - 1
      ensures p[k] in Referring(cfgs) && Mentions(cfgs, p[k], p[k + 1]) && IsLayer(cfgs, p[k])
    {
      assert Hop(layers, p[k], p[k + 1]);
      HopIsEdge(cfgs, layers, p[k], p[k + 1]);
    }
    var i, j := Pigeonhole(p[..|p| - 1], Referring(cfgs));
    q := p[i..j + 1];
    forall k | 0 <= k < |q| - 1 ensures LayerEdge(cfgs, q[k], q[k + 1]) {
      assert q[k] == p[i + k] && q[k + 1] == p[i + k + 1];
    }
  }

  /** A checked configuration in which at most ten layers refer to others never reports the depth error. */
  lemma CheckedNeverExceeds(cfgs: seq<LayerConfig>, layers: seq<Layer>, name: string)
    requires Built(cfgs, layers) && NoLayerCycle(cfgs) && |Referring(cfgs)| <= 10
    ensures !CanHop(layers, name, 11)
  {
    if p: seq<string> :| |p| == MAX_REF_DEPTH + 2 && p[0] == name && IsHops(layers, p) {
      var q := HopsRepeat(cfgs, layers, p);
    }
  }

  /** A name that leads back to itself can be followed for ever. */
  lemma {:induction false} LoopHops(layers: seq<Layer>, name: string, n: nat)
    requires Hop(layers, name, name)
    ensures CanHop(layers, name, n)
  {
    if n == 0 {
      assert IsHops(layers, [name]);
    } else {
      LoopHops(layers, name, n - 1);
      CanHopFirst(layers, name, n);
    }
  }

  // A layer that answers to `tiles...` and refers to `tiles7`.

  const LOOP_FIELDS := [Field("name", Str("ref")), Field("layer", Str("tiles7"))]
  const LOOP_CONFIG := LayerConfig("all", "tiles{n}", Obj(LOOP_FIELDS))
  const LOOP_LAYER := Layer("all", [Pattern.Literal("tiles"), Pattern.Placeholder("n")], _ => true, true, Ref("tiles7"))

  lemma LoopTargets()
    ensures RefTargets(LOOP_CONFIG.provider) == ["tiles7"]
  {
    var name, target := Field("name", Str("ref")), Field("layer", Str("tiles7"));
    assert LOOP_FIELDS[1..] == [target] && LOOP_FIELDS[..1] == [name] && [name][..0] == [];
    assert FieldTargets([name]) == [] && FieldTargets(LOOP_FIELDS) == FieldTargets([name]) + [];
  }

  lemma LoopPattern()
    ensures Pattern.ParsePattern(LOOP_CONFIG.pattern) == (LOOP_LAYER.pattern, [])
  {
    var segs := LOOP_LAYER.pattern;
    assert segs[1..] == [Pattern.Placeholder("n")] && segs[1..][1..] == [];
    assert Pattern.Print(segs[1..]) == "{n}" + "";
    assert Pattern.Print(segs) == "tiles{n}";
    Pattern.PrintThenParse(segs);
  }

  lemma LoopHop()
    ensures Hop([LOOP_LAYER], "tiles7", "tiles7")
  {
    var segs := LOOP_LAYER.pattern;
    assert segs[1..] == [Pattern.Placeholder("n")] && segs[1..][1..] == [];
    assert IsAt("tiles7", "tiles", 0);
    assert MatchesName([LOOP_LAYER][0], "tiles7");
  }

  /**
   Through a pattern a layer can refer to itself without a cycle of ids; only the depth limit ends such a
   rendering.
  */
  lemma UnseenCycle()
    ensures UniqueIds([LOOP_CONFIG]) && NoLayerCycle([LOOP_CONFIG])
    ensures RefTargets(LOOP_CONFIG.provider) == ["tiles7"] && LOOP_LAYER.provider == Ref("tiles7")
    ensures Pattern.ParsePattern(LOOP_CONFIG.pattern) == (LOOP_LAYER.pattern, [])
    ensures Bare([LOOP_LAYER]) && CanHop([LOOP_LAYER], "tiles7", 11)
  {
    LoopTargets();
    LoopPattern();
    LoopHop();
    LoopHops([LOOP_LAYER], "tiles7", MAX_REF_DEPTH + 1);
    forall p ensures !LayerCycle([LOOP_CONFIG], p) {
      LoopIsNoCycle(p);
    }
  }

  lemma LoopIsNoCycle(p: seq<string>)
    ensures !LayerCycle([LOOP_CONFIG], p)
  {
    if |p| >= 2 {
      LoopTargets();
      assert !Mentions([LOOP_CONFIG], p[0], "all");
      assert !LayerEdge([LOOP_CONFIG], p[0], p[1]);
    }
  }
}
