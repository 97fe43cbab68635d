/** The two start-up checks on the list of layers, and what they mean for the graph of layer ids. */
module LayerValidation {
  import opened LayerGraph

  datatype Outcome = Valid | Duplicate(id: string) | Unknown(id: string, target: string) | Cycle(path: seq<string>)

  // ---------- What the layers say ----------

  predicate UniqueIds(layers: seq<LayerConfig>) {
    forall i, j :: 0 <= i < j < |layers| ==> layers[i].id != layers[j].id
  }

  predicate MatchedById(l: LayerConfig) {
    l.pattern == "" || l.pattern == l.id
  }

  predicate HasPattern(layers: seq<LayerConfig>) {
    exists i :: 0 <= i < |layers| && !MatchedById(layers[i])
  }

  predicate Known(layers: seq<LayerConfig>, id: string) {
    exists i :: 0 <= i < |layers| && layers[i].id == id && MatchedById(layers[i])
  }

  predicate IsLayer(layers: seq<LayerConfig>, id: string) {
    exists i :: 0 <= i < |layers| && layers[i].id == id
  }

  predicate Mentions(layers: seq<LayerConfig>, id: string, target: string) {
    exists i :: 0 <= i < |layers| && layers[i].id == id && target in RefTargets(layers[i].provider)
  }

  /** Layer `a` refers to layer `b` by its id. */
  predicate LayerEdge(layers: seq<LayerConfig>, a: string, b: string) {
    Mentions(layers, a, b) && IsLayer(layers, b)
  }

  predicate LayerCycle(layers: seq<LayerConfig>, p: seq<string>) {
    |p| >= 2 && p[0] == p[|p| - 1] && forall i :: 0 <= i < |p| - 1 ==> LayerEdge(layers, p[i], p[i + 1])
  }

  ghost predicate NoLayerCycle(layers: seq<LayerConfig>) {
    forall p :: !LayerCycle(layers, p)
  }

  ghost predicate NoDanglingTarget(layers: seq<LayerConfig>) {
    forall id, target :: Mentions(layers, id, target) ==> Known(layers, target)
  }

  // ---------- The table the search works on ----------

  function RefsByLayer(layers: seq<LayerConfig>): Refs {
    if layers == [] then map[]
    else
      var before, l := RefsByLayer(layers[..|layers| - 1]), layers[|layers| - 1];
      if RefTargets(l.provider) == [] then before else before[l.id := RefTargets(l.provider)]
  }

  /** With unique ids no entry is overwritten: the table holds what the layers mention. */
  lemma {:induction false} TableIsExact(layers: seq<LayerConfig>, id: string)
    requires UniqueIds(layers)
    ensures id in RefsByLayer(layers) <==> exists t :: Mentions(layers, id, t)
    ensures id in RefsByLayer(layers) ==> forall t :: t in RefsByLayer(layers)[id] <==> Mentions(layers, id, t)
    ensures id in RefsByLayer(layers) ==> IsLayer(layers, id)
  {
    if layers != [] {
      var n := |layers| - 1;
      var before, l := layers[..n], layers[n];
      TableIsExact(before, id);
      forall t
        ensures Mentions(layers, id, t) <==> Mentions(before, id, t) || (l.id == id && t in RefTargets(l.provider))
      {
        if Mentions(before, id, t) {
          var i :| 0 <= i < n && before[i].id == id && t in RefTargets(before[i].provider);
          assert layers[i] == before[i];
        }
        if i :| 0 <= i < |layers| && layers[i].id == id && t in RefTargets(layers[i].provider) && i < n {
          assert before[i] == layers[i];
        }
      }
      if IsLayer(before, id) {
        var i :| 0 <= i < n && before[i].id == id;
        assert layers[i].id == id;
      }
      if RefTargets(l.provider) != [] {
        assert RefTargets(l.provider)[0] in RefTargets(l.provider);
        assert Mentions(layers, l.id, RefTargets(l.provider)[0]);
        assert l.id == id ==> forall t :: !Mentions(before, id, t);
      }
    }
  }

  lemma EdgesAgree(layers: seq<LayerConfig>, a: string, b: string)
    requires UniqueIds(layers)
    ensures Edge(RefsByLayer(layers), a, b) <==> LayerEdge(layers, a, b) && b in RefsByLayer(layers)
  {
    TableIsExact(layers, a);
    TableIsExact(layers, b);
  }

  /** The search sees only layers that refer to something; no cycle passes through any other. */
  lemma CyclesAgree(layers: seq<LayerConfig>)
    requires UniqueIds(layers)
    ensures HasCycle(RefsByLayer(layers)) <==> !NoLayerCycle(layers)
  {
    var refs := RefsByLayer(layers);
    if p :| ClosedWalk(refs, p) {
      forall i | 0 <= i < |p| - 1 ensures LayerEdge(layers, p[i], p[i + 1]) {
        assert Edge(refs, p[i], p[i + 1]);
        EdgesAgree(layers, p[i], p[i + 1]);
      }
      assert LayerCycle(layers, p);
    }
    if p :| LayerCycle(layers, p) {
      forall i | 0 <= i < |p| ensures p[i] in refs {
        var j := if i < |p| - 1 then i else 0;
        assert LayerEdge(layers, p[j], p[j + 1]);
        TableIsExact(layers, p[j]);
      }
      forall i | 0 <= i < |p| - 1 ensures Edge(refs, p[i], p[i + 1]) {
        assert LayerEdge(layers, p[i], p[i + 1]);
        EdgesAgree(layers, p[i], p[i + 1]);
      }
      assert ClosedWalk(refs, p);
    }
  }

  // ---------- The checks ----------

  method ValidateNoDuplicateLayerIDs(layers: seq<LayerConfig>) returns (r: Outcome)
    ensures r == Valid <==> UniqueIds(layers)
    ensures r != Valid ==> r.Duplicate? && exists i, j :: 0 <= i < j < |layers| && layers[i].id == r.id == layers[j].id
  {
    var seen: set<string> := {};
    for i := 0 to |layers|
      invariant seen == set k | 0 <= k < i :: layers[k].id
      invariant UniqueIds(layers[..i])
    {
      if layers[i].id in seen {
        return Duplicate(layers[i].id);
      }
      seen := seen + {layers[i].id};
    }
    assert layers[..|layers|] == layers;
    return Valid;
  }

  method BuildRefs(layers: seq<LayerConfig>) returns (refsByLayer: Refs)
    ensures refsByLayer == RefsByLayer(layers)
  {
    refsByLayer := map[];
    for i := 0 to |layers|
      invariant refsByLayer == RefsByLayer(layers[..i])
    {
      assert layers[..i + 1][..i] == layers[..i];
      var collector := new Collector();
      collector.FindRefTargets(layers[i].provider);
      assert collector.targets == RefTargets(layers[i].provider);
      if |collector.targets| > 0 {
        refsByLayer := refsByLayer[layers[i].id := collector.targets];
      }
    }
    assert layers[..|layers|] == layers;
  }

  method KnownIds(layers: seq<LayerConfig>) returns (known: set<string>, hasPatternLayer: bool)
    ensures forall id :: id in known <==> Known(layers, id)
    ensures hasPatternLayer == HasPattern(layers)
  {
    known, hasPatternLayer := {}, false;
    for i := 0 to |layers|
      invariant known == set k | 0 <= k < i && MatchedById(layers[k]) :: layers[k].id
      invariant hasPatternLayer <==> exists k :: 0 <= k < i && !MatchedById(layers[k])
    {
      if layers[i].pattern == "" || layers[i].pattern == layers[i].id {
        known := known + {layers[i].id};
      } else {
        hasPatternLayer := true;
      }
    }
  }

  ghost predicate TableKnown(layers: seq<LayerConfig>) {
    forall id, t :: id in RefsByLayer(layers) && t in RefsByLayer(layers)[id] ==> Known(layers, t)
  }

  ghost predicate AllKnown(refs: Refs, known: set<string>) {
    forall id, t :: id in refs && t in refs[id] ==> t in known
  }

  method FindDangling(refs: Refs, known: set<string>) returns (r: Outcome)
    ensures r == Valid <==> AllKnown(refs, known)
    ensures r != Valid ==> r.Unknown? && r.id in refs && r.target in refs[r.id] && r.target !in known
  {
    var todo := refs.Keys;
    while todo != {}
      invariant todo <= refs.Keys
      invariant forall id <- refs.Keys - todo :: forall t <- refs[id] :: t in known
      decreases todo
    {
      var id :| id in todo;
      todo := todo - {id};
      for i := 0 to |refs[id]|
        invariant forall j :: 0 <= j < i ==> refs[id][j] in known
      {
        if refs[id][i] !in known {
          return Unknown(id, refs[id][i]);
        }
      }
    }
    return Valid;
  }

  /** `validateRefs`, for any list of layers and any order in which its maps are walked. */
  method ValidateRefs(layers: seq<LayerConfig>) returns (r: Outcome)
    ensures r == Valid || r.Unknown? || r.Cycle?
    ensures r.Unknown? ==> !HasPattern(layers) && r.id in RefsByLayer(layers) && r.target in RefsByLayer(layers)[r.id]
                           && !Known(layers, r.target)
    ensures r.Cycle? ==> ShowsCycle(RefsByLayer(layers), r.path)
    ensures r == Valid <==>
              && !HasCycle(RefsByLayer(layers))
              && (HasPattern(layers) || TableKnown(layers))
  {
    var known, hasPatternLayer := KnownIds(layers);
    var refsByLayer := BuildRefs(layers);
    if !hasPatternLayer {
      var dangling := FindDangling(refsByLayer, known);
      if dangling != Valid {
        return dangling;
      }
    }
    var search := new CycleSearch(refsByLayer);
    var cycle := search.FindCycle();
    if cycle.Some? {
      ShownCycleIsCycle(refsByLayer, cycle.value);
      return Cycle(cycle.value);
    }
    return Valid;
  }

  ghost predicate Passes(layers: seq<LayerConfig>) {
    && UniqueIds(layers)
    && NoLayerCycle(layers)
    && (HasPattern(layers) || NoDanglingTarget(layers))
  }

  /**
   Both checks as start-up makes them: the layers pass exactly when their ids differ, no chain of
   references comes back to its start and, unless some layer is matched by a pattern, each target exists.
  */
  method CheckLayers(layers: seq<LayerConfig>) returns (r: Outcome)
    ensures r == Valid <==> Passes(layers)
  {
    r := ValidateNoDuplicateLayerIDs(layers);
    if r != Valid {
      return;
    }
    r := ValidateRefs(layers);
    CyclesAgree(layers);
    DanglingAgree(layers);
  }

  lemma DanglingAgree(layers: seq<LayerConfig>)
    requires UniqueIds(layers)
    ensures NoDanglingTarget(layers) <==> TableKnown(layers)
  {
    var refs := RefsByLayer(layers);
    if NoDanglingTarget(layers) {
      forall id, t | id in refs && t in refs[id] ensures Known(layers, t) {
        TableIsExact(layers, id);
        assert Mentions(layers, id, t);
      }
    }
    if TableKnown(layers) {
      forall id, t | Mentions(layers, id, t) ensures Known(layers, t) {
        TableIsExact(layers, id);
        assert t in refs[id];
      }
    }
  }

  // ---------- What the comment on the search promises ----------

  /** A cycle that resolves statically: every id on it belongs to a layer without a pattern. */
  predicate LiteralCycle(layers: seq<LayerConfig>, p: seq<string>) {
    LayerCycle(layers, p) && forall i :: 0 <= i < |p| ==> Known(layers, p[i])
  }

  ghost predicate NoLiteralCycle(layers: seq<LayerConfig>) {
    forall p :: !LiteralCycle(layers, p)
  }

  /** The id of a layer with a pattern leads back to itself. */
  ghost predicate PatternedIdReturns(layers: seq<LayerConfig>, i: nat)
    requires i < |layers|
  {
    !MatchedById(layers[i]) && exists p :: LayerCycle(layers, p) && p[0] == layers[i].id
  }

  /** The checks as the comment describes them: only edges between literal ids count. */
  ghost predicate Documented(layers: seq<LayerConfig>) {
    && UniqueIds(layers)
    && NoLiteralCycle(layers)
    && (HasPattern(layers) || NoDanglingTarget(layers))
  }

  /** A cycle can be walked from any of its nodes. */
  lemma Rotated(layers: seq<LayerConfig>, p: seq<string>, k: nat) returns (q: seq<string>)
    requires LayerCycle(layers, p) && k < |p|
    ensures LayerCycle(layers, q) && q[0] == p[k]
  {
    q := p[k..] + p[1..k + 1];
    var n := |p| - k;
    forall i | 0 <= i < |q| - 1 ensures LayerEdge(layers, q[i], q[i + 1]) {
      if i < n - 1 {
        assert q[i] == p[k + i] && q[i + 1] == p[k + i + 1];
      } else {
        var j := i - (n - 1);
        assert q[i] == (if j == 0 then p[|p| - 1] else p[j]) == p[j] && q[i + 1] == p[j + 1];
      }
    }
  }

  /** An id on a cycle is the id of a layer; when it is not a literal one, of a layer with a pattern. */
  lemma OnCycle(layers: seq<LayerConfig>, p: seq<string>, k: nat) returns (i: nat)
    requires LayerCycle(layers, p) && k < |p|
    ensures i < |layers| && layers[i].id == p[k] && (Known(layers, p[k]) || !MatchedById(layers[i]))
  {
    if k > 0 {
      assert LayerEdge(layers, p[k - 1], p[k]);
    } else {
      assert LayerEdge(layers, p[|p| - 2], p[|p| - 1]);
    }
    i :| 0 <= i < |layers| && layers[i].id == p[k];
  }

  /** A literal cycle never passes through the id of a layer with a pattern. */
  lemma LiteralCycleAvoidsPatterns(layers: seq<LayerConfig>, p: seq<string>, i: nat)
    requires UniqueIds(layers) && LiteralCycle(layers, p) && i < |layers|
    ensures layers[i].id in p ==> MatchedById(layers[i])
  {
    if k :| 0 <= k < |p| && p[k] == layers[i].id {
      assert Known(layers, p[k]);
      var j :| 0 <= j < |layers| && layers[j].id == p[k] && MatchedById(layers[j]);
    }
  }

  /**
   What the search rejects: the cycles the comment speaks of, and those through the id of a layer with a
   pattern.  No cycle is of both kinds.
  */
  lemma CyclesAreLiteralOrPatterned(layers: seq<LayerConfig>)
    requires UniqueIds(layers)
    ensures NoLayerCycle(layers) <==>
            NoLiteralCycle(layers) && forall i :: 0 <= i < |layers| ==> !PatternedIdReturns(layers, i)
    ensures forall p, i ::
              LiteralCycle(layers, p) && 0 <= i < |layers| && !MatchedById(layers[i]) ==> layers[i].id !in p
  {
    if p :| LayerCycle(layers, p) && !LiteralCycle(layers, p) {
      var k :| 0 <= k < |p| && !Known(layers, p[k]);
      var i := OnCycle(layers, p, k);
      var q := Rotated(layers, p, k);
      assert PatternedIdReturns(layers, i);
    }
    forall p, i | LiteralCycle(layers, p) && 0 <= i < |layers| && !MatchedById(layers[i]) ensures layers[i].id !in p {
      LiteralCycleAvoidsPatterns(layers, p, i);
    }
  }

  /**
   Start-up turns down a configuration that the comment lets pass exactly when the id of a patterned layer leads
   back to itself.
  */
  lemma RejectedAgainstComment(layers: seq<LayerConfig>)
    ensures Passes(layers) ==> Documented(layers)
    ensures Documented(layers) ==>
              (Passes(layers) <==> forall i :: 0 <= i < |layers| ==> !PatternedIdReturns(layers, i))
    ensures !HasPattern(layers) ==> (Passes(layers) <==> Documented(layers))
  {
    if UniqueIds(layers) {
      CyclesAreLiteralOrPatterned(layers);
    }
  }

  /**
   The search follows ids even where a name cannot resolve to them: this single layer answers to names
   `x...` only, refers to its own id, and is turned down as a cycle.
  */
  lemma PatternLayerIdCounts()
    ensures var l := LayerConfig("a", "x{n}", Obj([Field("name", Str("ref")), Field("layer", Str("a"))]));
            HasPattern([l]) && !Known([l], "a") && LayerCycle([l], ["a", "a"])
  {
    var fields := [Field("name", Str("ref")), Field("layer", Str("a"))];
    var l := LayerConfig("a", "x{n}", Obj(fields));
    assert fields[1..] == [Field("layer", Str("a"))];
    assert RefOf(fields) == ["a"];
    assert "a" in RefOf(fields);
    assert "a" in RefTargets(l.provider);
    assert !MatchedById([l][0]);
    assert [l][0].id == "a";
    assert LayerEdge([l], "a", "a");
  }
}
