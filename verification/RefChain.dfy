/**
 A chain of references that start-up accepts: the limit of ten hops is met exactly by ten layers that refer to
 others.
*/
module RefChain {
  import opened Decimal
  import opened LayerGraph
  import opened LayerValidation
  import opened Wrappers
  import opened RefRender

  function RefNode(target: string): Node {
    Obj([Field("name", Str("ref")), Field("layer", Str(target))])
  }

  /** Layer `i` of a chain: it refers to the next one, but for the last. */
  function ChainConfig(i: nat, n: nat): LayerConfig {
    LayerConfig(Itoa(i), "", if i < n then RefNode(Itoa(i + 1)) else LayerGraph.Other)
  }

  function ChainLayer(i: nat, n: nat): Layer {
    Layer(Itoa(i), [Pattern.Literal(Itoa(i))], _ => true, true, if i < n then Ref(Itoa(i + 1)) else Leaf)
  }

  function ChainConfigs(n: nat): seq<LayerConfig> {
    seq(n + 1, (i: nat) => ChainConfig(i, n))
  }

  function ChainLayers(n: nat): seq<Layer> {
    seq(n + 1, (i: nat) => ChainLayer(i, n))
  }

  lemma {:induction false} RefNodeTargets(target: string)
    requires target != ""
    ensures RefTargets(RefNode(target)) == [target]
  {
    var name, layer := Field("name", Str("ref")), Field("layer", Str(target));
    var fields := [name, layer];
    assert fields[1..] == [layer] && fields[..1] == [name] && [name][..0] == [];
    assert Lookup(fields, "layer") == Lookup([layer], "layer") == Str(target);
    assert RefOf(fields) == [target];
    assert FieldTargets([name]) == [] && FieldTargets(fields) == FieldTargets([name]) + [];
  }

  lemma {:induction false} ChainTargets(i: nat, n: nat)
    ensures RefTargets(ChainConfig(i, n).provider) == if i < n then [Itoa(i + 1)] else []
  {
    if i < n {
      RefNodeTargets(Itoa(i + 1));
    }
  }

  lemma ChainMentions(n: nat, a: string, b: string) returns (i: nat)
    requires Mentions(ChainConfigs(n), a, b)
    ensures i < n && a == Itoa(i) && b == Itoa(i + 1)
  {
    var cfgs := ChainConfigs(n);
    i :| 0 <= i < |cfgs| && cfgs[i].id == a && b in RefTargets(cfgs[i].provider);
    ChainTargets(i, n);
  }

  /** Along a walk in the chain the numbers rise. */
  lemma {:induction false} ChainRises(n: nat, p: seq<string>, j: nat) returns (k: nat)
    requires 0 < j < |p| && forall i :: 0 <= i < |p| - 1 ==> LayerEdge(ChainConfigs(n), p[i], p[i + 1])
    ensures p[0] == Itoa(k) && p[j] == Itoa(k + j)
  {
    assert LayerEdge(ChainConfigs(n), p[j - 1], p[j]);
    var i := ChainMentions(n, p[j - 1], p[j]);
    if j == 1 {
      k := i;
    } else {
      k := ChainRises(n, p, j - 1);
      ItoaInjective(i, k + j - 1);
    }
  }

  lemma ChainHasNoCycle(n: nat, p: seq<string>)
    ensures !LayerCycle(ChainConfigs(n), p)
  {
    if LayerCycle(ChainConfigs(n), p) {
      var k := ChainRises(n, p, |p| - 1);
      ItoaInjective(k, k + |p| - 1);
    }
  }

  lemma ChainPasses(n: nat)
    ensures Passes(ChainConfigs(n)) && !HasPattern(ChainConfigs(n))
  {
    var cfgs := ChainConfigs(n);
    forall i, j | 0 <= i < j < |cfgs| ensures cfgs[i].id != cfgs[j].id {
      if Itoa(i) == Itoa(j) {
        ItoaInjective(i, j);
      }
    }
    forall p ensures !LayerCycle(cfgs, p) {
      ChainHasNoCycle(n, p);
    }
    forall id, target | Mentions(cfgs, id, target) ensures Known(cfgs, target) {
      var i := ChainMentions(n, id, target);
      assert cfgs[i + 1].id == target && MatchedById(cfgs[i + 1]);
    }
  }

  lemma ChainIsBuilt(n: nat)
    ensures Built(ChainConfigs(n), ChainLayers(n)) && Bare(ChainLayers(n))
  {
    forall i: nat | i <= n ensures BuiltLayer(ChainConfig(i, n), ChainLayer(i, n)) {
      ChainTargets(i, n);
    }
  }

  function Ids(n: nat): set<string> {
    set i | 0 <= i < n :: Itoa(i)
  }

  lemma {:induction false} IdsCounted(n: nat)
    ensures |Ids(n)| == n
  {
    if n > 0 {
      IdsCounted(n - 1);
      if Itoa(n - 1) in Ids(n - 1) {
        var i :| 0 <= i < n - 1 && Itoa(i) == Itoa(n - 1);
        ItoaInjective(i, n - 1);
      }
      assert Ids(n) == Ids(n - 1) + {Itoa(n - 1)};
    }
  }

  lemma ChainRefers(n: nat)
    ensures |Referring(ChainConfigs(n))| == n
  {
    var cfgs := ChainConfigs(n);
    forall i: nat | i <= n ensures RefTargets(cfgs[i].provider) != [] <==> i < n {
      ChainTargets(i, n);
    }
    forall id ensures id in Referring(cfgs) <==> id in Ids(n) {
      if id in Ids(n) {
        var i :| 0 <= i < n && id == Itoa(i);
        assert cfgs[i].id == id;
      }
    }
    assert Referring(cfgs) == Ids(n);
    IdsCounted(n);
  }

  lemma ChainFinds(n: nat, i: nat)
    requires i <= n
    ensures FindLayer(ChainLayers(n), Itoa(i)) == Some(ChainLayer(i, n))
  {
    var layers := ChainLayers(n);
    var k := FirstMatch(layers, Itoa(i), 0);
    LiteralMatchesItself(Itoa(i), Itoa(i));
    assert MatchesName(layers[i], Itoa(i));
    LiteralMatchesItself(Itoa(k), Itoa(i));
    ItoaInjective(k, i);
  }

  lemma ChainHops(n: nat)
    ensures CanHop(ChainLayers(n), Itoa(0), n)
  {
    var p := seq(n + 1, (i: nat) => Itoa(i));
    forall i | 0 <= i < |p| - 1 ensures Hop(ChainLayers(n), p[i], p[i + 1]) {
      ChainFinds(n, i);
    }
    assert IsHops(ChainLayers(n), p);
  }

  /** A chain of `n` layers that refer to others passes the checks, without a pattern or a cycle, and makes `n` hops. */
  lemma ChainPassesAndHops(n: nat)
    ensures Passes(ChainConfigs(n)) && !HasPattern(ChainConfigs(n))
    ensures Built(ChainConfigs(n), ChainLayers(n)) && Bare(ChainLayers(n))
    ensures |Referring(ChainConfigs(n))| == n && CanHop(ChainLayers(n), Itoa(0), n)
  {
    hide *;
    ChainPasses(n);
    ChainIsBuilt(n);
    ChainRefers(n);
    ChainHops(n);
  }

  /**
   The bound of `CheckedNeverExceeds` cannot be raised: one referring layer more, and the first layer reaches
   the depth error.
  */
  lemma TenIsTight() returns (cfgs: seq<LayerConfig>, layers: seq<Layer>)
    ensures Passes(cfgs) && !HasPattern(cfgs) && Built(cfgs, layers) && Bare(layers)
    ensures |Referring(cfgs)| == 11 && CanHop(layers, Itoa(0), 11)
  {
    var n := MAX_REF_DEPTH + 1;
    cfgs, layers := ChainConfigs(n), ChainLayers(n);
    ChainPassesAndHops(n);
    hide *;
  }
}
