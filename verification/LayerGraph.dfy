/** The checks on a layer configuration: no duplicate ids, no unknown reference, no cycle of references. */
module LayerGraph {
  import opened Wrappers

  /** A raw provider configuration; the fields of an object come in the order its map is walked. */
  datatype Field = Field(key: string, node: Node)

  datatype Node = Obj(fields: seq<Field>) | Arr(items: seq<Node>) | Str(value: string) | Other

  datatype LayerConfig = LayerConfig(id: string, pattern: string, provider: Node)

  // ---------- Finding references ----------

  function Lookup(fields: seq<Field>, key: string): Node {
    if fields == [] then Other else if fields[0].key == key then fields[0].node else Lookup(fields[1..], key)
  }

  /** The layer an object refers to, when it is a `ref` provider that names one. */
  function RefOf(fields: seq<Field>): seq<string> {
    var target := Lookup(fields, "layer");
    if Lookup(fields, "name") == Str("ref") && target.Str? && target.value != "" then [target.value] else []
  }

  function RefTargets(node: Node): seq<string> {
    match node
    case Obj(fields) => RefOf(fields) + FieldTargets(fields)
    case Arr(items) => ItemTargets(items)
    case _ => []
  }

  function FieldTargets(fields: seq<Field>): seq<string> {
    if fields == [] then []
    else FieldTargets(fields[..|fields| - 1]) + RefTargets(fields[|fields| - 1].node)
  }

  function ItemTargets(items: seq<Node>): seq<string> {
    if items == [] then [] else ItemTargets(items[..|items| - 1]) + RefTargets(items[|items| - 1])
  }

  class Collector {
    var targets: seq<string>

    constructor ()
      ensures targets == []
    {
      targets := [];
    }

    /** Appends the targets of all references at any depth, each one once for each place it stands. */
    method FindRefTargets(node: Node)
      modifies this
      ensures targets == old(targets) + RefTargets(node)
      decreases node
    {
      match node
      case Obj(fields) =>
        var name, target := Lookup(fields, "name"), Lookup(fields, "layer");
        if name == Str("ref") {
          if target.Str? && target.value != "" {
            targets := targets + [target.value];
          }
        }
        CollectFields(fields);
      case Arr(items) => CollectItems(items);
      case _ =>
    }

    method CollectFields(fields: seq<Field>)
      modifies this
      ensures targets == old(targets) + FieldTargets(fields)
      decreases fields
    {
      for i := 0 to |fields|
        invariant targets == old(targets) + FieldTargets(fields[..i])
      {
        assert fields[..i + 1][..i] == fields[..i];
        FindRefTargets(fields[i].node);
      }
      assert fields[..|fields|] == fields;
    }

    method CollectItems(items: seq<Node>)
      modifies this
      ensures targets == old(targets) + ItemTargets(items)
      decreases items
    {
      for i := 0 to |items|
        invariant targets == old(targets) + ItemTargets(items[..i])
      {
        assert items[..i + 1][..i] == items[..i];
        FindRefTargets(items[i]);
      }
      assert items[..|items|] == items;
    }
  }

  /** `sub` is a part of `node`, at any depth. */
  predicate PartOf(sub: Node, node: Node) {
    sub == node ||
    match node
    case Obj(fields) => exists i :: 0 <= i < |fields| && PartOf(sub, fields[i].node)
    case Arr(items) => exists i :: 0 <= i < |items| && PartOf(sub, items[i])
    case _ => false
  }

  predicate RefersTo(node: Node, t: string) {
    node.Obj? && t in RefOf(node.fields)
  }

  predicate DistinctKeys(fields: seq<Field>) {
    forall i, j :: 0 <= i < j < |fields| ==> fields[i].key != fields[j].key
  }

  lemma {:induction false} LookupFinds(fields: seq<Field>, key: string, node: Node)
    requires DistinctKeys(fields)
    ensures Field(key, node) in fields ==> Lookup(fields, key) == node
    ensures node != Other && Lookup(fields, key) == node ==> Field(key, node) in fields
  {
    if fields != [] {
      assert forall i :: 0 < i < |fields| ==> fields[1..][i - 1] == fields[i];
      LookupFinds(fields[1..], key, node);
    }
  }

  /** An object is a reference to `t` by two of its fields, whatever the order and whatever else it holds. */
  lemma RefOfAnyOrder(fields: seq<Field>, t: string)
    requires DistinctKeys(fields)
    ensures RefersTo(Obj(fields), t) <==>
            t != "" && Field("name", Str("ref")) in fields && Field("layer", Str(t)) in fields
  {
    LookupFinds(fields, "name", Str("ref"));
    LookupFinds(fields, "layer", Str(t));
  }

  lemma {:induction false} InFieldTargets(fields: seq<Field>, t: string)
    ensures t in FieldTargets(fields) <==> exists i :: 0 <= i < |fields| && t in RefTargets(fields[i].node)
  {
    hide RefTargets;
    if fields != [] {
      var n := |fields| - 1;
      InFieldTargets(fields[..n], t);
      if i :| 0 <= i < |fields| && t in RefTargets(fields[i].node) && i < n {
        assert t in RefTargets(fields[..n][i].node);
      }
    }
  }

  lemma {:induction false} InItemTargets(items: seq<Node>, t: string)
    ensures t in ItemTargets(items) <==> exists i :: 0 <= i < |items| && t in RefTargets(items[i])
  {
    hide RefTargets;
    if items != [] {
      var n := |items| - 1;
      InItemTargets(items[..n], t);
      if i :| 0 <= i < |items| && t in RefTargets(items[i]) && i < n {
        assert t in RefTargets(items[..n][i]);
      }
    }
  }

  /** A name is collected exactly when some part of the configuration is a reference to it. */
  lemma {:induction false} TargetsAreReferences(node: Node, t: string)
    ensures t in RefTargets(node) <==> exists sub :: PartOf(sub, node) && RefersTo(sub, t)
    decreases node
  {
    match node
    case Obj(fields) =>
      InFieldTargets(fields, t);
      forall i | 0 <= i < |fields|
        ensures t in RefTargets(fields[i].node) <==> exists sub :: PartOf(sub, fields[i].node) && RefersTo(sub, t)
      {
        TargetsAreReferences(fields[i].node, t);
      }
      if RefersTo(node, t) {
        assert PartOf(node, node);
      }
      if i :| 0 <= i < |fields| && t in RefTargets(fields[i].node) {
        var sub :| PartOf(sub, fields[i].node) && RefersTo(sub, t);
        assert PartOf(sub, node);
      }
    case Arr(items) =>
      InItemTargets(items, t);
      forall i | 0 <= i < |items|
        ensures t in RefTargets(items[i]) <==> exists sub :: PartOf(sub, items[i]) && RefersTo(sub, t)
      {
        TargetsAreReferences(items[i], t);
      }
      if i :| 0 <= i < |items| && t in RefTargets(items[i]) {
        var sub :| PartOf(sub, items[i]) && RefersTo(sub, t);
        assert PartOf(sub, node);
      }
    case _ =>
  }

  // ---------- Walks ----------

  type Refs = map<string, seq<string>>

  predicate Edge(refs: Refs, a: string, b: string) {
    a in refs && b in refs && b in refs[a]
  }

  predicate Walk(refs: Refs, p: seq<string>) {
    forall i :: 0 <= i < |p| - 1 ==> Edge(refs, p[i], p[i + 1])
  }

  predicate ClosedWalk(refs: Refs, p: seq<string>) {
    |p| >= 2 && Walk(refs, p) && p[0] == p[|p| - 1]
  }

  ghost predicate HasCycle(refs: Refs) {
    exists p :: ClosedWalk(refs, p)
  }

  /** What a cycle error shows: a walk whose last node has been met before. */
  predicate ShowsCycle(refs: Refs, p: seq<string>) {
    |p| >= 2 && Walk(refs, p) && p[|p| - 1] in p[..|p| - 1]
  }

  lemma GrayShowsCycle(refs: Refs, path: seq<string>, id: string)
    requires Walk(refs, path) && id in path && Edge(refs, path[|path| - 1], id)
    ensures ShowsCycle(refs, path + [id])
  {
    assert (path + [id])[..|path|] == path;
  }

  lemma ShownCycleIsCycle(refs: Refs, p: seq<string>)
    requires ShowsCycle(refs, p)
    ensures HasCycle(refs)
  {
    var k :| 0 <= k < |p| - 1 && p[k] == p[|p| - 1];
    var q := p[k..];
    forall i | 0 <= i < |q| - 1 ensures Edge(refs, q[i], q[i + 1]) {
      assert Edge(refs, p[k + i], p[k + i + 1]);
    }
    assert ClosedWalk(refs, q);
  }

  /** Each node comes after the nodes it refers to. */
  ghost predicate Ordered(refs: Refs, finished: seq<string>) {
    forall k :: 0 <= k < |finished| ==> forall b :: Edge(refs, finished[k], b) ==> b in finished[..k]
  }

  /** The first place of a node in the order. */
  function Rank(finished: seq<string>, x: string): (r: nat)
    requires x in finished
    ensures r < |finished| && finished[r] == x && forall j :: 0 <= j < r ==> finished[j] != x
  {
    if finished[0] == x then 0
    else
      var r := Rank(finished[1..], x);
      assert forall j :: 0 < j < r + 1 ==> finished[j] == finished[1..][j - 1];
      r + 1
  }

  lemma RankFalls(refs: Refs, finished: seq<string>, a: string, b: string)
    requires Ordered(refs, finished) && a in finished && Edge(refs, a, b)
    ensures b in finished && Rank(finished, b) < Rank(finished, a)
  {
    var k := Rank(finished, a);
    assert finished[k] == a && b in finished[..k];
    var j :| 0 <= j < k && finished[j] == b;
  }

  lemma {:induction false} WalkFalls(refs: Refs, finished: seq<string>, p: seq<string>, i: nat)
    requires Ordered(refs, finished) && Walk(refs, p) && i < |p| && p[0] in finished
    ensures p[i] in finished && Rank(finished, p[i]) + i <= Rank(finished, p[0])
  {
    if i > 0 {
      WalkFalls(refs, finished, p, i - 1);
      assert Edge(refs, p[i - 1], p[i]);
      RankFalls(refs, finished, p[i - 1], p[i]);
    }
  }

  /** An order of all nodes leaves no room for a cycle. */
  lemma OrderedIsAcyclic(refs: Refs, finished: seq<string>)
    requires Ordered(refs, finished) && forall x <- refs :: x in finished
    ensures !HasCycle(refs)
  {
    if p :| ClosedWalk(refs, p) {
      assert Edge(refs, p[0], p[1]);
      WalkFalls(refs, finished, p, |p| - 1);
    }
  }

  // ---------- The depth-first search ----------

  datatype Color = Gray | Black

  class CycleSearch {
    const refs: Refs
    var color: map<string, Color> // a node without a colour is white
    var path: seq<string>
    ghost var finished: seq<string>

    ghost predicate Valid()
      reads this
    {
      && color.Keys <= refs.Keys
      && (forall x <- color :: color[x] == Gray <==> x in path)
      && (forall x <- path :: x in color)
      && (forall x <- color :: color[x] == Black <==> x in finished)
      && (forall x <- finished :: x in color)
      && Walk(refs, path)
      && Ordered(refs, finished)
    }

    ghost function White(): set<string>
      reads this
    {
      refs.Keys - color.Keys
    }

    constructor (refs: Refs)
      ensures Valid() && this.refs == refs && color == map[] && path == []
    {
      this.refs := refs;
      color, path, finished := map[], [], [];
    }

    /**
     The recursive visit.  Either it reports a walk that comes back to itself, or it leaves the path as it
     was and `id`, with everything it reaches, black.
    */
    method Visit(id: string) returns (cycle: Option<seq<string>>)
      requires Valid() && id in refs
      requires path != [] ==> Edge(refs, path[|path| - 1], id)
      modifies this
      ensures cycle.Some? ==> ShowsCycle(refs, cycle.value)
      ensures cycle.None? ==> Valid() && path == old(path) && id in color && color[id] == Black
      ensures cycle.None? ==> old(color).Keys <= color.Keys && old(finished) <= finished
      ensures cycle.None? ==> White() <= old(White())
      decreases White()
    {
      hide Walk, Ordered, ShowsCycle;
      if id in color {
        if color[id] == Gray {
          var found := path + [id];
          GrayShowsCycle(refs, path, id);
          return Some(found);
        }
        return None;
      }
      ghost var white := White();
      Enter(id);
      for i := 0 to |refs[id]|
        invariant Valid() && path == old(path) + [id]
        invariant old(color).Keys <= color.Keys && id in color && old(finished) <= finished
        invariant White() < white
        invariant forall j :: 0 <= j < i && refs[id][j] in refs ==> refs[id][j] in finished
      {
        var target := refs[id][i];
        if target in refs {
          var inner := Visit(target);
          if inner.Some? {
            return inner;
          }
        }
      }
      Leave(id);
      assert path == old(path);
      return None;
    }

    /** Turns a white node gray and puts it at the end of the path. */
    method Enter(id: string)
      requires Valid() && id in refs && id !in color
      requires path != [] ==> Edge(refs, path[|path| - 1], id)
      modifies this
      ensures Valid() && path == old(path) + [id] && color == old(color)[id := Gray] && finished == old(finished)
    {
      color := color[id := Gray];
      path := path + [id];
    }

    /** Turns the last node of the path black, when all it refers to is. */
    method Leave(id: string)
      requires Valid() && id in refs && path != [] && path[|path| - 1] == id && id !in path[..|path| - 1]
      requires forall j :: 0 <= j < |refs[id]| && refs[id][j] in refs ==> refs[id][j] in finished
      modifies this
      ensures Valid() && path == old(path)[..|old(path)| - 1] && color == old(color)[id := Black]
      ensures finished == old(finished) + [id]
    {
      Retire(id);
      path := path[..|path| - 1];
      color := color[id := Black];
    }

    /** The node goes to the end of the order: all it refers to is there. */
    ghost method Retire(id: string)
      requires Valid() && id in refs
      requires forall j :: 0 <= j < |refs[id]| && refs[id][j] in refs ==> refs[id][j] in finished
      modifies `finished
      ensures finished == old(finished) + [id] && Ordered(refs, finished)
    {
      finished := finished + [id];
      forall k, b | 0 <= k < |finished| && Edge(refs, finished[k], b) ensures b in finished[..k] {
        if k < |old(finished)| {
          assert finished[..k] == old(finished)[..k];
        } else {
          assert finished[..k] == old(finished);
        }
      }
    }

    /** Starts a visit at every node that is still white, in whatever order the map yields them. */
    method FindCycle() returns (cycle: Option<seq<string>>)
      requires Valid() && path == [] && color == map[]
      modifies this
      ensures cycle.Some? ==> ShowsCycle(refs, cycle.value)
      ensures cycle.None? <==> !HasCycle(refs)
    {
      var todo := refs.Keys;
      while todo != {}
        invariant Valid() && path == [] && todo <= refs.Keys
        invariant forall x <- refs.Keys - todo :: x in finished
        decreases todo
      {
        var id :| id in todo;
        todo := todo - {id};
        if id !in color {
          cycle := Visit(id);
          if cycle.Some? {
            ShownCycleIsCycle(refs, cycle.value);
            return;
          }
        }
        assert color[id] == Black;
      }
      OrderedIsAcyclic(refs, finished);
      return None;
    }
  }
}
