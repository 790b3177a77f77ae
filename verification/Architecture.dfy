/**
 Architecture genomes: what the validator accepts, the canonical form it returns, and the exact
 topology facts of the structural profile.
 */
module Architecture {
  import opened Wrappers
  import opened Orders
  import opened Graph
  import opened ConfigValue

  const SCHEMA := "genesis-cognitive-architecture-v1"

  datatype Node = Node(id: string, primitive: string, config: Value)

  datatype Genome = Genome(schema: string, nodes: seq<Node>, edges: seq<Edge>, inputs: seq<string>,
    outputs: seq<string>)

  // The caller's registry of primitives and its ceilings, each optional.
  datatype Limits = Limits(admitted: Option<set<string>>, maxNodes: Option<int>, maxEdges: Option<int>)

  function IdOf(n: Node): string { n.id }

  function Ids(nodes: seq<Node>): seq<string> { MapSeq(IdOf, nodes) }

  function NodeKey(n: Node): Key { [n.id] }

  function EdgeKey(e: Edge): Key { [e.kind, e.source, e.target] }

  function NormalNode(n: Node): Node { Node(n.id, n.primitive, Normal(n.config)) }

  // The characters that Python's `str.strip` removes.
  predicate IsSpace(c: char)
  {
    var n := c as int;
    || 0x09 <= n <= 0x0D || 0x1C <= n <= 0x20 || n == 0x85 || n == 0xA0 || n == 0x1680
    || 0x2000 <= n <= 0x200A || n == 0x2028 || n == 0x2029 || n == 0x202F || n == 0x205F || n == 0x3000
  }

  predicate IsName(s: string) { s != [] && !IsSpace(s[0]) && !IsSpace(s[|s| - 1]) }

  predicate WithinLimits(a: Genome, limits: Limits)
  {
    && (limits.maxNodes.Some? ==> |a.nodes| <= limits.maxNodes.value)
    && (limits.maxEdges.Some? ==> |a.edges| <= limits.maxEdges.value)
    && (limits.admitted.Some? ==> forall n :: n in a.nodes ==> n.primitive in limits.admitted.value)
  }

  predicate WellFormedNodes(nodes: seq<Node>)
  {
    && nodes != [] && DistinctBy(nodes, NodeKey)
    && (forall n :: n in nodes ==> IsName(n.id) && IsName(n.primitive) && Storable(n.config))
  }

  predicate WellFormedEdges(ids: seq<string>, edges: seq<Edge>)
  {
    && NoDup(edges) && Closed(ids, edges)
    && (forall e :: e in edges ==> e.kind == FEEDFORWARD || e.kind == RECURRENT)
  }

  predicate WellFormedPorts(ids: seq<string>, ports: seq<string>)
  {
    ports != [] && NoDup(ports) && forall p :: p in ports ==> p in ids
  }

  // Everything the validator checks.
  ghost predicate Accepted(a: Genome, limits: Limits)
  {
    && a.schema == SCHEMA
    && WellFormedNodes(a.nodes)
    && WellFormedEdges(Ids(a.nodes), a.edges)
    && WellFormedPorts(Ids(a.nodes), a.inputs)
    && WellFormedPorts(Ids(a.nodes), a.outputs)
    && WithinLimits(a, limits)
    && Acyclic(a.edges)
  }

  function SortedGenome(a: Genome): Genome
  {
    Genome(a.schema, SortBy(MapSeq(NormalNode, a.nodes), NodeKey), SortBy(a.edges, EdgeKey), Sorted(a.inputs),
      Sorted(a.outputs))
  }

  ghost function Canonical(a: Genome, limits: Limits): Option<Genome>
  {
    if Accepted(a, limits) then Some(SortedGenome(a)) else None
  }

  // The same genome up to the order of its four lists.
  ghost predicate Permuted(a: Genome, b: Genome)
  {
    && a.schema == b.schema
    && multiset(a.nodes) == multiset(b.nodes) && multiset(a.edges) == multiset(b.edges)
    && multiset(a.inputs) == multiset(b.inputs) && multiset(a.outputs) == multiset(b.outputs)
  }

  ghost predicate NormalConfigs(a: Genome) { MapSeq(NormalNode, a.nodes) == a.nodes }

  // --- the canonical form is unique --------------------------------------------------------------

  lemma IdsAre(nodes: seq<Node>)
    ensures forall x :: x in Ids(nodes) <==> exists n :: n in nodes && n.id == x
    ensures NoDup(Ids(nodes)) <==> DistinctBy(nodes, NodeKey)
  {
    var ids := Ids(nodes);
    forall x | x in ids
      ensures exists n :: n in nodes && n.id == x
    {
      var i :| 0 <= i < |ids| && ids[i] == x;
      assert nodes[i] in nodes;
    }
    forall n | n in nodes
      ensures n.id in ids
    {
      var i :| 0 <= i < |nodes| && nodes[i] == n;
      assert ids[i] == n.id;
    }
    forall i, j | 0 <= i < j < |nodes|
      ensures NodeKey(nodes[i]) == NodeKey(nodes[j]) <==> ids[i] == ids[j]
    {
      assert NodeKey(nodes[i])[0] == nodes[i].id && NodeKey(nodes[j])[0] == nodes[j].id;
    }
  }

  lemma PermutedPorts(idsA: seq<string>, idsB: seq<string>, a: seq<string>, b: seq<string>)
    requires WellFormedPorts(idsA, a) && multiset(a) == multiset(b) && (forall x :: x in idsA ==> x in idsB)
    ensures WellFormedPorts(idsB, b)
  {
    SameSize(a, b);
    SameMembers(a, b);
    PermutedNoDup(a, b);
  }

  lemma PermutedNodes(a: seq<Node>, b: seq<Node>)
    requires WellFormedNodes(a) && multiset(a) == multiset(b)
    ensures WellFormedNodes(b) && multiset(Ids(a)) == multiset(Ids(b))
  {
    SameSize(a, b);
    SameMembers(a, b);
    PermutedDistinct(a, b, NodeKey);
    MapPermuted(IdOf, a, b);
  }

  lemma PermutedEdges(idsA: seq<string>, idsB: seq<string>, a: seq<Edge>, b: seq<Edge>)
    requires WellFormedEdges(idsA, a) && Acyclic(a) && multiset(a) == multiset(b) &&
      (forall x :: x in idsA ==> x in idsB)
    ensures WellFormedEdges(idsB, b) && Acyclic(b)
  {
    SameMembers(a, b);
    PermutedNoDup(a, b);
    SubgraphAcyclic(a, b);
  }

  lemma SubgraphAcyclic(a: seq<Edge>, b: seq<Edge>)
    requires Acyclic(a) && forall e :: e in b ==> e in a
    ensures Acyclic(b)
  {
    forall p
      ensures !IsCycle(b, p)
    {
      if IsCycle(b, p) {
        forall i | 0 <= i < |p| - 1
          ensures Feeds(a, p[i], p[i + 1])
        {
          assert Feeds(b, p[i], p[i + 1]);
        }
        assert IsCycle(a, p);
      }
    }
  }

  lemma PermutedAccepted(a: Genome, b: Genome, limits: Limits)
    requires Accepted(a, limits) && Permuted(a, b)
    ensures Accepted(b, limits)
  {
    PermutedNodes(a.nodes, b.nodes);
    SameMembers(Ids(a.nodes), Ids(b.nodes));
    PermutedEdges(Ids(a.nodes), Ids(b.nodes), a.edges, b.edges);
    PermutedPorts(Ids(a.nodes), Ids(b.nodes), a.inputs, b.inputs);
    PermutedPorts(Ids(a.nodes), Ids(b.nodes), a.outputs, b.outputs);
    SameSize(a.nodes, b.nodes);
    SameSize(a.edges, b.edges);
    SameMembers(a.nodes, b.nodes);
  }

  lemma EdgeKeysDiffer(edges: seq<Edge>)
    ensures Injective(edges, EdgeKey)
  {
    forall x, y | x in edges && y in edges && EdgeKey(x) == EdgeKey(y)
      ensures x == y
    {
      assert EdgeKey(x)[0] == x.kind && EdgeKey(x)[1] == x.source && EdgeKey(x)[2] == x.target;
      assert EdgeKey(y)[0] == y.kind && EdgeKey(y)[1] == y.source && EdgeKey(y)[2] == y.target;
    }
  }

  lemma StringKeysDiffer(s: seq<string>)
    ensures Injective(s, StringKey)
  {
    forall x, y | x in s && y in s && StringKey(x) == StringKey(y)
      ensures x == y
    {
      assert StringKey(x)[0] == x && StringKey(y)[0] == y;
    }
  }

  lemma NormalNodesDiffer(nodes: seq<Node>)
    requires DistinctBy(nodes, NodeKey)
    ensures Injective(MapSeq(NormalNode, nodes), NodeKey)
  {
    var normal := MapSeq(NormalNode, nodes);
    forall i, j | 0 <= i < j < |normal|
      ensures NodeKey(normal[i]) != NodeKey(normal[j])
    {
      assert NodeKey(normal[i]) == NodeKey(nodes[i]) && NodeKey(normal[j]) == NodeKey(nodes[j]);
    }
    DistinctMeans(normal, NodeKey);
  }

  lemma PermutedSortsAlike(a: Genome, b: Genome)
    requires Permuted(a, b) && DistinctBy(a.nodes, NodeKey)
    ensures SortedGenome(a) == SortedGenome(b)
  {
    MapPermuted(NormalNode, a.nodes, b.nodes);
    NormalNodesDiffer(a.nodes);
    SortIsCanonical(MapSeq(NormalNode, a.nodes), MapSeq(NormalNode, b.nodes), NodeKey);
    PortsAndEdgesSortAlike(a, b);
  }

  lemma PortsAndEdgesSortAlike(a: Genome, b: Genome)
    requires multiset(a.edges) == multiset(b.edges)
    requires multiset(a.inputs) == multiset(b.inputs) && multiset(a.outputs) == multiset(b.outputs)
    ensures SortBy(a.edges, EdgeKey) == SortBy(b.edges, EdgeKey)
    ensures Sorted(a.inputs) == Sorted(b.inputs) && Sorted(a.outputs) == Sorted(b.outputs)
  {
    EdgeKeysDiffer(a.edges);
    SortIsCanonical(a.edges, b.edges, EdgeKey);
    StringKeysDiffer(a.inputs);
    StringKeysDiffer(a.outputs);
    SortIsCanonical(a.inputs, b.inputs, StringKey);
    SortIsCanonical(a.outputs, b.outputs, StringKey);
  }

  // Two nodes that differ in how their configurations are written down, if at all.
  ghost predicate SameNode(m: Node, n: Node)
  {
    m.id == n.id && m.primitive == n.primitive && Same(m.config, n.config)
  }

  ghost predicate Copies(m: Node, nodes: seq<Node>) { exists n :: n in nodes && SameNode(m, n) }

  ghost predicate CopiedIn(n: Node, nodes: seq<Node>) { exists m :: m in nodes && SameNode(m, n) }

  // The same genome up to the order of its four lists and of the fields inside its configurations.
  ghost predicate Alike(a: Genome, b: Genome)
  {
    && a.schema == b.schema
    && (forall m :: m in a.nodes ==> Copies(m, b.nodes))
    && (forall n :: n in b.nodes ==> CopiedIn(n, a.nodes))
    && multiset(a.edges) == multiset(b.edges)
    && multiset(a.inputs) == multiset(b.inputs) && multiset(a.outputs) == multiset(b.outputs)
  }

  lemma StorableNodes(nodes: seq<Node>, m: Node)
    requires WellFormedNodes(nodes) && m in nodes
    ensures Storable(m.config) && Same(Normal(m.config), m.config)
    ensures forall n :: n in nodes && n.id == m.id ==> n == m
  {
    NormalIsSame(m.config);
    DistinctMeans(nodes, NodeKey);
    forall n | n in nodes && n.id == m.id
      ensures n == m
    {
      assert NodeKey(n) == NodeKey(m);
    }
  }

  lemma NormalNodeIn(nodes: seq<Node>, m: Node)
    requires m in nodes
    ensures NormalNode(m) in MapSeq(NormalNode, nodes)
  {
    var i :| 0 <= i < |nodes| && nodes[i] == m;
    assert MapSeq(NormalNode, nodes)[i] == NormalNode(m);
  }

  lemma EqualNormalNodes(a: seq<Node>, b: seq<Node>)
    requires WellFormedNodes(a) && WellFormedNodes(b)
    requires multiset(MapSeq(NormalNode, a)) == multiset(MapSeq(NormalNode, b))
    ensures forall m :: m in a ==> Copies(m, b)
  {
    var x, y := MapSeq(NormalNode, a), MapSeq(NormalNode, b);
    SameMembers(x, y);
    forall m | m in a
      ensures Copies(m, b)
    {
      NormalNodeIn(a, m);
      var j :| 0 <= j < |y| && y[j] == NormalNode(m);
      assert b[j] in b && NormalNode(b[j]) == NormalNode(m);
      StorableNodes(a, m);
      StorableNodes(b, b[j]);
      NormalDecides(m.config, b[j].config);
    }
  }

  lemma SameIsSymmetric(v: Value, w: Value)
    requires Storable(v) && Storable(w)
    ensures Same(v, w) <==> Same(w, v)
  {
    NormalDecides(v, w);
    NormalDecides(w, v);
  }

  lemma NormalNodesWithin(a: seq<Node>, b: seq<Node>)
    requires WellFormedNodes(a) && WellFormedNodes(b)
    requires forall m :: m in a ==> Copies(m, b)
    ensures forall x :: x in MapSeq(NormalNode, a) ==> x in MapSeq(NormalNode, b)
  {
    forall x | x in MapSeq(NormalNode, a)
      ensures x in MapSeq(NormalNode, b)
    {
      var i :| 0 <= i < |a| && MapSeq(NormalNode, a)[i] == x;
      assert a[i] in a;
      var n :| n in b && SameNode(a[i], n);
      NormalDecides(a[i].config, n.config);
      NormalNodeIn(b, n);
    }
  }

  lemma NormalNodesBackWithin(a: seq<Node>, b: seq<Node>)
    requires WellFormedNodes(a) && WellFormedNodes(b)
    requires forall n :: n in b ==> CopiedIn(n, a)
    ensures forall x :: x in MapSeq(NormalNode, b) ==> x in MapSeq(NormalNode, a)
  {
    forall n | n in b
      ensures Copies(n, a)
    {
      var m :| m in a && SameNode(m, n);
      SameIsSymmetric(m.config, n.config);
      assert SameNode(n, m);
    }
    NormalNodesWithin(b, a);
  }

  lemma AlikeNodes(a: seq<Node>, b: seq<Node>)
    requires WellFormedNodes(a) && WellFormedNodes(b)
    requires forall m :: m in a ==> Copies(m, b)
    requires forall n :: n in b ==> CopiedIn(n, a)
    ensures multiset(MapSeq(NormalNode, a)) == multiset(MapSeq(NormalNode, b))
  {
    NormalNodesWithin(a, b);
    NormalNodesBackWithin(a, b);
    var x, y := MapSeq(NormalNode, a), MapSeq(NormalNode, b);
    NormalNodesDistinct(a);
    NormalNodesDistinct(b);
    assert Elements(x) == Elements(y);
    SameElementsPermute(x, y);
  }

  lemma NormalNodesDistinct(nodes: seq<Node>)
    requires DistinctBy(nodes, NodeKey)
    ensures NoDup(MapSeq(NormalNode, nodes))
  {
    var normal := MapSeq(NormalNode, nodes);
    forall i, j | 0 <= i < j < |normal|
      ensures normal[i] != normal[j]
    {
      assert NodeKey(nodes[i])[0] == normal[i].id && NodeKey(nodes[j])[0] == normal[j].id;
    }
  }

  lemma AlikeSortsAlike(a: Genome, b: Genome)
    requires WellFormedNodes(a.nodes) && WellFormedNodes(b.nodes) && Alike(a, b)
    ensures SortedGenome(a) == SortedGenome(b)
  {
    AlikeNodes(a.nodes, b.nodes);
    NormalNodesDiffer(a.nodes);
    SortIsCanonical(MapSeq(NormalNode, a.nodes), MapSeq(NormalNode, b.nodes), NodeKey);
    PortsAndEdgesSortAlike(a, b);
  }

  lemma SortsAlikeMeansAlike(a: Genome, b: Genome)
    requires WellFormedNodes(a.nodes) && WellFormedNodes(b.nodes) && SortedGenome(a) == SortedGenome(b)
    ensures Alike(a, b)
  {
    SameSortSameElements(MapSeq(NormalNode, a.nodes), MapSeq(NormalNode, b.nodes), NodeKey);
    SameSortSameElements(a.edges, b.edges, EdgeKey);
    SameSortSameElements(a.inputs, b.inputs, StringKey);
    SameSortSameElements(a.outputs, b.outputs, StringKey);
    EqualNormalNodes(a.nodes, b.nodes);
    EqualNormalNodes(b.nodes, a.nodes);
    SameNodesBack(a.nodes, b.nodes);
  }

  lemma SameSortSameElements<T>(a: seq<T>, b: seq<T>, key: T -> Key)
    requires SortBy(a, key) == SortBy(b, key)
    ensures multiset(a) == multiset(b)
  {
  }

  lemma SameNodesBack(a: seq<Node>, b: seq<Node>)
    requires WellFormedNodes(a) && WellFormedNodes(b)
    requires forall n :: n in b ==> Copies(n, a)
    ensures forall n :: n in b ==> CopiedIn(n, a)
  {
    forall n | n in b
      ensures CopiedIn(n, a)
    {
      var m :| m in a && SameNode(n, m);
      SameIsSymmetric(n.config, m.config);
      assert SameNode(m, n);
    }
  }

  // Order is all the canonical form forgets: two accepted genomes have the same canonical form exactly when
  // they are alike. (Any two genomes that are rejected are also "equal".)
  lemma CanonicalIsUnique(a: Genome, b: Genome, limits: Limits)
    ensures Permuted(a, b) ==> Canonical(a, limits) == Canonical(b, limits)
    ensures Canonical(a, limits).Some? && Canonical(b, limits).Some? ==>
              (Canonical(a, limits) == Canonical(b, limits) <==> Alike(a, b))
  {
    if Permuted(a, b) {
      if Accepted(a, limits) {
        PermutedAccepted(a, b, limits);
        PermutedSortsAlike(a, b);
      } else if Accepted(b, limits) {
        PermutedAccepted(b, a, limits);
      }
    }
    if Accepted(a, limits) && Accepted(b, limits) {
      if Alike(a, b) {
        AlikeSortsAlike(a, b);
      } else if SortedGenome(a) == SortedGenome(b) {
        SortsAlikeMeansAlike(a, b);
      }
    }
  }

  lemma NormalNodesAccepted(nodes: seq<Node>)
    requires WellFormedNodes(nodes)
    ensures WellFormedNodes(MapSeq(NormalNode, nodes))
    ensures Ids(MapSeq(NormalNode, nodes)) == Ids(nodes)
    ensures MapSeq(NormalNode, MapSeq(NormalNode, nodes)) == MapSeq(NormalNode, nodes)
  {
    var normal := MapSeq(NormalNode, nodes);
    forall i | 0 <= i < |nodes|
      ensures Storable(normal[i].config) && NormalNode(normal[i]) == normal[i] && normal[i].id == nodes[i].id
      ensures IsName(normal[i].id) && IsName(normal[i].primitive)
    {
      assert nodes[i] in nodes;
      NormalIsFixed(nodes[i].config);
    }
    NormalNodesDiffer(nodes);
    assert Ids(normal) == Ids(nodes);
    IdsAre(nodes);
    IdsAre(normal);
  }

  lemma NormalisedAccepted(a: Genome, limits: Limits)
    requires Accepted(a, limits)
    ensures Accepted(a.(nodes := MapSeq(NormalNode, a.nodes)), limits)
  {
    NormalNodesAccepted(a.nodes);
    var normal := MapSeq(NormalNode, a.nodes);
    forall n | n in normal
      ensures exists m :: m in a.nodes && m.primitive == n.primitive
    {
      var i :| 0 <= i < |normal| && normal[i] == n;
      assert a.nodes[i] in a.nodes;
    }
  }

  lemma SortedNormalConfigs(normal: seq<Node>, sorted: seq<Node>)
    requires multiset(normal) == multiset(sorted) && MapSeq(NormalNode, normal) == normal
    ensures MapSeq(NormalNode, sorted) == sorted
  {
    SameMembers(normal, sorted);
    forall i | 0 <= i < |sorted|
      ensures NormalNode(sorted[i]) == sorted[i]
    {
      assert sorted[i] in normal;
      var j :| 0 <= j < |normal| && normal[j] == sorted[i];
      assert MapSeq(NormalNode, normal)[j] == normal[j];
    }
  }

  // A canonical form is accepted, has normal configurations and is its own canonical form.
  lemma CanonicalIsIdempotent(a: Genome, limits: Limits)
    requires Accepted(a, limits)
    ensures Accepted(SortedGenome(a), limits) && NormalConfigs(SortedGenome(a))
    ensures Canonical(SortedGenome(a), limits) == Some(SortedGenome(a))
    ensures multiset(Ids(SortedGenome(a).nodes)) == multiset(Ids(a.nodes))
  {
    var c, normal := SortedGenome(a), a.(nodes := MapSeq(NormalNode, a.nodes));
    NormalisedAccepted(a, limits);
    NormalNodesAccepted(a.nodes);
    PermutedAccepted(normal, c, limits);
    PermutedNodes(normal.nodes, c.nodes);
    SortedNormalConfigs(normal.nodes, c.nodes);
    PermutedSortsAlike(normal, c);
  }

  // --- what is accepted, and in what order it comes back -----------------------------------------

  ghost predicate EdgeBefore(e: Edge, f: Edge)
  {
    || StringLess(e.kind, f.kind)
    || (e.kind == f.kind && StringLess(e.source, f.source))
    || (e.kind == f.kind && e.source == f.source && StringLess(e.target, f.target))
  }

  ghost predicate Ascending(s: seq<string>) { forall i, j :: 0 <= i < j < |s| ==> StringLess(s[i], s[j]) }

  lemma AscendingBy<T>(s: seq<T>, key: T -> Key)
    requires SortedBy(s, key) && DistinctBy(s, key)
    ensures forall i, j :: 0 <= i < j < |s| ==> KeyLess(key(s[i]), key(s[j]))
  {
    forall i, j | 0 <= i < j < |s|
      ensures KeyLess(key(s[i]), key(s[j]))
    {
      KeyOrder(key(s[i]), key(s[j]), []);
    }
  }

  lemma SortAscends<T>(s: seq<T>, key: T -> Key)
    requires NoDup(s) && Injective(s, key)
    ensures forall i, j :: 0 <= i < j < |s| ==> KeyLess(key(SortBy(s, key)[i]), key(SortBy(s, key)[j]))
  {
    DistinctMeans(s, key);
    PermutedDistinct(s, SortBy(s, key), key);
    SortIsSorted(s, key);
    AscendingBy(SortBy(s, key), key);
  }

  lemma SortedAscends(s: seq<string>)
    requires NoDup(s)
    ensures Ascending(Sorted(s))
  {
    StringKeysDiffer(s);
    SortAscends(s, StringKey);
    var r := Sorted(s);
    forall i, j | 0 <= i < j < |r|
      ensures StringLess(r[i], r[j])
    {
      SingleKey(r[i], r[j]);
      assert KeyLess(StringKey(r[i]), StringKey(r[j]));
    }
  }

  lemma EdgesAscend(edges: seq<Edge>)
    requires NoDup(edges)
    ensures forall i, j :: 0 <= i < j < |edges| ==> EdgeBefore(SortBy(edges, EdgeKey)[i], SortBy(edges, EdgeKey)[j])
  {
    EdgeKeysDiffer(edges);
    SortAscends(edges, EdgeKey);
    var r := SortBy(edges, EdgeKey);
    forall i, j | 0 <= i < j < |r|
      ensures EdgeBefore(r[i], r[j])
    {
      TripleKey(r[i], r[j]);
      assert KeyLess(EdgeKey(r[i]), EdgeKey(r[j]));
    }
  }

  lemma TripleKey(e: Edge, f: Edge)
    ensures KeyLess(EdgeKey(e), EdgeKey(f)) <==> EdgeBefore(e, f)
  {
    assert EdgeKey(e)[1..] == [e.source, e.target] && EdgeKey(f)[1..] == [f.source, f.target];
    assert [e.source, e.target][1..] == [e.target] && [f.source, f.target][1..] == [f.target];
    SingleKey(e.target, f.target);
  }

  lemma NodesAscend(nodes: seq<Node>)
    requires DistinctBy(nodes, NodeKey)
    ensures Ascending(Ids(SortBy(MapSeq(NormalNode, nodes), NodeKey)))
  {
    NormalNodesDiffer(nodes);
    NormalNodesDistinct(nodes);
    SortAscends(MapSeq(NormalNode, nodes), NodeKey);
    var r := SortBy(MapSeq(NormalNode, nodes), NodeKey);
    forall i, j | 0 <= i < j < |r|
      ensures StringLess(Ids(r)[i], Ids(r)[j])
    {
      SingleKey(r[i].id, r[j].id);
      assert KeyLess(NodeKey(r[i]), NodeKey(r[j]));
    }
  }

  lemma NodesComeBack(nodes: seq<Node>)
    requires WellFormedNodes(nodes)
    ensures forall m :: m in SortBy(MapSeq(NormalNode, nodes), NodeKey) ==> Copies(m, nodes)
    ensures forall n :: n in nodes ==> CopiedIn(n, SortBy(MapSeq(NormalNode, nodes), NodeKey))
  {
    var normal := MapSeq(NormalNode, nodes);
    SameMembers(normal, SortBy(normal, NodeKey));
    forall m | m in normal
      ensures Copies(m, nodes)
    {
      NodeFrom(nodes, m);
    }
    forall n | n in nodes
      ensures CopiedIn(n, normal)
    {
      NodeBack(nodes, n);
    }
  }

  lemma NodeBack(nodes: seq<Node>, n: Node)
    requires WellFormedNodes(nodes) && n in nodes
    ensures CopiedIn(n, MapSeq(NormalNode, nodes))
  {
    NormalNodeIn(nodes, n);
    StorableNodes(nodes, n);
    assert SameNode(NormalNode(n), n);
  }

  lemma NodeFrom(nodes: seq<Node>, m: Node)
    requires WellFormedNodes(nodes) && m in MapSeq(NormalNode, nodes)
    ensures Copies(m, nodes)
  {
    var i :| 0 <= i < |nodes| && MapSeq(NormalNode, nodes)[i] == m;
    assert nodes[i] in nodes;
    StorableNodes(nodes, nodes[i]);
    assert SameNode(m, nodes[i]);
  }

  // A canonical form is the genome it came from, with every list in ascending order.
  lemma CanonicalIsOrdered(a: Genome, limits: Limits)
    requires Canonical(a, limits).Some?
    ensures var c := Canonical(a, limits).value;
      && Alike(c, a) && |c.nodes| == |a.nodes|
      && Ascending(Ids(c.nodes)) && Ascending(c.inputs) && Ascending(c.outputs)
      && (forall i, j :: 0 <= i < j < |c.edges| ==> EdgeBefore(c.edges[i], c.edges[j]))
      && (forall n :: n in c.nodes ==> Ordered(n.config))
  {
    NodesComeBack(a.nodes);
    NodesAscend(a.nodes);
    EdgesAscend(a.edges);
    SortedAscends(a.inputs);
    SortedAscends(a.outputs);
    ConfigsOrdered(a.nodes);
  }

  lemma ConfigsOrdered(nodes: seq<Node>)
    requires WellFormedNodes(nodes)
    ensures forall m :: m in SortBy(MapSeq(NormalNode, nodes), NodeKey) ==> Ordered(m.config)
  {
    var normal := MapSeq(NormalNode, nodes);
    SameMembers(normal, SortBy(normal, NodeKey));
    forall m | m in normal
      ensures Ordered(m.config)
    {
      var i :| 0 <= i < |normal| && normal[i] == m;
      assert nodes[i] in nodes;
      NormalIsOrdered(nodes[i].config);
    }
  }

  ghost predicate Has(nodes: seq<Node>, id: string) { exists n :: n in nodes && n.id == id }

  lemma NodesMean(nodes: seq<Node>)
    ensures WellFormedNodes(nodes) <==>
              && nodes != []
              && (forall n :: n in nodes ==> StripsToItself(n.id) && StripsToItself(n.primitive))
              && (forall n, x :: n in nodes && Inside(x, n.config) ==> !Refused(x))
              && (forall i, j :: 0 <= i < j < |nodes| ==> nodes[i].id != nodes[j].id)
  {
    IdsAre(nodes);
    forall n | n in nodes
      ensures Storable(n.config) <==> forall x :: Inside(x, n.config) ==> !Refused(x)
      ensures IsName(n.id) <==> StripsToItself(n.id)
      ensures IsName(n.primitive) <==> StripsToItself(n.primitive)
    {
      StorableMeans(n.config);
      NamesAreStripped(n.id);
      NamesAreStripped(n.primitive);
    }
  }

  lemma EdgesMean(nodes: seq<Node>, edges: seq<Edge>)
    ensures WellFormedEdges(Ids(nodes), edges) <==>
              && (forall e :: e in edges ==> e.kind == "feedforward" || e.kind == "recurrent")
              && (forall e :: e in edges ==> Has(nodes, e.source) && Has(nodes, e.target))
              && (forall i, j :: 0 <= i < j < |edges| ==> edges[i] != edges[j])
  {
    IdsAre(nodes);
  }

  lemma PortsMean(nodes: seq<Node>, ports: seq<string>)
    ensures WellFormedPorts(Ids(nodes), ports) <==>
              && ports != [] && (forall p :: p in ports ==> Has(nodes, p))
              && (forall i, j :: 0 <= i < j < |ports| ==> ports[i] != ports[j])
  {
    IdsAre(nodes);
  }

  // The validator's refusals, one by one.
  lemma AcceptedMeans(a: Genome, limits: Limits)
    ensures Canonical(a, limits).Some? <==>
              && a.schema == "genesis-cognitive-architecture-v1"
              && a.nodes != [] && a.inputs != [] && a.outputs != []
              && (forall n :: n in a.nodes ==> StripsToItself(n.id) && StripsToItself(n.primitive))
              && (forall n, x :: n in a.nodes && Inside(x, n.config) ==> !Refused(x))
              && (limits.maxNodes.Some? ==> |a.nodes| <= limits.maxNodes.value)
              && (limits.maxEdges.Some? ==> |a.edges| <= limits.maxEdges.value)
              && (forall i, j :: 0 <= i < j < |a.nodes| ==> a.nodes[i].id != a.nodes[j].id)
              && (limits.admitted.Some? ==> forall n :: n in a.nodes ==> n.primitive in limits.admitted.value)
              && (forall e :: e in a.edges ==> e.kind == "feedforward" || e.kind == "recurrent")
              && (forall e :: e in a.edges ==> Has(a.nodes, e.source) && Has(a.nodes, e.target))
              && (forall i, j :: 0 <= i < j < |a.edges| ==> a.edges[i] != a.edges[j])
              && (forall i, j :: 0 <= i < j < |a.inputs| ==> a.inputs[i] != a.inputs[j])
              && (forall i, j :: 0 <= i < j < |a.outputs| ==> a.outputs[i] != a.outputs[j])
              && (forall p :: p in a.inputs || p in a.outputs ==> Has(a.nodes, p))
              && Acyclic(a.edges)
  {
    NodesMean(a.nodes);
    EdgesMean(a.nodes, a.edges);
    PortsMean(a.nodes, a.inputs);
    PortsMean(a.nodes, a.outputs);
  }

  // `str.strip`: what is left without the spaces at both ends.
  ghost function Stripped(s: string): string
    decreases |s|
  {
    if s == "" then ""
    else if IsSpace(s[0]) then Stripped(s[1..])
    else if IsSpace(s[|s| - 1]) then Stripped(s[..|s| - 1])
    else s
  }

  ghost predicate StripsToItself(s: string) { s != "" && Stripped(s) == s }

  lemma {:induction false} StrippedIsShorter(s: string)
    ensures |Stripped(s)| <= |s|
    decreases |s|
  {
    if s != "" {
      StrippedIsShorter(s[1..]);
      StrippedIsShorter(s[..|s| - 1]);
    }
  }

  lemma NamesAreStripped(s: string)
    ensures IsName(s) <==> StripsToItself(s)
  {
    if s != "" {
      StrippedIsShorter(s[1..]);
      StrippedIsShorter(s[..|s| - 1]);
    }
  }

  // --- the validator as code ---------------------------------------------------------------------

  method CanonicalArchitecture(a: Genome, limits: Limits) returns (result: Option<Genome>)
    ensures result == Canonical(a, limits)
  {
    var ids := Ids(a.nodes);
    if a.schema != SCHEMA || !WellFormedNodes(a.nodes) || !WithinLimits(a, limits) {
      return None;
    }
    if !WellFormedEdges(ids, a.edges) || !WellFormedPorts(ids, a.inputs) || !WellFormedPorts(ids, a.outputs) {
      return None;
    }
    IdsAre(a.nodes);
    var order := FeedforwardOrder(ids, a.edges, Fifo);
    if order.None? {
      return None;
    }
    return Some(SortedGenome(a));
  }

  // --- the structural profile --------------------------------------------------------------------

  // The longest feedforward path that ends in `n` has `d` edges.
  ghost predicate DepthOf(edges: seq<Edge>, n: string, d: nat)
  {
    && (exists p :: IsPath(edges, p) && p[|p| - 1] == n && |p| == d + 1)
    && (forall p :: IsPath(edges, p) && p[|p| - 1] == n ==> |p| <= d + 1)
  }

  // The longest feedforward path anywhere has `d` edges.
  ghost predicate LongestPath(edges: seq<Edge>, d: nat)
  {
    && (exists p :: IsPath(edges, p) && |p| == d + 1)
    && (forall p :: IsPath(edges, p) ==> |p| <= d + 1)
  }

  lemma ExtendPath(edges: seq<Edge>, p: seq<string>, n: string)
    requires IsPath(edges, p) && Feeds(edges, p[|p| - 1], n)
    ensures IsPath(edges, p + [n])
  {
    var q := p + [n];
    forall i | 0 <= i < |q| - 1
      ensures Feeds(edges, q[i], q[i + 1])
    {
      if i < |p| - 1 {
        assert Feeds(edges, p[i], p[i + 1]);
      }
    }
  }

  lemma CutPath(edges: seq<Edge>, p: seq<string>)
    requires IsPath(edges, p) && |p| >= 2
    ensures IsPath(edges, p[..|p| - 1]) && Feeds(edges, p[|p| - 2], p[|p| - 1])
  {
    var i := |p| - 2;
    assert Feeds(edges, p[i], p[i + 1]);
  }

  lemma RootDepth(edges: seq<Edge>, n: string)
    requires forall s :: !Feeds(edges, s, n)
    ensures DepthOf(edges, n, 0)
  {
    assert IsPath(edges, [n]);
    forall p | IsPath(edges, p) && p[|p| - 1] == n
      ensures |p| <= 1
    {
      if |p| >= 2 {
        CutPath(edges, p);
      }
    }
  }

  lemma InnerDepth(edges: seq<Edge>, n: string, deepest: string, depth: map<string, nat>)
    requires Feeds(edges, deepest, n) && deepest in depth
    requires forall s :: Feeds(edges, s, n) ==> s in depth && DepthOf(edges, s, depth[s]) && depth[s] <= depth[deepest]
    ensures DepthOf(edges, n, depth[deepest] + 1)
  {
    var p :| IsPath(edges, p) && p[|p| - 1] == deepest && |p| == depth[deepest] + 1;
    ExtendPath(edges, p, n);
    assert (p + [n])[|p + [n]| - 1] == n;
    forall q | IsPath(edges, q) && q[|q| - 1] == n
      ensures |q| <= depth[deepest] + 2
    {
      if |q| >= 2 {
        CutPath(edges, q);
        assert q[..|q| - 1][|q| - 2] == q[|q| - 2];
      }
    }
  }

  // One node of the depth loop: zero without parents, else one more than the deepest parent.
  method NodeDepth(edges: seq<Edge>, n: string, parents: seq<string>, depth: map<string, nat>) returns (d: nat)
    requires forall s :: s in parents <==> Feeds(edges, s, n)
    requires forall s :: s in parents ==> s in depth && DepthOf(edges, s, depth[s])
    ensures DepthOf(edges, n, d)
  {
    if parents == [] {
      RootDepth(edges, n);
      return 0;
    }
    var deepest := Deepest(parents, depth);
    InnerDepth(edges, n, deepest, depth);
    return depth[deepest] + 1;
  }

  method Deepest(parents: seq<string>, depth: map<string, nat>) returns (deepest: string)
    requires parents != [] && forall s :: s in parents ==> s in depth
    ensures deepest in parents && forall s :: s in parents ==> depth[s] <= depth[deepest]
  {
    deepest := parents[0];
    for i := 1 to |parents|
      invariant deepest in parents
      invariant forall j :: 0 <= j < i ==> depth[parents[j]] <= depth[deepest]
    {
      if depth[parents[i]] > depth[deepest] {
        deepest := parents[i];
      }
    }
  }

  lemma ParentsCome(ids: seq<string>, edges: seq<Edge>, order: seq<string>, i: nat)
    requires Closed(ids, edges) && IsTopological(ids, edges, order) && i < |order|
    ensures forall s :: Feeds(edges, s, order[i]) ==> s in order[..i]
  {
    SameMembers(order, ids);
    forall s | Feeds(edges, s, order[i])
      ensures s in order[..i]
    {
      assert Edge(s, order[i], FEEDFORWARD) in edges;
      assert s in order;
      var j :| 0 <= j < |order| && order[j] == s;
      assert order[..i][j] == s;
    }
  }

  lemma DeepestIsLongest(ids: seq<string>, edges: seq<Edge>, order: seq<string>, depth: map<string, nat>, deepest: nat)
    requires order != [] && Closed(ids, edges) && IsTopological(ids, edges, order)
    requires forall n :: n in order ==> n in depth && DepthOf(edges, n, depth[n]) && depth[n] <= deepest
    requires deepest == 0 || exists n :: n in order && depth[n] == deepest
    ensures LongestPath(edges, deepest)
  {
    if deepest == 0 {
      assert IsPath(edges, [order[0]]);
    } else {
      var n :| n in order && depth[n] == deepest;
      assert DepthOf(edges, n, deepest);
    }
    SameMembers(order, ids);
    forall p | IsPath(edges, p)
      ensures |p| <= deepest + 1
    {
      if |p| >= 2 {
        CutPath(edges, p);
        assert Edge(p[|p| - 2], p[|p| - 1], FEEDFORWARD) in edges;
        assert DepthOf(edges, p[|p| - 1], depth[p[|p| - 1]]);
      }
    }
  }

  ghost predicate MeasuredUpTo(edges: seq<Edge>, done: seq<string>, depth: map<string, nat>)
  {
    forall n :: n in done ==> n in depth && DepthOf(edges, n, depth[n])
  }

  lemma MeasuredNext(edges: seq<Edge>, order: seq<string>, i: nat, depth: map<string, nat>, d: nat)
    requires i < |order| && NoDup(order) && MeasuredUpTo(edges, order[..i], depth) && DepthOf(edges, order[i], d)
    ensures order[..i + 1] == order[..i] + [order[i]] && order[i] !in order[..i]
    ensures MeasuredUpTo(edges, order[..i + 1], depth[order[i] := d])
  {
  }

  method MaxDepth(ids: seq<string>, edges: seq<Edge>, order: seq<string>) returns (deepest: nat)
    requires ids != [] && NoDup(ids) && NoDup(edges) && Closed(ids, edges) && IsTopological(ids, edges, order)
    ensures LongestPath(edges, deepest)
  {
    var depth: map<string, nat> := map[];
    deepest := 0;
    SameSize(order, ids);
    ghost var at := order[0];
    PermutedNoDup(ids, order);
    for i := 0 to |order|
      invariant MeasuredUpTo(edges, order[..i], depth)
      invariant forall n :: n in order[..i] ==> depth[n] <= deepest
      invariant deepest == 0 || (at in order[..i] && depth[at] == deepest)
    {
      var n := order[i];
      var parents := Sources(edges, n, FEEDFORWARD);
      SourcesAre(edges, n, FEEDFORWARD);
      ParentsCome(ids, edges, order, i);
      var d := NodeDepth(edges, n, parents, depth);
      MeasuredNext(edges, order, i, depth, d);
      depth := depth[n := d];
      if d > deepest {
        deepest, at := d, n;
      }
    }
    assert order[..|order|] == order;
    DeepestIsLongest(ids, edges, order, depth, deepest);
  }

  datatype Profile = Profile(nodes: nat, edges: nat, feedforward: nat, recurrent: nat, maxDepth: nat,
    primitives: map<string, nat>)

  function OfKind(edges: seq<Edge>, kind: string): seq<Edge>
  {
    if edges == [] then []
    else OfKind(edges[..|edges| - 1], kind) + (if edges[|edges| - 1].kind == kind then [edges[|edges| - 1]] else [])
  }

  lemma OneKind(init: seq<Edge>, e: Edge, kind: string)
    ensures OfKind(init + [e], kind) == OfKind(init, kind) + (if e.kind == kind then [e] else [])
    ensures multiset(OfKind(init + [e], kind))
      == multiset(OfKind(init, kind)) + (if e.kind == kind then multiset{e} else multiset{})
  {
    assert (init + [e])[..|init + [e]| - 1] == init;
  }

  lemma {:induction false} KindsSplit(edges: seq<Edge>)
    requires forall e :: e in edges ==> e.kind == FEEDFORWARD || e.kind == RECURRENT
    ensures multiset(OfKind(edges, FEEDFORWARD)) + multiset(OfKind(edges, RECURRENT)) == multiset(edges)
    decreases |edges|
  {
    if edges != [] {
      var init, e := edges[..|edges| - 1], edges[|edges| - 1];
      assert edges == init + [e] && e in edges;
      forall x | x in init ensures x.kind == FEEDFORWARD || x.kind == RECURRENT { assert x in edges; }
      KindsSplit(init);
      OneKind(init, e, FEEDFORWARD);
      OneKind(init, e, RECURRENT);
    }
  }

  lemma KindsPartition(edges: seq<Edge>)
    requires forall e :: e in edges ==> e.kind == FEEDFORWARD || e.kind == RECURRENT
    ensures |OfKind(edges, FEEDFORWARD)| + |OfKind(edges, RECURRENT)| == |edges|
    ensures multiset(OfKind(edges, FEEDFORWARD)) + multiset(OfKind(edges, RECURRENT)) == multiset(edges)
  {
    KindsSplit(edges);
    SizesAdd(OfKind(edges, FEEDFORWARD), OfKind(edges, RECURRENT), edges);
  }

  lemma {:induction false} OfKindAre(edges: seq<Edge>, kind: string)
    requires NoDup(edges)
    ensures NoDup(OfKind(edges, kind)) && forall e :: e in OfKind(edges, kind) <==> e in edges && e.kind == kind
    decreases |edges|
  {
    if edges != [] {
      var init, e := edges[..|edges| - 1], edges[|edges| - 1];
      NoDupInit(edges);
      OfKindAre(init, kind);
      assert edges == init + [e] && e !in init;
    }
  }

  lemma KindsAreCounted(a: seq<Edge>, c: seq<Edge>, kind: string)
    requires NoDup(c) && forall e :: e in a <==> e in c
    ensures |OfKind(c, kind)| == |set e | e in a && e.kind == kind|
  {
    OfKindAre(c, kind);
    NoDupSize(OfKind(c, kind));
    assert Elements(OfKind(c, kind)) == set e | e in a && e.kind == kind;
  }

  lemma SizesAdd<T>(a: seq<T>, b: seq<T>, all: seq<T>)
    requires multiset(a) + multiset(b) == multiset(all)
    ensures |a| + |b| == |all|
  {
    assert |multiset(a) + multiset(b)| == |multiset(all)|;
  }

  function PrimitiveOf(n: Node): string { n.primitive }

  method StructuralProfile(a: Genome, limits: Limits) returns (result: Option<Profile>)
    ensures result.Some? <==> Accepted(a, limits)
    ensures result.Some? ==>
              var p := result.value;
              && p.nodes == |a.nodes| && p.edges == |a.edges| == p.feedforward + p.recurrent
              && p.feedforward == |set e | e in a.edges && e.kind == "feedforward"|
              && p.recurrent == |set e | e in a.edges && e.kind == "recurrent"|
              && LongestPath(a.edges, p.maxDepth)
              && (forall name :: name in p.primitives <==> exists n :: n in a.nodes && n.primitive == name)
              && (forall name :: name in p.primitives ==>
                 p.primitives[name] == multiset(MapSeq(PrimitiveOf, a.nodes))[name])
  {
    var canonical := CanonicalArchitecture(a, limits);
    if canonical.None? {
      return None;
    }
    var c := canonical.value;
    CanonicalIsIdempotent(a, limits);
    IdsAre(c.nodes);
    var order := FeedforwardOrder(Ids(c.nodes), c.edges, Fifo);
    var depth := MaxDepth(Ids(c.nodes), c.edges, order.value);
    SameMembers(a.edges, c.edges);
    SamePaths(a.edges, c.edges, depth);
    KindsPartition(c.edges);
    KindsAreCounted(a.edges, c.edges, FEEDFORWARD);
    KindsAreCounted(a.edges, c.edges, RECURRENT);
    var primitives := CountPrimitives(a.nodes);
    return Some(Profile(|c.nodes|, |c.edges|, |OfKind(c.edges, FEEDFORWARD)|, |OfKind(c.edges, RECURRENT)|, depth,
      primitives));
  }

  lemma SamePaths(a: seq<Edge>, b: seq<Edge>, d: nat)
    requires (forall e :: e in a <==> e in b) && LongestPath(b, d)
    ensures LongestPath(a, d)
  {
    forall p
      ensures IsPath(a, p) <==> IsPath(b, p)
    {
      forall i | 0 <= i < |p| - 1
        ensures Feeds(a, p[i], p[i + 1]) <==> Feeds(b, p[i], p[i + 1])
      {
      }
    }
  }

  method CountPrimitives(nodes: seq<Node>) returns (counts: map<string, nat>)
    ensures forall name :: name in counts <==> exists n :: n in nodes && n.primitive == name
    ensures forall name :: name in counts ==> counts[name] == multiset(MapSeq(PrimitiveOf, nodes))[name]
  {
    var names := MapSeq(PrimitiveOf, nodes);
    counts := map[];
    for i := 0 to |names|
      invariant forall name :: name in counts <==> name in names[..i]
      invariant forall name :: name in counts ==> counts[name] == multiset(names[..i])[name]
    {
      assert names[..i + 1] == names[..i] + [names[i]];
      counts := counts[names[i] := (if names[i] in counts then counts[names[i]] else 0) + 1];
    }
    assert names[..|names|] == names;
    forall name
      ensures name in names <==> exists n :: n in nodes && n.primitive == name
    {
      if name in names {
        var i :| 0 <= i < |names| && names[i] == name;
        assert nodes[i] in nodes;
      }
      if n :| n in nodes && n.primitive == name {
        var i :| 0 <= i < |nodes| && nodes[i] == n;
        assert names[i] == name;
      }
    }
  }
}
