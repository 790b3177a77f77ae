/**
 Which descendants the search reaches.  A proposal of the stream fails only for a reason the stream
 cannot see locally: a feedforward cycle, or a full node or edge budget.  Different proposals of one
 stream always give different children, so the search's own duplicate test never fires and the
 enumeration is the list of fitting proposals, cut at the limit.
 */
module Descendants {
  import opened Wrappers
  import opened Orders
  import opened Graph
  import opened Architecture
  import opened Mutation
  import opened Search
  import opened SearchProperties
  import ConfigValue

  // --- one more edge ---------------------------------------------------------------------------------

  ghost predicate Connected(edges: seq<Edge>, a: string, b: string)
  {
    exists p :: IsPath(edges, p) && p[0] == a && p[|p| - 1] == b
  }

  lemma ConnectedStep(edges: seq<Edge>, a: string, b: string, c: string)
    requires Connected(edges, a, b) && Feeds(edges, b, c)
    ensures Connected(edges, a, c)
  {
    var p :| IsPath(edges, p) && p[0] == a && p[|p| - 1] == b;
    ExtendPath(edges, p, c);
    assert (p + [c])[0] == a;
  }

  lemma ConnectedSelf(edges: seq<Edge>, a: string)
    ensures Connected(edges, a, a)
  {
    assert IsPath(edges, [a]);
  }

  lemma JoinPaths(edges: seq<Edge>, p: seq<string>, q: seq<string>)
    requires IsPath(edges, p) && IsPath(edges, q) && p[|p| - 1] == q[0]
    ensures IsPath(edges, p + q[1..])
  {
    var r := p + q[1..];
    forall i | 0 <= i < |r| - 1
      ensures Feeds(edges, r[i], r[i + 1])
    {
      if i < |p| - 1 {
        assert Feeds(edges, p[i], p[i + 1]);
      } else {
        var k := i - (|p| - 1);
        assert r[i] == q[k] && r[i + 1] == q[k + 1];
        assert Feeds(edges, q[k], q[k + 1]);
      }
    }
  }

  lemma ConnectedJoin(edges: seq<Edge>, a: string, b: string, c: string)
    requires Connected(edges, a, b) && Connected(edges, b, c)
    ensures Connected(edges, a, c)
  {
    var p :| IsPath(edges, p) && p[0] == a && p[|p| - 1] == b;
    var q :| IsPath(edges, q) && q[0] == b && q[|q| - 1] == c;
    JoinPaths(edges, p, q);
    var r := p + q[1..];
    assert r[0] == a && r[|r| - 1] == c;
  }

  // A path that may use the new edge `s -> t` is an old path, or reaches `s` and leaves from `t`.
  lemma {:induction false} PathWithEdge(edges: seq<Edge>, s: string, t: string, p: seq<string>)
    requires IsPath(edges + [Edge(s, t, FEEDFORWARD)], p)
    ensures IsPath(edges, p) || (Connected(edges, p[0], s) && Connected(edges, t, p[|p| - 1]))
    decreases |p|
  {
    var more := edges + [Edge(s, t, FEEDFORWARD)];
    if |p| >= 2 {
      var init, last, n := p[..|p| - 1], p[|p| - 2], p[|p| - 1];
      CutPath(more, p);
      PathWithEdge(edges, s, t, init);
      assert init[|init| - 1] == last && init[0] == p[0];
      if Feeds(edges, last, n) {
        if IsPath(edges, init) {
          ExtendPath(edges, init, n);
          assert init + [n] == p;
        } else {
          ConnectedStep(edges, t, last, n);
        }
      } else {
        assert last == s && n == t;
        ConnectedSelf(edges, t);
        if IsPath(edges, init) {
          assert Connected(edges, p[0], s);
        }
      }
    }
  }

  // Adding a feedforward edge closes a cycle exactly when its target already leads to its source.
  lemma AddedEdgeCloses(edges: seq<Edge>, s: string, t: string)
    requires Acyclic(edges)
    ensures Acyclic(edges + [Edge(s, t, FEEDFORWARD)]) <==> !Connected(edges, t, s)
  {
    var more := edges + [Edge(s, t, FEEDFORWARD)];
    if Connected(edges, t, s) {
      var p :| IsPath(edges, p) && p[0] == t && p[|p| - 1] == s;
      assert IsPath(more, [s, t]);
      forall i | 0 <= i < |p| - 1
        ensures Feeds(more, p[i], p[i + 1])
      {
        assert Feeds(edges, p[i], p[i + 1]);
      }
      JoinPaths(more, [s, t], p);
      assert IsCycle(more, [s, t] + p[1..]);
    } else {
      forall p
        ensures !IsCycle(more, p)
      {
        if IsCycle(more, p) {
          PathWithEdge(edges, s, t, p);
          assert !IsCycle(edges, p);
          ConnectedJoin(edges, t, p[0], s);
        }
      }
    }
  }

  lemma RecurrentEdgeIsHarmless(edges: seq<Edge>, e: Edge)
    requires Acyclic(edges) && e.kind != FEEDFORWARD
    ensures Acyclic(edges + [e])
  {
    var more := edges + [e];
    forall p
      ensures !IsCycle(more, p)
    {
      if IsCycle(more, p) {
        forall i | 0 <= i < |p| - 1
          ensures Feeds(edges, p[i], p[i + 1])
        {
          assert Feeds(more, p[i], p[i + 1]);
        }
        assert IsCycle(edges, p);
      }
    }
  }

  // --- what the stream contains ------------------------------------------------------------------------

  lemma {:induction false} FlatMapFrom<T, U>(f: T -> seq<U>, s: seq<T>, u: U) returns (t: T)
    requires u in FlatMap(f, s)
    ensures t in s && u in f(t)
    decreases |s|
  {
    t := s[0];
    if u !in f(s[0]) {
      t := FlatMapFrom(f, s[1..], u);
    }
  }

  lemma {:induction false} FlatMapInto<T, U>(f: T -> seq<U>, s: seq<T>, t: T, u: U)
    requires t in s && u in f(t)
    ensures u in FlatMap(f, s)
    decreases |s|
  {
    if u !in f(s[0]) {
      assert t in s[1..];
      FlatMapInto(f, s[1..], t, u);
    }
  }

  lemma FlatMapMembers<T, U>(f: T -> seq<U>, s: seq<T>)
    ensures forall u :: u in FlatMap(f, s) <==> exists t :: t in s && u in f(t)
  {
    forall u
      ensures u in FlatMap(f, s) <==> exists t :: t in s && u in f(t)
    {
      if u in FlatMap(f, s) {
        var t := FlatMapFrom(f, s, u);
      }
      if t :| t in s && u in f(t) {
        FlatMapInto(f, s, t, u);
      }
    }
  }

  lemma {:induction false} FlatMapNoDup<T, U>(f: T -> seq<U>, s: seq<T>)
    requires NoDup(s) && (forall t :: t in s ==> NoDup(f(t)))
    requires forall t, t', u :: t in s && t' in s && u in f(t) && u in f(t') ==> t == t'
    ensures NoDup(FlatMap(f, s))
    decreases |s|
  {
    if s != [] {
      var head, tail := f(s[0]), FlatMap(f, s[1..]);
      assert s[0] in s && s[0] !in s[1..] && forall t :: t in s[1..] ==> t in s;
      FlatMapNoDup(f, s[1..]);
      forall u | u in tail
        ensures u !in head
      {
        var t := FlatMapFrom(f, s[1..], u);
        assert t in s && t != s[0];
      }
      NoDupConcat(head, tail);
    }
  }

  lemma NoDupConcat<T>(a: seq<T>, b: seq<T>)
    requires NoDup(a) && NoDup(b) && forall x :: x in b ==> x !in a
    ensures NoDup(a + b)
  {
    forall i, j | 0 <= i < j < |a + b|
      ensures (a + b)[i] != (a + b)[j]
    {
      if i < |a| <= j {
        assert b[j - |a|] in b;
      }
    }
  }

  // --- the members of the stream -------------------------------------------------------------------------

  ghost predicate EdgeToAdd(c: Genome, e: Edge)
  {
    && e.source in Ids(c.nodes) && e.target in Ids(c.nodes) && e.target !in c.inputs
    && (e.kind == FEEDFORWARD ==> e.source != e.target) && e !in c.edges
  }

  // A proposal of one kind that the policy may make about the canonical parent `c`.
  ghost predicate InStream(c: Genome, p: Policy, q: Proposal)
  {
    match q
    case ReplacePrimitive(node, x) =>
      node !in c.inputs && x in p.primitives && exists n :: n in c.nodes && n.id == node && n.primitive != x
    case AddEdge(e) => (e.kind == FEEDFORWARD || e.kind == RECURRENT) && EdgeToAdd(c, e)
    case RemoveEdge(e) => e in c.edges
    case AddNode(n) => n.id == FreshId(Ids(c.nodes)) && n.config == ConfigValue.Dict([]) && n.primitive in p.primitives
    case RemoveNode(id) => id in Ids(c.nodes) && id !in c.inputs && id !in c.outputs
    case _ => false
  }

  function KindOf(q: Proposal): string
  {
    match q
    case ReplacePrimitive(_, _) => "replace_primitive"
    case AddEdge(_) => "add_edge"
    case RemoveEdge(_) => "remove_edge"
    case AddNode(_) => "add_node"
    case RemoveNode(_) => "remove_node"
    case _ => ""
  }

  // What the enumeration guarantees about its parent and policy.
  ghost predicate StreamReady(c: Genome, p: Policy)
  {
    && NoDup(p.kinds) && (forall k :: k in p.kinds ==> k in SUPPORTED) && NoDup(p.primitives)
    && DistinctBy(c.nodes, NodeKey) && NoDup(c.edges)
  }

  lemma ReplacementsOfAre(c: Genome, p: Policy, n: Node)
    requires NoDup(p.primitives)
    ensures forall q :: q in ReplacementsOf(c, p, n) <==>
              n.id !in c.inputs && q.ReplacePrimitive? && q.node == n.id && q.primitive in p.primitives &&
                q.primitive != n.primitive
    ensures NoDup(ReplacementsOf(c, p, n))
  {
    var f := (x: string) => Replacement(n, x);
    FlatMapMembers(f, p.primitives);
    FlatMapNoDup(f, p.primitives);
  }

  lemma ReplacementsAre(c: Genome, p: Policy)
    requires NoDup(p.primitives) && DistinctBy(c.nodes, NodeKey)
    ensures forall q :: q in StreamOf(c, p, "replace_primitive") <==> q.ReplacePrimitive? && InStream(c, p, q)
    ensures NoDup(StreamOf(c, p, "replace_primitive"))
  {
    var f := (n: Node) => ReplacementsOf(c, p, n);
    forall n: Node
      ensures NoDup(f(n))
      ensures forall q :: q in f(n) <==>
                n.id !in c.inputs && q.ReplacePrimitive? && q.node == n.id && q.primitive in p.primitives &&
                  q.primitive != n.primitive
    {
      ReplacementsOfAre(c, p, n);
    }
    DistinctMeans(c.nodes, NodeKey);
    FlatMapMembers(f, c.nodes);
    FlatMapNoDup(f, c.nodes);
  }

  lemma MissingFromAre(c: Genome, kind: string, source: string)
    requires NoDup(Ids(c.nodes)) && source in Ids(c.nodes)
    ensures forall q :: q in MissingFrom(c, kind, source) <==>
              q.AddEdge? && q.edge.kind == kind && q.edge.source == source && EdgeToAdd(c, q.edge)
    ensures NoDup(MissingFrom(c, kind, source))
  {
    var f := (target: string) => MissingEdge(c, kind, source, target);
    FlatMapMembers(f, Ids(c.nodes));
    FlatMapNoDup(f, Ids(c.nodes));
    forall q: Proposal | q.AddEdge? && q.edge.kind == kind && q.edge.source == source && EdgeToAdd(c, q.edge)
      ensures q in MissingFrom(c, kind, source)
    {
      assert q in f(q.edge.target);
    }
  }

  lemma MissingEdgesAre(c: Genome, kind: string)
    requires NoDup(Ids(c.nodes))
    ensures forall q :: q in MissingEdges(c, kind) <==> q.AddEdge? && q.edge.kind == kind && EdgeToAdd(c, q.edge)
    ensures NoDup(MissingEdges(c, kind))
  {
    var f := (source: string) => MissingFrom(c, kind, source);
    forall source | source in Ids(c.nodes)
      ensures NoDup(f(source))
      ensures forall q :: q in f(source) <==>
        q.AddEdge? && q.edge.kind == kind && q.edge.source == source && EdgeToAdd(c, q.edge)
    {
      MissingFromAre(c, kind, source);
    }
    FlatMapMembers(f, Ids(c.nodes));
    FlatMapNoDup(f, Ids(c.nodes));
    forall q: Proposal | q.AddEdge? && q.edge.kind == kind && EdgeToAdd(c, q.edge)
      ensures q in MissingEdges(c, kind)
    {
      assert q in f(q.edge.source);
    }
  }

  lemma SimpleStreams(c: Genome, p: Policy)
    requires StreamReady(c, p)
    ensures forall q :: q in StreamOf(c, p, "remove_edge") <==> q.RemoveEdge? && InStream(c, p, q)
    ensures forall q :: q in StreamOf(c, p, "add_node") <==> q.AddNode? && InStream(c, p, q)
    ensures forall q :: q in StreamOf(c, p, "remove_node") <==> q.RemoveNode? && InStream(c, p, q)
    ensures NoDup(StreamOf(c, p, "remove_edge")) && NoDup(StreamOf(c, p, "add_node")) &&
      NoDup(StreamOf(c, p, "remove_node"))
  {
    var e, n, r := (e: Edge) => [RemoveEdge(e)], (x: string) => NewNode(c, x), (id: string) => Removal(c, id);
    IdsAre(c.nodes);
    FlatMapMembers(e, c.edges);
    FlatMapNoDup(e, c.edges);
    FlatMapMembers(n, p.primitives);
    FlatMapNoDup(n, p.primitives);
    FlatMapMembers(r, Ids(c.nodes));
    FlatMapNoDup(r, Ids(c.nodes));
  }

  lemma MissingStream(c: Genome, p: Policy)
    requires StreamReady(c, p)
    ensures forall q :: q in StreamOf(c, p, "add_edge") <==> q.AddEdge? && InStream(c, p, q)
    ensures NoDup(StreamOf(c, p, "add_edge"))
  {
    IdsAre(c.nodes);
    MissingEdgesAre(c, FEEDFORWARD);
    MissingEdgesAre(c, RECURRENT);
    NoDupConcat(MissingEdges(c, FEEDFORWARD), MissingEdges(c, RECURRENT));
  }

  lemma KindStream(c: Genome, p: Policy, kind: string)
    requires StreamReady(c, p) && kind in SUPPORTED
    ensures forall q :: q in StreamOf(c, p, kind) <==> KindOf(q) == kind && InStream(c, p, q)
    ensures NoDup(StreamOf(c, p, kind))
  {
    SimpleStreams(c, p);
    ReplacementsAre(c, p);
    MissingStream(c, p);
  }

  // The stream holds each proposal of its policy's kinds exactly once.
  lemma StreamMembers(c: Genome, p: Policy)
    requires StreamReady(c, p)
    ensures forall q :: q in ProposalStream(c, p) <==> KindOf(q) in p.kinds && InStream(c, p, q)
    ensures NoDup(ProposalStream(c, p))
  {
    var f := (kind: string) => StreamOf(c, p, kind);
    forall kind | kind in p.kinds
      ensures NoDup(f(kind)) && forall q :: q in f(kind) <==> KindOf(q) == kind && InStream(c, p, q)
    {
      KindStream(c, p, kind);
    }
    FlatMapMembers(f, p.kinds);
    FlatMapNoDup(f, p.kinds);
  }

  // --- which proposals succeed -----------------------------------------------------------------------------

  // The only obstacles the stream does not rule out itself.
  ghost predicate Fits(c: Genome, bounds: Bounds, q: Proposal)
  {
    match q
    case AddEdge(e) => |c.edges| < bounds.maxEdges &&
      (e.kind == FEEDFORWARD ==> !Connected(c.edges, e.target, e.source))
    case AddNode(_) => |c.nodes| < bounds.maxNodes
    case _ => true
  }

  ghost predicate Names(p: Policy, admitted: set<string>)
  {
    "source" !in admitted && forall x :: x in p.primitives ==> x in admitted && IsName(x)
  }

  lemma ReplacedNodesFit(nodes: seq<Node>, i: nat, x: string)
    requires i < |nodes| && WellFormedNodes(nodes) && IsName(x)
    ensures WellFormedNodes(nodes[i := nodes[i].(primitive := x)])
    ensures Ids(nodes[i := nodes[i].(primitive := x)]) == Ids(nodes)
  {
    var changed := nodes[i := nodes[i].(primitive := x)];
    assert Ids(changed) == Ids(nodes);
    IdsAre(nodes);
    IdsAre(changed);
    assert nodes[i] in nodes;
    forall n | n in changed
      ensures IsName(n.id) && IsName(n.primitive) && ConfigValue.Storable(n.config)
    {
      assert n in nodes || n == changed[i];
    }
  }

  lemma ReplaceFits(c: Genome, p: Policy, q: Proposal, admitted: set<string>, bounds: Bounds)
    requires Accepted(c, Admission(admitted, bounds)) && Names(p, admitted) && q.ReplacePrimitive? && InStream(c, p, q)
    ensures Edit(c, q, admitted).Some? && Accepted(Edit(c, q, admitted).value, Admission(admitted, bounds))
  {
    IdsAre(c.nodes);
    var i := Find(c.nodes, q.node);
    ReplacedNodesFit(c.nodes, i, q.primitive);
    var nodes := c.nodes[i := c.nodes[i].(primitive := q.primitive)];
    forall n | n in nodes
      ensures n.primitive in admitted + {"source"}
    {
      assert n in c.nodes || n == nodes[i];
    }
  }

  lemma {:induction false} DropEdgeFacts(edges: seq<Edge>, e: Edge)
    requires NoDup(edges)
    ensures NoDup(DropEdge(edges, e)) && |DropEdge(edges, e)| <= |edges|
    ensures forall x :: x in DropEdge(edges, e) ==> x in edges
    decreases |edges|
  {
    if edges != [] && edges[0] != e {
      DropEdgeFacts(edges[1..], e);
      assert edges[0] !in edges[1..];
    }
  }

  lemma RemoveEdgeFits(c: Genome, q: Proposal, admitted: set<string>, bounds: Bounds)
    requires Accepted(c, Admission(admitted, bounds)) && q.RemoveEdge? && q.edge in c.edges
    ensures Edit(c, q, admitted).Some? && Accepted(Edit(c, q, admitted).value, Admission(admitted, bounds))
  {
    DropEdgeFacts(c.edges, q.edge);
    SubgraphAcyclic(c.edges, DropEdge(c.edges, q.edge));
  }

  lemma AddEdgeFits(c: Genome, p: Policy, q: Proposal, admitted: set<string>, bounds: Bounds)
    requires Accepted(c, Admission(admitted, bounds)) && q.AddEdge? && InStream(c, p, q)
    ensures Edit(c, q, admitted).Some?
    ensures Accepted(Edit(c, q, admitted).value, Admission(admitted, bounds)) <==> Fits(c, bounds, q)
  {
    var e := q.edge;
    assert WellFormedEdges(Ids(c.nodes), c.edges + [e]);
    if e.kind == FEEDFORWARD {
      AddedEdgeCloses(c.edges, e.source, e.target);
      assert e == Edge(e.source, e.target, FEEDFORWARD);
    } else {
      RecurrentEdgeIsHarmless(c.edges, e);
    }
  }

  lemma GeneratedIsName(n: nat)
    ensures IsName(Generated(n))
  {
    var s := Generated(n);
    assert s[0] == 'c';
    assert s[|s| - 1] == Decimal(n)[|Decimal(n)| - 1];
    LastDigit(n);
  }

  lemma LastDigit(n: nat)
    ensures '0' <= Decimal(n)[|Decimal(n)| - 1] <= '9'
  {
    assert Decimal(n)[|Decimal(n)| - 1] == ["0", "1", "2", "3", "4", "5", "6", "7", "8", "9"][n % 10][0];
  }

  lemma AddNodeFits(c: Genome, p: Policy, q: Proposal, admitted: set<string>, bounds: Bounds)
    requires Accepted(c, Admission(admitted, bounds)) && Names(p, admitted) && q.AddNode? && InStream(c, p, q)
    ensures Edit(c, q, admitted).Some?
    ensures Accepted(Edit(c, q, admitted).value, Admission(admitted, bounds)) <==> Fits(c, bounds, q)
  {
    var nodes := c.nodes + [q.added];
    GeneratedIsName(FreshIndex(Ids(c.nodes), 0));
    assert q.added.id !in Ids(c.nodes) by {
      assert FirstFree(Elements(Ids(c.nodes)), FreshIndex(Ids(c.nodes), 0));
    }
    assert Ids(nodes) == Ids(c.nodes) + [q.added.id];
    IdsAre(c.nodes);
    IdsAre(nodes);
    NoDupConcat(Ids(c.nodes), [q.added.id]);
  }

  lemma KeptIds(nodes: seq<Node>, id: string)
    requires DistinctBy(nodes, NodeKey) && id in Ids(nodes)
    ensures DistinctBy(DropNode(nodes, id), NodeKey) && |DropNode(nodes, id)| == |nodes| - 1
    ensures forall x :: x in Ids(DropNode(nodes, id)) <==> x in Ids(nodes) && x != id
  {
    var kept, i := DropNode(nodes, id), Find(nodes, id);
    DropNodeIsWithout(nodes, id);
    IdsAre(nodes);
    assert Ids(kept) == Without(Ids(nodes), i);
    WithoutMembers(Ids(nodes), i);
    IdsAre(kept);
  }

  lemma KeptNodesFit(nodes: seq<Node>, id: string, other: string)
    requires WellFormedNodes(nodes) && id in Ids(nodes) && other in Ids(nodes) && other != id
    ensures WellFormedNodes(DropNode(nodes, id)) && |DropNode(nodes, id)| == |nodes| - 1
    ensures forall x :: x in Ids(DropNode(nodes, id)) <==> x in Ids(nodes) && x != id
    ensures forall n :: n in DropNode(nodes, id) ==> n in nodes
  {
    KeptIds(nodes, id);
    DropNodeMembers(nodes, id);
    assert other in Ids(DropNode(nodes, id));
  }

  lemma WithoutMembers<T>(s: seq<T>, i: nat)
    requires i < |s| && NoDup(s)
    ensures NoDup(Without(s, i))
    ensures forall x :: x in Without(s, i) <==> x in s && x != s[i]
  {
    var r := Without(s, i);
    forall j | 0 <= j < |r|
      ensures r[j] == s[if j < i then j else j + 1]
    {
    }
    forall x | x in s && x != s[i]
      ensures x in r
    {
      var j :| 0 <= j < |s| && s[j] == x;
      assert r[if j < i then j else j - 1] == x;
    }
  }

  lemma {:induction false} DropIncidentNoDup(edges: seq<Edge>, id: string)
    requires NoDup(edges)
    ensures NoDup(DropIncident(edges, id))
    decreases |edges|
  {
    if edges != [] {
      DropIncidentNoDup(edges[1..], id);
      DropIncidentMembers(edges[1..], id);
      assert edges[0] !in edges[1..];
    }
  }

  lemma RemoveNodeFits(c: Genome, p: Policy, q: Proposal, admitted: set<string>, bounds: Bounds)
    requires Accepted(c, Admission(admitted, bounds)) && q.RemoveNode? && InStream(c, p, q)
    ensures Edit(c, q, admitted).Some? && Accepted(Edit(c, q, admitted).value, Admission(admitted, bounds))
  {
    KeptNodesFit(c.nodes, q.node, c.inputs[0]);
    DropIncidentMembers(c.edges, q.node);
    DropIncidentNoDup(c.edges, q.node);
    SubgraphAcyclic(c.edges, DropIncident(c.edges, q.node));
  }

  // A proposal of the stream succeeds exactly when it fits.
  lemma StreamSucceeds(c: Genome, p: Policy, q: Proposal, admitted: set<string>, bounds: Bounds)
    requires IsCanonical(c, Admission(admitted, bounds)) && Names(p, admitted) && InStream(c, p, q)
    ensures Edit(c, q, admitted).Some?
    ensures Accepted(Edit(c, q, admitted).value, Admission(admitted, bounds)) <==> Fits(c, bounds, q)
    ensures Mutate(c, q, admitted, bounds) ==
              if Fits(c, bounds, q) then Child(SortedGenome(Edit(c, q, admitted).value)) else Rejected
  {
    CanonicalFacts(c, Admission(admitted, bounds));
    MutateOfCanonical(c, q, admitted, bounds);
    match q
    case ReplacePrimitive(_, _) => ReplaceFits(c, p, q, admitted, bounds);
    case AddEdge(_) => AddEdgeFits(c, p, q, admitted, bounds);
    case RemoveEdge(_) => RemoveEdgeFits(c, q, admitted, bounds);
    case AddNode(_) => AddNodeFits(c, p, q, admitted, bounds);
    case RemoveNode(_) => RemoveNodeFits(c, p, q, admitted, bounds);
    case _ =>
  }

  // --- different proposals, different children --------------------------------------------------------------

  ghost function EdgesAfter(c: Genome, q: Proposal): multiset<Edge>
  {
    match q
    case AddEdge(e) => multiset(c.edges) + multiset{e}
    case RemoveEdge(e) => multiset(c.edges) - multiset{e}
    case RemoveNode(id) => multiset(DropIncident(c.edges, id))
    case _ => multiset(c.edges)
  }

  lemma EditedEdges(c: Genome, q: Proposal, admitted: set<string>)
    requires Edit(c, q, admitted).Some?
    ensures multiset(Edit(c, q, admitted).value.edges) == EdgesAfter(c, q)
  {
    if q.RemoveEdge? {
      DropEdgeCounts(c.edges, q.edge);
    }
  }

  lemma ChildLists(c: Genome, q: Proposal, admitted: set<string>, limits: Limits)
    requires IsCanonical(c, limits) && Edit(c, q, admitted).Some? && Accepted(Edit(c, q, admitted).value, limits)
    ensures var child := SortedGenome(Edit(c, q, admitted).value);
            multiset(child.nodes) == NodesAfter(c, q) && multiset(child.edges) == EdgesAfter(c, q)
  {
    ChildOf(c, q, admitted, limits);
    EditedEdges(c, q, admitted);
  }

  // How the sizes of the two lists tell the kinds of proposals apart.
  lemma SizesTellKinds(c: Genome, p: Policy, q: Proposal)
    requires InStream(c, p, q)
    ensures q.ReplacePrimitive? ==> |NodesAfter(c, q)| == |c.nodes| && |EdgesAfter(c, q)| == |c.edges|
    ensures q.AddEdge? ==> |NodesAfter(c, q)| == |c.nodes| && |EdgesAfter(c, q)| == |c.edges| + 1
    ensures q.RemoveEdge? ==> |NodesAfter(c, q)| == |c.nodes| && |EdgesAfter(c, q)| == |c.edges| - 1
    ensures q.AddNode? ==> |NodesAfter(c, q)| == |c.nodes| + 1
    ensures q.RemoveNode? ==> |NodesAfter(c, q)| == |c.nodes| - 1
  {
    assert |multiset(c.nodes)| == |c.nodes| && |multiset(c.edges)| == |c.edges|;
    if q.RemoveEdge? {
      assert q.edge in multiset(c.edges);
    }
    if q.ReplacePrimitive? {
      IdsAre(c.nodes);
    }
    if q.ReplacePrimitive? || q.RemoveNode? {
      assert c.nodes[Find(c.nodes, q.node)] in multiset(c.nodes);
    }
  }

  lemma ReplacementsDiffer(c: Genome, p: Policy, q: Proposal, r: Proposal)
    requires DistinctBy(c.nodes, NodeKey) && InStream(c, p, q) && InStream(c, p, r) && q != r
    requires q.ReplacePrimitive? && r.ReplacePrimitive?
    ensures NodesAfter(c, q) != NodesAfter(c, r)
  {
    IdsAre(c.nodes);
    var qOld, rOld := c.nodes[Find(c.nodes, q.node)], c.nodes[Find(c.nodes, r.node)];
    var qNew, rNew := qOld.(primitive := q.primitive), rOld.(primitive := r.primitive);
    ReplacedDiffers(c, p, q);
    assert qNew in NodesAfter(c, q) && qNew != rNew;
    assert qNew !in NodesAfter(c, r);
  }

  // The replaced node was not there before.
  lemma ReplacedDiffers(c: Genome, p: Policy, q: Proposal)
    requires DistinctBy(c.nodes, NodeKey) && InStream(c, p, q) && q.ReplacePrimitive?
    ensures q.node in Ids(c.nodes)
    ensures c.nodes[Find(c.nodes, q.node)].(primitive := q.primitive) !in multiset(c.nodes)
    ensures NodesAfter(c, q) != multiset(c.nodes)
  {
    IdsAre(c.nodes);
    var n :| n in c.nodes && n.id == q.node && n.primitive != q.primitive;
    FindIs(c.nodes, n);
    var new_ := n.(primitive := q.primitive);
    if new_ in c.nodes {
      FindIs(c.nodes, new_);
    }
    assert new_ in NodesAfter(c, q);
  }

  lemma SameKindDiffers(c: Genome, p: Policy, q: Proposal, r: Proposal)
    requires DistinctBy(c.nodes, NodeKey) && InStream(c, p, q) && InStream(c, p, r) && q != r && KindOf(q) == KindOf(r)
    ensures NodesAfter(c, q) != NodesAfter(c, r) || EdgesAfter(c, q) != EdgesAfter(c, r)
  {
    match q
    case ReplacePrimitive(_, _) => ReplacementsDiffer(c, p, q, r);
    case AddEdge(e) => OneMoreDiffers(multiset(c.edges), e, r.edge);
    case RemoveEdge(e) =>
      assert e in multiset(c.edges) && r.edge in multiset(c.edges);
      OneLessDiffers(multiset(c.edges), e, r.edge);
    case AddNode(n) =>
      assert NormalNode(n) != NormalNode(r.added);
      OneMoreDiffers(multiset(c.nodes), NormalNode(n), NormalNode(r.added));
    case RemoveNode(id) =>
      var n, m := c.nodes[Find(c.nodes, id)], c.nodes[Find(c.nodes, r.node)];
      assert n in multiset(c.nodes) && m in multiset(c.nodes) && n != m;
      OneLessDiffers(multiset(c.nodes), n, m);
    case _ =>
  }

  lemma OneMoreDiffers<T>(all: multiset<T>, x: T, y: T)
    requires x != y
    ensures all + multiset{x} != all + multiset{y}
  {
    assert (all + multiset{x})[x] == all[x] + 1 && (all + multiset{y})[x] == all[x];
  }

  lemma OneLessDiffers<T>(all: multiset<T>, x: T, y: T)
    requires x != y && x in all && y in all
    ensures all - multiset{x} != all - multiset{y}
  {
    assert (all - multiset{x})[x] == all[x] - 1 && (all - multiset{y})[x] == all[x];
  }

  // Two proposals of a stream never give the same child, and none gives the parent.
  lemma ChildrenDiffer(c: Genome, p: Policy, q: Proposal, r: Proposal, admitted: set<string>, bounds: Bounds)
    requires IsCanonical(c, Admission(admitted, bounds)) && Names(p, admitted)
    requires InStream(c, p, q) && InStream(c, p, r)
    requires Mutate(c, q, admitted, bounds).Child? && Mutate(c, r, admitted, bounds).Child?
    ensures Mutate(c, q, admitted, bounds).genome != c
    ensures q != r ==> Mutate(c, q, admitted, bounds).genome != Mutate(c, r, admitted, bounds).genome
  {
    Basics(c, Admission(admitted, bounds));
    StreamSucceeds(c, p, q, admitted, bounds);
    StreamSucceeds(c, p, r, admitted, bounds);
    ChildLists(c, q, admitted, Admission(admitted, bounds));
    ChildLists(c, r, admitted, Admission(admitted, bounds));
    ListsDiffer(c, p, q, r);
  }

  lemma ListsDiffer(c: Genome, p: Policy, q: Proposal, r: Proposal)
    requires DistinctBy(c.nodes, NodeKey) && InStream(c, p, q) && InStream(c, p, r)
    ensures NodesAfter(c, q) != multiset(c.nodes) || EdgesAfter(c, q) != multiset(c.edges)
    ensures q != r ==> NodesAfter(c, q) != NodesAfter(c, r) || EdgesAfter(c, q) != EdgesAfter(c, r)
  {
    SizesTellKinds(c, p, q);
    SizesTellKinds(c, p, r);
    assert |multiset(c.nodes)| == |c.nodes| && |multiset(c.edges)| == |c.edges|;
    if q.ReplacePrimitive? {
      ReplacedDiffers(c, p, q);
    }
    if q != r && KindOf(q) == KindOf(r) {
      SameKindDiffers(c, p, q, r);
    }
  }

  // --- the enumeration, exactly -------------------------------------------------------------------------------

  ghost function Fitting(c: Genome, bounds: Bounds, stream: seq<Proposal>): seq<Proposal>
  {
    if stream == [] then []
    else (if Fits(c, bounds, stream[0]) then [stream[0]] else []) + Fitting(c, bounds, stream[1..])
  }

  function Proposals(list: seq<Candidate>): seq<Proposal> { MapSeq((x: Candidate) => x.proposal, list) }

  function Take<T>(s: seq<T>, n: nat): seq<T> { if n <= |s| then s[..n] else s }

  lemma TakeCons<T>(x: T, s: seq<T>, n: nat)
    requires n > 0
    ensures Take([x] + s, n) == [x] + Take(s, n - 1)
  {
  }

  // On a stream of distinct proposals with distinct children, the duplicate test never rejects anything.
  lemma {:induction false} FoundTakesFitting(t: Task, apply: Proposal -> Outcome, stream: seq<Proposal>,
      seen: set<string>, room: nat)
    requires NoDup(stream)
    requires forall q :: q in stream ==> (apply(q).Child? <==> Fits(t.parent, t.bounds, q))
    requires forall q :: q in stream && apply(q).Child? ==>
               t.h.genome(apply(q).genome) != t.h.genome(t.parent) && t.h.genome(apply(q).genome) !in seen
    requires forall q, r :: q in stream && r in stream && q != r && apply(q).Child? && apply(r).Child? ==>
               t.h.genome(apply(q).genome) != t.h.genome(apply(r).genome)
    ensures Proposals(Found(t, apply, stream, seen, room)) == Take(Fitting(t.parent, t.bounds, stream), room)
    decreases |stream|
  {
    if stream != [] && room != 0 {
      var q, rest := stream[0], stream[1..];
      assert q in stream && q !in rest && forall r :: r in rest ==> r in stream;
      if apply(q).Child? {
        var d := t.h.genome(apply(q).genome);
        FoundTakesFitting(t, apply, rest, seen + {d}, room - 1);
        assert Proposals(Found(t, apply, stream, seen, room))
          == [q] + Proposals(Found(t, apply, rest, seen + {d}, room - 1));
        TakeCons(q, Fitting(t.parent, t.bounds, rest), room);
      } else {
        FoundTakesFitting(t, apply, rest, seen, room);
      }
    }
  }

  // The enumeration proposes the fitting members of its stream, each once, in order, up to the limit.
  lemma EnumerationIsExact(h: Hashes, a: Genome, p: Policy, admitted: set<string>, bounds: SearchBounds)
    requires CollisionFree(h) && Enumerate(h, a, p, admitted, bounds).Candidates?
    ensures var t := TaskOf(h, a, p, admitted, bounds);
            Proposals(Enumerate(h, a, p, admitted, bounds).list)
              == Take(Fitting(t.parent, t.bounds, ProposalStream(t.parent, p)), p.limit)
  {
    var t := TaskOf(h, a, p, admitted, bounds);
    CanonicalIsIdempotent(a, Admission(t.admitted, t.bounds));
    CanonicalFacts(t.parent, Admission(t.admitted, t.bounds));
    ExactOn(t);
  }

  lemma ExactOn(t: Task)
    requires CollisionFree(t.h) && IsCanonical(t.parent, Admission(t.admitted, t.bounds)) && Names(t.policy, t.admitted)
    requires StreamReady(t.parent, t.policy) && t.policy.limit > 0
    ensures Proposals(Found(t, ApplyOf(t), ProposalStream(t.parent, t.policy), {}, t.policy.limit))
         == Take(Fitting(t.parent, t.bounds, ProposalStream(t.parent, t.policy)), t.policy.limit)
  {
    var c, p, stream, apply := t.parent, t.policy, ProposalStream(t.parent, t.policy), ApplyOf(t);
    StreamMembers(c, p);
    forall q | q in stream
      ensures apply(q).Child? <==> Fits(c, t.bounds, q)
    {
      StreamSucceeds(c, p, q, t.admitted, t.bounds);
    }
    forall q, r | q in stream && r in stream && apply(q).Child? && apply(r).Child?
      ensures t.h.genome(apply(q).genome) != t.h.genome(c)
      ensures q != r ==> t.h.genome(apply(q).genome) != t.h.genome(apply(r).genome)
    {
      ChildrenDiffer(c, p, q, r, t.admitted, t.bounds);
    }
    FoundTakesFitting(t, apply, stream, {}, t.policy.limit);
  }
}
