/**
 What a mutation does, said of the lists themselves: when a proposal is refused, which nodes and edges the edited
 genome has, and that the child is that genome in canonical form.
 */
module MutationMeaning {
  import opened Wrappers
  import opened Orders
  import opened Graph
  import opened Architecture
  import opened Mutation
  import Descendants

  // The proposal names something that is not there, not admitted, or not to be touched.
  ghost predicate Refuses(c: Genome, p: Proposal, admitted: set<string>)
  {
    match p
    case ReplacePrimitive(node, primitive) => !Has(c.nodes, node) || node in c.inputs || primitive !in admitted
    case ReplaceConfig(node, _) => !Has(c.nodes, node) || node in c.inputs
    case AddNode(added) => added.primitive == "source" || added.primitive !in admitted
    case RemoveNode(node) => !Has(c.nodes, node) || node in c.inputs || node in c.outputs
    case AddEdge(_) => false
    case RemoveEdge(edge) => edge !in c.edges
    case Unknown => true
  }

  // The nodes of `after` are those of `before`, each as `change` has it at its place.
  ghost predicate Changed(before: seq<Node>, after: seq<Node>, id: string, change: Node -> Node)
  {
    && |after| == |before|
    && forall i :: 0 <= i < |before| ==> after[i] == if before[i].id == id then change(before[i]) else before[i]
  }

  // What the proposal makes of a genome it does not refuse.
  ghost predicate Edits(c: Genome, p: Proposal, e: Genome)
  {
    && e.schema == c.schema && e.inputs == c.inputs && e.outputs == c.outputs
    && match p
      case ReplacePrimitive(node, primitive) =>
        e.edges == c.edges && Changed(c.nodes, e.nodes, node, (n: Node) => Node(n.id, primitive, n.config))
      case ReplaceConfig(node, config) =>
        e.edges == c.edges && Changed(c.nodes, e.nodes, node, (n: Node) => Node(n.id, n.primitive, config))
      case AddNode(added) => e.edges == c.edges && e.nodes == c.nodes + [added]
      case RemoveNode(node) =>
        && |e.nodes| == |c.nodes| - 1 && (forall n :: n in e.nodes <==> n in c.nodes && n.id != node)
        && NoDup(e.edges) && (forall x :: x in e.edges <==> x in c.edges && x.source != node && x.target != node)
      case AddEdge(edge) => e.nodes == c.nodes && e.edges == c.edges + [edge]
      case RemoveEdge(edge) =>
        && e.nodes == c.nodes
        && NoDup(e.edges) && (forall x :: x in e.edges <==> x in c.edges && x != edge)
      case Unknown => false
  }

  lemma FoundIsOnly(nodes: seq<Node>, id: string, i: nat)
    requires DistinctBy(nodes, NodeKey) && id in Ids(nodes) && i < |nodes|
    ensures nodes[i].id == id <==> i == Find(nodes, id)
  {
    IdsAre(nodes);
    assert Ids(nodes)[i] == nodes[i].id && Ids(nodes)[Find(nodes, id)] == id;
  }

  lemma ChangedOne(nodes: seq<Node>, id: string, change: Node -> Node)
    requires DistinctBy(nodes, NodeKey) && id in Ids(nodes)
    ensures var i := Find(nodes, id); Changed(nodes, nodes[i := change(nodes[i])], id, change)
  {
    forall k | 0 <= k < |nodes|
      ensures nodes[k].id == id <==> k == Find(nodes, id)
    {
      FoundIsOnly(nodes, id, k);
    }
  }

  lemma DroppedNode(nodes: seq<Node>, id: string)
    requires DistinctBy(nodes, NodeKey) && id in Ids(nodes)
    ensures |DropNode(nodes, id)| == |nodes| - 1
    ensures forall n :: n in DropNode(nodes, id) <==> n in nodes && n.id != id
  {
    var i := Find(nodes, id);
    DropNodeIsWithout(nodes, id);
    DistinctMeans(nodes, NodeKey);
    Descendants.WithoutMembers(nodes, i);
    forall n | n in nodes
      ensures n.id != id <==> n != nodes[i]
    {
      var k :| 0 <= k < |nodes| && nodes[k] == n;
      FoundIsOnly(nodes, id, k);
    }
  }

  lemma {:induction false} DroppedEdge(edges: seq<Edge>, edge: Edge)
    requires NoDup(edges) && edge in edges
    ensures forall x :: x in DropEdge(edges, edge) <==> x in edges && x != edge
    decreases |edges|
  {
    assert edges == [edges[0]] + edges[1..] && edges[0] !in edges[1..];
    if edges[0] != edge {
      DroppedEdge(edges[1..], edge);
    }
  }

  lemma EditMeans(c: Genome, p: Proposal, admitted: set<string>)
    requires DistinctBy(c.nodes, NodeKey) && NoDup(c.edges)
    ensures Edit(c, p, admitted).None? <==> Refuses(c, p, admitted)
    ensures Edit(c, p, admitted).Some? ==> Edits(c, p, Edit(c, p, admitted).value)
  {
    IdsAre(c.nodes);
    if Edit(c, p, admitted).Some? {
      match p
      case ReplacePrimitive(node, primitive) => ChangedOne(c.nodes, node, (n: Node) => Node(n.id, primitive, n.config));
      case ReplaceConfig(node, config) => ChangedOne(c.nodes, node, (n: Node) => Node(n.id, n.primitive, config));
      case RemoveNode(node) =>
        DroppedNode(c.nodes, node);
        DropIncidentMembers(c.edges, node);
        Descendants.DropIncidentNoDup(c.edges, node);
      case RemoveEdge(edge) =>
        DroppedEdge(c.edges, edge);
        Descendants.DropEdgeFacts(c.edges, edge);
      case _ =>
    }
  }

  /** A mutation of an admitted parent is the edit of its canonical form: rejected when the proposal is refused or the
      edited genome is not admitted, and otherwise the canonical form of the edited genome, which is the one genome in
      ascending order that is alike to it. */
  lemma MutationMeans(parent: Genome, p: Proposal, admitted: set<string>, bounds: Bounds)
    ensures var limits := Limits(Some(admitted + {"source"}), Some(bounds.maxNodes), Some(bounds.maxEdges));
            var outcome := Mutate(parent, p, admitted, bounds);
            && (Canonical(parent, limits).None? <==> outcome == BadParent)
            && (Canonical(parent, limits).Some? ==>
                 var c := Canonical(parent, limits).value;
                 && (Refuses(c, p, admitted) ==> outcome == Rejected)
                 && (!Refuses(c, p, admitted) ==>
                      exists e :: Edits(c, p, e) && MadeOf(outcome, e, limits)))
  {
    var limits := Admission(admitted, bounds);
    if Canonical(parent, limits).Some? {
      CanonicalIsIdempotent(parent, limits);
      var c := SortedGenome(parent);
      EditMeans(c, p, admitted);
      if Edit(c, p, admitted).Some? {
        OutcomeIsMade(parent, p, admitted, bounds);
      }
    }
  }

  ghost predicate MadeOf(outcome: Outcome, e: Genome, limits: Limits)
  {
    if Canonical(e, limits).None? then outcome == Rejected
    else outcome.Child? && Alike(outcome.genome, e) && Canonical(outcome.genome, limits) == Some(outcome.genome)
  }

  lemma OutcomeIsMade(parent: Genome, p: Proposal, admitted: set<string>, bounds: Bounds)
    requires Accepted(parent, Admission(admitted, bounds)) && Edit(SortedGenome(parent), p, admitted).Some?
    ensures MadeOf(Mutate(parent, p, admitted, bounds), Edit(SortedGenome(parent), p, admitted).value,
                   Admission(admitted, bounds))
  {
    var limits := Admission(admitted, bounds);
    CanonicalIsIdempotent(parent, limits);
    MutateOfCanonical(SortedGenome(parent), p, admitted, bounds);
    SortedIsMade(Edit(SortedGenome(parent), p, admitted).value, limits);
  }

  lemma SortedIsMade(e: Genome, limits: Limits)
    ensures Canonical(e, limits).None? ==> MadeOf(Rejected, e, limits)
    ensures Canonical(e, limits).Some? ==> MadeOf(Child(SortedGenome(e)), e, limits)
  {
    if Accepted(e, limits) {
      CanonicalIsOrdered(e, limits);
      CanonicalIsIdempotent(e, limits);
    }
  }
}
