/**
 Bounded mutations: apply one explicit proposal to the canonical form of a genome, then validate.

 `Mutate` is the specification; `ApplyMutation` edits copies of the node and edge lists step by
 step.  Every kind of mutation has a proposal that takes it back, and `UndoIsExact` says
 exactly when doing so returns the parent.
 */
module Mutation {
  import opened Wrappers
  import opened Orders
  import opened Graph
  import opened Architecture
  import opened ConfigValue

  datatype Proposal =
    | ReplacePrimitive(node: string, primitive: string)
    | ReplaceConfig(node: string, config: Value)
    | AddNode(added: Node)
    | RemoveNode(node: string)
    | AddEdge(edge: Edge)
    | RemoveEdge(edge: Edge)
    | Unknown

  datatype Bounds = Bounds(maxNodes: int, maxEdges: int)

  // A child, a mutation error, or the architecture error of a parent that is not admitted itself.
  datatype Outcome = Child(genome: Genome) | Rejected | BadParent

  function Admission(admitted: set<string>, bounds: Bounds): Limits
  {
    Limits(Some(admitted + {"source"}), Some(bounds.maxNodes), Some(bounds.maxEdges))
  }

  function Find(nodes: seq<Node>, id: string): (i: nat)
    requires id in Ids(nodes)
    ensures i < |nodes| && nodes[i].id == id
  {
    assert exists i :: 0 <= i < |nodes| && Ids(nodes)[i] == nodes[i].id == id;
    if nodes[0].id == id then 0
    else
      assert id in Ids(nodes[1..]) by {
        var i :| 0 <= i < |nodes| && Ids(nodes)[i] == id;
        assert Ids(nodes[1..])[i - 1] == id;
      }
      1 + Find(nodes[1..], id)
  }

  function DropNode(nodes: seq<Node>, id: string): seq<Node>
  {
    if nodes == [] then [] else (if nodes[0].id == id then [] else [nodes[0]]) + DropNode(nodes[1..], id)
  }

  predicate Touches(e: Edge, id: string) { e.source == id || e.target == id }

  function DropIncident(edges: seq<Edge>, id: string): seq<Edge>
  {
    if edges == [] then [] else (if Touches(edges[0], id) then [] else [edges[0]]) + DropIncident(edges[1..], id)
  }

  function DropEdge(edges: seq<Edge>, edge: Edge): seq<Edge>
  {
    if edges == [] then [] else if edges[0] == edge then edges[1..] else [edges[0]] + DropEdge(edges[1..], edge)
  }

  // The edited genome before validation, or None where the proposal itself is refused.
  function Edit(c: Genome, p: Proposal, admitted: set<string>): Option<Genome>
  {
    match p
    case ReplacePrimitive(node, primitive) =>
      if node !in Ids(c.nodes) || node in c.inputs || primitive !in admitted then None
      else
        var i := Find(c.nodes, node);
        Some(c.(nodes := c.nodes[i := c.nodes[i].(primitive := primitive)]))
    case ReplaceConfig(node, config) =>
      if node !in Ids(c.nodes) || node in c.inputs then None
      else
        var i := Find(c.nodes, node);
        Some(c.(nodes := c.nodes[i := c.nodes[i].(config := config)]))
    case AddNode(added) =>
      if added.primitive == "source" || added.primitive !in admitted then None
      else Some(c.(nodes := c.nodes + [added]))
    case RemoveNode(node) =>
      if node !in Ids(c.nodes) || node in c.inputs || node in c.outputs then None
      else Some(c.(nodes := DropNode(c.nodes, node), edges := DropIncident(c.edges, node)))
    case AddEdge(edge) => Some(c.(edges := c.edges + [edge]))
    case RemoveEdge(edge) => if edge !in c.edges then None else Some(c.(edges := DropEdge(c.edges, edge)))
    case Unknown => None
  }

  ghost function Mutate(parent: Genome, p: Proposal, admitted: set<string>, bounds: Bounds): Outcome
  {
    var current := Canonical(parent, Admission(admitted, bounds));
    if current.None? then BadParent
    else
      var edited := Edit(current.value, p, admitted);
      if edited.None? then Rejected
      else
        var child := Canonical(edited.value, Admission(admitted, bounds));
        if child.None? then Rejected else Child(child.value)
  }

  // --- the edits in place ------------------------------------------------------------------------

  method FindNode(nodes: seq<Node>, id: string) returns (found: Option<nat>)
    ensures found.None? <==> id !in Ids(nodes)
    ensures found.Some? ==> found.value == Find(nodes, id)
  {
    for i := 0 to |nodes|
      invariant id !in Ids(nodes[..i])
      invariant id in Ids(nodes) <==> id in Ids(nodes[i..])
      invariant id in Ids(nodes) ==> Find(nodes, id) == i + Find(nodes[i..], id)
    {
      var rest := nodes[i..];
      assert rest[0] == nodes[i] && rest[1..] == nodes[i + 1..];
      if nodes[i].id == id {
        assert Ids(rest)[0] == id;
        return Some(i);
      }
      assert Ids(rest) == [nodes[i].id] + Ids(nodes[i + 1..]);
      assert Ids(nodes[..i + 1]) == Ids(nodes[..i]) + [nodes[i].id];
    }
    return None;
  }

  method KeepOtherNodes(nodes: seq<Node>, id: string) returns (kept: seq<Node>)
    ensures kept == DropNode(nodes, id)
  {
    kept := [];
    for i := 0 to |nodes|
      invariant kept + DropNode(nodes[i..], id) == DropNode(nodes, id)
    {
      assert nodes[i..][1..] == nodes[i + 1..];
      if nodes[i].id != id {
        kept := kept + [nodes[i]];
      }
    }
  }

  method KeepOtherEdges(edges: seq<Edge>, id: string) returns (kept: seq<Edge>)
    ensures kept == DropIncident(edges, id)
  {
    kept := [];
    for i := 0 to |edges|
      invariant kept + DropIncident(edges[i..], id) == DropIncident(edges, id)
    {
      assert edges[i..][1..] == edges[i + 1..];
      if !Touches(edges[i], id) {
        kept := kept + [edges[i]];
      }
    }
  }

  method EditInPlace(c: Genome, p: Proposal, admitted: set<string>) returns (result: Option<Genome>)
    ensures result == Edit(c, p, admitted)
  {
    var edited := c;
    match p {
      case ReplacePrimitive(node, primitive) =>
        var i := FindNode(c.nodes, node);
        if i.None? || node in c.inputs || primitive !in admitted {
          return None;
        }
        edited := edited.(nodes := c.nodes[i.value := c.nodes[i.value].(primitive := primitive)]);
      case ReplaceConfig(node, config) =>
        var i := FindNode(c.nodes, node);
        if i.None? || node in c.inputs {
          return None;
        }
        edited := edited.(nodes := c.nodes[i.value := c.nodes[i.value].(config := config)]);
      case AddNode(added) =>
        if added.primitive == "source" || added.primitive !in admitted {
          return None;
        }
        edited := edited.(nodes := c.nodes + [added]);
      case RemoveNode(node) =>
        var i := FindNode(c.nodes, node);
        if i.None? || node in c.inputs || node in c.outputs {
          return None;
        }
        var nodes := KeepOtherNodes(c.nodes, node);
        var edges := KeepOtherEdges(c.edges, node);
        edited := edited.(nodes := nodes, edges := edges);
      case AddEdge(edge) =>
        edited := edited.(edges := c.edges + [edge]);
      case RemoveEdge(edge) =>
        if edge !in c.edges {
          return None;
        }
        edited := edited.(edges := DropEdge(c.edges, edge));
      case Unknown =>
        return None;
    }
    return Some(edited);
  }

  method ApplyMutation(parent: Genome, p: Proposal, admitted: set<string>, bounds: Bounds) returns (result: Outcome)
    ensures result == Mutate(parent, p, admitted, bounds)
  {
    var current := CanonicalArchitecture(parent, Admission(admitted, bounds));
    if current.None? {
      return BadParent;
    }
    var edited := EditInPlace(current.value, p, admitted);
    if edited.None? {
      return Rejected;
    }
    var child := CanonicalArchitecture(edited.value, Admission(admitted, bounds));
    if child.None? {
      return Rejected;
    }
    return Child(child.value);
  }

  // --- what a child keeps ------------------------------------------------------------------------

  ghost predicate IsCanonical(g: Genome, limits: Limits) { Canonical(g, limits) == Some(g) }

  lemma CanonicalFacts(g: Genome, limits: Limits)
    requires IsCanonical(g, limits)
    ensures Accepted(g, limits) && SortedGenome(g) == g && NormalConfigs(g)
  {
    CanonicalIsIdempotent(g, limits);
  }

  lemma UpdateCounts<T>(s: seq<T>, i: nat, x: T)
    requires i < |s|
    ensures multiset(s[i := x]) == multiset(s) - multiset{s[i]} + multiset{x}
  {
    WithoutCounts(s, i);
    WithoutCounts(s[i := x], i);
    assert Without(s, i) == Without(s[i := x], i);
  }

  lemma IdsCons(nodes: seq<Node>)
    requires nodes != []
    ensures Ids(nodes) == [nodes[0].id] + Ids(nodes[1..])
    ensures DistinctBy(nodes, NodeKey) ==> DistinctBy(nodes[1..], NodeKey) && nodes[0].id !in Ids(nodes[1..])
  {
    assert Ids(nodes) == [nodes[0].id] + Ids(nodes[1..]);
    if DistinctBy(nodes, NodeKey) {
      forall i | 0 <= i < |nodes[1..]|
        ensures Ids(nodes[1..])[i] != nodes[0].id
      {
        assert NodeKey(nodes[0]) != NodeKey(nodes[i + 1]);
      }
    }
  }

  lemma {:induction false} DropAbsentNode(nodes: seq<Node>, id: string)
    requires id !in Ids(nodes)
    ensures DropNode(nodes, id) == nodes
    decreases |nodes|
  {
    if nodes != [] {
      AbsentCons(nodes, id);
      DropAbsentNode(nodes[1..], id);
      assert nodes == [nodes[0]] + nodes[1..];
    }
  }

  lemma AbsentCons(nodes: seq<Node>, id: string)
    requires nodes != [] && id !in Ids(nodes)
    ensures nodes[0].id != id && id !in Ids(nodes[1..])
  {
    IdsCons(nodes);
    assert Ids(nodes)[0] in Ids(nodes);
  }

  lemma {:induction false} DropNodeIsWithout(nodes: seq<Node>, id: string)
    requires DistinctBy(nodes, NodeKey) && id in Ids(nodes)
    ensures DropNode(nodes, id) == Without(nodes, Find(nodes, id))
    decreases |nodes|
  {
    var rest := nodes[1..];
    IdsCons(nodes);
    if nodes[0].id == id {
      DropAbsentNode(rest, id);
      assert Without(nodes, 0) == rest;
    } else {
      DropNodeIsWithout(rest, id);
      WithoutCons(nodes, Find(rest, id));
    }
  }

  lemma WithoutCons<T>(s: seq<T>, i: nat)
    requires 1 + i < |s|
    ensures Without(s, 1 + i) == [s[0]] + Without(s[1..], i)
  {
  }

  lemma {:induction false} DropEdgeCounts(edges: seq<Edge>, edge: Edge)
    requires edge in edges
    ensures multiset(DropEdge(edges, edge)) == multiset(edges) - multiset{edge}
    decreases |edges|
  {
    assert edges == [edges[0]] + edges[1..];
    if edges[0] != edge {
      DropEdgeCounts(edges[1..], edge);
    }
  }

  lemma {:induction false} DropIncidentMembers(edges: seq<Edge>, id: string)
    ensures forall e :: e in DropIncident(edges, id) <==> e in edges && !Touches(e, id)
    ensures |DropIncident(edges, id)| <= |edges|
    ensures |DropIncident(edges, id)| == |edges| ==> DropIncident(edges, id) == edges
    ensures (forall e :: e in edges ==> !Touches(e, id)) ==> DropIncident(edges, id) == edges
    decreases |edges|
  {
    if edges != [] {
      DropIncidentMembers(edges[1..], id);
      assert edges == [edges[0]] + edges[1..];
    }
  }

  // The nodes of a child, as a multiset of normal nodes.
  ghost function NodesAfter(c: Genome, p: Proposal): multiset<Node>
  {
    match p
    case ReplacePrimitive(node, primitive) =>
      if node !in Ids(c.nodes) then multiset{} else
        var old_ := c.nodes[Find(c.nodes, node)];
        multiset(c.nodes) - multiset{old_} + multiset{old_.(primitive := primitive)}
    case ReplaceConfig(node, config) =>
      if node !in Ids(c.nodes) then multiset{} else
        var old_ := c.nodes[Find(c.nodes, node)];
        multiset(c.nodes) - multiset{old_} + multiset{old_.(config := Normal(config))}
    case AddNode(added) => multiset(c.nodes) + multiset{NormalNode(added)}
    case RemoveNode(node) =>
      if node !in Ids(c.nodes) then multiset{} else multiset(c.nodes) - multiset{c.nodes[Find(c.nodes, node)]}
    case _ => multiset(c.nodes)
  }

  lemma ReplacedNodes(nodes: seq<Node>, i: nat, new_: Node)
    requires i < |nodes| && MapSeq(NormalNode, nodes) == nodes
    ensures multiset(MapSeq(NormalNode, nodes[i := new_]))
      == multiset(nodes) - multiset{nodes[i]} + multiset{NormalNode(new_)}
  {
    UpdateCounts(nodes, i, NormalNode(new_));
    var left, right := MapSeq(NormalNode, nodes[i := new_]), nodes[i := NormalNode(new_)];
    forall k | 0 <= k < |nodes|
      ensures left[k] == right[k]
    {
      assert MapSeq(NormalNode, nodes)[k] == nodes[k];
    }
    assert left == right;
  }

  lemma FewerNodes(nodes: seq<Node>, id: string)
    requires DistinctBy(nodes, NodeKey) && id in Ids(nodes) && MapSeq(NormalNode, nodes) == nodes
    ensures multiset(MapSeq(NormalNode, DropNode(nodes, id))) == multiset(nodes) - multiset{nodes[Find(nodes, id)]}
    ensures |DropNode(nodes, id)| == |nodes| - 1
  {
    DropNodeIsWithout(nodes, id);
    var i := Find(nodes, id);
    MapWithout(NormalNode, nodes, i);
    assert NormalNode(nodes[i]) == MapSeq(NormalNode, nodes)[i] == nodes[i];
  }

  lemma MoreNodes(nodes: seq<Node>, added: Node)
    requires MapSeq(NormalNode, nodes) == nodes
    ensures multiset(MapSeq(NormalNode, nodes + [added])) == multiset(nodes) + multiset{NormalNode(added)}
  {
    assert MapSeq(NormalNode, nodes + [added]) == MapSeq(NormalNode, nodes) + [NormalNode(added)];
  }

  lemma EditedNodes(c: Genome, p: Proposal, admitted: set<string>)
    requires DistinctBy(c.nodes, NodeKey) && NormalConfigs(c) && Edit(c, p, admitted).Some?
    ensures multiset(MapSeq(NormalNode, Edit(c, p, admitted).value.nodes)) == NodesAfter(c, p)
  {
    match p
    case ReplacePrimitive(node, primitive) =>
      var i := Find(c.nodes, node);
      assert MapSeq(NormalNode, c.nodes)[i] == c.nodes[i];
      ReplacedNodes(c.nodes, i, c.nodes[i].(primitive := primitive));
    case ReplaceConfig(node, config) =>
      ReplacedNodes(c.nodes, Find(c.nodes, node), c.nodes[Find(c.nodes, node)].(config := config));
    case AddNode(added) =>
      MoreNodes(c.nodes, added);
    case RemoveNode(node) =>
      FewerNodes(c.nodes, node);
    case _ =>
  }

  lemma InputNodeStays(c: Genome, p: Proposal, admitted: set<string>, n: Node)
    requires DistinctBy(c.nodes, NodeKey) && Edit(c, p, admitted).Some? && n in c.nodes && n.id in c.inputs
    ensures n in NodesAfter(c, p)
  {
    assert n in multiset(c.nodes);
    if (p.ReplacePrimitive? || p.ReplaceConfig? || p.RemoveNode?) && p.node in Ids(c.nodes) {
      assert c.nodes[Find(c.nodes, p.node)].id == p.node != n.id;
    }
  }

  // What validation does to an edited genome.
  lemma ChildOf(c: Genome, p: Proposal, admitted: set<string>, limits: Limits)
    requires IsCanonical(c, limits) && Edit(c, p, admitted).Some? && Accepted(Edit(c, p, admitted).value, limits)
    ensures var edited := Edit(c, p, admitted).value;
            var child := SortedGenome(edited);
            && IsCanonical(child, limits) && Accepted(child, limits) && NormalConfigs(child)
            && child.inputs == c.inputs && child.outputs == c.outputs && child.schema == c.schema
            && multiset(child.nodes) == NodesAfter(c, p) && multiset(child.edges) == multiset(edited.edges)
  {
    CanonicalFacts(c, limits);
    CanonicalIsIdempotent(Edit(c, p, admitted).value, limits);
    EditedNodes(c, p, admitted);
    EditKeepsPorts(c, p, admitted);
  }

  lemma EditKeepsPorts(c: Genome, p: Proposal, admitted: set<string>)
    requires Edit(c, p, admitted).Some?
    ensures var r := Edit(c, p, admitted).value; r.inputs == c.inputs && r.outputs == c.outputs && r.schema == c.schema
  {
  }

  lemma MutateIs(parent: Genome, p: Proposal, admitted: set<string>, bounds: Bounds)
    requires Mutate(parent, p, admitted, bounds).Child?
    ensures IsCanonical(SortedGenome(parent), Admission(admitted, bounds))
    ensures Edit(SortedGenome(parent), p, admitted).Some?
    ensures Accepted(Edit(SortedGenome(parent), p, admitted).value, Admission(admitted, bounds))
    ensures Mutate(parent, p, admitted, bounds).genome == SortedGenome(Edit(SortedGenome(parent), p, admitted).value)
  {
    CanonicalIsIdempotent(parent, Admission(admitted, bounds));
  }

  // A child is canonical, within bounds and acyclic, with its ports and its input nodes untouched.
  lemma ChildIsAdmitted(parent: Genome, p: Proposal, admitted: set<string>, bounds: Bounds)
    requires Mutate(parent, p, admitted, bounds).Child?
    ensures var c, child := SortedGenome(parent), Mutate(parent, p, admitted, bounds).genome;
            && IsCanonical(child, Admission(admitted, bounds)) && Accepted(child, Admission(admitted, bounds))
            && child.inputs == c.inputs && child.outputs == c.outputs
            && (forall n :: n in c.nodes && n.id in c.inputs ==> n in child.nodes)
  {
    var c, child := SortedGenome(parent), Mutate(parent, p, admitted, bounds).genome;
    MutateIs(parent, p, admitted, bounds);
    ChildOf(c, p, admitted, Admission(admitted, bounds));
    CanonicalFacts(c, Admission(admitted, bounds));
    forall n | n in c.nodes && n.id in c.inputs
      ensures n in child.nodes
    {
      InputNodeStays(c, p, admitted, n);
      assert n in multiset(child.nodes);
    }
  }

  // --- taking a mutation back ----------------------------------------------------------------------

  // The proposal that undoes `p`, from what the parent held.
  function Inverse(c: Genome, p: Proposal): Proposal
  {
    match p
    case ReplacePrimitive(node, _) =>
      if node in Ids(c.nodes) then ReplacePrimitive(node, c.nodes[Find(c.nodes, node)].primitive) else Unknown
    case ReplaceConfig(node, _) =>
      if node in Ids(c.nodes) then ReplaceConfig(node, c.nodes[Find(c.nodes, node)].config) else Unknown
    case AddNode(added) => RemoveNode(added.id)
    case RemoveNode(node) => if node in Ids(c.nodes) then AddNode(c.nodes[Find(c.nodes, node)]) else Unknown
    case AddEdge(edge) => RemoveEdge(edge)
    case RemoveEdge(edge) => AddEdge(edge)
    case Unknown => Unknown
  }

  // A removed node comes back without its edges, and only admitted primitives can be named again.
  ghost predicate Reversible(c: Genome, p: Proposal, admitted: set<string>)
  {
    match p
    case ReplacePrimitive(node, _) => node in Ids(c.nodes) && c.nodes[Find(c.nodes, node)].primitive in admitted
    case RemoveNode(node) =>
      && node in Ids(c.nodes)
      && c.nodes[Find(c.nodes, node)].primitive in admitted && c.nodes[Find(c.nodes, node)].primitive != "source"
      && forall e :: e in c.edges ==> !Touches(e, node)
    case _ => true
  }

  lemma FindIs(nodes: seq<Node>, x: Node)
    requires DistinctBy(nodes, NodeKey) && x in nodes
    ensures x.id in Ids(nodes) && nodes[Find(nodes, x.id)] == x
  {
    IdsAre(nodes);
    var i :| 0 <= i < |nodes| && nodes[i] == x;
    var j := Find(nodes, x.id);
    assert NodeKey(nodes[i]) == NodeKey(nodes[j]);
  }

  ghost predicate NormalProposal(p: Proposal)
  {
    && (p.ReplaceConfig? ==> Normal(p.config) == p.config)
    && (p.AddNode? ==> NormalNode(p.added) == p.added)
  }

  lemma NormalMembers(nodes: seq<Node>)
    ensures MapSeq(NormalNode, nodes) == nodes <==> forall n :: n in nodes ==> NormalNode(n) == n
  {
    if forall n :: n in nodes ==> NormalNode(n) == n {
      forall i | 0 <= i < |nodes|
        ensures MapSeq(NormalNode, nodes)[i] == nodes[i]
      {
        assert nodes[i] in nodes;
      }
    }
  }

  lemma {:induction false} DropNodeMembers(nodes: seq<Node>, id: string)
    ensures forall n :: n in DropNode(nodes, id) ==> n in nodes
    decreases |nodes|
  {
    if nodes != [] {
      DropNodeMembers(nodes[1..], id);
    }
  }

  lemma EditKeepsNormal(c: Genome, p: Proposal, admitted: set<string>)
    requires NormalConfigs(c) && NormalProposal(p) && Edit(c, p, admitted).Some?
    ensures NormalConfigs(Edit(c, p, admitted).value)
  {
    var r := Edit(c, p, admitted).value;
    NormalMembers(c.nodes);
    NormalMembers(r.nodes);
    if p.RemoveNode? {
      DropNodeMembers(c.nodes, p.node);
    }
  }

  // Both lists of the twice edited genome are those of the parent.
  ghost predicate TakenBack(c: Genome, child: Genome, p: Proposal, admitted: set<string>)
  {
    var back := Edit(child, Inverse(c, p), admitted);
    && NormalProposal(Inverse(c, p)) && back.Some?
    && NodesAfter(child, Inverse(c, p)) == multiset(c.nodes)
    && multiset(back.value.edges) == multiset(c.edges)
  }

  // What a child inherits from its parent and its proposal, without the rest of validation.
  ghost predicate Descends(c: Genome, child: Genome, p: Proposal, admitted: set<string>)
  {
    && DistinctBy(c.nodes, NodeKey) && DistinctBy(child.nodes, NodeKey) && NormalConfigs(c) && NormalConfigs(child)
    && Closed(Ids(c.nodes), c.edges) && (forall x :: x in c.inputs || x in c.outputs ==> x in Ids(c.nodes))
    && child.inputs == c.inputs && child.outputs == c.outputs && child.schema == c.schema
    && Edit(c, p, admitted).Some? && (p.AddNode? ==> p.added.id !in Ids(c.nodes))
    && multiset(child.nodes) == NodesAfter(c, p) && multiset(child.edges) == multiset(Edit(c, p, admitted).value.edges)
  }

  lemma Basics(c: Genome, limits: Limits)
    requires IsCanonical(c, limits)
    ensures DistinctBy(c.nodes, NodeKey) && NormalConfigs(c) && Closed(Ids(c.nodes), c.edges)
    ensures forall x :: x in c.inputs || x in c.outputs ==> x in Ids(c.nodes)
  {
    CanonicalFacts(c, limits);
  }

  lemma AddedIsFresh(c: Genome, p: Proposal, admitted: set<string>, limits: Limits)
    requires p.AddNode? && Edit(c, p, admitted).Some? && Accepted(Edit(c, p, admitted).value, limits)
    ensures p.added.id !in Ids(c.nodes)
  {
    AppendedIsFresh(c.nodes, p.added);
  }

  lemma ChildDescends(c: Genome, p: Proposal, admitted: set<string>, limits: Limits)
    requires IsCanonical(c, limits) && Edit(c, p, admitted).Some? && Accepted(Edit(c, p, admitted).value, limits)
    ensures Descends(c, SortedGenome(Edit(c, p, admitted).value), p, admitted)
    ensures IsCanonical(SortedGenome(Edit(c, p, admitted).value), limits)
  {
    ChildOf(c, p, admitted, limits);
    Basics(c, limits);
    Basics(SortedGenome(Edit(c, p, admitted).value), limits);
    if p.AddNode? {
      AddedIsFresh(c, p, admitted, limits);
    }
  }

  lemma AppendedIsFresh(nodes: seq<Node>, added: Node)
    requires DistinctBy(nodes + [added], NodeKey)
    ensures added.id !in Ids(nodes)
  {
    forall i | 0 <= i < |nodes|
      ensures Ids(nodes)[i] != added.id
    {
      assert NodeKey((nodes + [added])[i]) != NodeKey((nodes + [added])[|nodes|]);
    }
  }

  lemma SwapBack<T>(all: multiset<T>, old_: T, new_: T)
    requires old_ in all
    ensures all - multiset{old_} + multiset{new_} - multiset{new_} + multiset{old_} == all
  {
  }

  // A node found under its identifier, replaced by `new_` and put back.
  lemma NodePutBack(nodes: seq<Node>, childNodes: seq<Node>, old_: Node, new_: Node)
    requires old_ in nodes && old_.id == new_.id && DistinctBy(childNodes, NodeKey)
    requires multiset(childNodes) == multiset(nodes) - multiset{old_} + multiset{new_}
    ensures old_.id in Ids(childNodes) && childNodes[Find(childNodes, old_.id)] == new_
    ensures multiset(childNodes) - multiset{new_} + multiset{old_} == multiset(nodes)
  {
    assert old_ in multiset(nodes);
    SwapBack(multiset(nodes), old_, new_);
    assert new_ in multiset(childNodes);
    FindIs(childNodes, new_);
  }

  lemma PrimitiveTakenBack(c: Genome, child: Genome, node: string, primitive: string, admitted: set<string>)
    requires node in Ids(c.nodes) && node !in child.inputs && c.nodes[Find(c.nodes, node)].primitive in admitted
    requires DistinctBy(child.nodes, NodeKey) && multiset(child.edges) == multiset(c.edges)
    requires multiset(child.nodes) == NodesAfter(c, ReplacePrimitive(node, primitive))
    ensures TakenBack(c, child, ReplacePrimitive(node, primitive), admitted)
  {
    var old_ := c.nodes[Find(c.nodes, node)];
    var new_ := old_.(primitive := primitive);
    NodePutBack(c.nodes, child.nodes, old_, new_);
    var back := Inverse(c, ReplacePrimitive(node, primitive));
    assert back == ReplacePrimitive(node, old_.primitive);
    assert NodesAfter(child, back) == multiset(child.nodes) - multiset{new_} + multiset{old_};
  }

  lemma ConfigTakenBack(c: Genome, child: Genome, node: string, config: Value, admitted: set<string>)
    requires node in Ids(c.nodes) && node !in child.inputs && NormalConfigs(c)
    requires DistinctBy(child.nodes, NodeKey) && multiset(child.edges) == multiset(c.edges)
    requires multiset(child.nodes) == NodesAfter(c, ReplaceConfig(node, config))
    ensures TakenBack(c, child, ReplaceConfig(node, config), admitted)
  {
    var old_ := c.nodes[Find(c.nodes, node)];
    var new_ := old_.(config := Normal(config));
    assert MapSeq(NormalNode, c.nodes)[Find(c.nodes, node)] == old_;
    NodePutBack(c.nodes, child.nodes, old_, new_);
    var back := Inverse(c, ReplaceConfig(node, config));
    assert back == ReplaceConfig(node, old_.config) && Normal(old_.config) == old_.config;
    assert NodesAfter(child, back) == multiset(child.nodes) - multiset{new_} + multiset{old_};
  }

  lemma AddedNodeTakenBack(c: Genome, child: Genome, p: Proposal, admitted: set<string>)
    requires p.AddNode? && Descends(c, child, p, admitted)
    ensures TakenBack(c, child, p, admitted)
  {
    assert NormalNode(p.added) in multiset(child.nodes);
    FindIs(child.nodes, NormalNode(p.added));
    SameMembers(c.edges, child.edges);
    DropIncidentMembers(child.edges, p.added.id);
  }

  lemma RemovedNodeTakenBack(c: Genome, child: Genome, p: Proposal, admitted: set<string>)
    requires p.RemoveNode? && Descends(c, child, p, admitted) && Reversible(c, p, admitted)
    ensures TakenBack(c, child, p, admitted)
  {
    var i := Find(c.nodes, p.node);
    assert c.nodes[i] in multiset(c.nodes);
    assert MapSeq(NormalNode, c.nodes)[i] == c.nodes[i];
    DropIncidentMembers(c.edges, p.node);
  }

  lemma EdgeTakenBack(c: Genome, child: Genome, p: Proposal, admitted: set<string>)
    requires (p.AddEdge? || p.RemoveEdge?) && Descends(c, child, p, admitted)
    ensures TakenBack(c, child, p, admitted)
  {
    if p.AddEdge? {
      AddedEdgeTakenBack(c, child, p.edge, admitted);
    } else {
      RemovedEdgeTakenBack(c, child, p.edge, admitted);
    }
  }

  lemma AddedEdgeTakenBack(c: Genome, child: Genome, edge: Edge, admitted: set<string>)
    requires multiset(child.nodes) == multiset(c.nodes) && multiset(child.edges) == multiset(c.edges + [edge])
    ensures TakenBack(c, child, AddEdge(edge), admitted)
  {
    AddedThenDropped(c.edges, child.edges, edge);
  }

  lemma AddedThenDropped(edges: seq<Edge>, more: seq<Edge>, edge: Edge)
    requires multiset(more) == multiset(edges + [edge])
    ensures edge in more && multiset(DropEdge(more, edge)) == multiset(edges)
  {
    assert edge in multiset(more);
    DropEdgeCounts(more, edge);
  }

  lemma RemovedEdgeTakenBack(c: Genome, child: Genome, edge: Edge, admitted: set<string>)
    requires edge in c.edges
    requires multiset(child.nodes) == multiset(c.nodes) && multiset(child.edges) == multiset(DropEdge(c.edges, edge))
    ensures TakenBack(c, child, RemoveEdge(edge), admitted)
  {
    DropEdgeCounts(c.edges, edge);
    assert edge in multiset(c.edges);
  }

  lemma ReversibleTakenBack(c: Genome, child: Genome, p: Proposal, admitted: set<string>)
    requires Descends(c, child, p, admitted) && Reversible(c, p, admitted)
    ensures TakenBack(c, child, p, admitted)
  {
    match p
    case ReplacePrimitive(node, primitive) => PrimitiveTakenBack(c, child, node, primitive, admitted);
    case ReplaceConfig(node, config) => ConfigTakenBack(c, child, node, config, admitted);
    case AddNode(_) => AddedNodeTakenBack(c, child, p, admitted);
    case RemoveNode(_) => RemovedNodeTakenBack(c, child, p, admitted);
    case _ => EdgeTakenBack(c, child, p, admitted);
  }

  // The twice edited genome is the parent with its lists reordered.
  lemma TakenBackIsPermuted(c: Genome, child: Genome, p: Proposal, admitted: set<string>)
    requires Descends(c, child, p, admitted) && TakenBack(c, child, p, admitted)
    ensures Permuted(Edit(child, Inverse(c, p), admitted).value, c)
  {
    EditedNodes(child, Inverse(c, p), admitted);
    EditKeepsNormal(child, Inverse(c, p), admitted);
    EditKeepsPorts(child, Inverse(c, p), admitted);
  }

  lemma NotReversible(c: Genome, child: Genome, p: Proposal, admitted: set<string>)
    requires Descends(c, child, p, admitted) && !Reversible(c, p, admitted)
    ensures var back := Edit(child, Inverse(c, p), admitted); back.Some? ==> |back.value.edges| != |c.edges|
  {
    if p.RemoveNode? {
      DropIncidentMembers(c.edges, p.node);
      SameSize(child.edges, DropIncident(c.edges, p.node));
    }
  }

  // Undoing returns the exact parent if and only if the mutation is reversible; adding an edge, adding
  // a node, removing an edge and replacing a configuration always are.
  lemma UndoIsExact(parent: Genome, p: Proposal, admitted: set<string>, bounds: Bounds)
    requires Mutate(parent, p, admitted, bounds).Child?
    ensures var c, child := SortedGenome(parent), Mutate(parent, p, admitted, bounds).genome;
            Mutate(child, Inverse(c, p), admitted, bounds) == Child(c) <==> Reversible(c, p, admitted)
  {
    var limits := Admission(admitted, bounds);
    var c, child := SortedGenome(parent), Mutate(parent, p, admitted, bounds).genome;
    MutateIs(parent, p, admitted, bounds);
    ChildDescends(c, p, admitted, limits);
    UndoOf(c, child, p, admitted, bounds);
  }

  lemma MutateOfCanonical(g: Genome, p: Proposal, admitted: set<string>, bounds: Bounds)
    requires IsCanonical(g, Admission(admitted, bounds))
    ensures Mutate(g, p, admitted, bounds) ==
            var edited := Edit(g, p, admitted);
            if edited.None? || Canonical(edited.value, Admission(admitted, bounds)).None? then Rejected
            else Child(SortedGenome(edited.value))
  {
  }

  lemma UndoOf(c: Genome, child: Genome, p: Proposal, admitted: set<string>, bounds: Bounds)
    requires IsCanonical(c, Admission(admitted, bounds)) && IsCanonical(child, Admission(admitted, bounds))
    requires Descends(c, child, p, admitted)
    ensures Mutate(child, Inverse(c, p), admitted, bounds) == Child(c) <==> Reversible(c, p, admitted)
  {
    var back := Edit(child, Inverse(c, p), admitted);
    MutateOfCanonical(child, Inverse(c, p), admitted, bounds);
    if Reversible(c, p, admitted) {
      UndoReturns(c, child, p, admitted, Admission(admitted, bounds));
    } else {
      NotReversible(c, child, p, admitted);
    }
  }

  lemma UndoReturns(c: Genome, child: Genome, p: Proposal, admitted: set<string>, limits: Limits)
    requires IsCanonical(c, limits) && Descends(c, child, p, admitted) && Reversible(c, p, admitted)
    ensures Edit(child, Inverse(c, p), admitted).Some?
    ensures Canonical(Edit(child, Inverse(c, p), admitted).value, limits) == Some(c)
    ensures SortedGenome(Edit(child, Inverse(c, p), admitted).value) == c
  {
    ReversibleTakenBack(c, child, p, admitted);
    TakenBackIsPermuted(c, child, p, admitted);
    CanonicalIsUnique(Edit(child, Inverse(c, p), admitted).value, c, limits);
  }
}
