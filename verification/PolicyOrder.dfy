/**
 The order of the search.  A policy ranks proposals by the position of their kind, and within a kind by the
 positions of the nodes, edges and primitives they name.  The stream ascends in that rank, so the candidates
 under a limit are the least ones that fit, and the next candidate is the least one not yet observed.
 */
module PolicyOrder {
  import opened Wrappers
  import opened Orders
  import opened Graph
  import opened Architecture
  import opened Mutation
  import opened Search
  import opened SearchProperties
  import opened Descendants
  import ConfigValue

  // --- the rank --------------------------------------------------------------------------------------

  ghost predicate Before<T>(s: seq<T>, x: T, y: T) { exists i, j :: 0 <= i < j < |s| && s[i] == x && s[j] == y }

  ghost predicate EdgeEarlier(c: Genome, e: Edge, f: Edge)
  {
    || (e.kind == FEEDFORWARD && f.kind == RECURRENT)
    || (e.kind == f.kind && Before(Ids(c.nodes), e.source, f.source))
    || (e.kind == f.kind && e.source == f.source && Before(Ids(c.nodes), e.target, f.target))
  }

  // The policy ranks `q` before `r`, two proposals of the same kind.
  ghost predicate EarlierInKind(c: Genome, p: Policy, q: Proposal, r: Proposal)
  {
    match q
    case ReplacePrimitive(node, x) =>
      && r.ReplacePrimitive?
      && (Before(Ids(c.nodes), node, r.node) || (node == r.node && Before(p.primitives, x, r.primitive)))
    case AddEdge(e) => r.AddEdge? && EdgeEarlier(c, e, r.edge)
    case RemoveEdge(e) => r.RemoveEdge? && Before(c.edges, e, r.edge)
    case AddNode(n) => r.AddNode? && Before(p.primitives, n.primitive, r.added.primitive)
    case RemoveNode(node) => r.RemoveNode? && Before(Ids(c.nodes), node, r.node)
    case _ => false
  }

  ghost predicate Earlier(c: Genome, p: Policy, q: Proposal, r: Proposal)
  {
    Before(p.kinds, KindOf(q), KindOf(r)) || EarlierInKind(c, p, q, r)
  }

  ghost predicate OrderedBy<T>(s: seq<T>, less: (T, T) -> bool)
  {
    forall i, j :: 0 <= i < j < |s| ==> less(s[i], s[j])
  }

  // --- concatenations of ordered lists -------------------------------------------------------------------

  lemma JoinOrdered<T>(a: seq<T>, b: seq<T>, less: (T, T) -> bool)
    requires OrderedBy(a, less) && OrderedBy(b, less)
    requires forall x, y :: x in a && y in b ==> less(x, y)
    ensures OrderedBy(a + b, less)
  {
    forall i, j | 0 <= i < j < |a + b|
      ensures less((a + b)[i], (a + b)[j])
    {
      if i < |a| <= j {
        assert a[i] in a && b[j - |a|] in b;
      }
    }
  }

  lemma {:induction false} FlatMapOrdered<T, U>(f: T -> seq<U>, s: seq<T>, less: (U, U) -> bool)
    requires forall t :: t in s ==> OrderedBy(f(t), less)
    requires forall i, j, u, v :: 0 <= i < j < |s| && u in f(s[i]) && v in f(s[j]) ==> less(u, v)
    ensures OrderedBy(FlatMap(f, s), less)
    decreases |s|
  {
    if s != [] {
      var rest := s[1..];
      forall i, j, u, v | 0 <= i < j < |rest| && u in f(rest[i]) && v in f(rest[j])
        ensures less(u, v)
      {
        assert rest[i] == s[i + 1] && rest[j] == s[j + 1];
      }
      FlatMapOrdered(f, rest, less);
      forall u, v | u in f(s[0]) && v in FlatMap(f, rest)
        ensures less(u, v)
      {
        var t := FlatMapFrom(f, rest, v);
        var k :| 0 <= k < |rest| && rest[k] == t;
        assert s[k + 1] == t;
      }
      JoinOrdered(f(s[0]), FlatMap(f, rest), less);
    }
  }

  // --- the stream of each kind -------------------------------------------------------------------------

  lemma ReplacementsOfOrdered(c: Genome, p: Policy, n: Node)
    ensures OrderedBy(ReplacementsOf(c, p, n), (q, r) => Earlier(c, p, q, r))
  {
    var f, less := (x: string) => Replacement(n, x), (q, r) => Earlier(c, p, q, r);
    forall i, j, u, v | 0 <= i < j < |p.primitives| && u in f(p.primitives[i]) && v in f(p.primitives[j])
      ensures less(u, v)
    {
      assert Before(p.primitives, p.primitives[i], p.primitives[j]);
      assert EarlierInKind(c, p, u, v);
    }
    FlatMapOrdered(f, p.primitives, less);
  }

  lemma ReplacementsOrdered(c: Genome, p: Policy)
    requires NoDup(p.primitives)
    ensures OrderedBy(StreamOf(c, p, "replace_primitive"), (q, r) => Earlier(c, p, q, r))
  {
    var f, less := (n: Node) => ReplacementsOf(c, p, n), (q, r) => Earlier(c, p, q, r);
    forall n | n in c.nodes
      ensures OrderedBy(f(n), less)
    {
      ReplacementsOfOrdered(c, p, n);
    }
    forall i, j, u, v | 0 <= i < j < |c.nodes| && u in f(c.nodes[i]) && v in f(c.nodes[j])
      ensures less(u, v)
    {
      ReplacementsOfAre(c, p, c.nodes[i]);
      ReplacementsOfAre(c, p, c.nodes[j]);
      assert Ids(c.nodes)[i] == u.node && Ids(c.nodes)[j] == v.node;
      assert EarlierInKind(c, p, u, v);
    }
    FlatMapOrdered(f, c.nodes, less);
  }

  lemma MissingFromOrdered(c: Genome, p: Policy, kind: string, source: string)
    ensures OrderedBy(MissingFrom(c, kind, source), (q, r) => Earlier(c, p, q, r))
  {
    var f, less := (target: string) => MissingEdge(c, kind, source, target), (q, r) => Earlier(c, p, q, r);
    var ids := Ids(c.nodes);
    forall i, j, u, v | 0 <= i < j < |ids| && u in f(ids[i]) && v in f(ids[j])
      ensures less(u, v)
    {
      assert Before(ids, ids[i], ids[j]);
      assert EarlierInKind(c, p, u, v);
    }
    FlatMapOrdered(f, ids, less);
  }

  lemma MissingEdgesOrdered(c: Genome, p: Policy, kind: string)
    requires NoDup(Ids(c.nodes))
    ensures OrderedBy(MissingEdges(c, kind), (q, r) => Earlier(c, p, q, r))
  {
    var f, less := (source: string) => MissingFrom(c, kind, source), (q, r) => Earlier(c, p, q, r);
    var ids := Ids(c.nodes);
    forall source | source in ids
      ensures OrderedBy(f(source), less)
    {
      MissingFromOrdered(c, p, kind, source);
    }
    forall i, j, u, v | 0 <= i < j < |ids| && u in f(ids[i]) && v in f(ids[j])
      ensures less(u, v)
    {
      MissingFromAre(c, kind, ids[i]);
      MissingFromAre(c, kind, ids[j]);
      assert Before(ids, ids[i], ids[j]);
      assert EarlierInKind(c, p, u, v);
    }
    FlatMapOrdered(f, ids, less);
  }

  lemma MissingOrdered(c: Genome, p: Policy)
    requires StreamReady(c, p)
    ensures OrderedBy(StreamOf(c, p, "add_edge"), (q, r) => Earlier(c, p, q, r))
  {
    var less := (q, r) => Earlier(c, p, q, r);
    IdsAre(c.nodes);
    MissingEdgesOrdered(c, p, FEEDFORWARD);
    MissingEdgesOrdered(c, p, RECURRENT);
    MissingEdgesAre(c, FEEDFORWARD);
    MissingEdgesAre(c, RECURRENT);
    forall q, r | q in MissingEdges(c, FEEDFORWARD) && r in MissingEdges(c, RECURRENT)
      ensures less(q, r)
    {
      assert EarlierInKind(c, p, q, r);
    }
    JoinOrdered(MissingEdges(c, FEEDFORWARD), MissingEdges(c, RECURRENT), less);
  }

  lemma RemovedEdgesOrdered(c: Genome, p: Policy)
    ensures OrderedBy(StreamOf(c, p, "remove_edge"), (q, r) => Earlier(c, p, q, r))
  {
    var f, less := (e: Edge) => [RemoveEdge(e)], (q, r) => Earlier(c, p, q, r);
    forall i, j, u, v | 0 <= i < j < |c.edges| && u in f(c.edges[i]) && v in f(c.edges[j])
      ensures less(u, v)
    {
      assert Before(c.edges, c.edges[i], c.edges[j]);
      assert EarlierInKind(c, p, u, v);
    }
    FlatMapOrdered(f, c.edges, less);
  }

  lemma NewNodesOrdered(c: Genome, p: Policy)
    ensures OrderedBy(StreamOf(c, p, "add_node"), (q, r) => Earlier(c, p, q, r))
  {
    var f, less := (x: string) => NewNode(c, x), (q, r) => Earlier(c, p, q, r);
    forall i, j, u, v | 0 <= i < j < |p.primitives| && u in f(p.primitives[i]) && v in f(p.primitives[j])
      ensures less(u, v)
    {
      assert Before(p.primitives, p.primitives[i], p.primitives[j]);
      assert EarlierInKind(c, p, u, v);
    }
    FlatMapOrdered(f, p.primitives, less);
  }

  lemma RemovalsOrdered(c: Genome, p: Policy)
    ensures OrderedBy(StreamOf(c, p, "remove_node"), (q, r) => Earlier(c, p, q, r))
  {
    var f, less := (id: string) => Removal(c, id), (q, r) => Earlier(c, p, q, r);
    var ids := Ids(c.nodes);
    forall i, j, u, v | 0 <= i < j < |ids| && u in f(ids[i]) && v in f(ids[j])
      ensures less(u, v)
    {
      assert Before(ids, ids[i], ids[j]);
      assert EarlierInKind(c, p, u, v);
    }
    FlatMapOrdered(f, ids, less);
  }

  lemma KindOrdered(c: Genome, p: Policy, kind: string)
    requires StreamReady(c, p) && kind in SUPPORTED
    ensures OrderedBy(StreamOf(c, p, kind), (q, r) => Earlier(c, p, q, r))
  {
    if kind == "replace_primitive" {
      ReplacementsOrdered(c, p);
    } else if kind == "add_edge" {
      MissingOrdered(c, p);
    } else if kind == "remove_edge" {
      RemovedEdgesOrdered(c, p);
    } else if kind == "add_node" {
      NewNodesOrdered(c, p);
    } else {
      RemovalsOrdered(c, p);
    }
  }

  // The stream ascends in the rank of its policy.
  lemma StreamIsOrdered(c: Genome, p: Policy)
    requires StreamReady(c, p)
    ensures var stream := ProposalStream(c, p);
            forall i, j :: 0 <= i < j < |stream| ==> Earlier(c, p, stream[i], stream[j])
  {
    var f, less := (kind: string) => StreamOf(c, p, kind), (q, r) => Earlier(c, p, q, r);
    forall kind | kind in p.kinds
      ensures OrderedBy(f(kind), less)
    {
      KindOrdered(c, p, kind);
    }
    forall i, j, u, v | 0 <= i < j < |p.kinds| && u in f(p.kinds[i]) && v in f(p.kinds[j])
      ensures less(u, v)
    {
      KindStream(c, p, p.kinds[i]);
      KindStream(c, p, p.kinds[j]);
      assert Before(p.kinds, p.kinds[i], p.kinds[j]);
    }
    FlatMapOrdered(f, p.kinds, less);
  }

  // --- the candidates ------------------------------------------------------------------------------------

  lemma {:induction false} FittingIs(c: Genome, bounds: Bounds, stream: seq<Proposal>)
    ensures forall q :: q in Fitting(c, bounds, stream) <==> q in stream && Fits(c, bounds, q)
    decreases |stream|
  {
    if stream != [] {
      FittingIs(c, bounds, stream[1..]);
      assert stream == [stream[0]] + stream[1..];
    }
  }

  lemma {:induction false} FittingOrdered(c: Genome, bounds: Bounds, stream: seq<Proposal>,
      less: (Proposal, Proposal) -> bool)
    requires OrderedBy(stream, less)
    ensures OrderedBy(Fitting(c, bounds, stream), less)
    decreases |stream|
  {
    if stream != [] {
      var rest := stream[1..];
      forall i, j | 0 <= i < j < |rest|
        ensures less(rest[i], rest[j])
      {
        assert rest[i] == stream[i + 1] && rest[j] == stream[j + 1];
      }
      FittingOrdered(c, bounds, rest, less);
      FittingIs(c, bounds, rest);
      forall y | y in rest
        ensures less(stream[0], y)
      {
        var k :| 0 <= k < |rest| && rest[k] == y;
        assert stream[k + 1] == y;
      }
      JoinOrdered(if Fits(c, bounds, stream[0]) then [stream[0]] else [], Fitting(c, bounds, rest), less);
    }
  }

  // What a policy may propose about `c`, and what its bounds leave of that.
  ghost predicate Eligible(c: Genome, p: Policy, bounds: Bounds, q: Proposal)
  {
    KindOf(q) in p.kinds && InStream(c, p, q) && Fits(c, bounds, q)
  }

  ghost predicate Listed(list: seq<Candidate>, q: Proposal) { exists x :: x in list && x.proposal == q }

  lemma ProposedAt(list: seq<Candidate>, k: nat)
    requires k < |list|
    ensures Listed(list, Proposals(list)[k]) && Proposals(list)[k] == list[k].proposal
  {
    assert list[k] in list;
  }

  // The candidates are the least eligible proposals of the policy: listed in rank, none left out unless the limit is
  // reached by candidates that all rank before it, and each with the child its proposal makes of the parent.
  lemma CandidatesAreLeast(h: Hashes, a: Genome, p: Policy, admitted: set<string>, bounds: SearchBounds)
    requires CollisionFree(h) && Enumerate(h, a, p, admitted, bounds).Candidates?
    ensures var list, c, b := Enumerate(h, a, p, admitted, bounds).list, SortedGenome(a),
              Bounds(bounds.maxNodes, bounds.maxEdges);
            && |list| <= p.limit
            && (forall i, j :: 0 <= i < j < |list| ==> Earlier(c, p, list[i].proposal, list[j].proposal))
            && (forall x :: x in list ==> Eligible(c, p, b, x.proposal))
            && (forall q :: Eligible(c, p, b, q) && !Listed(list, q) ==>
                  |list| == p.limit && forall x :: x in list ==> Earlier(c, p, x.proposal, q))
            && (forall x :: x in list ==>
                  && x.policyDigest == p.digest && x.parentDigest == h.genome(c)
                  && Mutate(c, x.proposal, admitted - {"source"}, b) == Child(x.child))
  {
    var list, t := Enumerate(h, a, p, admitted, bounds).list, TaskOf(h, a, p, admitted, bounds);
    var c, stream, less := t.parent, ProposalStream(t.parent, p), (q, r) => Earlier(t.parent, p, q, r);
    CanonicalIsIdempotent(a, Admission(t.admitted, t.bounds));
    EnumerationIsExact(h, a, p, admitted, bounds);
    StreamMembers(c, p);
    StreamIsOrdered(c, p);
    FittingIs(c, t.bounds, stream);
    FittingOrdered(c, t.bounds, stream, less);
    PrefixIsLeast(list, Fitting(c, t.bounds, stream), p.limit, less);
    FoundFacts(t, ApplyOf(t), stream, {}, p.limit);
    forall x | x in list
      ensures x.policyDigest == p.digest && x.parentDigest == h.genome(c)
      ensures Mutate(c, x.proposal, admitted - {"source"}, t.bounds) == Child(x.child)
    {
      assert Genuine(t, ApplyOf(t), stream, x);
    }
  }

  lemma PrefixIsLeast(list: seq<Candidate>, fitting: seq<Proposal>, limit: nat, less: (Proposal, Proposal) -> bool)
    requires Proposals(list) == Take(fitting, limit) && OrderedBy(fitting, less)
    ensures |list| <= limit
    ensures forall i, j :: 0 <= i < j < |list| ==> less(list[i].proposal, list[j].proposal)
    ensures forall x :: x in list ==> x.proposal in fitting
    ensures forall q :: q in fitting && !Listed(list, q) ==>
              |list| == limit && forall x :: x in list ==> less(x.proposal, q)
  {
    forall i | 0 <= i < |list|
      ensures i < |fitting| && list[i].proposal == fitting[i] && Listed(list, fitting[i])
    {
      ProposedAt(list, i);
    }
    forall q | q in fitting && !Listed(list, q)
      ensures |list| == limit && forall x :: x in list ==> less(x.proposal, q)
    {
      var k :| 0 <= k < |fitting| && fitting[k] == q;
      forall x | x in list
        ensures less(x.proposal, q)
      {
        var i :| 0 <= i < |list| && list[i] == x;
        assert fitting[i] == x.proposal;
      }
    }
  }

  lemma {:induction false} FirstUnobservedIs(h: Hashes, list: seq<Candidate>, observed: set<string>) returns (k: nat)
    requires FirstUnobserved(h, list, observed).Proposed?
    ensures k < |list| && list[k] == FirstUnobserved(h, list, observed).candidate
    ensures DigestOf(h, list[k]) !in observed && forall i :: 0 <= i < k ==> DigestOf(h, list[i]) in observed
    decreases |list|
  {
    if DigestOf(h, list[0]) !in observed {
      k := 0;
    } else {
      var rest := FirstUnobservedIs(h, list[1..], observed);
      k := rest + 1;
      forall i | 0 <= i < k
        ensures DigestOf(h, list[i]) in observed
      {
        assert i > 0 ==> list[i] == list[1..][i - 1];
      }
    }
  }

  // The next candidate is the least one that was not observed.
  lemma NextIsLeast(h: Hashes, a: Genome, p: Policy, admitted: set<string>, bounds: SearchBounds, observed: set<string>)
    requires CollisionFree(h) && Enumerate(h, a, p, admitted, bounds).Candidates?
    requires FirstUnobserved(h, Enumerate(h, a, p, admitted, bounds).list, observed).Proposed?
    ensures var list := Enumerate(h, a, p, admitted, bounds).list;
            var next := FirstUnobserved(h, list, observed).candidate;
            && next in list && DigestOf(h, next) !in observed
            && forall x :: x in list && DigestOf(h, x) !in observed ==>
              x == next || Earlier(SortedGenome(a), p, next.proposal, x.proposal)
  {
    var list := Enumerate(h, a, p, admitted, bounds).list;
    CandidatesAreLeast(h, a, p, admitted, bounds);
    var k := FirstUnobservedIs(h, list, observed);
    forall x | x in list && DigestOf(h, x) !in observed
      ensures x == list[k] || Earlier(SortedGenome(a), p, list[k].proposal, x.proposal)
    {
      var i :| 0 <= i < |list| && list[i] == x;
      assert i >= k;
    }
  }

  // Two candidates have one digest only when they are the same step of the same policy.
  lemma DigestTellsCandidates(h: Hashes, x: Candidate, y: Candidate)
    requires CollisionFree(h)
    ensures DigestOf(h, x) == DigestOf(h, y) <==>
              && x.policyDigest == y.policyDigest && x.parentDigest == y.parentDigest && x.child == y.child
              && h.proposal(x.proposal) == h.proposal(y.proposal)
  {
    assert h.genome(x.child) == h.genome(y.child) ==> x.child == y.child;
  }

  lemma PolicyMeans(h: Hashes, p: Policy)
    ensures ValidPolicy(h, p) <==>
              && p.kinds != [] && (forall i, j :: 0 <= i < j < |p.kinds| ==> p.kinds[i] != p.kinds[j])
              && (forall k :: k in p.kinds ==>
                 k in {"replace_primitive", "add_edge", "remove_edge", "add_node", "remove_node"})
              && p.primitives != []
              && (forall i, j :: 0 <= i < j < |p.primitives| ==> p.primitives[i] != p.primitives[j])
              && (forall x :: x in p.primitives ==> StripsToItself(x) && x != "source")
              && 0 < p.limit && p.digest == h.policy(p.kinds, p.primitives, p.limit, p.parent)
  {
    forall x | x in p.primitives
      ensures IsName(x) <==> StripsToItself(x)
    {
      NamesAreStripped(x);
    }
    SupportedAre(p.kinds);
  }

  lemma SupportedAre(kinds: seq<string>)
    ensures (forall k :: k in kinds ==> k in SUPPORTED) <==>
              (forall k :: k in kinds ==>
                 k in {"replace_primitive", "add_edge", "remove_edge", "add_node", "remove_node"})
  {
    forall k | k in kinds
      ensures k in SUPPORTED <==> k in {"replace_primitive", "add_edge", "remove_edge", "add_node", "remove_node"}
    {
    }
  }

  // A search is refused exactly for an invalid policy, for primitives or a limit beyond what is admitted, or for a
  // parent that is not admitted.
  lemma SearchRefuses(h: Hashes, a: Genome, p: Policy, admitted: set<string>, bounds: SearchBounds)
    ensures Enumerate(h, a, p, admitted, bounds).Candidates? <==>
              && ValidPolicy(h, p)
              && (forall x :: x in p.primitives ==> x in admitted) && p.limit <= bounds.maxCandidates
              && Canonical(a, Limits(Some(admitted + {"source"}), Some(bounds.maxNodes), Some(bounds.maxEdges))).Some?
  {
    assert admitted - {"source"} + {"source"} == admitted + {"source"};
    assert Admission(admitted - {"source"}, BoundsOf(bounds))
        == Limits(Some(admitted + {"source"}), Some(bounds.maxNodes), Some(bounds.maxEdges));
    if ValidPolicy(h, p) {
      assert (forall x :: x in p.primitives ==> x in admitted) <==>
             (forall x :: x in p.primitives ==> x in admitted - {"source"});
    }
  }

  // --- the names of new nodes --------------------------------------------------------------------------------

  ghost predicate Digits(s: string) { forall i :: 0 <= i < |s| ==> '0' <= s[i] <= '9' }

  ghost function ValueOf(s: string): nat
    requires Digits(s)
  {
    if s == "" then 0 else 10 * ValueOf(s[..|s| - 1]) + (s[|s| - 1] as int - '0' as int)
  }

  // A number is written without leading zeros and reads back as itself.
  lemma {:induction false} DecimalReadsBack(n: nat)
    ensures Digits(Decimal(n)) && ValueOf(Decimal(n)) == n
    ensures n == 0 || Decimal(n)[0] != '0'
    decreases n
  {
    var digit := ["0", "1", "2", "3", "4", "5", "6", "7", "8", "9"][n % 10];
    assert |digit| == 1 && digit[0] as int == '0' as int + n % 10;
    if n < 10 {
      assert digit[..0] == "";
    } else {
      DecimalReadsBack(n / 10);
      assert Decimal(n)[..|Decimal(n)| - 1] == Decimal(n / 10);
    }
  }

  // A new node gets the first of the numbered names that no node has.
  lemma FreshIdIs(ids: seq<string>) returns (n: nat)
    ensures FreshId(ids) == "cognitive_candidate_" + Decimal(n) && FreshId(ids) !in ids
    ensures forall k: nat :: k < n ==> "cognitive_candidate_" + Decimal(k) in ids
  {
    n := FreshIndex(ids, 0);
    assert forall k: nat :: Generated(k) == "cognitive_candidate_" + Decimal(k);
  }
}
