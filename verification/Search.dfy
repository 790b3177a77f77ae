/**
 Bounded search over the descendants of one genome: the proposal stream of a policy, the enumeration
 of the children it reaches, and the walk that proposes them one at a time.
 */
module Search {
  import opened Wrappers
  import opened Orders
  import opened Graph
  import opened Architecture
  import opened Mutation
  import ConfigValue

  const SUPPORTED: seq<string> := ["replace_primitive", "add_edge", "remove_edge", "add_node", "remove_node"]

  datatype Policy = Policy(kinds: seq<string>, primitives: seq<string>, limit: int, parent: string, digest: string)

  datatype SearchBounds = SearchBounds(maxCandidates: int, maxNodes: int, maxEdges: int)

  // The content identities the search computes.
  datatype Hashes = Hashes(
    policy: (seq<string>, seq<string>, int, string) -> string,
    genome: Genome -> string,
    proposal: Proposal -> string,
    record: (string, string, string) -> string,
    candidate: (string, string, string, string) -> string)

  // What the theorems ask of the digests.  Everything digested here is finite data, floats included, so there are
  // functions to texts that meet it.
  ghost predicate CollisionFree(h: Hashes)
  {
    && (forall a, b :: h.genome(a) == h.genome(b) ==> a == b)
    && (forall a, b, c, a', b', c' :: h.record(a, b, c) == h.record(a', b', c') ==> a == a' && b == b' && c == c')
    && (forall a, b, c, d, a', b', c', d' ::
          h.candidate(a, b, c, d) == h.candidate(a', b', c', d') ==> a == a' && b == b' && c == c' && d == d')
  }

  datatype Candidate = Candidate(policyDigest: string, parentDigest: string, child: Genome, proposal: Proposal)

  function DigestOf(h: Hashes, c: Candidate): string
  {
    var child := h.genome(c.child);
    h.candidate(c.policyDigest, c.parentDigest, child, h.record(c.parentDigest, child, h.proposal(c.proposal)))
  }

  predicate ValidPolicy(h: Hashes, p: Policy)
  {
    && p.kinds != [] && NoDup(p.kinds) && (forall k :: k in p.kinds ==> k in SUPPORTED)
    && p.primitives != [] && NoDup(p.primitives) && "source" !in p.primitives &&
       (forall x :: x in p.primitives ==> IsName(x))
    && p.limit > 0
    && p.digest == h.policy(p.kinds, p.primitives, p.limit, p.parent)
  }

  // --- fresh identifiers ---------------------------------------------------------------------------

  function Decimal(n: nat): (s: string)
    ensures s != []
  {
    var digit := ["0", "1", "2", "3", "4", "5", "6", "7", "8", "9"][n % 10];
    if n < 10 then digit else Decimal(n / 10) + digit
  }

  lemma {:induction false} DecimalIsInjective(a: nat, b: nat)
    requires Decimal(a) == Decimal(b)
    ensures a == b
    decreases a
  {
    var s := Decimal(a);
    assert s[|s| - 1] == ["0", "1", "2", "3", "4", "5", "6", "7", "8", "9"][a % 10][0];
    assert s[|s| - 1] == ["0", "1", "2", "3", "4", "5", "6", "7", "8", "9"][b % 10][0];
    assert a % 10 == b % 10;
    if a >= 10 && b >= 10 {
      assert s[..|s| - 1] == Decimal(a / 10) && s[..|s| - 1] == Decimal(b / 10);
      DecimalIsInjective(a / 10, b / 10);
    }
  }

  const PREFIX := "cognitive_candidate_"

  function Generated(n: nat): string { PREFIX + Decimal(n) }

  lemma GeneratedIsInjective(a: nat, b: nat)
    requires Generated(a) == Generated(b)
    ensures a == b
  {
    assert Generated(a)[|PREFIX|..] == Decimal(a) && Generated(b)[|PREFIX|..] == Decimal(b);
    DecimalIsInjective(a, b);
  }

  // The names tried so far are distinct and all taken, so there are no more of them than taken names.
  lemma TriedFits(occupied: set<string>, index: nat)
    requires forall k :: 0 <= k < index ==> Generated(k) in occupied
    ensures index <= |occupied|
  {
    var tried := seq(index, k requires 0 <= k < index => Generated(k));
    forall i, j | 0 <= i < j < index
      ensures tried[i] != tried[j]
    {
      if tried[i] == tried[j] {
        GeneratedIsInjective(i, j);
      }
    }
    NoDupFits(tried, occupied);
  }

  // The first index whose name is free.
  ghost predicate FirstFree(occupied: set<string>, index: nat)
  {
    Generated(index) !in occupied && forall k :: 0 <= k < index ==> Generated(k) in occupied
  }

  method NextGeneratedNodeId(ids: seq<string>) returns (id: string, index: nat)
    ensures id == Generated(index) && FirstFree(Elements(ids), index)
    ensures index <= |ids|
  {
    var occupied := Elements(ids);
    index := 0;
    TriedFits(occupied, 0);
    while Generated(index) in occupied
      invariant forall k :: 0 <= k < index ==> Generated(k) in occupied
      invariant index <= |occupied|
      decreases |occupied| - index
    {
      TriedFits(occupied, index + 1);
      index := index + 1;
    }
    ElementsSize(ids);
    id := Generated(index);
  }

  lemma {:induction false} ElementsSize<T>(s: seq<T>)
    ensures |Elements(s)| <= |s|
    decreases |s|
  {
    if s != [] {
      ElementsSize(s[..|s| - 1]);
      assert Elements(s) == Elements(s[..|s| - 1]) + {s[|s| - 1]};
    }
  }

  // The index the loop finds, as a function of the occupied names.
  function FreshIndex(ids: seq<string>, from: nat): (index: nat)
    requires forall k :: 0 <= k < from ==> Generated(k) in Elements(ids)
    ensures FirstFree(Elements(ids), index)
    decreases |Elements(ids)| - from
  {
    TriedFits(Elements(ids), from);
    if Generated(from) !in Elements(ids) then from
    else
      TriedFits(Elements(ids), from + 1);
      FreshIndex(ids, from + 1)
  }

  function FreshId(ids: seq<string>): string { Generated(FreshIndex(ids, 0)) }

  // --- the proposal stream -------------------------------------------------------------------------

  function FlatMap<T, U>(f: T -> seq<U>, s: seq<T>): seq<U>
  {
    if s == [] then [] else f(s[0]) + FlatMap(f, s[1..])
  }

  function Replacement(n: Node, x: string): seq<Proposal>
  {
    if x == n.primitive then [] else [ReplacePrimitive(n.id, x)]
  }

  function ReplacementsOf(c: Genome, p: Policy, n: Node): seq<Proposal>
  {
    if n.id in c.inputs then [] else FlatMap((x: string) => Replacement(n, x), p.primitives)
  }

  function MissingEdge(c: Genome, kind: string, source: string, target: string): seq<Proposal>
  {
    if target in c.inputs || (kind == FEEDFORWARD && source == target) || Edge(source, target, kind) in c.edges then []
    else [AddEdge(Edge(source, target, kind))]
  }

  function MissingFrom(c: Genome, kind: string, source: string): seq<Proposal>
  {
    FlatMap((target: string) => MissingEdge(c, kind, source, target), Ids(c.nodes))
  }

  function MissingEdges(c: Genome, kind: string): seq<Proposal>
  {
    FlatMap((source: string) => MissingFrom(c, kind, source), Ids(c.nodes))
  }

  function NewNode(c: Genome, x: string): seq<Proposal>
  {
    [AddNode(Node(FreshId(Ids(c.nodes)), x, ConfigValue.Dict([])))]
  }

  function Removal(c: Genome, id: string): seq<Proposal>
  {
    if id in c.inputs || id in c.outputs then [] else [RemoveNode(id)]
  }

  function StreamOf(c: Genome, p: Policy, kind: string): seq<Proposal>
  {
    if kind == "replace_primitive" then FlatMap((n: Node) => ReplacementsOf(c, p, n), c.nodes)
    else if kind == "add_edge" then MissingEdges(c, FEEDFORWARD) + MissingEdges(c, RECURRENT)
    else if kind == "remove_edge" then FlatMap((e: Edge) => [RemoveEdge(e)], c.edges)
    else if kind == "add_node" then FlatMap((x: string) => NewNode(c, x), p.primitives)
    else FlatMap((id: string) => Removal(c, id), Ids(c.nodes))
  }

  function ProposalStream(c: Genome, p: Policy): seq<Proposal>
  {
    FlatMap((kind: string) => StreamOf(c, p, kind), p.kinds)
  }

  // --- enumeration -----------------------------------------------------------------------------------

  function BoundsOf(b: SearchBounds): Bounds { Bounds(b.maxNodes, b.maxEdges) }

  // The environment of one enumeration: a canonical parent under its policy, registry and ceilings.
  datatype Task = Task(h: Hashes, parent: Genome, policy: Policy, admitted: set<string>, bounds: Bounds)

  function CandidateOf(t: Task, child: Genome, p: Proposal): Candidate
  {
    Candidate(t.policy.digest, t.h.genome(t.parent), child, p)
  }

  // What each proposal does to the parent of a task.
  ghost function ApplyOf(t: Task): Proposal -> Outcome
  {
    p => Mutate(t.parent, p, t.admitted, t.bounds)
  }

  // The candidates that the rest of a stream adds, given the child identities seen and the room left.
  ghost function Found(t: Task, apply: Proposal -> Outcome, stream: seq<Proposal>, seen: set<string>,
      room: nat): seq<Candidate>
  {
    if stream == [] || room == 0 then []
    else
      var outcome := apply(stream[0]);
      if !outcome.Child? || t.h.genome(outcome.genome) == t.h.genome(t.parent) ||
        t.h.genome(outcome.genome) in seen then
        Found(t, apply, stream[1..], seen, room)
      else
        [CandidateOf(t, outcome.genome, stream[0])]
          + Found(t, apply, stream[1..], seen + {t.h.genome(outcome.genome)}, room - 1)
  }

  datatype Enumeration = Candidates(list: seq<Candidate>) | Refused

  ghost predicate Admits(h: Hashes, a: Genome, p: Policy, admitted: set<string>, bounds: SearchBounds)
  {
    && ValidPolicy(h, p)
    && (forall x :: x in p.primitives ==> x in admitted - {"source"})
    && p.limit <= bounds.maxCandidates
    && Canonical(a, Admission(admitted - {"source"}, BoundsOf(bounds))).Some?
  }

  function TaskOf(h: Hashes, a: Genome, p: Policy, admitted: set<string>, bounds: SearchBounds): Task
  {
    Task(h, SortedGenome(a), p, admitted - {"source"}, BoundsOf(bounds))
  }

  ghost function Enumerate(h: Hashes, a: Genome, p: Policy, admitted: set<string>, bounds: SearchBounds): Enumeration
  {
    if !Admits(h, a, p, admitted, bounds) then Refused
    else
      var t := TaskOf(h, a, p, admitted, bounds);
      Candidates(Found(t, ApplyOf(t), ProposalStream(t.parent, p), {}, p.limit))
  }

  method EnumerateCandidates(h: Hashes, a: Genome, p: Policy, admitted: set<string>, bounds: SearchBounds)
    returns (result: Enumeration)
    ensures result == Enumerate(h, a, p, admitted, bounds)
  {
    if !ValidPolicy(h, p) {
      return Refused;
    }
    var names := admitted - {"source"};
    if (exists x :: x in p.primitives && x !in names) || p.limit > bounds.maxCandidates {
      return Refused;
    }
    var parent := CanonicalArchitecture(a, Admission(names, BoundsOf(bounds)));
    if parent.None? {
      return Refused;
    }
    var t := Task(h, parent.value, p, names, BoundsOf(bounds));
    var list := EnumerateStream(t, ProposalStream(parent.value, p));
    return Candidates(list);
  }

  method Try(t: Task, p: Proposal) returns (outcome: Outcome)
    ensures outcome == ApplyOf(t)(p)
  {
    outcome := ApplyMutation(t.parent, p, t.admitted, t.bounds);
  }

  lemma FoundNext(t: Task, apply: Proposal -> Outcome, stream: seq<Proposal>, i: nat, seen: set<string>,
      list: seq<Candidate>, room: nat)
    requires i < |stream| && room > 0
    ensures var outcome := apply(stream[i]);
            list + Found(t, apply, stream[i..], seen, room) ==
              if !outcome.Child? || t.h.genome(outcome.genome) == t.h.genome(t.parent) ||
                t.h.genome(outcome.genome) in seen then
                list + Found(t, apply, stream[i + 1..], seen, room)
              else
                (list + [CandidateOf(t, outcome.genome, stream[i])])
                + Found(t, apply, stream[i + 1..], seen + {t.h.genome(outcome.genome)}, room - 1)
  {
    assert stream[i..][0] == stream[i] && stream[i..][1..] == stream[i + 1..];
  }

  method EnumerateStream(t: Task, stream: seq<Proposal>) returns (list: seq<Candidate>)
    requires t.policy.limit > 0
    ensures list == Found(t, ApplyOf(t), stream, {}, t.policy.limit)
  {
    list := [];
    var seen: set<string> := {};
    ghost var apply := ApplyOf(t);
    ghost var all := Found(t, apply, stream, {}, t.policy.limit);
    assert stream[0..] == stream && [] + all == all;
    for i := 0 to |stream|
      invariant |list| < t.policy.limit
      invariant list + Found(t, apply, stream[i..], seen, t.policy.limit - |list|) == all
    {
      FoundNext(t, apply, stream, i, seen, list, t.policy.limit - |list|);
      var outcome := Try(t, stream[i]);
      if !outcome.Child? {
        continue;
      }
      var digest := t.h.genome(outcome.genome);
      if digest == t.h.genome(t.parent) || digest in seen {
        continue;
      }
      seen := seen + {digest};
      list := list + [CandidateOf(t, outcome.genome, stream[i])];
      if |list| >= t.policy.limit {
        assert list + [] == list;
        return list;
      }
    }
    assert list + [] == list;
  }

  // --- one candidate at a time -----------------------------------------------------------------------

  datatype Next = Proposed(candidate: Candidate) | Exhausted | RefusedSearch

  function FirstUnobserved(h: Hashes, list: seq<Candidate>, observed: set<string>): Next
  {
    if list == [] then Exhausted
    else if DigestOf(h, list[0]) !in observed then Proposed(list[0])
    else FirstUnobserved(h, list[1..], observed)
  }

  method NextCandidate(h: Hashes, a: Genome, p: Policy, admitted: set<string>, bounds: SearchBounds,
      observed: set<string>)
    returns (next: Next)
    ensures var e := Enumerate(h, a, p, admitted, bounds);
            next == if e.Refused? then RefusedSearch else FirstUnobserved(h, e.list, observed)
  {
    var e := EnumerateCandidates(h, a, p, admitted, bounds);
    if e.Refused? {
      return RefusedSearch;
    }
    for i := 0 to |e.list|
      invariant FirstUnobserved(h, e.list[i..], observed) == FirstUnobserved(h, e.list, observed)
    {
      assert e.list[i..][0] == e.list[i] && e.list[i..][1..] == e.list[i + 1..];
      if DigestOf(h, e.list[i]) !in observed {
        return Proposed(e.list[i]);
      }
    }
    return Exhausted;
  }
}
