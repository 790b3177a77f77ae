/**
 Feedforward graphs: paths and cycles, topological orders, and Kahn's algorithm in the two
 disciplines the repository uses (a first-in first-out queue, and a ready list kept sorted).
 */
module Graph {
  import opened Wrappers
  import opened Orders

  const FEEDFORWARD := "feedforward"
  const RECURRENT := "recurrent"

  datatype Edge = Edge(source: string, target: string, kind: string)

  datatype Discipline = Fifo | SortedReady

  predicate Feeds(edges: seq<Edge>, a: string, b: string) { Edge(a, b, FEEDFORWARD) in edges }

  ghost predicate IsPath(edges: seq<Edge>, p: seq<string>)
  {
    p != [] && forall i :: 0 <= i < |p| - 1 ==> Feeds(edges, p[i], p[i + 1])
  }

  ghost predicate IsCycle(edges: seq<Edge>, p: seq<string>)
  {
    IsPath(edges, p) && |p| >= 2 && p[0] == p[|p| - 1]
  }

  ghost predicate Acyclic(edges: seq<Edge>) { forall p :: !IsCycle(edges, p) }

  predicate Closed(ids: seq<string>, edges: seq<Edge>)
  {
    forall e :: e in edges ==> e.source in ids && e.target in ids
  }

  // Every node once, every feedforward source before its target.
  ghost predicate IsTopological(ids: seq<string>, edges: seq<Edge>, order: seq<string>)
  {
    && multiset(order) == multiset(ids)
    && (forall i, j :: 0 <= i < |order| && 0 <= j < |order| && Feeds(edges, order[i], order[j]) ==> i < j)
  }

  // --- the lists the algorithms build from the edges -------------------------------------------

  function Targets(edges: seq<Edge>, n: string): seq<string>
  {
    if edges == [] then []
    else
      var e := edges[|edges| - 1];
      Targets(edges[..|edges| - 1], n) + (if e.kind == FEEDFORWARD && e.source == n then [e.target] else [])
  }

  function Sources(edges: seq<Edge>, n: string, kind: string): seq<string>
  {
    if edges == [] then []
    else
      var e := edges[|edges| - 1];
      Sources(edges[..|edges| - 1], n, kind) + (if e.kind == kind && e.target == n then [e.source] else [])
  }

  // The feedforward edges into `n` that come from outside `done`.
  ghost function Waiting(edges: seq<Edge>, n: string, done: set<string>): nat
  {
    if edges == [] then 0
    else
      var e := edges[|edges| - 1];
      Waiting(edges[..|edges| - 1], n, done)
        + (if e.kind == FEEDFORWARD && e.target == n && e.source !in done then 1 else 0)
  }

  lemma NoDupInit<T>(s: seq<T>)
    requires NoDup(s) && s != []
    ensures NoDup(s[..|s| - 1]) && s[|s| - 1] !in s[..|s| - 1]
    ensures s == s[..|s| - 1] + [s[|s| - 1]]
  {
  }

  lemma {:induction false} TargetsAre(edges: seq<Edge>, n: string)
    requires NoDup(edges)
    ensures forall t :: t in Targets(edges, n) <==> Feeds(edges, n, t)
    ensures NoDup(Targets(edges, n))
    decreases |edges|
  {
    if edges != [] {
      NoDupInit(edges);
      TargetsAre(edges[..|edges| - 1], n);
      var e := edges[|edges| - 1];
      if e.kind == FEEDFORWARD && e.source == n {
        assert !Feeds(edges[..|edges| - 1], n, e.target);
      }
    }
  }

  lemma {:induction false} SourcesAre(edges: seq<Edge>, n: string, kind: string)
    requires NoDup(edges)
    ensures forall s :: s in Sources(edges, n, kind) <==> Edge(s, n, kind) in edges
    ensures NoDup(Sources(edges, n, kind))
    decreases |edges|
  {
    if edges != [] {
      NoDupInit(edges);
      SourcesAre(edges[..|edges| - 1], n, kind);
      var e := edges[|edges| - 1];
      if e.kind == kind && e.target == n {
        assert Edge(e.source, n, kind) !in edges[..|edges| - 1];
      }
    }
  }

  lemma {:induction false} WaitingStarts(edges: seq<Edge>, n: string)
    ensures Waiting(edges, n, {}) == |Sources(edges, n, FEEDFORWARD)|
    decreases |edges|
  {
    if edges != [] {
      WaitingStarts(edges[..|edges| - 1], n);
    }
  }

  lemma {:induction false} WaitingZero(edges: seq<Edge>, n: string, done: set<string>)
    ensures Waiting(edges, n, done) == 0 <==> forall s :: Feeds(edges, s, n) ==> s in done
    decreases |edges|
  {
    if edges != [] {
      var init, e := edges[..|edges| - 1], edges[|edges| - 1];
      WaitingZero(init, n, done);
      assert edges == init + [e];
      if Waiting(init, n, done) != 0 {
        var s :| Feeds(init, s, n) && s !in done;
        assert Feeds(edges, s, n);
      } else if e.kind == FEEDFORWARD && e.target == n && e.source !in done {
        assert Feeds(edges, e.source, n);
      }
    }
  }

  lemma {:induction false} WaitingDrops(edges: seq<Edge>, n: string, done: set<string>, c: string)
    requires NoDup(edges) && c !in done
    ensures Waiting(edges, n, done) == Waiting(edges, n, done + {c}) + (if Feeds(edges, c, n) then 1 else 0)
    decreases |edges|
  {
    if edges != [] {
      NoDupInit(edges);
      WaitingDrops(edges[..|edges| - 1], n, done, c);
    }
  }

  // --- Kahn's algorithm -------------------------------------------------------------------------

  ghost predicate KahnState(ids: seq<string>, edges: seq<Edge>, indegree: map<string, int>, ready: seq<string>,
      order: seq<string>)
  {
    && NoDup(order) && NoDup(ready) && indegree.Keys == Elements(ids)
    && (forall n :: n in order ==> n in ids)
    && (forall n :: n in ids ==> indegree[n] == Waiting(edges, n, Elements(order)))
    && (forall n :: n in ready <==> n in ids && n !in order && Waiting(edges, n, Elements(order)) == 0)
    && (forall i, s :: 0 <= i < |order| && Feeds(edges, s, order[i]) ==> s in order[..i])
  }

  // The inner loop: every target of the node just taken loses one waiting edge.
  // A node that became ready goes to the end, or into its sorted place.
  function Push(ready: seq<string>, target: string, discipline: Discipline): (pushed: seq<string>)
    ensures forall n :: n in pushed <==> n in ready || n == target
    ensures NoDup(ready) && target !in ready ==> NoDup(pushed)
  {
    var appended := ready + [target];
    match discipline
    case Fifo => appended
    case SortedReady =>
      SameMembers(appended, Sorted(appended));
      if NoDup(ready) && target !in ready then
        PermutedNoDup(appended, Sorted(appended));
        Sorted(appended)
      else Sorted(appended)
  }

  method Release(targets: seq<string>, indegree: map<string, int>, ready: seq<string>, discipline: Discipline)
    returns (indegree': map<string, int>, ready': seq<string>)
    requires NoDup(targets) && NoDup(ready)
    requires forall t :: t in targets ==> t in indegree && indegree[t] >= 1 && t !in ready
    ensures indegree'.Keys == indegree.Keys
    ensures forall n :: n in indegree ==> indegree'[n] == indegree[n] - (if n in targets then 1 else 0)
    ensures NoDup(ready')
    ensures forall n :: n in ready' <==> n in ready || (n in targets && indegree'[n] == 0)
  {
    indegree', ready' := indegree, ready;
    for i := 0 to |targets|
      invariant indegree'.Keys == indegree.Keys
      invariant forall n :: n in indegree ==> indegree'[n] == indegree[n] - (if n in targets[..i] then 1 else 0)
      invariant NoDup(ready')
      invariant forall n :: n in ready' <==> n in ready || (n in targets[..i] && indegree'[n] == 0)
    {
      var target := targets[i];
      assert target !in targets[..i];
      assert targets[..i + 1] == targets[..i] + [target];
      indegree' := indegree'[target := indegree'[target] - 1];
      if indegree'[target] == 0 { ready' := Push(ready', target, discipline); }
    }
    assert targets[..|targets|] == targets;
  }

  lemma KahnStep(ids: seq<string>, edges: seq<Edge>, indegree: map<string, int>, ready: seq<string>, order: seq<string>,
      indegree': map<string, int>, ready': seq<string>)
    requires NoDup(edges) && KahnState(ids, edges, indegree, ready, order) && ready != []
    requires indegree'.Keys == indegree.Keys && NoDup(ready')
    requires forall n :: n in indegree ==> indegree'[n] == indegree[n] - (if Feeds(edges, ready[0], n) then 1 else 0)
    requires forall n :: n in ready' <==>
      n in ready[1..] || (n in ids && Feeds(edges, ready[0], n) && indegree'[n] == 0)
    ensures KahnState(ids, edges, indegree', ready', order + [ready[0]])
  {
    var c := ready[0];
    var order' := order + [c];
    assert c in ready;
    assert Elements(order') == Elements(order) + {c};
    WaitingZero(edges, c, Elements(order));
    forall n | n in ids
      ensures indegree'[n] == Waiting(edges, n, Elements(order'))
    {
      WaitingDrops(edges, n, Elements(order), c);
    }
    assert c !in ready[1..] && forall n :: n in ready <==> n == c || n in ready[1..];
    forall n
      ensures n in ready' <==> n in ids && n !in order' && Waiting(edges, n, Elements(order')) == 0
    {
      WaitingDrops(edges, n, Elements(order), c);
    }
    forall i, s | 0 <= i < |order'| && Feeds(edges, s, order'[i])
      ensures s in order'[..i]
    {
      if i < |order| {
        assert order'[..i] == order[..i] && order'[i] == order[i];
      } else {
        assert order'[..i] == order;
      }
    }
  }

  ghost predicate ListsUpTo(ids: seq<string>, edges: seq<Edge>, outgoing: map<string, seq<string>>,
      indegree: map<string, int>)
  {
    && outgoing.Keys == indegree.Keys == Elements(ids)
    && (forall n :: n in ids ==> outgoing[n] == Targets(edges, n))
    && (forall n :: n in ids ==> indegree[n] == |Sources(edges, n, FEEDFORWARD)|)
  }

  lemma OneMoreEdge(edges: seq<Edge>, i: nat, n: string)
    requires i < |edges|
    ensures Targets(edges[..i + 1], n)
         == Targets(edges[..i], n)
           + (if edges[i].kind == FEEDFORWARD && edges[i].source == n then [edges[i].target] else [])
    ensures |Sources(edges[..i + 1], n, FEEDFORWARD)|
         == |Sources(edges[..i], n, FEEDFORWARD)|
           + (if edges[i].kind == FEEDFORWARD && edges[i].target == n then 1 else 0)
  {
    var next := edges[..i + 1];
    assert next[..|next| - 1] == edges[..i] && next[|next| - 1] == edges[i];
  }

  lemma OneMoreInLists(ids: seq<string>, edges: seq<Edge>, i: nat, outgoing: map<string, seq<string>>,
      indegree: map<string, int>)
    requires i < |edges| && ListsUpTo(ids, edges[..i], outgoing, indegree) && edges[i].source in ids &&
      edges[i].target in ids
    ensures var e := edges[i];
            if e.kind == FEEDFORWARD then
              ListsUpTo(ids, edges[..i + 1], outgoing[e.source := outgoing[e.source] + [e.target]],
                indegree[e.target := indegree[e.target] + 1])
            else ListsUpTo(ids, edges[..i + 1], outgoing, indegree)
  {
    forall n | n in ids
      ensures Targets(edges[..i + 1], n)
           == outgoing[n] + (if edges[i].kind == FEEDFORWARD && edges[i].source == n then [edges[i].target] else [])
    {
      OneMoreEdge(edges, i, n);
    }
    forall n | n in ids
      ensures |Sources(edges[..i + 1], n, FEEDFORWARD)|
           == indegree[n] + (if edges[i].kind == FEEDFORWARD && edges[i].target == n then 1 else 0)
    {
      OneMoreEdge(edges, i, n);
    }
  }

  method BuildLists(ids: seq<string>, edges: seq<Edge>)
    returns (outgoing: map<string, seq<string>>, indegree: map<string, int>)
    requires Closed(ids, edges)
    ensures ListsUpTo(ids, edges, outgoing, indegree)
  {
    outgoing := map n | n in ids :: [];
    indegree := map n | n in ids :: 0;
    for i := 0 to |edges|
      invariant ListsUpTo(ids, edges[..i], outgoing, indegree)
    {
      var edge := edges[i];
      assert edge in edges;
      OneMoreInLists(ids, edges, i, outgoing, indegree);
      if edge.kind == FEEDFORWARD {
        outgoing := outgoing[edge.source := outgoing[edge.source] + [edge.target]];
        indegree := indegree[edge.target := indegree[edge.target] + 1];
      }
    }
    assert edges[..|edges|] == edges;
  }

  // Take ready nodes one by one, and refuse when some node is never ready.
  method FeedforwardOrder(ids: seq<string>, edges: seq<Edge>, discipline: Discipline)
    returns (result: Option<seq<string>>)
    requires NoDup(ids) && NoDup(edges) && Closed(ids, edges)
    ensures result.Some? <==> Acyclic(edges)
    ensures result.Some? ==> IsTopological(ids, edges, result.value)
  {
    var outgoing, indegree := BuildLists(ids, edges);
    var ready := ReadyAtStart(ids, indegree);
    var order: seq<string> := [];
    StartsInState(ids, edges, indegree, ready);
    while ready != []
      invariant KahnState(ids, edges, indegree, ready, order)
      decreases |ids| - |order|
    {
      var current := ready[0];
      assert current in ready;
      TakenFits(ids, edges, indegree, ready, order);
      var targets := Sorted(outgoing[current]);
      SortedTargets(ids, edges, indegree, ready, order, targets);
      var indegree', ready' := Release(targets, indegree, ready[1..], discipline);
      KahnStep(ids, edges, indegree, ready, order, indegree', ready');
      order, indegree, ready := order + [current], indegree', ready';
    }
    if |order| != |ids| {
      StuckMeansCycle(ids, edges, indegree, order);
      return None;
    }
    OrderIsTopological(ids, edges, indegree, order);
    TopologicalMeansAcyclic(ids, edges, order);
    return Some(order);
  }

  lemma SortedTargets(ids: seq<string>, edges: seq<Edge>, indegree: map<string, int>, ready: seq<string>,
      order: seq<string>, targets: seq<string>)
    requires NoDup(edges) && Closed(ids, edges) && KahnState(ids, edges, indegree, ready, order) && ready != []
    requires targets == Sorted(Targets(edges, ready[0]))
    ensures NoDup(targets) && forall t :: t in targets <==> Feeds(edges, ready[0], t)
    ensures forall t :: t in targets ==> t in indegree && indegree[t] >= 1 && t !in ready[1..]
  {
    var c := ready[0];
    TargetsAre(edges, c);
    SameMembers(targets, Targets(edges, c));
    PermutedNoDup(Targets(edges, c), targets);
    NotYetReady(ids, edges, indegree, ready, order, c);
  }

  method ReadyAtStart(ids: seq<string>, indegree: map<string, int>) returns (ready: seq<string>)
    requires NoDup(ids) && indegree.Keys == Elements(ids)
    ensures NoDup(ready) && forall n :: n in ready <==> n in ids && indegree[n] == 0
  {
    var found: seq<string> := [];
    for i := 0 to |ids|
      invariant NoDup(found) && forall n :: n in found <==> n in ids[..i] && indegree[n] == 0
    {
      assert ids[i] !in ids[..i] && ids[..i + 1] == ids[..i] + [ids[i]];
      if indegree[ids[i]] == 0 {
        found := found + [ids[i]];
      }
    }
    assert ids[..|ids|] == ids;
    ready := Sorted(found);
    PermutedNoDup(found, ready);
    SameMembers(found, ready);
  }

  lemma StartsInState(ids: seq<string>, edges: seq<Edge>, indegree: map<string, int>, ready: seq<string>)
    requires NoDup(ready) && indegree.Keys == Elements(ids)
    requires forall n :: n in ids ==> indegree[n] == |Sources(edges, n, FEEDFORWARD)|
    requires forall n :: n in ready <==> n in ids && indegree[n] == 0
    ensures KahnState(ids, edges, indegree, ready, [])
  {
    assert Elements<string>([]) == {};
    forall n | n in ids
      ensures indegree[n] == Waiting(edges, n, {})
    {
      WaitingStarts(edges, n);
    }
  }

  lemma NotYetReady(ids: seq<string>, edges: seq<Edge>, indegree: map<string, int>, ready: seq<string>,
      order: seq<string>, c: string)
    requires Closed(ids, edges) && KahnState(ids, edges, indegree, ready, order) && c in ready
    ensures forall t :: Feeds(edges, c, t) ==> t in ids && indegree[t] >= 1 && t !in ready
  {
    forall t | Feeds(edges, c, t)
      ensures t in ids && indegree[t] >= 1 && t !in ready
    {
      WaitingZero(edges, t, Elements(order));
      assert Edge(c, t, FEEDFORWARD) in edges;
    }
  }

  lemma TakenFits(ids: seq<string>, edges: seq<Edge>, indegree: map<string, int>, ready: seq<string>,
      order: seq<string>)
    requires NoDup(ids) && KahnState(ids, edges, indegree, ready, order) && ready != []
    ensures |order| < |ids|
  {
    assert ready[0] in ready;
    NoDupFits(order + [ready[0]], Elements(ids));
    NoDupSize(ids);
  }

  lemma OrderIsTopological(ids: seq<string>, edges: seq<Edge>, indegree: map<string, int>, order: seq<string>)
    requires NoDup(ids) && KahnState(ids, edges, indegree, [], order) && |order| == |ids|
    ensures IsTopological(ids, edges, order)
  {
    NoDupSize(ids);
    NoDupFits(order, Elements(ids));
    SameElementsPermute(order, ids);
    forall i, j | 0 <= i < |order| && 0 <= j < |order| && Feeds(edges, order[i], order[j])
      ensures i < j
    {
      assert order[i] in order[..j];
    }
  }

  // --- cycles -----------------------------------------------------------------------------------

  ghost predicate FedFrom(nodes: set<string>, edges: seq<Edge>, n: string)
  {
    exists s :: s in nodes && Feeds(edges, s, n)
  }

  // When every node of a non-empty set is fed from inside the set, one can walk backwards forever.
  lemma {:induction false} BackwardWalk(nodes: set<string>, edges: seq<Edge>, length: nat) returns (p: seq<string>)
    requires nodes != {} && forall n {:trigger FedFrom(nodes, edges, n)} :: n in nodes ==> FedFrom(nodes, edges, n)
    ensures |p| == length + 1 && IsPath(edges, p) && forall n :: n in p ==> n in nodes
    decreases length
  {
    if length == 0 {
      var n :| n in nodes;
      p := [n];
    } else {
      var q := BackwardWalk(nodes, edges, length - 1);
      assert q[0] in q;
      assert FedFrom(nodes, edges, q[0]);
      var s :| s in nodes && Feeds(edges, s, q[0]);
      p := [s] + q;
      assert forall i :: 0 < i < |p| ==> p[i] == q[i - 1];
    }
  }

  lemma FedSetHasCycle(nodes: set<string>, edges: seq<Edge>)
    requires nodes != {} && forall n {:trigger FedFrom(nodes, edges, n)} :: n in nodes ==> FedFrom(nodes, edges, n)
    ensures !Acyclic(edges)
  {
    var p := BackwardWalk(nodes, edges, |nodes|);
    var i, j := Pigeonhole(p, nodes);
    assert IsCycle(edges, p[i..j + 1]);
  }

  lemma Unfinished(ids: seq<string>, order: seq<string>)
    requires NoDup(ids) && NoDup(order) && |order| != |ids| && forall n :: n in order ==> n in ids
    ensures Elements(ids) - Elements(order) != {}
  {
    NoDupSize(ids);
    NoDupSize(order);
    SubsetFits(Elements(order), Elements(ids));
    assert Elements(ids) * Elements(order) == Elements(order);
    assert |Elements(ids) - Elements(order)| == |Elements(ids)| - |Elements(order)|;
  }

  lemma StuckMeansCycle(ids: seq<string>, edges: seq<Edge>, indegree: map<string, int>, order: seq<string>)
    requires NoDup(ids) && Closed(ids, edges) && KahnState(ids, edges, indegree, [], order) && |order| != |ids|
    ensures !Acyclic(edges)
  {
    var left := Elements(ids) - Elements(order);
    Unfinished(ids, order);
    forall n | n in left
      ensures FedFrom(left, edges, n)
    {
      assert n !in [];
      WaitingZero(edges, n, Elements(order));
      var s :| Feeds(edges, s, n) && s !in Elements(order);
      assert Edge(s, n, FEEDFORWARD) in edges;
      assert s in left;
    }
    FedSetHasCycle(left, edges);
  }

  lemma {:induction false} PathClimbs(ids: seq<string>, edges: seq<Edge>, order: seq<string>, p: seq<string>, i: nat,
      j: nat)
    requires Closed(ids, edges) && IsTopological(ids, edges, order)
    requires IsPath(edges, p) && |p| >= 2
    requires i < |order| && j < |order| && order[i] == p[0] && order[j] == p[|p| - 1]
    ensures i < j
    decreases |p|
  {
    assert Feeds(edges, p[0], p[0 + 1]);
    if |p| > 2 {
      assert Edge(p[0], p[1], FEEDFORWARD) in edges;
      SameMembers(order, ids);
      var k :| 0 <= k < |order| && order[k] == p[1];
      assert IsPath(edges, p[1..]);
      PathClimbs(ids, edges, order, p[1..], k, j);
    }
  }

  lemma TopologicalMeansAcyclic(ids: seq<string>, edges: seq<Edge>, order: seq<string>)
    requires Closed(ids, edges) && IsTopological(ids, edges, order)
    ensures Acyclic(edges)
  {
    forall p
      ensures !IsCycle(edges, p)
    {
      if IsCycle(edges, p) {
        assert Feeds(edges, p[0], p[0 + 1]);
        assert Edge(p[0], p[1], FEEDFORWARD) in edges;
        SameMembers(order, ids);
        var i :| 0 <= i < |order| && order[i] == p[0];
        PathClimbs(ids, edges, order, p, i, i);
      }
    }
  }
}
