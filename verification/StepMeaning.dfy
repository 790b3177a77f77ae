/**
 One step of the executor, said without its helpers: which tables solve the equations of a genome, with
 arguments in ascending order of their source names, and that a step returns the one solution there is.
 */
module StepMeaning {
  import opened Wrappers
  import opened Orders
  import opened Graph
  import opened Architecture
  import opened Executor
  import ConfigValue

  // --- the order of arguments ------------------------------------------------------------------------

  // `s` lists the feedforward sources of `n` in ascending order.
  ghost predicate FeedsInOrder(edges: seq<Edge>, n: string, s: seq<string>)
  {
    (forall x :: x in s <==> Feeds(edges, x, n)) && forall i, j :: 0 <= i < j < |s| ==> StringLess(s[i], s[j])
  }

  // `t` lists, in ascending order, the recurrent sources of `n` that the previous step left a value for.
  ghost predicate RecallsInOrder(edges: seq<Edge>, n: string, previous: Table, t: seq<string>)
  {
    && (forall x :: x in t <==> x in previous && Edge(x, n, "recurrent") in edges)
    && forall i, j :: 0 <= i < j < |t| ==> StringLess(t[i], t[j])
  }

  ghost predicate SeesInOrder(f: Frame, n: string, s: seq<string>, t: seq<string>)
  {
    FeedsInOrder(f.genome.edges, n, s) && RecallsInOrder(f.genome.edges, n, f.previous, t)
  }

  ghost function ValuesOf(s: seq<string>, values: Table): seq<Signal>
    requires forall x :: x in s ==> x in values
  {
    seq(|s|, i requires 0 <= i < |s| => values[s[i]])
  }

  ghost function PairsOf(t: seq<string>, previous: Table): Recurrent
    requires forall x :: x in t ==> x in previous
  {
    seq(|t|, i requires 0 <= i < |t| => (t[i], previous[t[i]]))
  }

  // What a node puts out and proposes as its next state, given what the other nodes put out.
  ghost predicate Obeys(f: Frame, node: Node, values: Table, proposals: Table)
  {
    && node.id in values && node.id in proposals
    && if node.id in f.inputs then
      values[node.id] == f.inputs[node.id] && proposals[node.id] == Nothing
    else
      && node.primitive in f.registry
      && forall s, t :: SeesInOrder(f, node.id, s, t) ==>
           && (forall x :: x in s ==> x in values)
           && f.registry[node.primitive](ValuesOf(s, values), PairsOf(t, f.previous), node.config)
             == Some((values[node.id], proposals[node.id]))
  }

  // The tables solve the genome: every node obeys.
  ghost predicate Explains(f: Frame, values: Table, proposals: Table)
  {
    && (forall x :: x in values <==> Has(f.genome.nodes, x)) && proposals.Keys == values.Keys
    && forall node :: node in f.genome.nodes ==> Obeys(f, node, values, proposals)
  }

  // Two ascending lists of the same names are one list.
  lemma AscendingIsUnique(a: seq<string>, b: seq<string>)
    requires forall x :: x in a <==> x in b
    requires forall i, j :: 0 <= i < j < |a| ==> StringLess(a[i], a[j])
    requires forall i, j :: 0 <= i < j < |b| ==> StringLess(b[i], b[j])
    ensures a == b
  {
    AscendingIsSorted(a);
    AscendingIsSorted(b);
    assert Elements(a) == Elements(b);
    SameElementsPermute(a, b);
    StringKeysDiffer(a);
    SortedListsAgree(a, b, StringKey);
  }

  lemma AscendingIsSorted(a: seq<string>)
    requires forall i, j :: 0 <= i < j < |a| ==> StringLess(a[i], a[j])
    ensures NoDup(a) && SortedBy(a, StringKey)
  {
    forall i, j | 0 <= i < j < |a|
      ensures a[i] != a[j] && !KeyLess(StringKey(a[j]), StringKey(a[i]))
    {
      StringOrder(a[i], a[j], a[i]);
      SingleKey(a[j], a[i]);
    }
  }

  lemma SourcesInOrder(g: Genome, n: string)
    requires Graphical(g)
    ensures FeedsInOrder(g.edges, n, SourcesOf(g, n))
  {
    SourceFeeds(g, n);
    SourcesAre(g.edges, n, FEEDFORWARD);
    SortedAscends(Sources(g.edges, n, FEEDFORWARD));
  }

  // The recurrent sources that `Present` shows.
  ghost function Recalled(sources: seq<string>, previous: Table): seq<string>
  {
    if sources == [] then []
    else (if sources[0] in previous then [sources[0]] else []) + Recalled(sources[1..], previous)
  }

  lemma {:induction false} RecalledAre(sources: seq<string>, previous: Table)
    ensures forall x :: x in Recalled(sources, previous) <==> x in sources && x in previous
    ensures Present(sources, previous) == PairsOf(Recalled(sources, previous), previous)
    decreases |sources|
  {
    if sources != [] {
      RecalledAre(sources[1..], previous);
      assert sources == [sources[0]] + sources[1..];
    }
  }

  lemma {:induction false} RecalledAscends(sources: seq<string>, previous: Table)
    requires forall i, j :: 0 <= i < j < |sources| ==> StringLess(sources[i], sources[j])
    ensures var t := Recalled(sources, previous); forall i, j :: 0 <= i < j < |t| ==> StringLess(t[i], t[j])
    decreases |sources|
  {
    if sources != [] {
      var rest := sources[1..];
      RecalledAscends(rest, previous);
      RecalledAre(rest, previous);
      forall x | x in Recalled(rest, previous)
        ensures StringLess(sources[0], x)
      {
        var i :| 0 <= i < |rest| && rest[i] == x;
        assert sources[i + 1] == x;
      }
    }
  }

  lemma RecalledInOrder(g: Genome, n: string, previous: Table)
    requires Graphical(g)
    ensures var t := Recalled(RecurrentSourcesOf(g, n), previous);
            && RecallsInOrder(g.edges, n, previous, t)
            && Present(RecurrentSourcesOf(g, n), previous) == PairsOf(t, previous)
  {
    SourcesAre(g.edges, n, RECURRENT);
    SameMembers(Sources(g.edges, n, RECURRENT), RecurrentSourcesOf(g, n));
    SortedAscends(Sources(g.edges, n, RECURRENT));
    RecalledAre(RecurrentSourcesOf(g, n), previous);
    RecalledAscends(RecurrentSourcesOf(g, n), previous);
  }

  // --- from the equations to the meaning, and back -------------------------------------------------------

  ghost function MeaningsOf(values: Table, proposals: Table): Meanings
    requires proposals.Keys == values.Keys
  {
    map n | n in values :: Some((values[n], proposals[n]))
  }

  lemma NodeIsAt(g: Genome, node: Node)
    requires Graphical(g) && node in g.nodes
    ensures node.id in Ids(g.nodes) && NodeAt(g.nodes, node.id) == node
  {
    IdsAre(g.nodes);
    DistinctMeans(g.nodes, NodeKey);
    assert NodeKey(NodeAt(g.nodes, node.id)) == NodeKey(node);
  }

  // The two readings of one node agree, whatever the values.
  lemma ObeysIsSolves(f: Frame, node: Node, values: Table, proposals: Table)
    requires Graphical(f.genome) && node in f.genome.nodes && proposals.Keys == values.Keys && node.id in values
    requires forall s :: Feeds(f.genome.edges, s, node.id) ==> s in values
    ensures node.id in Ids(f.genome.nodes)
    ensures Obeys(f, node, values, proposals) <==> SolvesAt(f, MeaningsOf(values, proposals), node.id)
  {
    var g, n := f.genome, node.id;
    NodeIsAt(g, node);
    SourcesInOrder(g, n);
    RecalledInOrder(g, n, f.previous);
    var s0, t0 := SourcesOf(g, n), Recalled(RecurrentSourcesOf(g, n), f.previous);
    GatherFound(s0, MeaningsOf(values, proposals), values);
    assert ValuesOf(s0, values) == Lookup(s0, values);
    assert SeesInOrder(f, n, s0, t0);
    if n !in f.inputs && SolvesAt(f, MeaningsOf(values, proposals), n) {
      forall s, t | SeesInOrder(f, n, s, t)
        ensures s == s0 && t == t0
      {
        AscendingIsUnique(s, s0);
        AscendingIsUnique(t, t0);
      }
    }
  }

  lemma SourcesHaveValues(f: Frame, node: Node, values: Table)
    requires Graphical(f.genome) && forall x :: x in values <==> Has(f.genome.nodes, x)
    ensures forall s :: Feeds(f.genome.edges, s, node.id) ==> s in values
  {
    IdsAre(f.genome.nodes);
    forall s | Feeds(f.genome.edges, s, node.id)
      ensures s in values
    {
      assert Edge(s, node.id, FEEDFORWARD) in f.genome.edges;
    }
  }

  lemma ExplainsIsSolves(f: Frame, values: Table, proposals: Table)
    requires Graphical(f.genome) && proposals.Keys == values.Keys
    requires forall x :: x in values <==> Has(f.genome.nodes, x)
    ensures Explains(f, values, proposals) <==> Solves(f, MeaningsOf(values, proposals))
  {
    SolvesMeans(f, values, proposals);
    if Explains(f, values, proposals) {
      forall n | n in Ids(f.genome.nodes)
        ensures SolvesHere(f, MeaningsOf(values, proposals), n)
      {
        ExplainedSolves(f, values, proposals, n);
      }
    } else if Solves(f, MeaningsOf(values, proposals)) {
      forall node | node in f.genome.nodes
        ensures Obeys(f, node, values, proposals)
      {
        SolvedObeys(f, values, proposals, node);
      }
    }
  }

  lemma ExplainedSolves(f: Frame, values: Table, proposals: Table, n: string)
    requires Graphical(f.genome) && Explains(f, values, proposals) && n in Ids(f.genome.nodes)
    ensures SolvesHere(f, MeaningsOf(values, proposals), n)
  {
    var node := NodeAt(f.genome.nodes, n);
    OneReading(f, node, values, proposals);
  }

  lemma SolvedObeys(f: Frame, values: Table, proposals: Table, node: Node)
    requires Graphical(f.genome) && proposals.Keys == values.Keys && node in f.genome.nodes
    requires forall x :: x in values <==> Has(f.genome.nodes, x)
    requires Solves(f, MeaningsOf(values, proposals))
    ensures Obeys(f, node, values, proposals)
  {
    IdsAre(f.genome.nodes);
    OneReading(f, node, values, proposals);
  }

  ghost predicate SolvesHere(f: Frame, m: Meanings, n: string) { n in Ids(f.genome.nodes) && SolvesAt(f, m, n) }

  lemma OneReading(f: Frame, node: Node, values: Table, proposals: Table)
    requires Graphical(f.genome) && proposals.Keys == values.Keys && node in f.genome.nodes
    requires forall x :: x in values <==> Has(f.genome.nodes, x)
    ensures Obeys(f, node, values, proposals) <==> SolvesHere(f, MeaningsOf(values, proposals), node.id)
  {
    assert Has(f.genome.nodes, node.id);
    SourcesHaveValues(f, node, values);
    ObeysIsSolves(f, node, values, proposals);
  }

  lemma SolvesMeans(f: Frame, values: Table, proposals: Table)
    requires proposals.Keys == values.Keys && forall x :: x in values <==> Has(f.genome.nodes, x)
    ensures var m := MeaningsOf(values, proposals);
            Solves(f, m) <==> forall n :: n in Ids(f.genome.nodes) ==> SolvesHere(f, m, n)
  {
    IdsAre(f.genome.nodes);
    assert MeaningsOf(values, proposals).Keys == Elements(Ids(f.genome.nodes));
  }

  lemma {:induction false} GatherAgrees(sources: seq<string>, a: Meanings, b: Meanings)
    requires forall s :: s in sources ==> s in a && s in b && a[s] == b[s]
    ensures Gather(sources, a) == Gather(sources, b)
    decreases |sources|
  {
    if sources != [] {
      assert sources[0] in sources;
      GatherAgrees(sources[1..], a, b);
    }
  }

  lemma {:induction false} MeaningIsUnique(f: Frame, m: Meanings, n: string)
    requires Framed(f) && Solves(f, m) && n in Ids(f.genome.nodes)
    ensures n in m && m[n] == Denotation(f)[n]
    decreases |Ancestors(f.genome, n)|
  {
    assert SolvesAt(f, m, n);
    DenoteSolves(f, n);
    SourceFeeds(f.genome, n);
    forall s | s in SourcesOf(f.genome, n)
      ensures s in m && s in Denotation(f) && m[s] == Denotation(f)[s]
    {
      SourceIsSmaller(f.genome, s, n);
      MeaningIsUnique(f, m, s);
    }
    GatherAgrees(SourcesOf(f.genome, n), m, Denotation(f));
  }

  // The equations of an acyclic genome have one solution.
  lemma SolutionIsDenotation(f: Frame, m: Meanings)
    requires Framed(f) && Solves(f, m)
    ensures m == Denotation(f)
  {
    forall n | n in m
      ensures m[n] == Denotation(f)[n]
    {
      MeaningIsUnique(f, m, n);
    }
  }

  // --- the step ---------------------------------------------------------------------------------------------

  // The tables that a step returns for a solution.
  ghost predicate Shows(c: Genome, values: Table, proposals: Table, r: StepResult)
  {
    && r.Executed?
    && (forall o :: o in r.outputs <==> o in c.outputs)
    && (forall o :: o in r.outputs ==> o in values && r.outputs[o] == values[o])
    && (forall x :: x in r.state <==> exists y :: Edge(x, y, "recurrent") in c.edges)
    && (forall x :: x in r.state ==>
          && x in values && x in proposals
          && r.state[x] == if proposals[x] == Nothing then values[x] else proposals[x])
    && r.calls == |set node | node in c.nodes && node.id !in c.inputs|
  }

  lemma RecurrentNodesAre(c: Genome)
    requires Graphical(c)
    ensures forall x :: x in RecurrentNodes(c) <==> exists y :: Edge(x, y, "recurrent") in c.edges
  {
    forall x
      ensures x in RecurrentNodes(c) <==> exists y :: Edge(x, y, "recurrent") in c.edges
    {
      if x in RecurrentNodes(c) {
        var e :| e in c.edges && e.kind == RECURRENT && e.source == x;
        assert Edge(x, e.target, "recurrent") in c.edges;
      }
      if y :| Edge(x, y, "recurrent") in c.edges {
        assert Edge(x, y, "recurrent").source == x;
      }
    }
  }

  lemma {:induction false} CalledNodes(nodes: seq<Node>, inputs: seq<string>)
    requires NoDup(Ids(nodes)) && NoDup(inputs) && forall i :: i in inputs ==> i in Ids(nodes)
    ensures |set node | node in nodes && node.id !in inputs| == |nodes| - |inputs|
  {
    var called := set node | node in nodes && node.id !in inputs;
    var ids := set node | node in called :: node.id;
    IdsAre(nodes);
    DistinctMeans(nodes, NodeKey);
    assert forall m, n :: m in called && n in called && m.id == n.id ==> NodeKey(m) == NodeKey(n);
    MappedSize(called);
    NoDupSize(Ids(nodes));
    NoDupSize(inputs);
    assert ids == Elements(Ids(nodes)) - Elements(inputs);
    assert Elements(inputs) * Elements(Ids(nodes)) == Elements(inputs);
  }

  lemma {:induction false} MappedSize(nodes: set<Node>)
    requires forall m, n :: m in nodes && n in nodes && m.id == n.id ==> m == n
    ensures |set node | node in nodes :: node.id| == |nodes|
    decreases |nodes|
  {
    if nodes != {} {
      var node :| node in nodes;
      var rest := nodes - {node};
      MappedSize(rest);
      assert (set n | n in nodes :: n.id) == (set n | n in rest :: n.id) + {node.id};
    }
  }

  lemma FinishShows(f: Frame, values: Table, proposals: Table)
    requires Framed(f) && |f.genome.nodes| >= |f.genome.inputs| && proposals.Keys == values.Keys
    requires Denotation(f) == MeaningsOf(values, proposals)
    ensures Shows(f.genome, values, proposals, Finish(f))
  {
    RecurrentNodesAreNodes(f.genome);
    RecurrentNodesAre(f.genome);
    CalledNodes(f.genome.nodes, f.genome.inputs);
    IdsAre(f.genome.nodes);
  }

  lemma FinishExplained(f: Frame)
    requires Framed(f) && |f.genome.nodes| >= |f.genome.inputs|
    requires Finish(f).Executed?
    ensures exists values, proposals :: Explains(f, values, proposals) && Shows(f.genome, values, proposals, Finish(f))
  {
    var values, proposals := SolutionTables(f);
    DenotationSolves(f);
    ExplainsIsSolves(f, values, proposals);
    FinishShows(f, values, proposals);
  }

  lemma SolutionTables(f: Frame) returns (values: Table, proposals: Table)
    requires Framed(f) && |f.genome.nodes| >= |f.genome.inputs|
    requires Finish(f).Executed?
    ensures proposals.Keys == values.Keys && MeaningsOf(values, proposals) == Denotation(f)
    ensures forall x :: x in values <==> Has(f.genome.nodes, x)
  {
    AllMeant(f);
    values, proposals := SplitMeanings(Denotation(f));
    IdsAre(f.genome.nodes);
    assert forall x :: x in values <==> x in Ids(f.genome.nodes);
  }

  lemma AllMeant(f: Frame)
    requires Framed(f) && |f.genome.nodes| >= |f.genome.inputs|
    requires Finish(f).Executed?
    ensures forall n :: n in Denotation(f) ==> Denotation(f)[n].Some?
    ensures forall x :: x in Denotation(f) <==> x in Ids(f.genome.nodes)
  {
    RecurrentNodesAreNodes(f.genome);
  }

  lemma SplitMeanings(m: Meanings) returns (values: Table, proposals: Table)
    requires forall n :: n in m ==> m[n].Some?
    ensures values.Keys == proposals.Keys == m.Keys && MeaningsOf(values, proposals) == m
  {
    values := map n | n in m :: m[n].value.0;
    proposals := map n | n in m :: m[n].value.1;
  }

  ghost predicate Ran(r: StepResult) { r.Executed? || r.why == FailedPrimitive }

  lemma AdmittedStep(a: Genome, registry: Registry, inputs: Table, previous: Table, ceiling: Option<int>)
    requires Accepted(a, Admission(registry))
    ensures var f := Frame(SortedGenome(a), registry, inputs, previous);
            && Graphical(f.genome) && Acyclic(f.genome.edges) && |f.genome.nodes| >= |f.genome.inputs|
            && (Check(f.genome, inputs, previous, ceiling).None? ==>
                 Framed(f) && Step(a, registry, inputs, previous, ceiling) == Finish(f))
            && (Check(f.genome, inputs, previous, ceiling).Some? ==>
                 Step(a, registry, inputs, previous, ceiling)
                   == Refused(Check(f.genome, inputs, previous, ceiling).value))
  {
    CanonicalIsFramed(a, Admission(registry));
  }

  lemma UnadmittedStep(a: Genome, registry: Registry, inputs: Table, previous: Table, ceiling: Option<int>)
    requires !Accepted(a, Admission(registry))
    ensures Step(a, registry, inputs, previous, ceiling) == Refused(BadArchitecture)
  {
  }

  lemma RanIsFinish(a: Genome, registry: Registry, inputs: Table, previous: Table, ceiling: Option<int>)
    requires Ran(Step(a, registry, inputs, previous, ceiling))
    ensures var f := Frame(SortedGenome(a), registry, inputs, previous);
            && Framed(f) && |f.genome.nodes| >= |f.genome.inputs|
            && Step(a, registry, inputs, previous, ceiling) == Finish(f)
  {
    if Accepted(a, Admission(registry)) {
      AdmittedStep(a, registry, inputs, previous, ceiling);
    } else {
      UnadmittedStep(a, registry, inputs, previous, ceiling);
    }
  }

  /** A step that passes its checks returns the one solution of its genome, or fails because there is none: each node
      that is no input puts out its primitive applied to the values of its feedforward sources in ascending order of
      their names, and to the recurrent values it has, in the same order. */
  lemma StepIsTheSolution(a: Genome, registry: Registry, inputs: Table, previous: Table, ceiling: Option<int>)
    requires Ran(Step(a, registry, inputs, previous, ceiling))
    ensures var f := Frame(SortedGenome(a), registry, inputs, previous);
            var r := Step(a, registry, inputs, previous, ceiling);
            && (r.Executed? ==> exists values, proposals :: Explains(f, values, proposals))
            && (forall values, proposals :: Explains(f, values, proposals) ==> Shows(f.genome, values, proposals, r))
  {
    var f := Frame(SortedGenome(a), registry, inputs, previous);
    RanIsFinish(a, registry, inputs, previous, ceiling);
    if Finish(f).Executed? {
      FinishExplained(f);
    }
    forall values, proposals | Explains(f, values, proposals)
      ensures Shows(f.genome, values, proposals, Finish(f))
    {
      ExplainsIsSolves(f, values, proposals);
      SolutionIsDenotation(f, MeaningsOf(values, proposals));
      FinishShows(f, values, proposals);
    }
  }

  // --- the checks before the step -------------------------------------------------------------------------------

  ghost predicate InputsMatch(c: Genome, inputs: Table) { forall x :: x in inputs <==> x in c.inputs }

  ghost predicate SourcesAreSources(c: Genome)
  {
    forall n :: n in c.nodes && n.id in c.inputs ==> n.primitive == "source"
  }

  ghost predicate WithinCeiling(c: Genome, ceiling: Option<int>)
  {
    ceiling.Some? ==> |c.nodes| - |c.inputs| <= ceiling.value
  }

  ghost predicate StateIsKnown(c: Genome, previous: Table) { forall x :: x in previous ==> Has(c.nodes, x) }

  ghost predicate StateIsRecurrent(c: Genome, previous: Table)
  {
    forall x :: x in previous ==> exists y :: Edge(x, y, "recurrent") in c.edges
  }

  lemma SourceNodes(c: Genome)
    requires Graphical(c)
    ensures (forall n :: n in c.inputs ==> NodeAt(c.nodes, n).primitive == "source") <==> SourcesAreSources(c)
  {
    forall n | n in c.nodes
      ensures n.id in Ids(c.nodes) && NodeAt(c.nodes, n.id) == n
    {
      NodeIsAt(c, n);
    }
  }

  // The refusal that a step gives, in the order of its checks.
  ghost function Expected(c: Genome, inputs: Table, previous: Table, ceiling: Option<int>): Option<Refusal>
  {
    if !InputsMatch(c, inputs) then Some(InputMismatch)
    else if !SourcesAreSources(c) then Some(BadSource)
    else if ceiling.Some? && ceiling.value < 0 then Some(NegativeCeiling)
    else if !WithinCeiling(c, ceiling) then Some(OverCeiling)
    else if !StateIsKnown(c, previous) then Some(UnknownState)
    else if !StateIsRecurrent(c, previous) then Some(InactiveState)
    else None
  }

  lemma ChecksMean(c: Genome, inputs: Table, previous: Table)
    requires Graphical(c)
    ensures inputs.Keys == Elements(c.inputs) <==> InputsMatch(c, inputs)
    ensures previous.Keys <= Elements(Ids(c.nodes)) <==> StateIsKnown(c, previous)
    ensures previous.Keys <= RecurrentNodes(c) <==> StateIsRecurrent(c, previous)
  {
    IdsAre(c.nodes);
    RecurrentNodesAre(c);
  }

  lemma CheckIsExpected(c: Genome, inputs: Table, previous: Table, ceiling: Option<int>)
    requires Graphical(c)
    ensures Check(c, inputs, previous, ceiling) == Expected(c, inputs, previous, ceiling)
  {
    SourceNodes(c);
    ChecksMean(c, inputs, previous);
  }

  lemma StepRefuses(a: Genome, registry: Registry, inputs: Table, previous: Table, ceiling: Option<int>)
    ensures Canonical(a, Limits(Some(registry.Keys + {"source"}), None, None)).None? ==>
              Step(a, registry, inputs, previous, ceiling) == Refused(BadArchitecture)
    ensures Canonical(a, Limits(Some(registry.Keys + {"source"}), None, None)).Some? ==>
              var expected := Expected(SortedGenome(a), inputs, previous, ceiling);
              if expected.Some? then Step(a, registry, inputs, previous, ceiling) == Refused(expected.value)
              else Ran(Step(a, registry, inputs, previous, ceiling))
  {
    assert Admission(registry) == Limits(Some(registry.Keys + {"source"}), None, None);
    if Accepted(a, Admission(registry)) {
      AdmittedStep(a, registry, inputs, previous, ceiling);
      CheckIsExpected(SortedGenome(a), inputs, previous, ceiling);
      if Expected(SortedGenome(a), inputs, previous, ceiling).None? {
        FinishShape(Frame(SortedGenome(a), registry, inputs, previous));
      }
    } else {
      UnadmittedStep(a, registry, inputs, previous, ceiling);
    }
  }

  // --- the development primitives ---------------------------------------------------------------------------------

  lemma {:induction false} TotalAdds(a: seq<Signal>, b: seq<Signal>)
    ensures Total(a + b).Some? <==> Total(a).Some? && Total(b).Some?
    ensures Total(a + b).Some? ==> Total(a + b).value == Total(a).value + Total(b).value
    decreases |b|
  {
    if b == [] {
      assert a + b == a;
    } else {
      var init, last := b[..|b| - 1], b[|b| - 1];
      TotalAdds(a, init);
      assert (a + b)[..|a + b| - 1] == a + init && (a + b)[|a + b| - 1] == last;
    }
  }

  lemma TotalOfOne(x: Signal)
    ensures Total([x]) == if x.Num? then Some(x.n) else None
  {
    assert [x][..0] == [] && [x][|[x]| - 1] == x;
  }

  // A sum fails without arguments; of one number it is the number; of two lists it is the sum of their sums, failing
  // with either.
  lemma SumAdds(a: seq<Signal>, b: seq<Signal>, recurrent: Recurrent, config: ConfigValue.Value)
    requires a != [] && b != []
    ensures Sum([], recurrent, config) == None
    ensures |a| == 1 ==> Sum(a, recurrent, config) == if a[0].Num? then Some((a[0], Nothing)) else None
    ensures var left, right := Sum(a, recurrent, config), Sum(b, recurrent, config);
            var both := Sum(a + b, recurrent, config);
            && (both.Some? <==> left.Some? && right.Some?)
            && (both.Some? ==>
                 && both.value.1 == Nothing && both.value.0.Num? && left.value.0.Num? && right.value.0.Num?
                 && both.value.0.n == left.value.0.n + right.value.0.n)
  {
    if |a| == 1 {
      assert a == [a[0]];
      TotalOfOne(a[0]);
    }
    TotalAdds(a, b);
  }

  lemma {:induction false} FieldIs(fields: seq<ConfigValue.Field>, f: ConfigValue.Field, default: ConfigValue.Value)
    requires f in fields && forall g :: g in fields && g.name == f.name ==> g == f
    ensures FieldOr(fields, f.name, default) == f.value
    decreases |fields|
  {
    if fields[0] != f {
      FieldIs(fields[1..], f, default);
    }
  }

  lemma {:induction false} NoField(fields: seq<ConfigValue.Field>, name: string, default: ConfigValue.Value)
    requires forall g :: g in fields ==> g.name != name
    ensures FieldOr(fields, name, default) == default
    decreases |fields|
  {
    if fields != [] {
      NoField(fields[1..], name, default);
    }
  }

  // The router compares its first argument with the configured threshold, zero when there is none, and puts out its
  // last argument when it is at least that, the middle one otherwise.
  lemma RouterPicks(args: seq<Signal>, recurrent: Recurrent, config: ConfigValue.Value)
    requires config.Dict? && ConfigValue.Storable(config)
    ensures var r := ThresholdRouter(args, recurrent, config);
            && (|args| != 3 ==> r.None?)
            && (|args| == 3 && args[0] == Nothing ==> r.None?)
            && (|args| == 3 && args[0].Num? && !ConfigValue.HasName(config.fields, "threshold") ==>
                 r == Some((if args[0].n >= 0 then args[2] else args[1], Nothing)))
            && (forall t: int ::
                 && |args| == 3 && args[0].Num?
                 && ConfigValue.Field("threshold", ConfigValue.Int(t)) in config.fields ==>
                 r == Some((if args[0].n >= t then args[2] else args[1], Nothing)))
  {
    ConfigValue.NamesDiffer(config.fields);
    if !ConfigValue.HasName(config.fields, "threshold") {
      NoField(config.fields, "threshold", ConfigValue.Int(0));
    }
    forall t: int | ConfigValue.Field("threshold", ConfigValue.Int(t)) in config.fields
      ensures FieldOr(config.fields, "threshold", ConfigValue.Int(0)) == ConfigValue.Int(t)
    {
      FieldIs(config.fields, ConfigValue.Field("threshold", ConfigValue.Int(t)), ConfigValue.Int(0));
    }
  }
}
