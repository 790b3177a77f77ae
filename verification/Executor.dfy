/**
 The executor: one logical step of an architecture, and chains of steps through recurrent state.

 `Denote` is the meaning of a node, by recursion over the feedforward graph.  `Sweep` is the
 executor's loop over a schedule; it reads a table of values and can run into a missing entry.  The
 theorems say that no topological schedule does, and that all of them compute `Denote`.
 */
module Executor {
  import opened Wrappers
  import opened Orders
  import opened Graph
  import opened Architecture
  import ConfigValue

  // What flows along the edges.  `Nothing` is Python's None, which is also a legal value.
  datatype Signal = Nothing | Num(n: int)

  type Table = map<string, Signal>

  // The recurrent values a primitive sees, in the order of their source names.
  type Recurrent = seq<(string, Signal)>

  // From arguments, recurrent values and configuration to the output and the proposed next state.
  type Primitive = (seq<Signal>, Recurrent, ConfigValue.Value) -> Option<(Signal, Signal)>

  type Registry = map<string, Primitive>

  datatype Frame = Frame(genome: Genome, registry: Registry, inputs: Table, previous: Table)

  // --- the development primitives ----------------------------------------------------------------

  function Identity(args: seq<Signal>, recurrent: Recurrent, config: ConfigValue.Value): Option<(Signal, Signal)>
  {
    if |args| == 1 then Some((args[0], Nothing)) else None
  }

  function Total(args: seq<Signal>): Option<int>
  {
    if args == [] then Some(0)
    else
      var init, last := Total(args[..|args| - 1]), args[|args| - 1];
      if init.Some? && last.Num? then Some(init.value + last.n) else None
  }

  function Sum(args: seq<Signal>, recurrent: Recurrent, config: ConfigValue.Value): Option<(Signal, Signal)>
  {
    if args == [] || Total(args).None? then None else Some((Num(Total(args).value), Nothing))
  }

  function StateCell(args: seq<Signal>, recurrent: Recurrent, config: ConfigValue.Value): Option<(Signal, Signal)>
  {
    if |args| != 1 || |recurrent| > 1 then None
    else
      var previous := if recurrent == [] then Nothing else recurrent[0].1;
      Some((if previous == Nothing then args[0] else previous, args[0]))
  }

  function FieldOr(fields: seq<ConfigValue.Field>, name: string, default: ConfigValue.Value): ConfigValue.Value
  {
    if fields == [] then default
    else if fields[0].name == name then fields[0].value
    else FieldOr(fields[1..], name, default)
  }

  function AtLeast(x: Signal, threshold: ConfigValue.Value): Option<bool>
  {
    if x == Nothing then None
    else match threshold
      case Int(t) => Some(x.n >= t)
      case Float(numerator, shift) => Some(x.n * ConfigValue.Power2(shift) >= numerator)
      case Bool(t) => Some(x.n >= if t then 1 else 0)
      case _ => None
  }

  function ThresholdRouter(args: seq<Signal>, recurrent: Recurrent, config: ConfigValue.Value): Option<(Signal, Signal)>
  {
    if |args| != 3 || !config.Dict? then None
    else
      var high := AtLeast(args[0], FieldOr(config.fields, "threshold", ConfigValue.Int(0)));
      if high.None? then None else Some((if high.value then args[2] else args[1], Nothing))
  }

  const DEVELOPMENT_PRIMITIVES: Registry := map[
    "identity" := Identity, "sink" := Identity, "sum" := Sum, "state_cell" := StateCell,
    "threshold_router" := ThresholdRouter
  ]

  // --- the meaning of a node ---------------------------------------------------------------------

  predicate Graphical(g: Genome)
  {
    && NoDup(Ids(g.nodes)) && WellFormedEdges(Ids(g.nodes), g.edges)
    && NoDup(g.inputs) && (forall i :: i in g.inputs ==> i in Ids(g.nodes))
    && (forall o :: o in g.outputs ==> o in Ids(g.nodes))
  }

  ghost predicate Framed(f: Frame)
  {
    Graphical(f.genome) && Acyclic(f.genome.edges) && f.inputs.Keys == Elements(f.genome.inputs)
  }

  function NodeAt(nodes: seq<Node>, id: string): (n: Node)
    requires id in Ids(nodes)
    ensures n in nodes && n.id == id
  {
    assert exists i :: 0 <= i < |nodes| && Ids(nodes)[i] == nodes[i].id == id;
    if nodes[0].id == id then nodes[0]
    else
      assert id in Ids(nodes[1..]) by {
        var i :| 0 <= i < |nodes| && Ids(nodes)[i] == id;
        assert Ids(nodes[1..])[i - 1] == id;
      }
      NodeAt(nodes[1..], id)
  }

  function SourcesOf(g: Genome, n: string): seq<string> { Sorted(Sources(g.edges, n, FEEDFORWARD)) }

  function RecurrentSourcesOf(g: Genome, n: string): seq<string> { Sorted(Sources(g.edges, n, RECURRENT)) }

  function Present(sources: seq<string>, previous: Table): Recurrent
  {
    if sources == [] then []
    else (if sources[0] in previous then [(sources[0], previous[sources[0]])] else []) + Present(sources[1..], previous)
  }

  // Apply the primitive of a node to its arguments.
  function Fire(f: Frame, n: string, args: seq<Signal>): Option<(Signal, Signal)>
    requires n in Ids(f.genome.nodes)
  {
    var node := NodeAt(f.genome.nodes, n);
    if node.primitive !in f.registry then None
    else f.registry[node.primitive](args, Present(RecurrentSourcesOf(f.genome, n), f.previous), node.config)
  }

  ghost predicate Before(edges: seq<Edge>, a: string, b: string)
  {
    exists p :: IsPath(edges, p) && |p| >= 2 && p[0] == a && p[|p| - 1] == b
  }

  ghost function Ancestors(g: Genome, n: string): set<string>
  {
    set a | a in Elements(Ids(g.nodes)) && Before(g.edges, a, n)
  }

  lemma SourceIsSmaller(g: Genome, s: string, n: string)
    requires Graphical(g) && Acyclic(g.edges) && Feeds(g.edges, s, n)
    ensures s in Ids(g.nodes) && n in Ids(g.nodes)
    ensures |Ancestors(g, s)| < |Ancestors(g, n)|
  {
    assert Edge(s, n, FEEDFORWARD) in g.edges;
    forall a | a in Ancestors(g, s)
      ensures a in Ancestors(g, n)
    {
      var p :| IsPath(g.edges, p) && |p| >= 2 && p[0] == a && p[|p| - 1] == s;
      ExtendPath(g.edges, p, n);
      assert Before(g.edges, a, n);
    }
    assert IsPath(g.edges, [s, n]);
    assert s in Ancestors(g, n);
    if s in Ancestors(g, s) {
      var p :| IsPath(g.edges, p) && |p| >= 2 && p[0] == s && p[|p| - 1] == s;
      assert IsCycle(g.edges, p);
    }
    SubsetFits(Ancestors(g, s), Ancestors(g, n));
  }

  lemma SourceFeeds(g: Genome, n: string)
    requires Graphical(g)
    ensures forall s :: s in SourcesOf(g, n) <==> Feeds(g.edges, s, n)
  {
    SourcesAre(g.edges, n, FEEDFORWARD);
    SameMembers(Sources(g.edges, n, FEEDFORWARD), SourcesOf(g, n));
  }

  // Output and proposed state of a node, from the meanings of its sources; None when a primitive fails.
  ghost function Denote(f: Frame, n: string): Option<(Signal, Signal)>
    requires Framed(f) && n in Ids(f.genome.nodes)
    decreases |Ancestors(f.genome, n)|, 1, 0
  {
    if n in f.inputs then Some((f.inputs[n], Nothing))
    else
      SourceFeeds(f.genome, n);
      var args := Arguments(f, n, SourcesOf(f.genome, n));
      if args.None? then None else Fire(f, n, args.value)
  }

  ghost function Arguments(f: Frame, n: string, sources: seq<string>): Option<seq<Signal>>
    requires Framed(f) && n in Ids(f.genome.nodes) && forall s :: s in sources ==> Feeds(f.genome.edges, s, n)
    decreases |Ancestors(f.genome, n)|, 0, |sources|
  {
    if sources == [] then Some([])
    else
      SourceIsSmaller(f.genome, sources[0], n);
      var first, more := Denote(f, sources[0]), Arguments(f, n, sources[1..]);
      if first.None? || more.None? then None else Some([first.value.0] + more.value)
  }

  type Meanings = map<string, Option<(Signal, Signal)>>

  ghost function Denotation(f: Frame): Meanings
    requires Framed(f)
  {
    map n | n in Elements(Ids(f.genome.nodes)) :: Denote(f, n)
  }

  function Gather(sources: seq<string>, meanings: Meanings): Option<seq<Signal>>
  {
    if sources == [] then Some([])
    else
      var more := Gather(sources[1..], meanings);
      if sources[0] !in meanings || meanings[sources[0]].None? || more.None? then None
      else Some([meanings[sources[0]].value.0] + more.value)
  }

  // The equation of one node, given the meanings of the others.
  ghost predicate SolvesAt(f: Frame, meanings: Meanings, n: string)
    requires n in Ids(f.genome.nodes)
  {
    var args := Gather(SourcesOf(f.genome, n), meanings);
    n in meanings && meanings[n] ==
      if n in f.inputs then Some((f.inputs[n], Nothing)) else if args.None? then None else Fire(f, n, args.value)
  }

  ghost predicate Solves(f: Frame, meanings: Meanings)
  {
    meanings.Keys == Elements(Ids(f.genome.nodes)) && forall n :: n in Ids(f.genome.nodes) ==> SolvesAt(f, meanings, n)
  }

  lemma {:induction false} ArgumentsAre(f: Frame, n: string, sources: seq<string>)
    requires Framed(f) && n in Ids(f.genome.nodes) && forall s :: s in sources ==> Feeds(f.genome.edges, s, n)
    ensures Arguments(f, n, sources) == Gather(sources, Denotation(f))
    decreases |sources|
  {
    if sources != [] {
      SourceIsSmaller(f.genome, sources[0], n);
      ArgumentsAre(f, n, sources[1..]);
    }
  }

  // The recursive meaning satisfies the equation of every node.
  lemma DenotationSolves(f: Frame)
    requires Framed(f)
    ensures Solves(f, Denotation(f))
  {
    forall n | n in Ids(f.genome.nodes)
      ensures SolvesAt(f, Denotation(f), n)
    {
      DenoteSolves(f, n);
    }
  }

  lemma DenoteSolves(f: Frame, n: string)
    requires Framed(f) && n in Ids(f.genome.nodes)
    ensures SolvesAt(f, Denotation(f), n)
  {
    SourceFeeds(f.genome, n);
    ArgumentsAre(f, n, SourcesOf(f.genome, n));
  }

  // The nodes whose state survives the step: those with an outgoing recurrent edge.
  function RecurrentNodes(g: Genome): set<string>
  {
    set e | e in g.edges && e.kind == RECURRENT :: e.source
  }

  function NextState(meaning: (Signal, Signal)): Signal
  {
    if meaning.1 == Nothing then meaning.0 else meaning.1
  }

  // --- the loop over a schedule ------------------------------------------------------------------

  datatype Outcome = Done(values: Table, state: Table) | PrimitiveFailed | MissingValue

  function Executable(g: Genome, order: seq<string>): seq<string>
  {
    if order == [] then []
    else Executable(g, order[..|order| - 1]) + (if order[|order| - 1] in g.inputs then [] else [order[|order| - 1]])
  }

  function Lookup(sources: seq<string>, values: Table): seq<Signal>
    requires forall s :: s in sources ==> s in values
  {
    seq(|sources|, i requires 0 <= i < |sources| => assert sources[i] in sources; values[sources[i]])
  }

  function Sweep(f: Frame, schedule: seq<string>, values: Table, state: Table): Outcome
    requires forall n :: n in schedule ==> n in Ids(f.genome.nodes)
  {
    if schedule == [] then Done(values, state)
    else
      var n := schedule[0];
      var sources := SourcesOf(f.genome, n);
      if exists s :: s in sources && s !in values then MissingValue
      else
        var fired := Fire(f, n, Lookup(sources, values));
        if fired.None? then PrimitiveFailed
        else
          Sweep(f, schedule[1..], values[n := fired.value.0], Advance(f, n, fired.value, state))
  }

  function InitialState(f: Frame): Table
    requires f.inputs.Keys == Elements(f.genome.inputs)
  {
    map n | n in f.inputs && n in RecurrentNodes(f.genome) :: f.inputs[n]
  }

  // What every schedule has to compute.
  ghost function Result(g: Genome, meanings: Meanings): Outcome
    requires RecurrentNodes(g) <= meanings.Keys
  {
    if forall n :: n in meanings ==> meanings[n].Some? then
      Done(map n | n in meanings :: meanings[n].value.0, map n | n in RecurrentNodes(g) :: NextState(meanings[n].value))
    else PrimitiveFailed
  }

  lemma RecurrentNodesAreNodes(g: Genome)
    requires Graphical(g)
    ensures RecurrentNodes(g) <= Elements(Ids(g.nodes))
  {
  }

  // Each node of the schedule comes after its sources, the declared inputs being there from the start.
  ghost predicate Scheduled(g: Genome, schedule: seq<string>)
  {
    && NoDup(schedule)
    && Elements(schedule) == Elements(Ids(g.nodes)) - Elements(g.inputs)
    && (forall i, s :: 0 <= i < |schedule| && Feeds(g.edges, s, schedule[i]) ==> s in g.inputs || s in schedule[..i])
  }

  lemma {:induction false} ExecutablePrefix(g: Genome, order: seq<string>)
    requires NoDup(order)
    requires forall i, s :: 0 <= i < |order| && Feeds(g.edges, s, order[i]) ==> s in order[..i]
    ensures NoDup(Executable(g, order))
    ensures forall n :: n in Executable(g, order) <==> n in order && n !in g.inputs
    ensures forall i, s :: 0 <= i < |Executable(g, order)| && Feeds(g.edges, s, Executable(g, order)[i])
              ==> s in g.inputs || s in Executable(g, order)[..i]
    decreases |order|
  {
    if order != [] {
      var k := |order| - 1;
      var init := order[..k];
      forall i, s | 0 <= i < k && Feeds(g.edges, s, init[i])
        ensures s in init[..i]
      {
        assert init[..i] == order[..i] && init[i] == order[i];
      }
      NoDupInit(order);
      ExecutablePrefix(g, init);
      var e, r := Executable(g, init), Executable(g, order);
      forall i, s | 0 <= i < |r| && Feeds(g.edges, s, r[i])
        ensures s in g.inputs || s in r[..i]
      {
        if i < |e| {
          assert r[..i] == e[..i] && r[i] == e[i];
        } else {
          assert r[..i] == e;
        }
      }
    }
  }

  lemma TopologicalIsScheduled(g: Genome, order: seq<string>)
    requires Graphical(g) && IsTopological(Ids(g.nodes), g.edges, order)
    ensures Scheduled(g, Executable(g, order))
  {
    PermutedNoDup(Ids(g.nodes), order);
    SameMembers(order, Ids(g.nodes));
    forall i, s | 0 <= i < |order| && Feeds(g.edges, s, order[i])
      ensures s in order[..i]
    {
      ParentsCome(Ids(g.nodes), g.edges, order, i);
    }
    ExecutablePrefix(g, order);
  }

  // Tables that hold the meanings of their nodes.
  ghost predicate Faithful(meanings: Meanings, values: Table)
  {
    forall n :: n in values ==> n in meanings && meanings[n].Some? && values[n] == meanings[n].value.0
  }

  ghost predicate FaithfulState(meanings: Meanings, state: Table)
  {
    forall n :: n in state ==> n in meanings && meanings[n].Some? && state[n] == NextState(meanings[n].value)
  }

  lemma {:induction false} GatherFound(sources: seq<string>, meanings: Meanings, values: Table)
    requires Faithful(meanings, values) && forall s :: s in sources ==> s in values
    ensures Gather(sources, meanings) == Some(Lookup(sources, values))
    decreases |sources|
  {
    if sources != [] {
      assert sources[0] in sources;
      GatherFound(sources[1..], meanings, values);
      assert Lookup(sources, values) == [values[sources[0]]] + Lookup(sources[1..], values);
    }
  }

  // One turn of the loop finds its arguments and computes the meaning of the node it takes.
  lemma SweepTurn(f: Frame, meanings: Meanings, schedule: seq<string>, values: Table, state: Table)
    requires Graphical(f.genome) && Solves(f, meanings) && Faithful(meanings, values)
    requires schedule != [] && schedule[0] !in f.inputs && forall n :: n in schedule ==> n in Ids(f.genome.nodes)
    requires forall s :: Feeds(f.genome.edges, s, schedule[0]) ==> s in values
    ensures var n := schedule[0];
            && n in meanings
            && Sweep(f, schedule, values, state) ==
                 if meanings[n].None? then PrimitiveFailed
                 else Sweep(f, schedule[1..], values[n := meanings[n].value.0], Advance(f, n, meanings[n].value, state))
  {
    var n := schedule[0];
    assert n in schedule && SolvesAt(f, meanings, n);
    SourceFeeds(f.genome, n);
    GatherFound(SourcesOf(f.genome, n), meanings, values);
  }

  ghost predicate Placed(f: Frame, meanings: Meanings, placed: set<string>, values: Table, state: Table)
  {
    && Faithful(meanings, values) && values.Keys == placed
    && FaithfulState(meanings, state) && state.Keys == placed * RecurrentNodes(f.genome)
  }

  function Advance(f: Frame, n: string, meaning: (Signal, Signal), state: Table): Table
  {
    if n in RecurrentNodes(f.genome) then state[n := NextState(meaning)] else state
  }

  lemma PlacedStep(f: Frame, meanings: Meanings, placed: set<string>, n: string, values: Table, state: Table)
    requires Placed(f, meanings, placed, values, state) && n in meanings && meanings[n].Some?
    ensures Placed(f, meanings, placed + {n}, values[n := meanings[n].value.0], Advance(f, n, meanings[n].value, state))
  {
  }

  lemma PlacedAll(f: Frame, meanings: Meanings, schedule: seq<string>, values: Table, state: Table)
    requires Graphical(f.genome) && Scheduled(f.genome, schedule) && meanings.Keys == Elements(Ids(f.genome.nodes))
    requires Placed(f, meanings, Elements(f.genome.inputs) + Elements(schedule), values, state)
    ensures RecurrentNodes(f.genome) <= meanings.Keys && Result(f.genome, meanings) == Done(values, state)
  {
    RecurrentNodesAreNodes(f.genome);
    assert Elements(f.genome.inputs) <= Elements(Ids(f.genome.nodes));
    assert values.Keys == meanings.Keys;
    FinishedTables(f.genome, meanings, values, state);
  }

  ghost predicate Swept(f: Frame, meanings: Meanings, schedule: seq<string>, k: nat, values: Table, state: Table)
  {
    k <= |schedule| && Placed(f, meanings, Elements(f.genome.inputs) + Elements(schedule[..k]), values, state)
  }

  lemma SweptNext(f: Frame, meanings: Meanings, schedule: seq<string>, k: nat, values: Table, state: Table)
    requires k < |schedule| && Swept(f, meanings, schedule, k, values, state)
    requires schedule[k] in meanings && meanings[schedule[k]].Some?
    ensures var n := schedule[k];
            Swept(f, meanings, schedule, k + 1, values[n := meanings[n].value.0],
              Advance(f, n, meanings[n].value, state))
  {
    var n := schedule[k];
    var placed := Elements(f.genome.inputs) + Elements(schedule[..k]);
    PlacedStep(f, meanings, placed, n, values, state);
    assert schedule[..k + 1] == schedule[..k] + [n];
    assert Elements(f.genome.inputs) + Elements(schedule[..k + 1]) == placed + {n};
  }

  lemma SweptTurn(f: Frame, meanings: Meanings, schedule: seq<string>, k: nat, values: Table, state: Table)
    requires Graphical(f.genome) && Solves(f, meanings) && f.inputs.Keys == Elements(f.genome.inputs)
    requires Scheduled(f.genome, schedule) && k < |schedule| && Swept(f, meanings, schedule, k, values, state)
    ensures forall n :: n in schedule[k..] || n in schedule[k + 1..] ==> n in Ids(f.genome.nodes)
    ensures var n := schedule[k];
            && n in meanings
            && Sweep(f, schedule[k..], values, state) ==
                 if meanings[n].None? then PrimitiveFailed
                 else Sweep(f, schedule[k + 1..], values[n := meanings[n].value.0],
                   Advance(f, n, meanings[n].value, state))
  {
    ScheduleMembers(f.genome, schedule, k);
    var rest := schedule[k..];
    assert rest[0] == schedule[k] && rest[0] in rest && rest[1..] == schedule[k + 1..];
    SweepTurn(f, meanings, rest, values, state);
  }

  // From faithful tables the rest of the schedule ends in the meaning of the whole frame.
  lemma {:induction false} SweepFrom(f: Frame, meanings: Meanings, schedule: seq<string>, k: nat, values: Table,
      state: Table)
    requires Graphical(f.genome) && Solves(f, meanings) && f.inputs.Keys == Elements(f.genome.inputs)
    requires Scheduled(f.genome, schedule) && Swept(f, meanings, schedule, k, values, state)
    ensures RecurrentNodes(f.genome) <= meanings.Keys
    ensures forall n :: n in schedule[k..] ==> n in Ids(f.genome.nodes)
    ensures Sweep(f, schedule[k..], values, state) == Result(f.genome, meanings)
    decreases |schedule| - k
  {
    RecurrentNodesAreNodes(f.genome);
    if k == |schedule| {
      assert schedule[..k] == schedule;
      PlacedAll(f, meanings, schedule, values, state);
    } else {
      var n := schedule[k];
      SweptTurn(f, meanings, schedule, k, values, state);
      if meanings[n].Some? {
        SweptNext(f, meanings, schedule, k, values, state);
        SweepFrom(f, meanings, schedule, k + 1, values[n := meanings[n].value.0],
          Advance(f, n, meanings[n].value, state));
      }
    }
  }

  lemma ScheduleMembers(g: Genome, schedule: seq<string>, k: nat)
    requires Scheduled(g, schedule) && k <= |schedule|
    ensures forall n :: n in schedule[k..] ==> n in Ids(g.nodes) && n !in g.inputs
    ensures k < |schedule| ==> forall s :: Feeds(g.edges, s, schedule[k]) ==> s in g.inputs || s in schedule[..k]
  {
    forall n | n in schedule[k..]
      ensures n in Ids(g.nodes) && n !in g.inputs
    {
      assert n in Elements(schedule);
    }
  }

  lemma FinishedTables(g: Genome, meanings: Meanings, values: Table, state: Table)
    requires Faithful(meanings, values) && values.Keys == meanings.Keys && RecurrentNodes(g) <= meanings.Keys
    requires FaithfulState(meanings, state) && state.Keys == values.Keys * RecurrentNodes(g)
    ensures Result(g, meanings) == Done(values, state)
  {
    forall n | n in meanings
      ensures meanings[n].Some?
    {
      assert n in values;
    }
  }

  // Every topological schedule computes the recursive meaning, without ever missing a value.
  lemma SweepIsMeaning(f: Frame, order: seq<string>)
    requires Framed(f) && IsTopological(Ids(f.genome.nodes), f.genome.edges, order)
    ensures forall n :: n in Executable(f.genome, order) ==> n in Ids(f.genome.nodes)
    ensures RecurrentNodes(f.genome) <= Denotation(f).Keys
    ensures Sweep(f, Executable(f.genome, order), f.inputs, InitialState(f)) == Result(f.genome, Denotation(f))
  {
    var schedule := Executable(f.genome, order);
    TopologicalIsScheduled(f.genome, order);
    DenotationSolves(f);
    assert schedule[0..] == schedule && schedule[..0] == [];
    forall n | n in f.inputs
      ensures n in Denotation(f) && Denotation(f)[n] == Some((f.inputs[n], Nothing))
    {
    }
    SweepFrom(f, Denotation(f), schedule, 0, f.inputs, InitialState(f));
  }

  // The choice of the topological order is not observable.
  lemma OrderDoesNotMatter(f: Frame, first: seq<string>, second: seq<string>)
    requires Framed(f)
    requires IsTopological(Ids(f.genome.nodes), f.genome.edges, first) &&
      IsTopological(Ids(f.genome.nodes), f.genome.edges, second)
    ensures (forall n :: n in Executable(f.genome, first) ==> n in Ids(f.genome.nodes))
            && (forall n :: n in Executable(f.genome, second) ==> n in Ids(f.genome.nodes))
    ensures Sweep(f, Executable(f.genome, first), f.inputs, InitialState(f))
         == Sweep(f, Executable(f.genome, second), f.inputs, InitialState(f))
    ensures |Executable(f.genome, first)| == |Executable(f.genome, second)| == |f.genome.nodes| - |f.genome.inputs|
  {
    SweepIsMeaning(f, first);
    SweepIsMeaning(f, second);
    ExecutableSize(f.genome, first);
    ExecutableSize(f.genome, second);
  }

  lemma ExecutableSize(g: Genome, order: seq<string>)
    requires Graphical(g) && IsTopological(Ids(g.nodes), g.edges, order)
    ensures |Executable(g, order)| == |g.nodes| - |g.inputs|
  {
    TopologicalIsScheduled(g, order);
    NoDupSize(Executable(g, order));
    NoDupSize(Ids(g.nodes));
    NoDupSize(g.inputs);
    assert Elements(g.inputs) * Elements(Ids(g.nodes)) == Elements(g.inputs);
  }

  // --- one step --------------------------------------------------------------------------------------

  datatype Refusal =
    | BadArchitecture | InputMismatch | BadSource | NegativeCeiling | OverCeiling | UnknownState | InactiveState
    | FailedPrimitive

  datatype StepResult = Executed(outputs: Table, state: Table, calls: nat) | Refused(why: Refusal)

  function Admission(registry: Registry): Limits { Limits(Some(registry.Keys + {"source"}), None, None) }

  lemma CanonicalIsFramed(a: Genome, limits: Limits)
    requires Accepted(a, limits)
    ensures Graphical(SortedGenome(a)) && Acyclic(SortedGenome(a).edges)
    ensures |SortedGenome(a).nodes| >= |SortedGenome(a).inputs|
  {
    CanonicalIsIdempotent(a, limits);
    var c := SortedGenome(a);
    IdsAre(c.nodes);
    NoDupFits(c.inputs, Elements(Ids(c.nodes)));
    NoDupSize(Ids(c.nodes));
  }

  // The checks a step makes before it runs, in their order.
  function Check(c: Genome, inputs: Table, previous: Table, ceiling: Option<int>): Option<Refusal>
    requires Graphical(c)
  {
    if inputs.Keys != Elements(c.inputs) then Some(InputMismatch)
    else if exists n :: n in c.inputs && NodeAt(c.nodes, n).primitive != "source" then Some(BadSource)
    else if ceiling.Some? && ceiling.value < 0 then Some(NegativeCeiling)
    else if ceiling.Some? && |c.nodes| - |c.inputs| > ceiling.value then Some(OverCeiling)
    else if !(previous.Keys <= Elements(Ids(c.nodes))) then Some(UnknownState)
    else if !(previous.Keys <= RecurrentNodes(c)) then Some(InactiveState)
    else None
  }

  ghost function Finish(f: Frame): StepResult
    requires Framed(f) && |f.genome.nodes| >= |f.genome.inputs|
  {
    RecurrentNodesAreNodes(f.genome);
    match Result(f.genome, Denotation(f))
    case Done(values, state) =>
      Executed(map o | o in f.genome.outputs :: values[o], state, |f.genome.nodes| - |f.genome.inputs|)
    case _ => Refused(FailedPrimitive)
  }

  // A step, by the recursive meaning of its frame.
  ghost function Step(a: Genome, registry: Registry, inputs: Table, previous: Table, ceiling: Option<int>): StepResult
  {
    if !Accepted(a, Admission(registry)) then Refused(BadArchitecture)
    else
      CanonicalIsFramed(a, Admission(registry));
      var c := SortedGenome(a);
      var refusal := Check(c, inputs, previous, ceiling);
      if refusal.Some? then Refused(refusal.value) else Finish(Frame(c, registry, inputs, previous))
  }

  method ExecuteArchitecture(a: Genome, registry: Registry, inputs: Table, previous: Table, ceiling: Option<int>)
    returns (result: StepResult)
    ensures result == Step(a, registry, inputs, previous, ceiling)
  {
    var canonical := CanonicalArchitecture(a, Admission(registry));
    if canonical.None? {
      return Refused(BadArchitecture);
    }
    var c := canonical.value;
    CanonicalIsFramed(a, Admission(registry));
    var refusal := Check(c, inputs, previous, ceiling);
    if refusal.Some? {
      return Refused(refusal.value);
    }
    var order := FeedforwardOrder(Ids(c.nodes), c.edges, SortedReady);
    result := Propagate(Frame(c, registry, inputs, previous), order.value);
  }

  // Run the schedule of a topological order, counting the primitive calls.
  method Propagate(f: Frame, order: seq<string>) returns (result: StepResult)
    requires Framed(f) && |f.genome.nodes| >= |f.genome.inputs| &&
      IsTopological(Ids(f.genome.nodes), f.genome.edges, order)
    ensures result == Finish(f)
  {
    var schedule := Executable(f.genome, order);
    SweepIsMeaning(f, order);
    ExecutableSize(f.genome, order);
    ghost var outcome := Result(f.genome, Denotation(f));
    var values, state, calls := f.inputs, InitialState(f), 0;
    assert schedule[0..] == schedule;
    for i := 0 to |schedule|
      invariant calls == i
      invariant forall n :: n in schedule[i..] ==> n in Ids(f.genome.nodes)
      invariant Sweep(f, schedule[i..], values, state) == outcome
    {
      var n := schedule[i];
      assert schedule[i..][0] == n && schedule[i..][1..] == schedule[i + 1..];
      var sources := SourcesOf(f.genome, n);
      var fired := Fire(f, n, Lookup(sources, values));
      if fired.None? {
        return Refused(FailedPrimitive);
      }
      calls := calls + 1;
      values, state := values[n := fired.value.0], Advance(f, n, fired.value, state);
    }
    assert outcome == Done(values, state);
    return Executed(map o | o in f.genome.outputs :: values[o], state, calls);
  }

  // --- chains of steps ---------------------------------------------------------------------------------

  lemma FinishShape(f: Frame)
    requires Framed(f) && |f.genome.nodes| >= |f.genome.inputs|
    ensures Finish(f).Refused? ==> Finish(f).why == FailedPrimitive
    ensures Finish(f).Executed? ==>
              && Finish(f).state.Keys == RecurrentNodes(f.genome)
              && Finish(f).outputs.Keys == Elements(f.genome.outputs)
              && Finish(f).calls == |f.genome.nodes| - |f.genome.inputs|
  {
    RecurrentNodesAreNodes(f.genome);
  }

  lemma StepShape(a: Genome, registry: Registry, inputs: Table, previous: Table, ceiling: Option<int>)
    requires Accepted(a, Admission(registry))
    ensures Graphical(SortedGenome(a))
    ensures var r, refusal := Step(a, registry, inputs, previous, ceiling),
      Check(SortedGenome(a), inputs, previous, ceiling);
            && (r.Refused? ==> r.why == (if refusal.Some? then refusal.value else FailedPrimitive))
            && (r.Executed? ==>
                  && refusal.None? && r.state.Keys == RecurrentNodes(SortedGenome(a))
                  && r.outputs.Keys == Elements(SortedGenome(a).outputs)
                  && r.calls == |SortedGenome(a).nodes| - |SortedGenome(a).inputs|)
  {
    CanonicalIsFramed(a, Admission(registry));
    var c := SortedGenome(a);
    if Check(c, inputs, previous, ceiling).None? {
      FinishShape(Frame(c, registry, inputs, previous));
    }
  }

  // Once admitted with one state, a genome is admitted with every state over its recurrent nodes.
  lemma CheckAgain(c: Genome, inputs: Table, previous: Table, ceiling: Option<int>, inputs': Table, state: Table)
    requires Graphical(c) && Check(c, inputs, previous, ceiling).None? && state.Keys == RecurrentNodes(c)
    ensures inputs.Keys == Elements(c.inputs) && (ceiling.Some? ==> |c.nodes| - |c.inputs| <= ceiling.value)
    ensures Check(c, inputs', state, ceiling)
      == if inputs'.Keys == Elements(c.inputs) then None else Some(InputMismatch)
  {
    RecurrentNodesAreNodes(c);
  }

  // A step executes all of its non-input nodes once, within the ceiling, and returns a state for
  // exactly the recurrent nodes; the next step can refuse only its own inputs, or fail in a primitive.
  lemma StateIsClosed(a: Genome, registry: Registry, inputs: Table, previous: Table, ceiling: Option<int>,
      inputs': Table)
    requires Step(a, registry, inputs, previous, ceiling).Executed?
    ensures var r := Step(a, registry, inputs, previous, ceiling);
            && r.state.Keys == RecurrentNodes(SortedGenome(a)) && inputs.Keys == Elements(SortedGenome(a).inputs)
            && r.calls == |a.nodes| - |a.inputs| && (ceiling.Some? ==> r.calls <= ceiling.value)
    ensures var next := Step(a, registry, inputs', Step(a, registry, inputs, previous, ceiling).state, ceiling);
            next.Refused? ==>
              next.why == (if inputs'.Keys == Elements(SortedGenome(a).inputs) then FailedPrimitive else InputMismatch)
  {
    StepShape(a, registry, inputs, previous, ceiling);
    var state := Step(a, registry, inputs, previous, ceiling).state;
    CheckAgain(SortedGenome(a), inputs, previous, ceiling, inputs', state);
    StepShape(a, registry, inputs', state, ceiling);
  }

  datatype ChainResult = Ran(outputs: seq<Table>, state: Table) | Stopped(at: nat, why: Refusal)

  // One step after another, each fed the state of the one before.
  ghost function Chain(a: Genome, registry: Registry, stream: seq<Table>, previous: Table,
      ceiling: Option<int>): ChainResult
  {
    if stream == [] then Ran([], previous)
    else
      var first := Step(a, registry, stream[0], previous, ceiling);
      if first.Refused? then Stopped(0, first.why)
      else Follow(first.outputs, Chain(a, registry, stream[1..], first.state, ceiling))
  }

  function Follow(outputs: Table, rest: ChainResult): ChainResult
  {
    match rest
    case Stopped(at, why) => Stopped(at + 1, why)
    case Ran(more, final) => Ran([outputs] + more, final)
  }

  // How a chain over `stream` may end when its first step is admitted for the reason in `start`.
  ghost predicate Ends(c: Genome, stream: seq<Table>, start: Option<Refusal>, result: ChainResult)
  {
    match result
    case Stopped(at, why) =>
      && at < |stream|
      && (at == 0 ==> start == Some(why))
      && (at > 0 ==> why == if stream[at].Keys == Elements(c.inputs) then FailedPrimitive else InputMismatch)
    case Ran(outputs, final) => |outputs| == |stream| && (stream != [] ==> final.Keys == RecurrentNodes(c))
  }

  function Why(step: StepResult): Option<Refusal> { if step.Refused? then Some(step.why) else None }

  lemma EndsFollow(c: Genome, stream: seq<Table>, next: Option<Refusal>, outputs: Table, rest: ChainResult)
    requires stream != [] && Ends(c, stream[1..], next, rest)
    requires |stream| > 1 && next.Some? ==>
      next.value == if stream[1].Keys == Elements(c.inputs) then FailedPrimitive else InputMismatch
    requires |stream| == 1 && rest.Ran? ==> rest.state.Keys == RecurrentNodes(c)
    ensures Ends(c, stream, None, Follow(outputs, rest))
  {
    if rest.Stopped? {
      assert stream[rest.at + 1] == stream[1..][rest.at];
    }
  }

  // After its first step a chain stops only at wrong inputs or at a failing primitive; it never rejects its own state.
  lemma {:induction false} ChainKeepsItsState(a: Genome, registry: Registry, stream: seq<Table>, previous: Table,
      ceiling: Option<int>)
    ensures Ends(SortedGenome(a), stream,
                 if stream == [] then None else Why(Step(a, registry, stream[0], previous, ceiling)),
                 Chain(a, registry, stream, previous, ceiling))
    decreases |stream|
  {
    if stream != [] && Step(a, registry, stream[0], previous, ceiling).Executed? {
      var rest := stream[1..];
      var first := Step(a, registry, stream[0], previous, ceiling);
      ChainKeepsItsState(a, registry, rest, first.state, ceiling);
      StateIsClosed(a, registry, stream[0], previous, ceiling, if rest == [] then stream[0] else rest[0]);
      var next := if rest == [] then None else Why(Step(a, registry, rest[0], first.state, ceiling));
      EndsFollow(SortedGenome(a), stream, next, first.outputs, Chain(a, registry, rest, first.state, ceiling));
    }
  }

  // --- the state cell as a delay -------------------------------------------------------------------------

  // A state cell with one feedforward source and a recurrent edge to itself.
  ghost predicate IsDelay(g: Genome, registry: Registry, n: string, source: string)
  {
    Graphical(g) && n in Ids(g.nodes) && n !in g.inputs && SourcesOf(g, n) == [source] &&
      RecurrentSourcesOf(g, n) == [n] &&
    NodeAt(g.nodes, n).primitive in registry && registry[NodeAt(g.nodes, n).primitive] == StateCell
  }

  // What a step computes, before it is cut down to the declared outputs.
  ghost function Final(f: Frame): Outcome
    requires Framed(f)
  {
    RecurrentNodesAreNodes(f.genome);
    Result(f.genome, Denotation(f))
  }

  lemma GatherOne(source: string, meanings: Meanings)
    requires source in meanings && meanings[source].Some?
    ensures Gather([source], meanings) == Some([meanings[source].value.0])
  {
    assert [source][1..] == [];
    assert Gather([], meanings) == Some([]);
    assert [meanings[source].value.0] + [] == [meanings[source].value.0];
  }

  lemma PresentOne(n: string, previous: Table)
    ensures Present([n], previous) == if n in previous then [(n, previous[n])] else []
  {
    assert [n][1..] == [];
  }

  lemma DelayMeaning(f: Frame, meanings: Meanings, n: string, source: string)
    requires IsDelay(f.genome, f.registry, n, source) && SolvesAt(f, meanings, n) && n !in f.inputs
    requires source in meanings && meanings[source].Some?
    ensures var x := meanings[source].value.0;
      n in meanings &&
        meanings[n] == Some((if n in f.previous && f.previous[n] != Nothing then f.previous[n] else x, x))
  {
    GatherOne(source, meanings);
    PresentOne(n, f.previous);
  }

  lemma CellIsRecurrent(g: Genome, registry: Registry, n: string, source: string)
    requires IsDelay(g, registry, n, source)
    ensures n in RecurrentNodes(g) && source in Ids(g.nodes)
  {
    assert n in RecurrentSourcesOf(g, n) && source in SourcesOf(g, n);
    SameMembers(Sources(g.edges, n, RECURRENT), RecurrentSourcesOf(g, n));
    SourcesAre(g.edges, n, RECURRENT);
    SourceFeeds(g, n);
  }

  /** A state cell delays by one step: fed the state of the step before, it puts out what its source had put out then.
      None of this is lost by the tables in between. */
  lemma StateCellDelays(first: Frame, second: Frame, n: string, source: string)
    requires Framed(first) && Framed(second) && IsDelay(first.genome, first.registry, n, source)
    requires second.genome == first.genome && second.registry == first.registry
    requires Final(first).Done? && Final(second).Done? && second.previous == Final(first).state
    ensures source in Final(first).values && n in Final(second).values
    ensures Final(first).values[source] != Nothing ==> Final(second).values[n] == Final(first).values[source]
  {
    CellIsRecurrent(first.genome, first.registry, n, source);
    DenotationSolves(first);
    DenotationSolves(second);
    assert source in Denotation(first) && source in Denotation(second);
    assert SolvesAt(first, Denotation(first), n) && SolvesAt(second, Denotation(second), n);
    DelayMeaning(first, Denotation(first), n, source);
    DelayMeaning(second, Denotation(second), n, source);
  }
}
