/**
 Publishing checkpoints: content-addressed payload files, a manifest published last, and the manifest
 it supersedes kept beside it.

 A directory is a map from names to contents, changed by two kinds of steps: writing a temporary file,
 during which it may be seen torn, and atomically moving it over its final name.  A crash stops a
 persist after any number of steps.  The main result is that however many persists are cut short, the
 two manifests always hold what an abstract pair of committed lineages holds, payloads included.
 */
module Checkpoint {
  import opened Wrappers
  import opened Journal

  // A lineage state; its digest is recomputed by whoever loads it.
  datatype LineageState = LineageState(generation: int, content: string)

  // Everything of a running lineage that a checkpoint binds.
  datatype Lineage = Lineage(
    state: LineageState,
    journal: seq<Entry>,
    body: string,
    source: string,
    contract: string,
    admittedIsolation: string,
    isolation: string,
    limits: map<string, int>,
    spent: map<string, int>,
    evaluated: set<string>,
    selfReported: bool)

  datatype Name = StateFile(tag: string) | JournalFile(tag: string) | CurrentManifest | PreviousManifest
    | Partial(of: Name)

  datatype Bindings = Bindings(
    generation: int,
    stateDigest: string,
    journalHead: Digest,
    statePath: Name,
    journalPath: Name,
    body: string,
    source: string,
    contract: string,
    admittedIsolation: string,
    isolation: string,
    limits: map<string, int>,
    spent: map<string, int>,
    evaluated: set<string>,
    selfReported: bool)

  datatype Manifest = Manifest(bindings: Bindings, digest: string)

  datatype Content = Torn | StateContent(state: LineageState) | JournalContent(saved: Saved)
    | ManifestContent(manifest: Manifest)

  type Directory = map<Name, Content>

  // The digests in use, and the shortening of a digest to the tag of a file name.
  datatype Hashes = Hashes(
    entry: Hash,
    saved: SavedHash,
    state: LineageState -> string,
    manifest: Bindings -> string,
    stateTag: string -> string,
    headTag: Digest -> string)

  ghost predicate NoCollisions(h: Hashes)
  {
    && Journal.CollisionFree(h.entry)
    && (forall a, b :: h.state(a) == h.state(b) ==> a == b)
    && (forall a, b :: h.stateTag(a) == h.stateTag(b) ==> a == b)
    && (forall a, b :: h.headTag(a) == h.headTag(b) ==> a == b)
  }

  // --- what a persist writes ---------------------------------------------------------------------------

  function StateName(h: Hashes, g: Lineage): Name { StateFile(h.stateTag(h.state(g.state))) }

  function JournalName(h: Hashes, g: Lineage): Name { JournalFile(h.headTag(Head(g.journal))) }

  function ManifestOf(h: Hashes, g: Lineage): Manifest
  {
    var b := Bindings(g.state.generation, h.state(g.state), Head(g.journal), StateName(h, g), JournalName(h, g),
      g.body, g.source, g.contract, g.admittedIsolation, g.isolation, g.limits, g.spent, g.evaluated, g.selfReported);
    Manifest(b, h.manifest(b))
  }

  datatype Step = Put(name: Name, content: Content) | Move(from: Name, to: Name)

  function Apply(d: Directory, s: Step): Directory
  {
    match s
    case Put(name, content) => d[name := content]
    case Move(from, to) => if from in d then (d - {from})[to := d[from]] else d
  }

  function ApplyAll(d: Directory, steps: seq<Step>): Directory
    decreases |steps|
  {
    if steps == [] then d else ApplyAll(Apply(d, steps[0]), steps[1..])
  }

  // Write a temporary beside the target, seen torn and then whole, and move it into place.
  function Publish(name: Name, content: Content): seq<Step>
  {
    [Put(Partial(name), Torn), Put(Partial(name), content), Move(Partial(name), name)]
  }

  // The files a persist publishes, in order.
  function Updates(h: Hashes, g: Lineage, d: Directory): seq<(Name, Content)>
  {
    [(StateName(h, g), StateContent(g.state)), (JournalName(h, g), JournalContent(Record(h.saved, g.journal)))]
    + (if CurrentManifest in d then [(PreviousManifest, d[CurrentManifest])] else [])
    + [(CurrentManifest, ManifestContent(ManifestOf(h, g)))]
  }

  function StepsOf(updates: seq<(Name, Content)>): seq<Step>
  {
    if updates == [] then [] else Publish(updates[0].0, updates[0].1) + StepsOf(updates[1..])
  }

  function PersistSteps(h: Hashes, g: Lineage, d: Directory): seq<Step> { StepsOf(Updates(h, g, d)) }

  // --- what a manifest on disk means ---------------------------------------------------------------------

  // The file `name` is the manifest of `g`, and the payloads it names are there with g's contents.
  ghost predicate Holds(h: Hashes, d: Directory, name: Name, g: Lineage)
  {
    && name in d && d[name] == ManifestContent(ManifestOf(h, g))
    && StateName(h, g) in d && d[StateName(h, g)] == StateContent(g.state)
    && JournalName(h, g) in d && d[JournalName(h, g)] == JournalContent(Record(h.saved, g.journal))
  }

  // Payload files hold what their content-addressed names say.
  ghost predicate Addressed(h: Hashes, d: Directory)
  {
    && (forall t :: StateFile(t) in d ==>
          d[StateFile(t)].StateContent? && t == h.stateTag(h.state(d[StateFile(t)].state)))
    && (forall t :: JournalFile(t) in d ==>
          exists entries :: WellChained(h.entry, entries)
            && d[JournalFile(t)] == JournalContent(Record(h.saved, entries)) && t == h.headTag(Head(entries)))
  }

  datatype Committed = Committed(current: Option<Lineage>, previous: Option<Lineage>)

  ghost predicate Shows(h: Hashes, d: Directory, name: Name, g: Option<Lineage>)
  {
    if g.Some? then WellChained(h.entry, g.value.journal) && Holds(h, d, name, g.value) else name !in d
  }

  // The directory represents an abstract pair of committed lineages.
  ghost predicate Represents(h: Hashes, d: Directory, c: Committed)
  {
    Addressed(h, d) && Shows(h, d, CurrentManifest, c.current) && Shows(h, d, PreviousManifest, c.previous)
  }

  // What a persist has committed once its first `n` files are published.
  function CommittedAfter(c: Committed, g: Lineage, n: nat): Committed
  {
    if c.current.None? then (if n >= 3 then Committed(Some(g), c.previous) else c)
    else if n >= 4 then Committed(Some(g), c.current)
    else if n == 3 then Committed(c.current, c.current)
    else c
  }

  // --- steps and publications ------------------------------------------------------------------------------

  // Everything but the temporary files.
  function Visible(d: Directory): Directory { map n | n in d && !n.Partial? :: d[n] }

  function Updated(d: Directory, updates: seq<(Name, Content)>): Directory
    decreases |updates|
  {
    if updates == [] then d else Updated(d[updates[0].0 := updates[0].1], updates[1..])
  }

  lemma {:induction false} ApplySplit(d: Directory, a: seq<Step>, b: seq<Step>)
    ensures ApplyAll(d, a + b) == ApplyAll(ApplyAll(d, a), b)
    decreases |a|
  {
    if a == [] {
      assert a + b == b;
    } else {
      assert (a + b)[0] == a[0] && (a + b)[1..] == a[1..] + b;
      ApplySplit(Apply(d, a[0]), a[1..], b);
    }
  }

  // One publication: invisible until its move, which replaces exactly one visible file.
  lemma PublishIsAtomic(d: Directory, name: Name, content: Content, k: nat)
    requires !name.Partial? && k <= 3
    ensures Visible(ApplyAll(d, Publish(name, content)[..k]))
      == if k == 3 then Visible(d)[name := content] else Visible(d)
  {
    var steps := Publish(name, content);
    var d1 := Apply(d, steps[0]);
    var d2 := Apply(d1, steps[1]);
    if k == 1 {
      assert steps[..1] == [steps[0]];
      assert ApplyAll(d, [steps[0]]) == ApplyAll(d1, []);
    } else if k >= 2 {
      assert steps[..2] == [steps[0], steps[1]] && steps[..2][1..] == [steps[1]] && [steps[1]][1..] == [];
      assert steps[..2][0] == steps[0] && ApplyAll(d, steps[..2]) == ApplyAll(d1, [steps[1]]) == ApplyAll(d2, []) == d2;
      if k == 3 {
        assert steps[..3] == steps[..2] + [steps[2]] && [steps[2]][1..] == [];
        ApplySplit(d, steps[..2], [steps[2]]);
        assert ApplyAll(d2, [steps[2]]) == Apply(d2, steps[2]);
      }
    }
  }

  lemma {:induction false} StepsLength(updates: seq<(Name, Content)>)
    ensures |StepsOf(updates)| == 3 * |updates|
    decreases |updates|
  {
    if updates != [] {
      StepsLength(updates[1..]);
    }
  }

  // After any number of steps the visible files are those of the publications completed so far.
  lemma {:induction false} PrefixIsWholePublications(d: Directory, updates: seq<(Name, Content)>, k: nat)
    requires (forall u :: u in updates ==> !u.0.Partial?) && k <= 3 * |updates|
    ensures |StepsOf(updates)| == 3 * |updates|
    ensures Visible(ApplyAll(d, StepsOf(updates)[..k])) == Updated(Visible(d), updates[..k / 3])
    decreases |updates|
  {
    StepsLength(updates);
    if updates != [] {
      var first, rest, u := Publish(updates[0].0, updates[0].1), updates[1..], updates[0];
      var steps := StepsOf(updates);
      assert u in updates;
      if k < 3 {
        assert steps[..k] == first[..k];
        PublishIsAtomic(d, u.0, u.1, k);
      } else {
        assert steps[..k] == first + StepsOf(rest)[..k - 3];
        ApplySplit(d, first, StepsOf(rest)[..k - 3]);
        PublishIsAtomic(d, u.0, u.1, 3);
        assert first[..3] == first;
        PrefixIsWholePublications(ApplyAll(d, first), rest, k - 3);
        assert updates[..k / 3][1..] == rest[..(k - 3) / 3];
      }
    }
  }

  // --- what each publication commits -------------------------------------------------------------------------

  lemma OnlyVisibleCounts(h: Hashes, d: Directory, c: Committed)
    ensures Represents(h, d, c) <==> Represents(h, Visible(d), c)
  {
    var v := Visible(d);
    assert forall n :: n in v <==> n in d && !n.Partial?;
    assert Addressed(h, d) <==> Addressed(h, v);
  }

  // A payload already on disk under its content-addressed name is the payload about to be written there.
  lemma PayloadIsStable(h: Hashes, d: Directory, g: Lineage)
    requires NoCollisions(h) && Addressed(h, d) && WellChained(h.entry, g.journal)
    ensures StateName(h, g) in d ==> d[StateName(h, g)] == StateContent(g.state)
    ensures JournalName(h, g) in d ==> d[JournalName(h, g)] == JournalContent(Record(h.saved, g.journal))
  {
    if JournalName(h, g) in d {
      var t := h.headTag(Head(g.journal));
      assert JournalFile(t) in d;
      var entries :| WellChained(h.entry, entries)
        && d[JournalFile(t)] == JournalContent(Record(h.saved, entries)) && t == h.headTag(Head(entries));
      ChainsAgree(h.entry, entries, g.journal);
    }
  }

  lemma PublishState(h: Hashes, d: Directory, c: Committed, g: Lineage)
    requires NoCollisions(h) && Represents(h, d, c) && WellChained(h.entry, g.journal)
    ensures Represents(h, d[StateName(h, g) := StateContent(g.state)], c)
  {
    PayloadIsStable(h, d, g);
    var e := d[StateName(h, g) := StateContent(g.state)];
    assert forall n :: n in d ==> n in e && e[n] == d[n];
    AddressedUpdate(h, d, StateName(h, g), StateContent(g.state));
  }

  lemma PublishJournal(h: Hashes, d: Directory, c: Committed, g: Lineage)
    requires NoCollisions(h) && Represents(h, d, c) && WellChained(h.entry, g.journal)
    ensures Represents(h, d[JournalName(h, g) := JournalContent(Record(h.saved, g.journal))], c)
  {
    PayloadIsStable(h, d, g);
    var content := JournalContent(Record(h.saved, g.journal));
    var e := d[JournalName(h, g) := content];
    assert forall n :: n in d ==> n in e && e[n] == d[n];
    AddressedUpdate(h, d, JournalName(h, g), content);
  }

  ghost predicate Fits(h: Hashes, name: Name, content: Content)
  {
    match name
    case StateFile(t) => content.StateContent? && t == h.stateTag(h.state(content.state))
    case JournalFile(t) =>
      exists entries :: WellChained(h.entry, entries) && content == JournalContent(Record(h.saved, entries)) &&
        t == h.headTag(Head(entries))
    case _ => true
  }

  lemma AddressedUpdate(h: Hashes, d: Directory, name: Name, content: Content)
    requires Addressed(h, d) && Fits(h, name, content)
    ensures Addressed(h, d[name := content])
  {
  }

  // The payloads of `g` are in place.
  ghost predicate HasPayloads(h: Hashes, d: Directory, g: Lineage)
  {
    && StateName(h, g) in d && d[StateName(h, g)] == StateContent(g.state)
    && JournalName(h, g) in d && d[JournalName(h, g)] == JournalContent(Record(h.saved, g.journal))
  }

  lemma PublishManifest(h: Hashes, d: Directory, c: Committed, g: Lineage)
    requires Represents(h, d, c) && HasPayloads(h, d, g) && WellChained(h.entry, g.journal)
    ensures Represents(h, d[CurrentManifest := ManifestContent(ManifestOf(h, g))], Committed(Some(g), c.previous))
  {
    AddressedUpdate(h, d, CurrentManifest, ManifestContent(ManifestOf(h, g)));
  }

  lemma KeepSuperseded(h: Hashes, d: Directory, c: Committed)
    requires Represents(h, d, c) && c.current.Some?
    ensures Represents(h, d[PreviousManifest := d[CurrentManifest]], Committed(c.current, c.current))
  {
    AddressedUpdate(h, d, PreviousManifest, d[CurrentManifest]);
  }

  lemma UpdatedOne(d: Directory, updates: seq<(Name, Content)>, n: nat)
    requires n < |updates|
    ensures Updated(d, updates[..n + 1]) == Updated(d, updates[..n])[updates[n].0 := updates[n].1]
    decreases n
  {
    if n == 0 {
      assert updates[..1][1..] == [];
    } else {
      UpdatedOne(d[updates[0].0 := updates[0].1], updates[1..], n - 1);
      assert updates[..n + 1][1..] == updates[1..][..n] && updates[..n][1..] == updates[1..][..n - 1];
    }
  }

  // After each publication of a persist the visible files represent what has been committed by then.
  lemma PublicationsCommit(h: Hashes, d: Directory, c: Committed, g: Lineage, n: nat)
    requires NoCollisions(h) && Represents(h, d, c) && WellChained(h.entry, g.journal) && n <= |Updates(h, g, d)|
    ensures Represents(h, Updated(d, Updates(h, g, d)[..n]), CommittedAfter(c, g, n))
    ensures n >= 2 ==> HasPayloads(h, Updated(d, Updates(h, g, d)[..n]), g)
    ensures n == 2 ==> CurrentManifest in d ==>
              CurrentManifest in Updated(d, Updates(h, g, d)[..2]) &&
                Updated(d, Updates(h, g, d)[..2])[CurrentManifest] == d[CurrentManifest]
    decreases n
  {
    var updates := Updates(h, g, d);
    if n > 0 {
      PublicationsCommit(h, d, c, g, n - 1);
      UpdatedOne(d, updates, n - 1);
      var e := Updated(d, updates[..n - 1]);
      if n == 1 {
        PublishState(h, e, c, g);
      } else if n == 2 {
        PublishJournal(h, e, c, g);
        assert updates[..1][1..] == [];
      } else if n == 3 && c.current.Some? {
        KeepSuperseded(h, e, c);
      } else {
        PublishManifest(h, e, CommittedAfter(c, g, n - 1), g);
      }
    }
  }

  // --- runs of interrupted persists ----------------------------------------------------------------------------

  // One attempt: a lineage persisted by some process, stopped after so many steps.
  datatype Attempt = Attempt(g: Lineage, steps: nat)

  function Done(h: Hashes, d: Directory, a: Attempt): nat
  {
    if a.steps <= |PersistSteps(h, a.g, d)| then a.steps else |PersistSteps(h, a.g, d)|
  }

  function DiskAfter(h: Hashes, d: Directory, run: seq<Attempt>): Directory
    decreases |run|
  {
    if run == [] then d
    else DiskAfter(h, ApplyAll(d, PersistSteps(h, run[0].g, d)[..Done(h, d, run[0])]), run[1..])
  }

  // The history of the same run on the abstract pair.
  function HistoryAfter(h: Hashes, d: Directory, c: Committed, run: seq<Attempt>): Committed
    decreases |run|
  {
    if run == [] then c
    else
      var n := Done(h, d, run[0]);
      HistoryAfter(h, ApplyAll(d, PersistSteps(h, run[0].g, d)[..n]), CommittedAfter(c, run[0].g, n / 3), run[1..])
  }

  lemma AttemptCommits(h: Hashes, d: Directory, c: Committed, a: Attempt)
    requires NoCollisions(h) && Represents(h, d, c) && WellChained(h.entry, a.g.journal)
    ensures var n := Done(h, d, a);
            Represents(h, ApplyAll(d, PersistSteps(h, a.g, d)[..n]), CommittedAfter(c, a.g, n / 3))
  {
    var n, updates := Done(h, d, a), Updates(h, a.g, d);
    StepsLength(updates);
    assert forall u :: u in updates ==> !u.0.Partial?;
    PrefixIsWholePublications(d, updates, n);
    OnlyVisibleCounts(h, d, c);
    assert Updates(h, a.g, Visible(d)) == updates;
    PublicationsCommit(h, Visible(d), c, a.g, n / 3);
    OnlyVisibleCounts(h, ApplyAll(d, PersistSteps(h, a.g, d)[..n]), CommittedAfter(c, a.g, n / 3));
  }

  // However many persists are cut short, and wherever, the directory represents the committed pair.
  lemma {:induction false} PublicationIsCrashSafe(h: Hashes, d: Directory, c: Committed, run: seq<Attempt>)
    requires NoCollisions(h) && Represents(h, d, c)
    requires forall a :: a in run ==> WellChained(h.entry, a.g.journal)
    ensures Represents(h, DiskAfter(h, d, run), HistoryAfter(h, d, c, run))
    decreases |run|
  {
    if run != [] {
      var n := Done(h, d, run[0]);
      AttemptCommits(h, d, c, run[0]);
      PublicationIsCrashSafe(h, ApplyAll(d, PersistSteps(h, run[0].g, d)[..n]), CommittedAfter(c, run[0].g, n / 3),
        run[1..]);
    }
  }

  lemma EmptyDirectory(h: Hashes)
    ensures Represents(h, map[], Committed(None, None))
  {
  }

  // Every run from an empty directory is covered, its very first persist included.
  lemma EveryRunIsCrashSafe(h: Hashes, run: seq<Attempt>)
    requires NoCollisions(h) && forall a :: a in run ==> WellChained(h.entry, a.g.journal)
    ensures Represents(h, DiskAfter(h, map[], run), HistoryAfter(h, map[], Committed(None, None), run))
  {
    EmptyDirectory(h);
    PublicationIsCrashSafe(h, map[], Committed(None, None), run);
  }

  // A persist that runs to its end over a committed checkpoint keeps exactly that one as superseded.
  lemma CompletedPersist(h: Hashes, d: Directory, c: Committed, g: Lineage)
    requires NoCollisions(h) && Represents(h, d, c) && WellChained(h.entry, g.journal)
    ensures Represents(h, ApplyAll(d, PersistSteps(h, g, d)),
      Committed(Some(g), if c.current.Some? then c.current else c.previous))
  {
    StepsLength(Updates(h, g, d));
    var steps := PersistSteps(h, g, d);
    AttemptCommits(h, d, c, Attempt(g, |steps|));
    assert steps[..|steps|] == steps;
  }

  // --- restoring -------------------------------------------------------------------------------------------------

  // What the caller of a restore supplies, and how it compares isolation envelopes.
  datatype Arrival = Arrival(
    body: string, contract: string, limits: Option<map<string, int>>, isolation: Option<string>,
    noWider: (string, string) -> bool, selfReported: bool)

  function Restore(h: Hashes, d: Directory, superseded: bool, a: Arrival): Option<Lineage>
  {
    var name := if superseded then PreviousManifest else CurrentManifest;
    if name !in d || !d[name].ManifestContent? then None
    else
      var m := d[name].manifest;
      var b := m.bindings;
      if m.digest != h.manifest(b) then None
      else if b.statePath !in d || !d[b.statePath].StateContent? || b.journalPath !in d ||
        !d[b.journalPath].JournalContent? then None
      else
        var state, journal := d[b.statePath].state, Load(h.entry, h.saved, d[b.journalPath].saved);
        if journal.None? || h.state(state) != b.stateDigest || Head(journal.value) != b.journalHead then None
        else if a.body != b.body || (a.isolation.Some? && !a.noWider(a.isolation.value, b.admittedIsolation)) then None
        else if a.limits.Some? && a.limits.value != b.limits then None
        else if a.contract != b.contract then None
        else
          Some(Lineage(state, journal.value, b.body, b.source, b.contract, b.admittedIsolation,
                       if a.isolation.Some? then a.isolation.value else b.isolation,
                       b.limits, b.spent, b.evaluated, b.selfReported || a.selfReported))
  }

  // The caller brings the committed body and evaluator, and neither a different allowance nor a wider envelope.
  ghost predicate Acceptable(a: Arrival, g: Lineage)
  {
    && a.body == g.body && a.contract == g.contract
    && (a.limits.Some? ==> a.limits.value == g.limits)
    && (a.isolation.Some? ==> a.noWider(a.isolation.value, g.admittedIsolation))
  }

  function Resumed(g: Lineage, a: Arrival): Lineage
  {
    g.(isolation := if a.isolation.Some? then a.isolation.value else g.isolation,
       selfReported := g.selfReported || a.selfReported)
  }

  // After any run of interrupted persists, restoring returns exactly the committed lineage of the
  // manifest asked for, to every acceptable caller and to no other.
  lemma RestoreReturnsCommitted(h: Hashes, d: Directory, c: Committed, superseded: bool, a: Arrival)
    requires Represents(h, d, c)
    ensures var g := if superseded then c.previous else c.current;
            Restore(h, d, superseded, a)
              == if g.Some? && Acceptable(a, g.value) then Some(Resumed(g.value, a)) else None
  {
    var g := if superseded then c.previous else c.current;
    if g.Some? {
      SavedJournalLoads(h.entry, h.saved, g.value.journal, Record(h.saved, g.value.journal));
    }
  }

  // What is found under a name is a manifest that reproduces its digest and the payloads it names, with the digests it
  // gives them.
  ghost predicate Whole(h: Hashes, d: Directory, name: Name, m: Manifest, state: LineageState, saved: Saved)
  {
    && name in d && d[name] == ManifestContent(m) && m.digest == h.manifest(m.bindings)
    && m.bindings.statePath in d && d[m.bindings.statePath] == StateContent(state)
    && h.state(state) == m.bindings.stateDigest
    && m.bindings.journalPath in d && d[m.bindings.journalPath] == JournalContent(saved)
    && saved.schema == Expected && saved.digest == h.saved(saved.schema, saved.entries, saved.head)
    && WellChained(h.entry, saved.entries) && Head(saved.entries) == m.bindings.journalHead
  }

  // The lineage that these bindings and payloads describe.
  function Described(b: Bindings, state: LineageState, journal: seq<Entry>): Lineage
  {
    Lineage(state, journal, b.body, b.source, b.contract, b.admittedIsolation, b.isolation, b.limits, b.spent,
            b.evaluated, b.selfReported)
  }

  ghost predicate RestoresFrom(h: Hashes, d: Directory, name: Name, a: Arrival, g: Lineage)
  {
    exists m, state, saved ::
      && Whole(h, d, name, m, state, saved)
      && Acceptable(a, Described(m.bindings, state, saved.entries))
      && g == Resumed(Described(m.bindings, state, saved.entries), a)
  }

  // On any directory at all, whatever was written or damaged: restore resumes exactly what a whole checkpoint of the
  // name asked for describes, for an acceptable caller, and refuses everything else.
  lemma RestoreMeans(h: Hashes, d: Directory, superseded: bool, a: Arrival, g: Lineage)
    ensures Restore(h, d, superseded, a) == Some(g) <==>
            RestoresFrom(h, d, if superseded then PreviousManifest else CurrentManifest, a, g)
  {
    var name := if superseded then PreviousManifest else CurrentManifest;
    if Restore(h, d, superseded, a) == Some(g) {
      RestoredIsWhole(h, d, superseded, a, g);
    } else if RestoresFrom(h, d, name, a, g) {
      var m, state, saved :|
        && Whole(h, d, name, m, state, saved)
        && Acceptable(a, Described(m.bindings, state, saved.entries))
        && g == Resumed(Described(m.bindings, state, saved.entries), a);
      SavedJournalLoads(h.entry, h.saved, [], saved);
    }
  }

  lemma RestoredIsWhole(h: Hashes, d: Directory, superseded: bool, a: Arrival, g: Lineage)
    requires Restore(h, d, superseded, a) == Some(g)
    ensures RestoresFrom(h, d, if superseded then PreviousManifest else CurrentManifest, a, g)
  {
    var name := if superseded then PreviousManifest else CurrentManifest;
    var m := d[name].manifest;
    var state, saved := d[m.bindings.statePath].state, d[m.bindings.journalPath].saved;
    SavedJournalLoads(h.entry, h.saved, [], saved);
    assert Whole(h, d, name, m, state, saved);
    assert g == Resumed(Described(m.bindings, state, saved.entries), a);
  }

  // One manifest binds one lineage: two lineages with the same bindings are the same, payloads included.
  lemma ManifestBinds(h: Hashes, g: Lineage, other: Lineage)
    requires NoCollisions(h) && WellChained(h.entry, g.journal) && WellChained(h.entry, other.journal)
    ensures ManifestOf(h, g).bindings == ManifestOf(h, other).bindings <==> g == other
    ensures ManifestOf(h, g).digest == h.manifest(ManifestOf(h, g).bindings)
    ensures ManifestOf(h, g).bindings.generation == g.state.generation
    ensures Described(ManifestOf(h, g).bindings, g.state, g.journal) == g
  {
    if ManifestOf(h, g).bindings == ManifestOf(h, other).bindings {
      ChainsAgree(h.entry, g.journal, other.journal);
    }
  }

  // --- persist as code ---------------------------------------------------------------------------------------------

  // A directory on disk, with the steps it has gone through.
  class Disk {
    var files: Directory
    ghost var steps: seq<Step>
    ghost const start: Directory

    ghost predicate Valid()
      reads this
    {
      files == ApplyAll(start, steps)
    }

    constructor (start: Directory)
      ensures Valid() && files == start && steps == []
    {
      this.start := start;
      files := start;
      steps := [];
    }

    // Write a temporary file and move it over `name`.
    method WriteAndReplace(name: Name, content: Content)
      requires Valid()
      modifies this
      ensures Valid()
      ensures steps == old(steps) + Publish(name, content) && files == ApplyAll(old(files), Publish(name, content))
    {
      var temporary := Partial(name);
      ghost var before, log := files, steps;
      files := files[temporary := Torn];
      files := files[temporary := content];
      files := (files - {temporary})[name := files[temporary]];
      steps := log + Publish(name, content);
      ThreeSteps(before, name, content);
      ApplySplit(start, log, Publish(name, content));
    }

    method Persist(h: Hashes, g: Lineage) returns (superseded: bool, checkpoint: string)
      requires Valid()
      modifies this
      ensures Valid()
      ensures steps == old(steps) + PersistSteps(h, g, old(files)) &&
        files == ApplyAll(old(files), PersistSteps(h, g, old(files)))
      ensures superseded <==> CurrentManifest in old(files)
      ensures checkpoint == ManifestOf(h, g).digest
    {
      ghost var was, log, d := files, steps, Updates(h, g, files);
      WriteAndReplace(StateName(h, g), StateContent(g.state));
      WriteAndReplace(JournalName(h, g), JournalContent(Record(h.saved, g.journal)));
      PayloadsLeaveManifests(h, g, was);
      var manifest := ManifestOf(h, g);
      superseded := CurrentManifest in files;
      if superseded {
        WriteAndReplace(PreviousManifest, files[CurrentManifest]);
      }
      WriteAndReplace(CurrentManifest, ManifestContent(manifest));
      checkpoint := manifest.digest;
      UnfoldSteps(d);
      assert steps == log + StepsOf(d);
      AllSteps(start, log, StepsOf(d), was);
    }
  }

  lemma ThreeSteps(d: Directory, name: Name, content: Content)
    ensures ApplyAll(d, Publish(name, content))
         == (d[Partial(name) := Torn][Partial(name) := content] - {Partial(name)})[name := content]
  {
    var steps := Publish(name, content);
    assert steps[1..] == [steps[1], steps[2]] && steps[1..][1..] == [steps[2]] && [steps[2]][1..] == [];
    assert ApplyAll(d, steps) == ApplyAll(Apply(d, steps[0]), [steps[1], steps[2]]);
    assert ApplyAll(Apply(Apply(d, steps[0]), steps[1]), [steps[2]])
      == Apply(Apply(Apply(d, steps[0]), steps[1]), steps[2]);
  }

  lemma PayloadsLeaveManifests(h: Hashes, g: Lineage, d: Directory)
    ensures var e := ApplyAll(ApplyAll(d, Publish(StateName(h, g), StateContent(g.state))),
                              Publish(JournalName(h, g), JournalContent(Record(h.saved, g.journal))));
            && (CurrentManifest in e <==> CurrentManifest in d)
            && (CurrentManifest in d ==> e[CurrentManifest] == d[CurrentManifest])
  {
    ThreeSteps(d, StateName(h, g), StateContent(g.state));
    ThreeSteps(ApplyAll(d, Publish(StateName(h, g), StateContent(g.state))), JournalName(h, g),
      JournalContent(Record(h.saved, g.journal)));
  }

  lemma UnfoldSteps(u: seq<(Name, Content)>)
    requires 3 <= |u| <= 4
    ensures StepsOf(u) == Publish(u[0].0, u[0].1) + Publish(u[1].0, u[1].1) + Publish(u[2].0, u[2].1)
                          + if |u| == 4 then Publish(u[3].0, u[3].1) else []
  {
    assert u[1..][1..] == u[2..] && u[2..][1..] == u[3..];
    assert StepsOf(u[2..]) == Publish(u[2].0, u[2].1) + StepsOf(u[3..]);
    assert StepsOf(u[1..]) == Publish(u[1].0, u[1].1) + StepsOf(u[2..]);
    assert StepsOf(u) == Publish(u[0].0, u[0].1) + StepsOf(u[1..]);
    if |u| == 4 {
      assert u[3..][1..] == [];
      assert StepsOf(u[3..]) == Publish(u[3].0, u[3].1) + [];
    }
  }

  lemma AllSteps(start: Directory, log: seq<Step>, more: seq<Step>, was: Directory)
    requires was == ApplyAll(start, log)
    ensures ApplyAll(start, log + more) == ApplyAll(was, more)
  {
    ApplySplit(start, log, more);
  }
}
