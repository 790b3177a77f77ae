/**
 The descent journal: an append-only list of entries, each naming the digest of the one before.

 The digest is any function from entry bodies to strings.  The theorems that need it assume that it
 is injective and never yields the genesis value (`CollisionFree`); appending and verifying do not.
 */
module Journal {
  import opened Wrappers

  // Digests as texts, with the all-zero value that stands before the first entry.
  datatype Digest = GenesisDigest | Hex(text: string)

  datatype Schema = Expected | OtherSchema(text: string)

  // The kinds an entry may record, and any other text.
  datatype Kind =
    | Seed | Observation | Diagnosis | CandidateProposed | CandidateAccepted | CandidateRejected
    | ComponentAcquired | Acquisition | VocabularyExtended | Rollback | Migration | BudgetExhausted
    | InstrumentAbort | DecisionRuleRefused | Unrecognised(text: string)

  // The signed part of an entry; the payload is its canonical text.
  datatype Body = Body(schema: Schema, kind: Kind, generation: int, previous: Digest, payload: string)

  datatype Entry = Entry(body: Body, digest: Digest)

  type Hash = Body -> Digest

  ghost predicate CollisionFree(h: Hash)
  {
    && (forall a, b :: h(a) == h(b) ==> a == b)
    && (forall a :: h(a) != GenesisDigest)
  }

  function Head(entries: seq<Entry>): Digest
  {
    if entries == [] then GenesisDigest else entries[|entries| - 1].digest
  }

  // --- verification --------------------------------------------------------------------------------

  datatype Problem = BadSchema(at: nat) | BadKind(at: nat) | BadLink(at: nat) | BadDigest(at: nat)

  function ProblemsOf(h: Hash, e: Entry, index: nat, previous: Digest): seq<Problem>
  {
    if e.body.schema != Expected then [BadSchema(index)]
    else
      (if e.body.kind.Unrecognised? then [BadKind(index)] else [])
      + (if e.body.previous == previous then [] else [BadLink(index)])
      + (if e.digest == h(e.body) then [] else [BadDigest(index)])
  }

  // The digest the verifier expects the next entry to name: recomputed, and not moved by an entry
  // whose schema it does not know.
  function Carried(h: Hash, e: Entry, previous: Digest): Digest
  {
    if e.body.schema != Expected then previous else h(e.body)
  }

  function ProblemsFrom(h: Hash, entries: seq<Entry>, index: nat, previous: Digest): seq<Problem>
  {
    if entries == [] then []
    else
      ProblemsOf(h, entries[0], index, previous)
      + ProblemsFrom(h, entries[1..], index + 1, Carried(h, entries[0], previous))
  }

  function Problems(h: Hash, entries: seq<Entry>): seq<Problem> { ProblemsFrom(h, entries, 0, GenesisDigest) }

  method Verify(h: Hash, entries: seq<Entry>) returns (problems: seq<Problem>)
    ensures problems == Problems(h, entries)
  {
    problems := [];
    var previous := GenesisDigest;
    ghost var all := Problems(h, entries);
    assert entries[0..] == entries && [] + all == all;
    for index := 0 to |entries|
      invariant problems + ProblemsFrom(h, entries[index..], index, previous) == all
    {
      var record := entries[index];
      NextProblems(h, entries, index, previous, problems);
      if record.body.schema != Expected {
        problems := problems + [BadSchema(index)];
        continue;
      }
      ghost var before := problems;
      if record.body.kind.Unrecognised? {
        problems := problems + [BadKind(index)];
      }
      if record.body.previous != previous {
        problems := problems + [BadLink(index)];
      }
      var recomputed := h(record.body);
      if record.digest != recomputed {
        problems := problems + [BadDigest(index)];
      }
      assert problems == before + ProblemsOf(h, record, index, previous);
      previous := recomputed;
    }
  }

  lemma NextProblems(h: Hash, entries: seq<Entry>, index: nat, previous: Digest, problems: seq<Problem>)
    requires index < |entries|
    ensures problems + ProblemsFrom(h, entries[index..], index, previous)
         == (problems + ProblemsOf(h, entries[index], index, previous))
            + ProblemsFrom(h, entries[index + 1..], index + 1, Carried(h, entries[index], previous))
  {
    assert entries[index..][0] == entries[index] && entries[index..][1..] == entries[index + 1..];
  }

  // --- what acceptance means -------------------------------------------------------------------------

  ghost predicate Sound(h: Hash, e: Entry, previous: Digest)
  {
    e.body.schema == Expected && !e.body.kind.Unrecognised? && e.body.previous == previous && e.digest == h(e.body)
  }

  // Each entry is sound and names the digest stored in the one before it.
  ghost predicate WellChained(h: Hash, entries: seq<Entry>)
  {
    forall i :: 0 <= i < |entries| ==> Sound(h, entries[i], Head(entries[..i]))
  }

  lemma SoundHasNoProblems(h: Hash, e: Entry, index: nat, previous: Digest)
    ensures ProblemsOf(h, e, index, previous) == [] <==> Sound(h, e, previous)
    ensures forall p :: p in ProblemsOf(h, e, index, previous) ==> p.at == index
  {
  }

  function CarriedAll(h: Hash, entries: seq<Entry>, previous: Digest): Digest
  {
    if entries == [] then previous else CarriedAll(h, entries[1..], Carried(h, entries[0], previous))
  }

  lemma {:induction false} ProblemsSplit(h: Hash, a: seq<Entry>, b: seq<Entry>, index: nat, previous: Digest)
    ensures ProblemsFrom(h, a + b, index, previous)
         == ProblemsFrom(h, a, index, previous) + ProblemsFrom(h, b, index + |a|, CarriedAll(h, a, previous))
    decreases |a|
  {
    if a == [] {
      assert a + b == b;
    } else {
      assert (a + b)[0] == a[0] && (a + b)[1..] == a[1..] + b;
      ProblemsSplit(h, a[1..], b, index + 1, Carried(h, a[0], previous));
    }
  }

  lemma {:induction false} CarriedSplit(h: Hash, a: seq<Entry>, e: Entry, previous: Digest)
    ensures CarriedAll(h, a + [e], previous) == Carried(h, e, CarriedAll(h, a, previous))
    decreases |a|
  {
    if a == [] {
      assert a + [e] == [e];
      assert CarriedAll(h, [e][1..], Carried(h, e, previous)) == Carried(h, e, previous);
    } else {
      assert (a + [e])[0] == a[0] && (a + [e])[1..] == a[1..] + [e];
      CarriedSplit(h, a[1..], e, Carried(h, a[0], previous));
    }
  }

  // The verifier finds nothing exactly when the list is well chained, and then it ends at the head.
  lemma {:induction false} VerifyAcceptsChains(h: Hash, entries: seq<Entry>)
    ensures Problems(h, entries) == [] <==> WellChained(h, entries)
    ensures WellChained(h, entries) ==> CarriedAll(h, entries, GenesisDigest) == Head(entries)
    decreases |entries|
  {
    if entries != [] {
      var n := |entries| - 1;
      var init, last := entries[..n], entries[n];
      assert entries == init + [last];
      VerifyAcceptsChains(h, init);
      ProblemsSplit(h, init, [last], 0, GenesisDigest);
      CarriedSplit(h, init, last, GenesisDigest);
      var carried := CarriedAll(h, init, GenesisDigest);
      assert [last][1..] == [];
      assert ProblemsFrom(h, [last], n, carried) == ProblemsOf(h, last, n, carried);
      SoundHasNoProblems(h, last, n, carried);
      ChainSplit(h, init, last);
    }
  }

  lemma ChainSplit(h: Hash, init: seq<Entry>, last: Entry)
    ensures WellChained(h, init + [last]) <==> WellChained(h, init) && Sound(h, last, Head(init))
  {
    var entries := init + [last];
    assert entries[..|init|] == init;
    assert forall i :: 0 <= i < |init| ==> entries[..i] == init[..i];
    if WellChained(h, entries) {
      forall i | 0 <= i < |init|
        ensures Sound(h, init[i], Head(init[..i]))
      {
        assert Sound(h, entries[i], Head(entries[..i]));
      }
      assert Sound(h, entries[|init|], Head(entries[..|init|]));
    }
  }

  // --- the head determines the history -----------------------------------------------------------------

  // With a collision-free digest, two accepted lists with the same head are the same list.
  lemma HeadDeterminesHistory(h: Hash, a: seq<Entry>, b: seq<Entry>)
    requires CollisionFree(h) && Problems(h, a) == [] && Problems(h, b) == [] && Head(a) == Head(b)
    ensures a == b
  {
    VerifyAcceptsChains(h, a);
    VerifyAcceptsChains(h, b);
    ChainsAgree(h, a, b);
  }

  lemma LastIsSound(h: Hash, entries: seq<Entry>)
    requires WellChained(h, entries) && entries != []
    ensures var init, last := entries[..|entries| - 1], entries[|entries| - 1];
            WellChained(h, init) && Sound(h, last, Head(init)) && Head(entries) == h(last.body) &&
              entries == init + [last]
  {
    var init, last := entries[..|entries| - 1], entries[|entries| - 1];
    assert entries == init + [last];
    ChainSplit(h, init, last);
  }

  lemma {:induction false} ChainsAgree(h: Hash, a: seq<Entry>, b: seq<Entry>)
    requires CollisionFree(h) && WellChained(h, a) && WellChained(h, b) && Head(a) == Head(b)
    ensures a == b
    decreases |a|
  {
    if a != [] {
      LastIsSound(h, a);
    }
    if b != [] {
      LastIsSound(h, b);
    }
    if a != [] && b != [] {
      ChainsAgree(h, a[..|a| - 1], b[..|b| - 1]);
    }
  }

  // No entry of a chain repeats the digest it follows.
  lemma {:induction false} DigestsMove(h: Hash, entries: seq<Entry>, i: nat)
    requires CollisionFree(h) && WellChained(h, entries) && i < |entries|
    ensures h(entries[i].body) != Head(entries[..i])
    decreases i
  {
    assert Sound(h, entries[i], Head(entries[..i]));
    if i > 0 {
      DigestsMove(h, entries, i - 1);
      assert entries[..i][i - 1] == entries[i - 1];
      assert Sound(h, entries[i - 1], Head(entries[..i - 1]));
    }
  }

  ghost predicate ReportedAt(problems: seq<Problem>, i: nat) { exists p :: p in problems && p.at == i }

  // Replacing entry `i` of a chain is reported at `i`, at `i + 1`, or at both, and nowhere else: at `i`
  // when the new entry is not sound in its place, at `i + 1` when the digest carried on has changed.
  lemma TamperingIsReported(h: Hash, entries: seq<Entry>, i: nat, changed: Entry)
    requires CollisionFree(h) && Problems(h, entries) == [] && i < |entries| && changed != entries[i]
    ensures var problems := Problems(h, entries[i := changed]);
            && (forall p :: p in problems ==> p.at == i || p.at == i + 1)
            && (ReportedAt(problems, i) <==> !Sound(h, changed, Head(entries[..i])))
            && (ReportedAt(problems, i + 1)
                <==> i + 1 < |entries| && (changed.body.schema != Expected || changed.body != entries[i].body))
            && (i + 1 < |entries| ==> problems != [])
  {
    VerifyAcceptsChains(h, entries);
    TamperedProblems(h, entries, i, changed);
    var here := ProblemsOf(h, changed, i, Head(entries[..i]));
    SoundHasNoProblems(h, changed, i, Head(entries[..i]));
    if here != [] {
      assert here[0] in here;
    }
    if i + 1 < |entries| {
      var carried := Carried(h, changed, Head(entries[..i]));
      TamperedNext(h, entries, i, carried);
      DigestsMove(h, entries, i);
      assert Sound(h, entries[i], Head(entries[..i]));
      if carried != h(entries[i].body) {
        assert BadLink(i + 1) in [BadLink(i + 1)];
      }
    }
  }

  lemma ProblemsCons(h: Hash, e: Entry, rest: seq<Entry>, index: nat, previous: Digest)
    ensures ProblemsFrom(h, [e] + rest, index, previous)
         == ProblemsOf(h, e, index, previous) + ProblemsFrom(h, rest, index + 1, Carried(h, e, previous))
  {
    assert ([e] + rest)[1..] == rest;
  }

  // A sound entry is passed over, and its digest carried on.
  lemma SoundStep(h: Hash, e: Entry, rest: seq<Entry>, index: nat, previous: Digest)
    requires Sound(h, e, previous)
    ensures ProblemsFrom(h, [e] + rest, index, previous) == ProblemsFrom(h, rest, index + 1, e.digest)
  {
    ProblemsCons(h, e, rest, index, previous);
    SoundHasNoProblems(h, e, index, previous);
    assert [] + ProblemsFrom(h, rest, index + 1, e.digest) == ProblemsFrom(h, rest, index + 1, e.digest);
  }

  // The first of a rest of entries, and the head after it.
  lemma Cut(entries: seq<Entry>, k: nat)
    requires k < |entries|
    ensures entries[k..] == [entries[k]] + entries[k + 1..] && Head(entries[..k + 1]) == entries[k].digest
  {
  }

  // The report on a tampered chain: what is wrong with the new entry, then what follows it.
  lemma {:induction false} TamperedFrom(h: Hash, entries: seq<Entry>, i: nat, changed: Entry, k: nat)
    requires WellChained(h, entries) && k <= i < |entries|
    ensures ProblemsFrom(h, entries[i := changed][k..], k, Head(entries[..k]))
      == ProblemsOf(h, changed, i, Head(entries[..i]))
        + ProblemsFrom(h, entries[i + 1..], i + 1, Carried(h, changed, Head(entries[..i])))
    decreases i - k
  {
    var tampered := entries[i := changed];
    assert tampered[k..] == [tampered[k]] + tampered[k + 1..];
    if k == i {
      assert tampered[i + 1..] == entries[i + 1..];
      ProblemsCons(h, changed, entries[i + 1..], i, Head(entries[..i]));
    } else {
      TamperedFrom(h, entries, i, changed, k + 1);
      assert Sound(h, entries[k], Head(entries[..k]));
      Cut(entries, k);
      SoundStep(h, entries[k], tampered[k + 1..], k, Head(entries[..k]));
    }
  }

  lemma TamperedProblems(h: Hash, entries: seq<Entry>, i: nat, changed: Entry)
    requires WellChained(h, entries) && i < |entries|
    ensures var carried := Carried(h, changed, Head(entries[..i]));
            && Problems(h, entries[i := changed])
               == ProblemsOf(h, changed, i, Head(entries[..i])) + ProblemsFrom(h, entries[i + 1..], i + 1, carried)
  {
    TamperedFrom(h, entries, i, changed, 0);
    assert entries[i := changed][0..] == entries[i := changed];
  }

  // The entries after a tampered one: one broken link, or none when the carried digest is as before.
  lemma TamperedNext(h: Hash, entries: seq<Entry>, i: nat, carried: Digest)
    requires WellChained(h, entries) && i + 1 < |entries|
    ensures ProblemsFrom(h, entries[i + 1..], i + 1, carried)
         == if carried == h(entries[i].body) then [] else [BadLink(i + 1)]
  {
    var after := entries[i + 1..];
    assert Sound(h, entries[i], Head(entries[..i]));
    assert Sound(h, entries[i + 1], Head(entries[..i + 1]));
    assert after[0] == entries[i + 1] && after[1..] == entries[i + 2..];
    RestIsClean(h, entries, i + 2);
    assert Head(entries[..i + 2]) == entries[i + 1].digest;
  }

  lemma {:induction false} RestIsClean(h: Hash, entries: seq<Entry>, k: nat)
    requires WellChained(h, entries) && k <= |entries|
    ensures ProblemsFrom(h, entries[k..], k, Head(entries[..k])) == []
    decreases |entries| - k
  {
    if k < |entries| {
      RestIsClean(h, entries, k + 1);
      assert Sound(h, entries[k], Head(entries[..k]));
      Cut(entries, k);
      SoundStep(h, entries[k], entries[k + 1..], k, Head(entries[..k]));
    }
  }

  // --- the journal object ----------------------------------------------------------------------------

  // What a saved journal file holds.
  datatype Saved = Saved(schema: Schema, entries: seq<Entry>, head: Digest, digest: string)

  type SavedHash = (Schema, seq<Entry>, Digest) -> string

  function Record(hj: SavedHash, entries: seq<Entry>): Saved
  {
    Saved(Expected, entries, Head(entries), hj(Expected, entries, Head(entries)))
  }

  // Loading checks the schema, the file's own digest and the chain.
  function Load(h: Hash, hj: SavedHash, file: Saved): Option<seq<Entry>>
  {
    if file.schema != Expected || file.digest != hj(file.schema, file.entries, file.head) then None
    else if Problems(h, file.entries) != [] then None
    else Some(file.entries)
  }

  class Book {
    const h: Hash
    var entries: seq<Entry>

    ghost predicate Valid()
      reads this
    {
      WellChained(h, entries)
    }

    constructor (h: Hash)
      ensures Valid() && entries == [] && this.h == h
    {
      this.h := h;
      entries := [];
    }

    // Adopt loaded entries, or refuse them and stay as before.
    method Adopt(loaded: seq<Entry>) returns (ok: bool)
      requires Valid()
      modifies this
      ensures Valid()
      ensures ok <==> WellChained(h, loaded)
      ensures entries == if ok then loaded else old(entries)
    {
      var problems := Verify(h, loaded);
      VerifyAcceptsChains(h, loaded);
      ok := problems == [];
      if ok {
        entries := loaded;
      }
    }

    // Append one entry after the head; an unrecognised kind is refused.
    method Append(kind: Kind, generation: int, payload: string) returns (record: Option<Entry>)
      requires Valid()
      modifies this
      ensures Valid()
      ensures record.Some? <==> !kind.Unrecognised?
      ensures record.None? ==> entries == old(entries)
      ensures record.Some? ==>
                && entries == old(entries) + [record.value]
                && record.value.body == Body(Expected, kind, generation, Head(old(entries)), payload)
                && Head(entries) == h(record.value.body)
    {
      if kind.Unrecognised? {
        return None;
      }
      var body := Body(Expected, kind, generation, Head(entries), payload);
      var e := Entry(body, h(body));
      ChainSplit(h, entries, e);
      entries := entries + [e];
      return Some(e);
    }
  }

  // Saving and loading returns the history; a file loads, as its own entries, exactly when its schema is known, its
  // digest reproduces and its entries are a chain.
  lemma SavedJournalLoads(h: Hash, hj: SavedHash, entries: seq<Entry>, file: Saved)
    ensures Load(h, hj, Record(hj, entries)) == if WellChained(h, entries) then Some(entries) else None
    ensures Record(hj, entries).head == if entries == [] then GenesisDigest else entries[|entries| - 1].digest
    ensures Load(h, hj, file).Some? <==>
            file.schema == Expected && file.digest == hj(file.schema, file.entries, file.head) &&
              WellChained(h, file.entries)
    ensures Load(h, hj, file).Some? ==> Load(h, hj, file).value == file.entries
  {
    VerifyAcceptsChains(h, entries);
    VerifyAcceptsChains(h, file.entries);
  }
}
