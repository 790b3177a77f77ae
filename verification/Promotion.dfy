/**
 Choosing a composite on training cases, promoting it on selection cases, and the chain this builds.
 */
module Promotion {
  import opened Wrappers
  import opened Localizer
  import Recombination
  import Orders

  // A composite pairs two members of the archive; its name is a digest of the three.
  datatype Member = Member(first: string, second: string, lead: nat, name: string)

  type Naming = (string, string, nat) -> string

  type Answers = map<string, seq<Location>>

  type Archive = map<string, Answers>

  function Get(answers: Answers, c: string): seq<Location> { if c in answers then answers[c] else [] }

  function AnswersOf(m: Member, archive: Archive): Answers
    requires m.first in archive && m.second in archive
  {
    map c | c in archive[m.first] :: Recombination.Merged(Get(archive[m.first], c), Get(archive[m.second], c), m.lead)
  }

  // --- scores -----------------------------------------------------------------------------------------------

  predicate Scorable(truth: Truth, cases: seq<string>) { forall c :: c in cases ==> c in truth && truth[c] != [] }

  function OutputsFor(answers: Answers, cases: seq<string>): Outputs
  {
    map c | c in cases :: Output(Pairs(Get(answers, c)), "")
  }

  function Scored(answers: Answers, truth: Truth, cases: seq<string>): Evaluation
    requires Scorable(truth, cases)
  {
    Tally(RowsOf(OutputsFor(answers, cases), truth, Orders.Elements(cases)))
  }

  method Measure(answers: Answers, truth: Truth, cases: seq<string>) returns (r: Result<Evaluation, Error>)
    ensures r.Ok? <==> Scorable(truth, cases)
    ensures r.Ok? ==> r.value == Scored(answers, truth, cases)
    ensures r.Err? ==> Unscorable(truth, cases) == Some(r.error)
  {
    ScorableCases(truth, cases);
    r := Evaluate(OutputsFor(answers, cases), truth, cases);
  }

  /** What a score says: on each case the answer is cleaned, a missing one counting as empty, and localized when every
      edit site lies within forty lines of a location in its file; the score counts the different cases localized. */
  lemma ScoredMeans(answers: Answers, truth: Truth, cases: seq<string>)
    requires Scorable(truth, cases)
    ensures var e := Scored(answers, truth, cases);
      && (forall c :: c in e.rows <==> c in cases)
      && (forall c :: c in cases ==>
            && e.rows[c].locations == Cleaned(Pairs(if c in answers then answers[c] else []))
            && e.rows[c].error.None?
            && (e.rows[c].localized <==> forall site :: site in truth[c] ==> HitBy(site, e.rows[c].locations))
            && (e.rows[c].anySite <==> exists site :: site in truth[c] && HitBy(site, e.rows[c].locations)))
      && e.localized == |set c | c in cases && e.rows[c].localized|
      && e.anySite == |set c | c in cases && e.rows[c].anySite|
  {
    var outputs := OutputsFor(answers, cases);
    EvaluationMeans(outputs, truth, cases);
    var e := Scored(answers, truth, cases);
    forall c | c in cases
      ensures c in outputs && outputs[c] == Output(Pairs(if c in answers then answers[c] else []), "")
      ensures RowMeans(e.rows[c], truth[c], outputs[c])
    {
    }
  }

  // No score exceeds the number of different cases.
  lemma ScoreFits(answers: Answers, truth: Truth, cases: seq<string>)
    requires Scorable(truth, cases)
    ensures Scored(answers, truth, cases).localized <= |Orders.Elements(cases)|
  {
    var rows := RowsOf(OutputsFor(answers, cases), truth, Orders.Elements(cases));
    Orders.SubsetFits(LocalizedCases(rows), Orders.Elements(cases));
  }

  // --- the best composite ----------------------------------------------------------------------------------------

  // Both orders of a pair, for every lead from `lead` up.
  function Pairings(name: Naming, champion: string, other: string, lead: nat): seq<Member>
    decreases MAX_LOCATIONS - lead
  {
    if lead >= MAX_LOCATIONS then []
    else
      [Member(champion, other, lead, name(champion, other, lead)),
        Member(other, champion, lead, name(other, champion, lead))]
      + Pairings(name, champion, other, lead + 1)
  }

  function Proposals(name: Naming, champion: string, archive: seq<string>): seq<Member>
  {
    if archive == [] then []
    else
      (if archive[0] == champion then [] else Pairings(name, champion, archive[0], 1))
      + Proposals(name, champion, archive[1..])
  }

  predicate Proposed(name: Naming, champion: string, archive: set<string>, m: Member)
  {
    1 <= m.lead < MAX_LOCATIONS && m.name == name(m.first, m.second, m.lead) && m.first != m.second &&
    ((m.first == champion && m.second in archive) || (m.second == champion && m.first in archive))
  }

  lemma {:induction false} PairingsAre(name: Naming, champion: string, other: string, lead: nat, m: Member)
    ensures m in Pairings(name, champion, other, lead) <==>
      lead <= m.lead < MAX_LOCATIONS && m.name == name(m.first, m.second, m.lead) &&
      ((m.first == champion && m.second == other) || (m.first == other && m.second == champion))
    decreases MAX_LOCATIONS - lead
  {
    if lead < MAX_LOCATIONS { PairingsAre(name, champion, other, lead + 1, m); }
  }

  /** The proposals are every composite of the champion with another member: each order, each lead from one to five. */
  lemma {:induction false} ProposalsAre(name: Naming, champion: string, archive: seq<string>, m: Member)
    ensures m in Proposals(name, champion, archive) <==> Proposed(name, champion, Orders.Elements(archive), m)
  {
    if archive != [] {
      ProposalsAre(name, champion, archive[1..], m);
      PairingsAre(name, champion, archive[0], 1, m);
      assert archive == [archive[0]] + archive[1..];
    }
  }

  datatype Ranked = Ranked(member: Member, evaluation: Evaluation)

  // More training cases first, then more cases with some site right, then the smaller name.
  predicate Precedes(a: Ranked, b: Ranked)
  {
    a.evaluation.localized > b.evaluation.localized ||
    (a.evaluation.localized == b.evaluation.localized &&
      (a.evaluation.anySite > b.evaluation.anySite ||
        (a.evaluation.anySite == b.evaluation.anySite && Orders.StringLess(a.member.name, b.member.name))))
  }

  lemma PrecedesTransitive(a: Ranked, b: Ranked, c: Ranked)
    requires Precedes(a, b) && Precedes(b, c)
    ensures Precedes(a, c)
  {
    Orders.StringOrder(a.member.name, b.member.name, c.member.name);
  }

  predicate Known(m: Member, archive: Archive) { m.first in archive && m.second in archive }

  function RankedOf(m: Member, archive: Archive, truth: Truth, training: seq<string>): Ranked
    requires Known(m, archive) && Scorable(truth, training)
  {
    Ranked(m, Scored(AnswersOf(m, archive), truth, training))
  }

  function RankAll(members: seq<Member>, archive: Archive, truth: Truth, training: seq<string>): (r: seq<Ranked>)
    requires Scorable(truth, training) && forall m :: m in members ==> Known(m, archive)
    ensures |r| == |members| && forall i :: 0 <= i < |r| ==> r[i] == RankedOf(members[i], archive, truth, training)
  {
    seq(|members|, i requires 0 <= i < |members| => RankedOf(members[i], archive, truth, training))
  }

  // `best` beats the base, and none of `among` comes before it; None when none of them beats the base.
  ghost predicate BestOf(best: Option<Ranked>, among: seq<Ranked>, base: nat)
  {
    match best
    case None => forall r :: r in among ==> r.evaluation.localized <= base
    case Some(b) => b in among && b.evaluation.localized > base && forall r :: r in among ==> !Precedes(r, b)
  }

  function Better(best: Option<Ranked>, r: Ranked, base: nat): Option<Ranked>
  {
    if r.evaluation.localized > base && (best.None? || Precedes(r, best.value)) then Some(r) else best
  }

  lemma BestStep(best: Option<Ranked>, among: seq<Ranked>, r: Ranked, base: nat)
    requires BestOf(best, among, base)
    ensures BestOf(Better(best, r, base), among + [r], base)
  {
    Orders.StringOrder(r.member.name, r.member.name, r.member.name);
    if best.Some? && Precedes(r, best.value) {
      forall q | q in among ensures !Precedes(q, r) {
        if Precedes(q, r) { PrecedesTransitive(q, r, best.value); }
      }
    }
  }

  lemma ProposalsKnown(name: Naming, champion: string, names: seq<string>, archive: Archive)
    requires champion in archive && Orders.Elements(names) <= archive.Keys
    ensures forall m :: m in Proposals(name, champion, names) ==> Known(m, archive)
  {
    forall m | m in Proposals(name, champion, names) ensures Known(m, archive) {
      ProposalsAre(name, champion, names, m);
    }
  }

  method ChooseBest(proposals: seq<Member>, base: nat, archive: Archive, truth: Truth, training: seq<string>)
    returns (best: Option<Ranked>)
    requires Scorable(truth, training) && forall m :: m in proposals ==> Known(m, archive)
    ensures BestOf(best, RankAll(proposals, archive, truth, training), base)
  {
    ghost var ranked := RankAll(proposals, archive, truth, training);
    best := None;
    var i := 0;
    while i < |proposals|
      invariant 0 <= i <= |proposals|
      invariant BestOf(best, ranked[..i], base)
    {
      var m := proposals[i];
      assert Known(m, archive);
      var measured := Measure(AnswersOf(m, archive), truth, training);
      BestStep(best, ranked[..i], ranked[i], base);
      assert ranked[..i + 1] == ranked[..i] + [ranked[i]];
      best := Better(best, Ranked(m, measured.value), base);
      i := i + 1;
    }
    assert ranked[..i] == ranked;
  }

  // A composite the champion could be replaced by, with its training evaluation.
  ghost predicate Candidate(r: Ranked, name: Naming, champion: string, archive: Archive, truth: Truth,
      training: seq<string>)
    requires Scorable(truth, training)
  {
    Known(r.member, archive) && Proposed(name, champion, archive.Keys, r.member) &&
      r == RankedOf(r.member, archive, truth, training)
  }

  // `b` comes no later than `r`: more training cases, then more cases with some site right, then the smaller name.
  ghost predicate NoLater(b: Ranked, r: Ranked)
  {
    || b.evaluation.localized > r.evaluation.localized
    || (b.evaluation.localized == r.evaluation.localized && b.evaluation.anySite > r.evaluation.anySite)
    || (b.evaluation.localized == r.evaluation.localized && b.evaluation.anySite == r.evaluation.anySite &&
        (b.member.name == r.member.name || Orders.StringLess(b.member.name, r.member.name)))
  }

  lemma NoLaterMeans(b: Ranked, r: Ranked)
    ensures NoLater(b, r) <==> !Precedes(r, b)
  {
    Orders.StringOrder(b.member.name, r.member.name, b.member.name);
  }

  // The choice of one generation, against the champion's score on the training cases.
  ghost predicate Chosen(best: Option<Ranked>, base: nat, name: Naming, champion: string, archive: Archive,
      truth: Truth, training: seq<string>)
    requires Scorable(truth, training)
  {
    match best
    case None => forall r | Candidate(r, name, champion, archive, truth, training) :: r.evaluation.localized <= base
    case Some(b) =>
      Candidate(b, name, champion, archive, truth, training) && b.evaluation.localized > base &&
      forall r | Candidate(r, name, champion, archive, truth, training) :: NoLater(b, r)
  }

  lemma CandidatesAreRanked(r: Ranked, name: Naming, champion: string, names: seq<string>, archive: Archive,
      truth: Truth, training: seq<string>)
    requires Scorable(truth, training) && Orders.Elements(names) == archive.Keys
    requires forall m :: m in Proposals(name, champion, names) ==> Known(m, archive)
    ensures Candidate(r, name, champion, archive, truth, training)
      <==> r in RankAll(Proposals(name, champion, names), archive, truth, training)
  {
    var proposals := Proposals(name, champion, names);
    var ranked := RankAll(proposals, archive, truth, training);
    ProposalsAre(name, champion, names, r.member);
    if r in ranked {
      var i :| 0 <= i < |ranked| && ranked[i] == r;
      assert r == RankedOf(proposals[i], archive, truth, training);
    } else if r.member in proposals {
      var i :| 0 <= i < |proposals| && proposals[i] == r.member;
      assert ranked[i] in ranked;
    }
  }

  lemma BestIsChosen(best: Option<Ranked>, base: nat, name: Naming, champion: string, names: seq<string>,
      archive: Archive, truth: Truth, training: seq<string>)
    requires Scorable(truth, training) && Orders.Elements(names) == archive.Keys
    requires forall m :: m in Proposals(name, champion, names) ==> Known(m, archive)
    requires BestOf(best, RankAll(Proposals(name, champion, names), archive, truth, training), base)
    ensures Chosen(best, base, name, champion, archive, truth, training)
  {
    forall r: Ranked
      ensures Candidate(r, name, champion, archive, truth, training)
        <==> r in RankAll(Proposals(name, champion, names), archive, truth, training)
    {
      CandidatesAreRanked(r, name, champion, names, archive, truth, training);
    }
    if best.Some? {
      forall r
        ensures NoLater(best.value, r) <==> !Precedes(r, best.value)
      {
        NoLaterMeans(best.value, r);
      }
    }
  }

  /** The best proposal is the composite that comes first among all of them, if it beats the champion on the training
      cases; there is none exactly when no composite beats it. */
  method BestProposal(name: Naming, champion: string, names: seq<string>, archive: Archive, truth: Truth,
      training: seq<string>)
    returns (r: Result<Option<Ranked>, Error>)
    requires Orders.Elements(names) == archive.Keys
    ensures r.Ok? <==> champion in archive && Scorable(truth, training)
    ensures r.Ok? ==>
      Chosen(r.value, Scored(archive[champion], truth, training).localized, name, champion, archive, truth, training)
  {
    if champion !in archive { return Err(UnknownMember); }
    var measured := Measure(archive[champion], truth, training);
    if measured.Err? { return Err(measured.error); }
    var sorted := Orders.Sorted(names);
    Orders.SameMembers(sorted, names);
    assert Orders.Elements(sorted) == archive.Keys;
    ProposalsKnown(name, champion, sorted, archive);
    var base := measured.value.localized;
    var best := ChooseBest(Proposals(name, champion, sorted), base, archive, truth, training);
    BestIsChosen(best, base, name, champion, sorted, archive, truth, training);
    r := Ok(best);
  }

  // --- generations ------------------------------------------------------------------------------------------------

  datatype Attempt =
    | NothingBetter(generation: int)
    | Tried(generation: int, member: Member, parent: string, archiveSize: nat, trainingLocalized: nat,
      comparison: Comparison, promoted: bool)

  datatype Evolution = Evolution(chain: seq<string>, attempts: seq<Attempt>, members: map<string, Member>)

  // Training and selection scores of the champion after the first `i` attempts.
  function TrainingAfter(attempts: seq<Attempt>, base: nat, i: nat): nat
    requires i <= |attempts|
  {
    if i == 0 || !attempts[i - 1].Tried? then base else attempts[i - 1].trainingLocalized
  }

  function SelectionAfter(attempts: seq<Attempt>, start: nat, i: nat): nat
    requires i <= |attempts|
  {
    if i == 0 || !attempts[i - 1].Tried? then start else attempts[i - 1].comparison.child
  }

  // Attempt `i` promoted the member that follows `chain[i]`.
  predicate PromotedAt(chain: seq<string>, attempts: seq<Attempt>, base: nat, start: nat, margin: int, i: nat)
    requires i + 1 < |chain| && i < |attempts|
  {
    var a := attempts[i];
    a.Tried? && a.promoted && a.generation == i + 1 && a.parent == chain[i] && a.member.name == chain[i + 1] &&
    a.trainingLocalized > TrainingAfter(attempts, base, i) &&
    a.comparison.parent == SelectionAfter(attempts, start, i) &&
    a.comparison.child - a.comparison.parent == |a.comparison.gained| - |a.comparison.lost| &&
    |a.comparison.gained| - |a.comparison.lost| >= margin
  }

  // A chain of promotions, each better than the last on training and better by the margin on selection.
  ghost predicate Climbs(chain: seq<string>, attempts: seq<Attempt>, base: nat, start: nat, margin: int)
  {
    1 <= |chain| <= |attempts| + 1 &&
    forall i: nat :: i + 1 < |chain| ==> PromotedAt(chain, attempts, base, start, margin, i)
  }

  /** The potential of a chain: the training score rises with every promotion, and the selection score by the margin. */
  lemma {:induction false} ClimbsPotential(chain: seq<string>, attempts: seq<Attempt>, base: nat, start: nat,
      margin: int, n: nat)
    requires Climbs(chain, attempts, base, start, margin) && n < |chain|
    ensures TrainingAfter(attempts, base, n) >= base + n
    ensures SelectionAfter(attempts, start, n) >= start + n * margin
    decreases n
  {
    if n > 0 {
      ClimbsPotential(chain, attempts, base, start, margin, n - 1);
      assert PromotedAt(chain, attempts, base, start, margin, n - 1);
      assert n * margin == (n - 1) * margin + margin;
    }
  }

  // One more promotion at the end of a chain.
  lemma ClimbStep(chain: seq<string>, attempts: seq<Attempt>, base: nat, start: nat, margin: int, a: Attempt)
    requires Climbs(chain, attempts, base, start, margin) && |attempts| == |chain| - 1
    requires a.Tried? && a.promoted && a.generation == |attempts| + 1 && a.parent == chain[|chain| - 1]
    requires a.trainingLocalized > TrainingAfter(attempts, base, |attempts|)
    requires a.comparison.parent == SelectionAfter(attempts, start, |attempts|)
    requires a.comparison.child - a.comparison.parent == |a.comparison.gained| - |a.comparison.lost| >= margin
    ensures Climbs(chain + [a.member.name], attempts + [a], base, start, margin)
  {
    forall i: nat | i + 1 < |chain + [a.member.name]|
      ensures PromotedAt(chain + [a.member.name], attempts + [a], base, start, margin, i)
    {
      if i + 1 < |chain| { assert PromotedAt(chain, attempts, base, start, margin, i); }
    }
  }

  lemma ClimbEnds(chain: seq<string>, attempts: seq<Attempt>, base: nat, start: nat, margin: int, a: Attempt)
    requires Climbs(chain, attempts, base, start, margin)
    ensures Climbs(chain, attempts + [a], base, start, margin)
  {
    forall i: nat | i + 1 < |chain| ensures PromotedAt(chain, attempts + [a], base, start, margin, i) {
      assert PromotedAt(chain, attempts, base, start, margin, i);
    }
  }

  // What one generation reports, from the archive it found.
  ghost predicate Reports(a: Attempt, locations: Answers, generation: int, champion: string, names: seq<string>,
      archive: Archive, truth: Truth, training: seq<string>, selection: seq<string>, margin: int,
      significant: (nat, nat) -> bool)
    requires champion in archive && Scorable(truth, training)
  {
    a.generation == generation &&
    (a.Tried? ==>
      Scorable(truth, selection) && a.parent == champion && a.archiveSize == |names| &&
      Known(a.member, archive) && Composes(locations, a.member, archive) &&
      a.trainingLocalized == Scored(locations, truth, training).localized &&
      a.trainingLocalized > Scored(archive[champion], truth, training).localized &&
      a.comparison.child == Scored(locations, truth, selection).localized &&
      a.comparison.parent == Scored(archive[champion], truth, selection).localized &&
      a.comparison.child - a.comparison.parent == |a.comparison.gained| - |a.comparison.lost| &&
      WonAndLost(a.comparison, Scored(locations, truth, selection), Scored(archive[champion], truth, selection)) &&
      (a.promoted <==>
        && |a.comparison.gained| - |a.comparison.lost| >= margin
        && significant(|a.comparison.lost|, |a.comparison.gained|)))
  }

  // Gained are the cases only the child localizes, lost the ones only the parent does.
  ghost predicate WonAndLost(comparison: Comparison, child: Evaluation, parent: Evaluation)
  {
    && (forall c :: c in comparison.gained <==>
         c in child.rows && c in parent.rows && child.rows[c].localized && !parent.rows[c].localized)
    && (forall c :: c in comparison.lost <==>
         c in child.rows && c in parent.rows && !child.rows[c].localized && parent.rows[c].localized)
  }

  // On every case of its first member a composite answers with the merge of both members' answers, an answer the second
  // does not have counting as an empty one.
  ghost predicate Composes(locations: Answers, m: Member, archive: Archive)
    requires Known(m, archive)
  {
    var first, second := archive[m.first], archive[m.second];
    && (forall c :: c in locations <==> c in first)
    && (forall c :: c in locations ==>
          locations[c] == Recombination.Merged(first[c], if c in second then second[c] else [], m.lead))
  }

  method CompareOn(child: Answers, parent: Answers, truth: Truth, cases: seq<string>)
    returns (r: Result<Comparison, Error>)
    ensures r.Ok? <==> Scorable(truth, cases)
    ensures r.Ok? ==>
      && r.value.child == Scored(child, truth, cases).localized
      && r.value.parent == Scored(parent, truth, cases).localized
      && r.value.child - r.value.parent == |r.value.gained| - |r.value.lost|
      && WonAndLost(r.value, Scored(child, truth, cases), Scored(parent, truth, cases))
  {
    var now := Measure(child, truth, cases);
    if now.Err? { return Err(now.error); }
    var was := Measure(parent, truth, cases);
    NetGain(now.value, was.value);
    CompareMeans(now.value, was.value);
    r := Compare(now.value, was.value);
  }

  method Generation(name: Naming, generation: int, champion: string, names: seq<string>, archive: Archive, truth: Truth,
      training: seq<string>, selection: seq<string>, margin: int, significant: (nat, nat) -> bool)
    returns (r: Result<Attempt, Error>, locations: Answers)
    requires Orders.Elements(names) == archive.Keys
    ensures r.Err? ==> champion !in archive || !Scorable(truth, training) || !Scorable(truth, selection)
    ensures r.Ok? ==> champion in archive && Scorable(truth, training)
    ensures r.Ok? ==>
      Reports(r.value, locations, generation, champion, names, archive, truth, training, selection, margin, significant)
    ensures r.Ok? ==>
      Chosen(if r.value.Tried? then Some(Ranked(r.value.member, Scored(locations, truth, training))) else None,
             Scored(archive[champion], truth, training).localized, name, champion, archive, truth, training)
  {
    locations := map[];
    var found := BestProposal(name, champion, names, archive, truth, training);
    if found.Err? { return Err(found.error), locations; }
    if found.value.None? { return Ok(NothingBetter(generation)), locations; }
    var best := found.value.value;
    locations := AnswersOf(best.member, archive);
    var compared := CompareOn(locations, archive[champion], truth, selection);
    if compared.Err? { return Err(compared.error), locations; }
    r := Ok(Tried(generation, best.member, champion, |names|, best.evaluation.localized, compared.value,
                  Promotes(compared.value, margin, significant)));
  }

  function Current(e: Evolution): string
    requires e.chain != []
  {
    e.chain[|e.chain| - 1]
  }

  // The scores of a chain so far, and of its last member.
  ghost predicate Level(e: Evolution, base: nat, start: nat, training: nat, selection: nat, margin: int)
  {
    Climbs(e.chain, e.attempts, base, start, margin) &&
    training == TrainingAfter(e.attempts, base, |e.chain| - 1) &&
      selection == SelectionAfter(e.attempts, start, |e.chain| - 1)
  }

  // The members of an evolution are those its attempts promoted, under their names.
  ghost predicate Recalls(members: map<string, Member>, attempts: seq<Attempt>)
  {
    forall k :: k in members ==> members[k].name == k && PromotedIn(attempts, members[k])
  }

  ghost predicate PromotedIn(attempts: seq<Attempt>, m: Member)
  {
    exists a :: a in attempts && a.Tried? && a.promoted && a.member == m
  }

  lemma RecallsMore(members: map<string, Member>, attempts: seq<Attempt>, a: Attempt)
    requires Recalls(members, attempts)
    ensures Recalls(members, attempts + [a])
  {
    forall k | k in members
      ensures PromotedIn(attempts + [a], members[k])
    {
      var b :| b in attempts && b.Tried? && b.promoted && b.member == members[k];
      assert b in attempts + [a];
    }
  }

  lemma RecallsOne(members: map<string, Member>, attempts: seq<Attempt>, a: Attempt)
    requires Recalls(members, attempts) && a.Tried? && a.promoted
    ensures Recalls(members[a.member.name := a.member], attempts + [a])
  {
    RecallsMore(members, attempts, a);
    assert a in attempts + [a];
  }

  // What the archive gained: the members of the chain, and nothing else.
  ghost predicate Gained(e: Evolution, was: Archive, now: Archive)
  {
    e.chain != [] && now.Keys == was.Keys + e.members.Keys && e.members.Keys == Orders.Elements(e.chain[1..]) &&
    forall k :: k in was && k !in e.members ==> now[k] == was[k]
  }

  // The last attempt promoted nothing.
  predicate Ended(e: Evolution)
  {
    e.attempts != [] && |e.attempts| == |e.chain| &&
    var last := e.attempts[|e.attempts| - 1];
    last.Tried? ==> !last.promoted
  }

  function Extended(e: Evolution, a: Attempt): Evolution
    requires a.Tried?
  {
    Evolution(e.chain + [a.member.name], e.attempts + [a], e.members[a.member.name := a.member])
  }

  lemma PromotionLevels(e: Evolution, a: Attempt, base: nat, start: nat, training: nat, selection: nat, margin: int)
    requires Level(e, base, start, training, selection, margin) && |e.attempts| == |e.chain| - 1
    requires a.Tried? && a.promoted && a.generation == |e.chain| && a.parent == Current(e)
    requires a.trainingLocalized > training && a.comparison.parent == selection
    requires a.comparison.child - a.comparison.parent == |a.comparison.gained| - |a.comparison.lost| >= margin
    ensures Level(Extended(e, a), base, start, a.trainingLocalized, a.comparison.child, margin)
  {
    ClimbStep(e.chain, e.attempts, base, start, margin, a);
  }

  lemma PromotionGains(e: Evolution, a: Attempt, locations: Answers, was: Archive, now: Archive)
    requires Gained(e, was, now) && a.Tried?
    ensures Gained(Extended(e, a), was, now[a.member.name := locations])
  {
    assert (e.chain + [a.member.name])[1..] == e.chain[1..] + [a.member.name];
    assert Orders.Elements(e.chain[1..] + [a.member.name]) == Orders.Elements(e.chain[1..]) + {a.member.name};
  }

  lemma RefusalLevels(e: Evolution, a: Attempt, base: nat, start: nat, training: nat, selection: nat, margin: int)
    requires Level(e, base, start, training, selection, margin)
    ensures Level(e.(attempts := e.attempts + [a]), base, start, training, selection, margin)
  {
    ClimbEnds(e.chain, e.attempts, base, start, margin, a);
  }

  // So many promotions fit above the scores the chain started with.
  ghost predicate Bounded(promotions: nat, base: nat, start: nat, training: seq<string>, selection: seq<string>,
      margin: int)
  {
    && base + promotions <= |set c | c in training|
    && start + promotions * margin <= |set c | c in selection|
  }

  /** Promotions are bounded: by the training cases left to win, and, each worth the margin, by the selection cases. */
  lemma PromotionsAreBounded(e: Evolution, base: nat, start: nat, last: Answers, truth: Truth, training: seq<string>,
      selection: seq<string>, margin: int)
    requires Scorable(truth, training) && Scorable(truth, selection)
    requires Level(e, base, start, Scored(last, truth, training).localized, Scored(last, truth, selection).localized,
      margin)
    ensures Bounded(|e.chain| - 1, base, start, training, selection, margin)
  {
    ClimbsPotential(e.chain, e.attempts, base, start, margin, |e.chain| - 1);
    ScoreFits(last, truth, training);
    ScoreFits(last, truth, selection);
  }

  lemma NothingGained(e: Evolution, archive: Archive)
    requires |e.chain| == 1 && e.members == map[]
    ensures Gained(e, archive, archive)
  {
  }

  lemma ChainStarts(champion: string, archive: Archive, base: nat, start: nat, margin: int)
    ensures var e := Evolution([champion], [], map[]);
      Level(e, base, start, base, start, margin) && Gained(e, archive, archive) && Current(e) == champion
  {
  }

  // The archive of a lineage, which gains every promoted composite.
  class Lineage {
    var names: seq<string>
    var answers: Archive

    constructor (names: seq<string>, answers: Archive)
      requires Orders.Elements(names) == answers.Keys
      ensures Valid() && this.names == names && this.answers == answers
    {
      this.names, this.answers := names, answers;
    }

    ghost predicate Valid()
      reads this
    {
      Orders.Elements(names) == answers.Keys
    }

    method Admit(name: string, locations: Answers)
      requires Valid()
      modifies this
      ensures Valid() && answers == old(answers)[name := locations]
    {
      if name !in answers { names := names + [name]; }
      answers := answers[name := locations];
      assert Orders.Elements(names) == old(Orders.Elements(names)) + {name};
    }

    // A champion that can be measured, and the chain that leads to it.
    ghost predicate Underway(e: Evolution, was: Archive, base: nat, start: nat, truth: Truth, training: seq<string>,
        selection: seq<string>, margin: int)
      reads this
      requires Scorable(truth, training) && Scorable(truth, selection)
    {
      Gained(e, was, answers) && Current(e) in answers && Recalls(e.members, e.attempts) &&
      Level(e, base, start, Scored(answers[Current(e)], truth, training).localized,
        Scored(answers[Current(e)], truth, selection).localized, margin)
    }

    // One generation: the champion is replaced, or the chain ends.  A champion that cannot be measured is not replaced.
    method Round(e: Evolution, ghost measurable: bool, ghost was: Archive, ghost base: nat, ghost start: nat,
        name: Naming, truth: Truth, training: seq<string>, selection: seq<string>, margin: int,
        significant: (nat, nat) -> bool)
      returns (r: Result<Evolution, Error>, stopped: bool)
      requires Valid() && e.chain != [] && |e.attempts| == |e.chain| - 1
      requires measurable <==> Current(e) in answers && Scorable(truth, training) && Scorable(truth, selection)
      requires measurable ==> Underway(e, was, base, start, truth, training, selection, margin)
      modifies this
      ensures Valid()
      ensures !measurable ==> answers == old(answers) && stopped
      ensures r.Err? ==> !measurable
      ensures r.Ok? && measurable ==> Underway(r.value, was, base, start, truth, training, selection, margin)
      ensures r.Ok? && stopped ==> r.value.chain == e.chain && r.value.members == e.members && Ended(r.value)
      ensures r.Ok? && !stopped ==>
        e.chain < r.value.chain && |r.value.chain| == |e.chain| + 1 && |r.value.attempts| == |e.attempts| + 1
    {
      var tried, locations := Generation(name, |e.chain|, Current(e), names, answers, truth, training, selection,
        margin, significant);
      stopped := true;
      if tried.Err? {
        r := Err(tried.error);
      } else if tried.value.Tried? && tried.value.promoted {
        Promote(e, tried.value, locations, was, base, start, truth, training, selection, margin, significant);
        r, stopped := Ok(Extended(e, tried.value)), false;
      } else {
        if measurable {
          RecallsMore(e.members, e.attempts, tried.value);
          RefusalLevels(e, tried.value, base, start, Scored(answers[Current(e)], truth, training).localized,
            Scored(answers[Current(e)], truth, selection).localized, margin);
        }
        r := Ok(e.(attempts := e.attempts + [tried.value]));
      }
    }

    method Promote(e: Evolution, a: Attempt, locations: Answers, ghost was: Archive, ghost base: nat, ghost start: nat,
        truth: Truth, training: seq<string>, selection: seq<string>, margin: int, ghost significant: (nat, nat) -> bool)
      requires Scorable(truth, training) && Scorable(truth, selection)
      requires Valid() && Underway(e, was, base, start, truth, training, selection, margin) &&
        |e.attempts| == |e.chain| - 1
      requires a.Tried? && a.promoted
      requires Reports(a, locations, |e.chain|, Current(e), names, answers, truth, training, selection, margin,
        significant)
      modifies this
      ensures Valid() && Underway(Extended(e, a), was, base, start, truth, training, selection, margin)
    {
      PromotionLevels(e, a, base, start, Scored(answers[Current(e)], truth, training).localized,
        Scored(answers[Current(e)], truth, selection).localized, margin);
      PromotionGains(e, a, locations, was, answers);
      RecallsOne(e.members, e.attempts, a);
      Admit(a.member.name, locations);
    }

    // Generation after generation, as long as each promotes its composite.
    method RunGenerations(ghost measurable: bool, ghost base: nat, ghost start: nat, name: Naming, champion: string,
        truth: Truth, training: seq<string>, selection: seq<string>, generations: int, margin: int,
        significant: (nat, nat) -> bool)
      returns (r: Result<Evolution, Error>)
      requires Valid()
      requires measurable <==> champion in answers && Scorable(truth, training) && Scorable(truth, selection)
      requires measurable ==> base == Scored(answers[champion], truth, training).localized
      requires measurable ==> start == Scored(answers[champion], truth, selection).localized
      modifies this
      ensures Valid()
      ensures measurable ==> r.Ok? && Underway(r.value, old(answers), base, start, truth, training, selection, margin)
      ensures !measurable ==> answers == old(answers)
      ensures !measurable && r.Ok? ==> r.value.chain == [champion] && r.value.members == map[]
      ensures r.Ok? ==> r.value.chain != [] && r.value.chain[0] == champion
      ensures r.Ok? ==> Ended(r.value) || (|r.value.attempts| == |r.value.chain| - 1 && |r.value.chain| > generations)
      ensures r.Ok? ==> |r.value.chain| == 1 || |r.value.chain| - 1 <= generations
    {
      var e := Evolution([champion], [], map[]);
      var stopped := false;
      ghost var was := answers;
      ChainStarts(champion, answers, base, start, margin);
      while |e.chain| <= generations && !stopped
        invariant Valid() && e.chain != [] && e.chain[0] == champion
        invariant measurable ==> Underway(e, was, base, start, truth, training, selection, margin)
        invariant !measurable ==> e.chain == [champion] && e.members == map[] && answers == was
        invariant if stopped then Ended(e) else |e.attempts| == |e.chain| - 1
        invariant |e.chain| == 1 || |e.chain| - 1 <= generations
        decreases generations - |e.chain|, !stopped
      {
        r, stopped := Round(e, measurable, was, base, start, name, truth, training, selection, margin, significant);
        if r.Err? { return; }
        e := r.value;
      }
      r := Ok(e);
    }

    /** The champion is replaced as long as a generation promotes its best composite.  Every promotion raises the
        training score, and the selection score by the margin at least; so there are at most as many promotions as
        training cases left to win, and their number times the margin never exceeds the number of different selection
        cases.  `base` and `start` name the two scores of the champion the call starts with. */
    method Evolve(ghost base: nat, ghost start: nat, name: Naming, champion: string, truth: Truth,
        training: seq<string>, selection: seq<string>, generations: int, margin: int, significant: (nat, nat) -> bool)
      returns (r: Result<Evolution, Error>)
      requires Valid()
      requires champion in answers && Scorable(truth, training) && Scorable(truth, selection) ==>
        base == Scored(answers[champion], truth, training).localized &&
          start == Scored(answers[champion], truth, selection).localized
      modifies this
      ensures Valid()
      ensures r.Err? ==> answers == old(answers)
      ensures r.Err? ==> champion !in answers || !Scorable(truth, training) || !Scorable(truth, selection)
      ensures r.Ok? ==> Gained(r.value, old(answers), answers) && r.value.chain[0] == champion
      ensures r.Ok? ==> Ended(r.value) || (|r.value.attempts| == |r.value.chain| - 1 && |r.value.chain| > generations)
      ensures r.Ok? && champion in old(answers) && Scorable(truth, training) && Scorable(truth, selection) ==>
        Underway(r.value, old(answers), base, start, truth, training, selection, margin)
      ensures r.Ok? && |r.value.chain| > 1 ==>
        |r.value.chain| - 1 <= generations &&
          Bounded(|r.value.chain| - 1, base, start, training, selection, margin)
    {
      ghost var measurable := champion in answers && Scorable(truth, training) && Scorable(truth, selection);
      r := RunGenerations(measurable, base, start, name, champion, truth, training, selection, generations, margin,
        significant);
      if r.Ok? && !measurable {
        NothingGained(r.value, answers);
      } else if r.Ok? && |r.value.chain| > 1 {
        PromotionsAreBounded(r.value, base, start, answers[Current(r.value)], truth, training, selection, margin);
      }
    }
  }
}
