/**
 What every log a campaign can produce satisfies, whatever its adapters answer.
 */
module CampaignProperties {
  import opened Wrappers
  import opened Campaign
  import Orders

  // The log determines the phase, the open case and the counters.
  predicate Mirrors(seed: seq<string>, s: State)
  {
    s.phase == PhaseAfter(Last(s.events)) &&
    s.attemptedCaseIds == seed + ClosedCases(s.events) &&
    s.generation == |ClosedCases(s.events)| &&
    s.successCount == Successes(s.events) &&
    match s.currentCase
    case None => OpenCase(Last(s.events)).None?
    case Some(c) => OpenCase(Last(s.events)) == Some(c.caseId)
  }

  // The records the next transition relies on are there, and agree with the last event.
  predicate Backed(s: State)
  {
    match s.phase
    case Diagnose =>
      s.blindResult.Some? && !BlindPassed(s.blindResult.value) &&
      LastResult(s) == Some(s.blindResult.value.resultDigest)
    case Reveal =>
      s.blindResult.Some? && !BlindPassed(s.blindResult.value) &&
      LastResult(s) == Some(s.blindResult.value.resultDigest) &&
      s.preRevealLearning.Some?
    case ValidateMachinery =>
      s.learnedMachinery.Some? && s.learnedMachinery.value.machinery.Some? &&
      LastCandidate(s.events) == Some(s.learnedMachinery.value.machinery.value.digest)
    case _ => true
  }

  function LastResult(s: State): Option<string>
  {
    match Last(s.events)
    case Some(BlindResultFrozen(_, digest, _)) => Some(digest)
    case Some(NegativeDiagnosed(_, digest, _, _)) => Some(digest)
    case _ => None
  }

  function LastCandidate(events: seq<Event>): Option<string>
  {
    match Last(events)
    case Some(CandidateLearned(_, _, digest)) => Some(digest)
    case _ => None
  }

  // The limits hold, and the campaign is complete exactly when one is reached at the close of a case.
  predicate Limited(s: State)
  {
    s.maxCases >= 0 && s.stopAfterSuccesses >= 0 &&
    (s.maxCases > 0 ==> s.generation < s.maxCases || (s.generation == s.maxCases && s.phase == Complete)) &&
    (s.stopAfterSuccesses > 0 ==>
      s.successCount < s.stopAfterSuccesses ||
        (s.successCount == s.stopAfterSuccesses && (s.phase == Complete || s.phase == Advance))) &&
    (s.phase == Complete ==>
      (s.maxCases > 0 && s.generation == s.maxCases) ||
        (s.stopAfterSuccesses > 0 && s.successCount == s.stopAfterSuccesses))
  }

  // No case is worked on twice, and none of those the campaign was told to leave out.
  ghost predicate Distinct(seed: seq<string>, s: State)
  {
    Orders.NoDup(ClosedCases(s.events)) &&
    (forall c :: c in ClosedCases(s.events) ==> c !in seed) &&
    (s.currentCase.Some? ==> s.currentCase.value.caseId !in s.attemptedCaseIds)
  }

  // The event reveals the solution of the case, or validates a success on it.
  predicate Marks(e: Event, caseId: string)
  {
    e.body.entry.caseId == caseId &&
    (e.body.entry.SolutionRevealed? || (e.body.entry.SuccessValidated? && e.body.entry.passed))
  }

  predicate Shown(p: Phase) { p == Learn || p == ValidateMachinery || p == Advance || p == Halted }

  // The case is closed, or it is the open one in a phase that comes after a reveal or a success.
  predicate SettledIn(events: seq<Event>, caseId: string)
  {
    caseId in ClosedCases(events) || (OpenCase(Last(events)) == Some(caseId) && Shown(PhaseAfter(Last(events))))
  }

  ghost predicate Settled(events: seq<Event>)
  {
    forall i: nat, c | i < |events| && Marks(events[i], c) :: SettledIn(events, c)
  }

  // At most one reveal per case, and none for a case that was validated as a success.
  ghost predicate MarkedOnce(events: seq<Event>)
  {
    forall i: nat, j: nat, c | i < j < |events| && Marks(events[i], c) :: !Marks(events[j], c)
  }

  ghost predicate Coherent(h: Hashes, seed: seq<string>, s: State)
  {
    Linked(h, s.events) && Chronological(s.events) && Mirrors(seed, s) && Backed(s) && Limited(s) &&
    Distinct(seed, s) && Settled(s.events) && MarkedOnce(s.events)
  }

  // --- one step -----------------------------------------------------------------------------------------------------

  function Added(next: State): Option<Entry> { Last(next.events) }

  // The new state extends the log by exactly one event, correctly placed and linked.
  predicate ExtendsByOne(h: Hashes, events: seq<Event>, next: seq<Event>)
  {
    Last(next).Some? && next == events + [NextEvent(h, events, Last(next).value)]
  }

  lemma StepExtends(h: Hashes, a: Adapter, s: State)
    requires !Terminal(s.phase) && Step(h, a, s).Ok?
    ensures ExtendsByOne(h, s.events, Step(h, a, s).value.events)
  {
  }

  lemma StepFollows(h: Hashes, seed: seq<string>, a: Adapter, s: State)
    requires Mirrors(seed, s) && Backed(s) && !Terminal(s.phase) && Step(h, a, s).Ok?
    ensures MayFollow(Last(s.events), Added(Step(h, a, s).value).value)
  {
  }

  lemma CountsAfter(events: seq<Event>, e: Event)
    ensures Last(events + [e]) == Some(e.body.entry)
    ensures ClosedCases(events + [e]) == ClosedCases(events)
      + (if e.body.entry.CaseClosed? then [e.body.entry.caseId] else [])
    ensures Successes(events + [e]) == Successes(events)
      + (if e.body.entry.SuccessValidated? && e.body.entry.passed then 1 else 0)
  {
    assert (events + [e])[..|events + [e]| - 1] == events;
  }

  lemma ExtendKeepsLinks(h: Hashes, events: seq<Event>, next: seq<Event>)
    requires Linked(h, events) && ExtendsByOne(h, events, next)
    ensures Linked(h, next)
  {
    forall i: nat | i < |next| ensures LinkedAt(h, next, i) {
      if i < |events| {
        assert LinkedAt(h, events, i);
      }
    }
  }

  lemma ExtendKeepsChronology(h: Hashes, events: seq<Event>, next: seq<Event>)
    requires Chronological(events) && ExtendsByOne(h, events, next) && MayFollow(Last(events), Last(next).value)
    ensures Chronological(next)
  {
    forall i: nat | i < |next| ensures MayFollow(Last(next[..i]), next[i].body.entry) {
      if i < |events| {
        assert next[..i] == events[..i];
      } else {
        assert next[..i] == events;
      }
    }
  }

  // How a step changes the counters, in terms of the event it adds.
  lemma StepCounts(h: Hashes, a: Adapter, s: State)
    requires !Terminal(s.phase) && Step(h, a, s).Ok?
    ensures var next := Step(h, a, s).value; var entry := Added(next).value;
      && next.attemptedCaseIds == s.attemptedCaseIds + (if entry.CaseClosed? then [entry.caseId] else [])
      && next.generation == s.generation + (if entry.CaseClosed? then 1 else 0)
      && next.successCount == s.successCount + (if entry.SuccessValidated? && entry.passed then 1 else 0)
      && next.maxCases == s.maxCases && next.stopAfterSuccesses == s.stopAfterSuccesses
  {
  }

  // How it changes the phase and the open case.
  lemma StepOpens(h: Hashes, a: Adapter, s: State)
    requires !Terminal(s.phase) && Step(h, a, s).Ok?
    ensures var next := Step(h, a, s).value; var entry := Added(next).value;
      && next.phase == PhaseAfter(Some(entry))
      && (next.currentCase.Some? <==> !entry.CaseClosed?)
      && (next.currentCase.Some? ==> next.currentCase.value.caseId == entry.caseId)
  {
  }

  lemma StepMirrors(h: Hashes, seed: seq<string>, a: Adapter, s: State)
    requires Mirrors(seed, s) && Backed(s) && !Terminal(s.phase) && Step(h, a, s).Ok?
    ensures Mirrors(seed, Step(h, a, s).value)
  {
    var next := Step(h, a, s).value;
    StepExtends(h, a, s);
    StepCounts(h, a, s);
    StepOpens(h, a, s);
    CountsAfter(s.events, NextEvent(h, s.events, Added(next).value));
  }

  lemma StepBacks(h: Hashes, seed: seq<string>, a: Adapter, s: State)
    requires Mirrors(seed, s) && Backed(s) && !Terminal(s.phase) && Step(h, a, s).Ok?
    ensures Backed(Step(h, a, s).value)
  {
  }

  lemma StepLimits(h: Hashes, seed: seq<string>, a: Adapter, s: State)
    requires Mirrors(seed, s) && Limited(s) && !Terminal(s.phase) && Step(h, a, s).Ok?
    ensures Limited(Step(h, a, s).value)
  {
  }

  lemma StepDistinct(h: Hashes, seed: seq<string>, a: Adapter, s: State)
    requires Mirrors(seed, s) && Backed(s) && Distinct(seed, s) && !Terminal(s.phase) && Step(h, a, s).Ok?
    ensures Distinct(seed, Step(h, a, s).value)
  {
    var next := Step(h, a, s).value;
    var entry := Added(next).value;
    StepExtends(h, a, s);
    StepCounts(h, a, s);
    StepOpens(h, a, s);
    CountsAfter(s.events, NextEvent(h, s.events, entry));
    CloseIsOpen(h, seed, a, s);
  }

  // What is closed was open, and what is opened was never attempted.
  lemma CloseIsOpen(h: Hashes, seed: seq<string>, a: Adapter, s: State)
    requires Mirrors(seed, s) && Backed(s) && !Terminal(s.phase) && Step(h, a, s).Ok?
    ensures var entry := Added(Step(h, a, s).value).value;
      && (entry.CaseSelected? ==> s.currentCase.None? && entry.caseId !in s.attemptedCaseIds)
      && (!entry.CaseSelected? ==> s.currentCase.Some? && entry.caseId == s.currentCase.value.caseId)
  {
  }

  lemma ExtendSettles(events: seq<Event>, e: Event)
    requires Settled(events) && MayFollow(Last(events), e.body.entry)
    ensures Settled(events + [e])
  {
    var next := events + [e];
    CountsAfter(events, e);
    forall i: nat, c | i < |next| && Marks(next[i], c) ensures SettledIn(next, c) {
      if i < |events| {
        assert Marks(events[i], c);
        assert SettledIn(events, c);
      }
    }
  }

  lemma ExtendMarksOnce(events: seq<Event>, e: Event)
    requires Settled(events) && MarkedOnce(events) && MayFollow(Last(events), e.body.entry)
    requires e.body.entry.CaseSelected? || e.body.entry.caseId !in ClosedCases(events)
    ensures MarkedOnce(events + [e])
  {
    var next := events + [e];
    forall i: nat, j: nat, c | i < j < |next| && Marks(next[i], c) ensures !Marks(next[j], c) {
      assert Marks(events[i], c);
      assert SettledIn(events, c);
      if j < |events| { assert next[j] == events[j]; }
    }
  }

  lemma StepIsCoherent(h: Hashes, seed: seq<string>, a: Adapter, s: State)
    requires Coherent(h, seed, s) && !Terminal(s.phase) && Step(h, a, s).Ok?
    ensures Coherent(h, seed, Step(h, a, s).value)
  {
    var next := Step(h, a, s).value;
    StepExtends(h, a, s);
    StepFollows(h, seed, a, s);
    ExtendKeepsLinks(h, s.events, next.events);
    ExtendKeepsChronology(h, s.events, next.events);
    StepMirrors(h, seed, a, s);
    StepBacks(h, seed, a, s);
    StepLimits(h, seed, a, s);
    StepDistinct(h, seed, a, s);
    CloseIsOpen(h, seed, a, s);
    var e := NextEvent(h, s.events, Added(next).value);
    ExtendSettles(s.events, e);
    ExtendMarksOnce(s.events, e);
  }

  // --- runs ---------------------------------------------------------------------------------------------------------

  /** Every transition output is signed, and either extends the log by exactly one placed and linked event or is a
      terminal state returned unchanged.  On a coherent state no refusal comes from the controller's own records: the
      guards of the reveal and the missing records never stop it. */
  lemma TransitionExtends(h: Hashes, seed: seq<string>, a: Adapter, s: Signed)
    requires Valid(h, s) && Coherent(h, seed, s.state)
    ensures match Transition(h, a, s)
      case Ok(next) =>
        && Valid(h, next) && Coherent(h, seed, next.state)
        && (if Terminal(s.state.phase) then next == s else ExtendsByOne(h, s.state.events, next.state.events))
      case Err(e) =>
        e != RevealWithoutNegative && e != RevealWithoutDiagnosis && e != Malformed && e != DigestDoesNotReproduce
  {
    if !Terminal(s.state.phase) {
      if Step(h, a, s.state).Ok? {
        StepExtends(h, a, s.state);
        StepIsCoherent(h, seed, a, s.state);
      } else {
        GuardsHold(h, seed, a, s.state);
      }
    }
  }

  lemma GuardsHold(h: Hashes, seed: seq<string>, a: Adapter, s: State)
    requires Mirrors(seed, s) && Backed(s) && !Terminal(s.phase) && Step(h, a, s).Err?
    ensures var e := Step(h, a, s).error;
      e != RevealWithoutNegative && e != RevealWithoutDiagnosis && e != Malformed && e != DigestDoesNotReproduce
  {
  }

  // One transition after another, each against its own adapter; a refused one leaves the state as it was.
  function Trace(h: Hashes, s: Signed, adapters: seq<Adapter>): Signed
    decreases |adapters|
  {
    if adapters == [] then s
    else
      match Transition(h, adapters[0], s)
      case Ok(next) => Trace(h, next, adapters[1..])
      case Err(_) => Trace(h, s, adapters[1..])
  }

  lemma {:induction false} TraceIsCoherent(h: Hashes, seed: seq<string>, s: Signed, adapters: seq<Adapter>)
    requires Valid(h, s) && Coherent(h, seed, s.state)
    ensures Valid(h, Trace(h, s, adapters)) && Coherent(h, seed, Trace(h, s, adapters).state)
    decreases |adapters|
  {
    if adapters != [] {
      TransitionExtends(h, seed, adapters[0], s);
      match Transition(h, adapters[0], s)
      case Ok(next) => TraceIsCoherent(h, seed, next, adapters[1..]);
      case Err(_) => TraceIsCoherent(h, seed, s, adapters[1..]);
    }
  }

  lemma CreatedIsCoherent(h: Hashes, campaignId: string, machinery: Machinery, maxCases: int, stopAfterSuccesses: int,
      seed: seq<string>)
    ensures var created := CreateState(h, campaignId, machinery, maxCases, stopAfterSuccesses, seed);
      && (created.Ok? <==> campaignId != "" && machinery.digest != "" && maxCases >= 0 && stopAfterSuccesses >= 0)
      && (created.Ok? ==> Valid(h, created.value) && Coherent(h, seed, created.value.state))
  {
    assert seed + [] == seed;
  }

  // A campaign state some run of some adapters leads to.
  ghost predicate Reachable(h: Hashes, seed: seq<string>, s: Signed)
  {
    exists campaignId, machinery, maxCases, stop, adapters ::
      IsRunOf(h, seed, s, campaignId, machinery, maxCases, stop, adapters)
  }

  ghost predicate IsRunOf(h: Hashes, seed: seq<string>, s: Signed, campaignId: string, machinery: Machinery,
      maxCases: int, stop: int, adapters: seq<Adapter>)
  {
    var created := CreateState(h, campaignId, machinery, maxCases, stop, seed);
    created.Ok? && s == Trace(h, created.value, adapters)
  }

  lemma ReachableIsCoherent(h: Hashes, seed: seq<string>, s: Signed)
    requires Reachable(h, seed, s)
    ensures Valid(h, s) && Coherent(h, seed, s.state)
  {
    var campaignId, machinery, maxCases, stop, adapters :|
      IsRunOf(h, seed, s, campaignId, machinery, maxCases, stop, adapters);
    CreatedIsCoherent(h, campaignId, machinery, maxCases, stop, seed);
    TraceIsCoherent(h, seed, CreateState(h, campaignId, machinery, maxCases, stop, seed).value, adapters);
  }

  /** Nothing is revealed before a negative result is frozen and diagnosed: in every reachable log the event right
      before a reveal is the diagnosis of the same case and result, and the one before that froze this result as
      failed. */
  lemma RevealFollowsFrozenNegative(h: Hashes, seed: seq<string>, s: Signed, i: nat)
    requires Reachable(h, seed, s) && i < |s.state.events| && s.state.events[i].body.entry.SolutionRevealed?
    ensures var shown := s.state.events[i].body.entry;
      && i >= 2
      && var diagnosis := s.state.events[i - 1].body.entry;
         var frozen := s.state.events[i - 2].body.entry;
      && diagnosis.NegativeDiagnosed? && diagnosis.caseId == shown.caseId &&
         diagnosis.resultDigest == shown.negativeResultDigest
      && frozen == BlindResultFrozen(shown.caseId, shown.negativeResultDigest, false)
  {
    ReachableIsCoherent(h, seed, s);
    var events := s.state.events;
    assert MayFollow(Last(events[..i]), events[i].body.entry);
    assert i >= 1 && Last(events[..i]) == Some(events[i - 1].body.entry);
    assert MayFollow(Last(events[..i - 1]), events[i - 1].body.entry);
    assert i >= 2 && Last(events[..i - 1]) == Some(events[i - 2].body.entry);
  }

  /** The solution of a case is revealed at most once, and never for a case validated as a success. */
  lemma RevealIsSingle(h: Hashes, seed: seq<string>, s: Signed, i: nat, j: nat)
    requires Reachable(h, seed, s) && i < |s.state.events| && j < |s.state.events| && i != j
    requires s.state.events[i].body.entry.SolutionRevealed?
    requires s.state.events[j].body.entry.SolutionRevealed?
      || (s.state.events[j].body.entry.SuccessValidated? && s.state.events[j].body.entry.passed)
    ensures s.state.events[i].body.entry.caseId != s.state.events[j].body.entry.caseId
  {
    ReachableIsCoherent(h, seed, s);
    var revealed, other := s.state.events[i].body.entry.caseId, s.state.events[j].body.entry.caseId;
    assert Marks(s.state.events[i], revealed) && Marks(s.state.events[j], other);
    if i < j {
      assert !Marks(s.state.events[j], revealed);
    } else {
      assert !Marks(s.state.events[i], other);
    }
  }

  /** The counters are what the log says: the attempted cases are the seed followed by the closed ones, all of them
      different and none of them in the seed; the generation counts them, the successes count the validated ones, and a
      positive limit is never passed. */
  lemma CountersAgreeWithLog(h: Hashes, seed: seq<string>, s: Signed)
    requires Reachable(h, seed, s)
    ensures var closed := ClosedCases(s.state.events);
      && s.state.attemptedCaseIds == seed + closed
      && Orders.NoDup(closed) && (forall c :: c in closed ==> c !in seed)
      && s.state.generation == |closed| && s.state.successCount == Successes(s.state.events)
      && (s.state.maxCases > 0 ==> s.state.generation <= s.state.maxCases)
      && (s.state.stopAfterSuccesses > 0 ==> s.state.successCount <= s.state.stopAfterSuccesses)
      && s.state.phase == PhaseAfter(Last(s.state.events))
  {
    ReachableIsCoherent(h, seed, s);
  }

  // --- what the events say is so -----------------------------------------------------------------------------------

  // The machinery a log leaves in place: a diagnosis replaces it, and a candidate does once it is validated.
  function InPlace(initial: string, events: seq<Event>): string
  {
    if events == [] then initial
    else
      match events[|events| - 1].body.entry
      case NegativeDiagnosed(_, _, _, digest) => digest
      case MachineryValidated(_, passed, _, digest) =>
        if passed then digest else InPlace(initial, events[..|events| - 1])
      case _ => InPlace(initial, events[..|events| - 1])
  }

  // The event says what was so when it was logged.
  predicate Attests(initial: string, maxCases: int, stop: int, before: seq<Event>, entry: Entry)
  {
    match entry
    case BlindFrozen(_, _, digest) => digest == InPlace(initial, before)
    case MachineryValidated(_, passed, _, digest) =>
      if passed then LastCandidate(before) == Some(digest) else digest == InPlace(initial, before)
    case CaseClosed(_, generation, successCount, complete) =>
      generation == |ClosedCases(before)| + 1 && successCount == Successes(before) &&
      (complete <==> (maxCases > 0 && generation >= maxCases) || (stop > 0 && successCount >= stop))
    case _ => true
  }

  ghost predicate Attested(initial: string, s: State)
  {
    s.machinery.digest == InPlace(initial, s.events) &&
    forall i: nat | i < |s.events| ::
      Attests(initial, s.maxCases, s.stopAfterSuccesses, s.events[..i], s.events[i].body.entry)
  }

  lemma InPlaceAfter(initial: string, events: seq<Event>, e: Event)
    ensures InPlace(initial, events + [e]) ==
      match e.body.entry
      case NegativeDiagnosed(_, _, _, digest) => digest
      case MachineryValidated(_, passed, _, digest) => if passed then digest else InPlace(initial, events)
      case _ => InPlace(initial, events)
  {
    assert (events + [e])[..|events + [e]| - 1] == events;
  }

  lemma StepAttests(h: Hashes, seed: seq<string>, initial: string, a: Adapter, s: State)
    requires Mirrors(seed, s) && Backed(s) && s.machinery.digest == InPlace(initial, s.events)
    requires !Terminal(s.phase) && Step(h, a, s).Ok?
    ensures Attests(initial, s.maxCases, s.stopAfterSuccesses, s.events, Added(Step(h, a, s).value).value)
  {
  }

  lemma StepInstalls(h: Hashes, initial: string, a: Adapter, s: State)
    requires s.machinery.digest == InPlace(initial, s.events) && !Terminal(s.phase) && Step(h, a, s).Ok?
    ensures Step(h, a, s).value.machinery.digest == InPlace(initial, Step(h, a, s).value.events)
  {
    var next := Step(h, a, s).value;
    StepExtends(h, a, s);
    InPlaceAfter(initial, s.events, NextEvent(h, s.events, Added(next).value));
  }

  lemma StepKeepsAttested(h: Hashes, seed: seq<string>, initial: string, a: Adapter, s: State)
    requires Mirrors(seed, s) && Backed(s) && Attested(initial, s) && !Terminal(s.phase) && Step(h, a, s).Ok?
    ensures Attested(initial, Step(h, a, s).value)
  {
    var next := Step(h, a, s).value;
    StepExtends(h, a, s);
    StepAttests(h, seed, initial, a, s);
    StepInstalls(h, initial, a, s);
    StepCounts(h, a, s);
    forall i: nat | i < |next.events|
      ensures Attests(initial, next.maxCases, next.stopAfterSuccesses, next.events[..i], next.events[i].body.entry)
    {
      if i < |s.events| {
        assert next.events[..i] == s.events[..i] && next.events[i] == s.events[i];
      } else {
        assert next.events[..i] == s.events;
      }
    }
  }

  /** The log can be believed: in every log of a campaign, a blind freeze and a rejected validation name the machinery
      in place, a passed validation names the candidate just learned, a closing names its place among the closed cases
      and the successes so far and completes exactly when a limit is reached; and the machinery of the state is the one
      the log leaves in place, so a candidate that was not validated is never in use. */
  lemma {:induction false} TraceIsAttested(h: Hashes, seed: seq<string>, initial: string, s: Signed,
      adapters: seq<Adapter>)
    requires Valid(h, s) && Coherent(h, seed, s.state) && Attested(initial, s.state)
    ensures Attested(initial, Trace(h, s, adapters).state)
    decreases |adapters|
  {
    if adapters != [] {
      TransitionExtends(h, seed, adapters[0], s);
      match Transition(h, adapters[0], s)
      case Ok(next) =>
        if !Terminal(s.state.phase) { StepKeepsAttested(h, seed, initial, adapters[0], s.state); }
        TraceIsAttested(h, seed, initial, next, adapters[1..]);
      case Err(_) => TraceIsAttested(h, seed, initial, s, adapters[1..]);
    }
  }

  lemma LogCanBeBelieved(h: Hashes, seed: seq<string>, campaignId: string, machinery: Machinery, maxCases: int,
      stop: int, adapters: seq<Adapter>)
    requires CreateState(h, campaignId, machinery, maxCases, stop, seed).Ok?
    ensures var s := Trace(h, CreateState(h, campaignId, machinery, maxCases, stop, seed).value, adapters);
      Attested(machinery.digest, s.state)
  {
    CreatedIsCoherent(h, campaignId, machinery, maxCases, stop, seed);
    TraceIsAttested(h, seed, machinery.digest, CreateState(h, campaignId, machinery, maxCases, stop, seed).value,
      adapters);
  }
}
