/**
 What a campaign does with each answer of its adapter: which answers it refuses and why, what it keeps of the ones
 it accepts, and that no state of any run holds evidence it would have refused.
 */
module CampaignAnswers {
  import opened Wrappers
  import opened Campaign
  import opened CampaignProperties

  // --- refusals -------------------------------------------------------------------------------------------------

  // The adapter raised instead of answering the question of this phase.
  ghost predicate Raises(a: Adapter, s: State)
  {
    match s.phase
    case Select => a.selectCase(s).None?
    case Prepare => a.prepareBlind(s).None?
    case Evaluate => a.evaluateBlind(s).None?
    case ValidateSuccess => a.validateSuccess(s).None?
    case Diagnose => a.diagnoseAndRetain(s).None?
    case Reveal => a.revealSolution(s).None?
    case Learn => a.learnFromSolution(s).None?
    case ValidateMachinery => a.validateMachinery(s).None?
    case _ => false
  }

  // The blind evidence the adapter hands over says that the human fix or the issue text was looked at.
  ghost predicate Crosses(a: Adapter, s: State)
  {
    || (s.phase == Prepare && a.prepareBlind(s).Some? &&
        (a.prepareBlind(s).value.humanFixInspected || a.prepareBlind(s).value.issueTextInspected))
    || (s.phase == Evaluate && a.evaluateBlind(s).Some? &&
        (a.evaluateBlind(s).value.humanFixInspected || a.evaluateBlind(s).value.issueTextInspected))
  }

  ghost predicate Brings(l: Learning) { l.machinery.Some? && l.machinery.value.digest != "" }

  // The learning the adapter hands over in a phase that has to produce machinery.
  ghost function Learned(a: Adapter, s: State): Option<Learning>
  {
    if s.phase == Diagnose then a.diagnoseAndRetain(s)
    else if s.phase == Learn then a.learnFromSolution(s)
    else None
  }

  // Why an answer is refused, if it is.
  ghost predicate RefusedFor(a: Adapter, s: State, e: Error)
  {
    match e
    case AdapterRaised => Raises(a, s)
    case CrossedBoundary => Crosses(a, s)
    case NoCaseIdentity => s.phase == Select && a.selectCase(s).Some? && a.selectCase(s).value.caseId == ""
    case AlreadyAttempted =>
      && s.phase == Select && a.selectCase(s).Some?
      && a.selectCase(s).value.caseId != "" && a.selectCase(s).value.caseId in s.attemptedCaseIds
    case MissingDigest =>
      || (s.phase == Prepare && a.prepareBlind(s).Some? && !Crosses(a, s) && a.prepareBlind(s).value.freezeDigest == "")
      || (s.phase == Reveal && a.revealSolution(s).Some? && a.revealSolution(s).value.solutionDigest == "")
    case SolutionVisible => s.phase == Diagnose && Learned(a, s).Some? && Learned(a, s).value.solutionVisible
    case NoMachinery =>
      && Learned(a, s).Some? && !Brings(Learned(a, s).value)
      && (s.phase == Diagnose ==> !Learned(a, s).value.solutionVisible)
    case WrongParent =>
      && s.phase == Learn && Learned(a, s).Some? && Brings(Learned(a, s).value)
      && Learned(a, s).value.machinery.value.parent !in {"", s.machinery.digest}
    case _ => false
  }

  // The refusals of a transition are exactly these.
  lemma TransitionRefuses(h: Hashes, seed: seq<string>, a: Adapter, s: Signed, e: Error)
    requires Coherent(h, seed, s.state)
    ensures s.digest != h.state(s.state) ==> Transition(h, a, s) == Err(DigestDoesNotReproduce)
    ensures s.digest == h.state(s.state) ==> (Transition(h, a, s) == Err(e) <==> RefusedFor(a, s.state, e))
  {
    if s.digest == h.state(s.state) && !Terminal(s.state.phase) {
      StepRefuses(h, seed, a, s.state, e);
    }
  }

  lemma StepRefuses(h: Hashes, seed: seq<string>, a: Adapter, s: State, e: Error)
    requires Mirrors(seed, s) && Backed(s) && !Terminal(s.phase)
    ensures Step(h, a, s) == Err(e) <==> RefusedFor(a, s, e)
  {
    if BlindPhase(s.phase) {
      BlindStepRefuses(h, seed, a, s, e);
    } else {
      LaterStepRefuses(h, seed, a, s, e);
    }
  }

  ghost predicate BlindPhase(p: Phase) { p in {Select, Prepare, Evaluate, ValidateSuccess} }

  lemma BlindStepRefuses(h: Hashes, seed: seq<string>, a: Adapter, s: State, e: Error)
    requires Mirrors(seed, s) && BlindPhase(s.phase)
    ensures Step(h, a, s) == Err(e) <==> RefusedFor(a, s, e)
  {
  }

  lemma LaterStepRefuses(h: Hashes, seed: seq<string>, a: Adapter, s: State, e: Error)
    requires Mirrors(seed, s) && Backed(s) && !Terminal(s.phase) && !BlindPhase(s.phase)
    ensures Step(h, a, s) == Err(e) <==> RefusedFor(a, s, e)
  {
  }

  // --- acceptances ------------------------------------------------------------------------------------------------

  // A digest is recorded as it was named, or computed when it was left out.
  ghost predicate Recorded(digest: string, named: string, computed: string)
  {
    (named != "" ==> digest == named) && (named == "" ==> digest == computed)
  }

  // What a transition changes: the entry it logs, the phase it moves to, and the records it replaces.
  ghost predicate Accepts(h: Hashes, a: Adapter, s: State, entry: Entry, next: State)
  {
    match s.phase
    case Select =>
      && a.selectCase(s).Some?
      && entry == CaseSelected(a.selectCase(s).value.caseId, a.selectCase(s).value.selectionDigest)
      && next == s.(phase := Prepare, currentCase := a.selectCase(s), events := next.events)
    case Prepare =>
      && a.prepareBlind(s).Some? && s.currentCase.Some?
      && entry == BlindFrozen(s.currentCase.value.caseId, a.prepareBlind(s).value.freezeDigest, s.machinery.digest)
      && next == s.(phase := Evaluate, blindFreeze := a.prepareBlind(s), events := next.events)
    case Evaluate => EvaluationAccepted(h, a.evaluateBlind(s), s, entry, next)
    case ValidateSuccess => ValidationAccepted(h, a.validateSuccess(s), s, entry, next)
    case Diagnose =>
      && Learned(a, s).Some? && Learned(a, s).value.machinery.Some? && s.currentCase.Some? && s.blindResult.Some?
      && entry.NegativeDiagnosed? && entry.caseId == s.currentCase.value.caseId
      && entry.resultDigest == s.blindResult.value.resultDigest
      && Recorded(entry.learningDigest, Learned(a, s).value.learningDigest, h.learning(Learned(a, s).value))
      && entry.machineryDigest == Learned(a, s).value.machinery.value.digest
      && next == s.(phase := Reveal, preRevealLearning := Learned(a, s),
                    machinery := Learned(a, s).value.machinery.value, events := next.events)
    case Reveal =>
      && a.revealSolution(s).Some? && s.currentCase.Some? && s.blindResult.Some?
      && entry == SolutionRevealed(s.currentCase.value.caseId, s.blindResult.value.resultDigest,
                                   a.revealSolution(s).value.solutionDigest)
      && next == s.(phase := Learn, solutionReveal := a.revealSolution(s), events := next.events)
    case Learn =>
      && Learned(a, s).Some? && Learned(a, s).value.machinery.Some? && s.currentCase.Some?
      && entry.CandidateLearned? && entry.caseId == s.currentCase.value.caseId
      && Recorded(entry.learningDigest, Learned(a, s).value.learningDigest, h.learning(Learned(a, s).value))
      && entry.candidateMachineryDigest == Learned(a, s).value.machinery.value.digest
      && next == s.(phase := ValidateMachinery, learnedMachinery := Learned(a, s), events := next.events)
    case ValidateMachinery => CandidateAccepted(h, a.validateMachinery(s), s, entry, next)
    case _ => CloseAccepted(s, entry, next)
  }

  ghost predicate EvaluationAccepted(h: Hashes, answer: Option<BlindResult>, s: State, entry: Entry, next: State)
  {
    && answer.Some? && s.currentCase.Some?
    && entry.BlindResultFrozen? && entry.caseId == s.currentCase.value.caseId
    && Recorded(entry.resultDigest, answer.value.resultDigest, h.result(answer.value))
    && (entry.passed <==> answer.value.gatePassed || answer.value.winner.Some?)
    && next == s.(phase := if entry.passed then ValidateSuccess else Diagnose,
                  blindResult := Some(answer.value.(resultDigest := entry.resultDigest)),
                  successValidation := None, events := next.events)
  }

  ghost predicate ValidationAccepted(h: Hashes, answer: Option<Validation>, s: State, entry: Entry, next: State)
  {
    && answer.Some? && s.currentCase.Some?
    && entry.SuccessValidated? && entry.caseId == s.currentCase.value.caseId && entry.passed == answer.value.passed
    && Recorded(entry.validationDigest, answer.value.validationDigest, h.validation(answer.value))
    && entry.winnerIndex == answer.value.winnerIndex && entry.resumeIndex == answer.value.resumeIndex
    && next == s.(phase := if answer.value.passed then Advance else Evaluate, successValidation := answer,
                  successCount := if answer.value.passed then s.successCount + 1 else s.successCount,
                  events := next.events)
  }

  ghost predicate CandidateAccepted(h: Hashes, answer: Option<Validation>, s: State, entry: Entry, next: State)
  {
    && answer.Some? && s.currentCase.Some?
    && entry.MachineryValidated? && entry.caseId == s.currentCase.value.caseId && entry.passed == answer.value.passed
    && Recorded(entry.validationDigest, answer.value.validationDigest, h.validation(answer.value))
    && entry.machineryDigest == next.machinery.digest
    && (answer.value.passed ==>
         s.learnedMachinery.Some? && s.learnedMachinery.value.machinery == Some(next.machinery))
    && (!answer.value.passed ==> next.machinery == s.machinery)
    && next == s.(phase := if answer.value.passed then Advance else Halted, machineryValidation := answer,
                  machinery := next.machinery, events := next.events)
  }

  ghost predicate CloseAccepted(s: State, entry: Entry, next: State)
  {
    && s.currentCase.Some?
    && entry.CaseClosed? && entry.caseId == s.currentCase.value.caseId
    && entry.generation == s.generation + 1 && entry.successCount == s.successCount
    && (entry.complete <==>
         || (s.maxCases > 0 && s.generation + 1 >= s.maxCases)
         || (s.stopAfterSuccesses > 0 && s.successCount >= s.stopAfterSuccesses))
    && next == State(s.campaignId, if entry.complete then Complete else Select, s.generation + 1, s.maxCases,
                     s.stopAfterSuccesses, s.attemptedCaseIds + [s.currentCase.value.caseId], s.successCount,
                     s.machinery, None, None, None, None, None, None, None, None, next.events)
  }

  /** An accepted answer changes the records of its phase and nothing else, and is logged as what it is: one event,
      placed at the end, that names the event before it and carries the digest of its own content. */
  lemma TransitionRecords(h: Hashes, a: Adapter, s: Signed)
    requires Transition(h, a, s).Ok?
    ensures var next := Transition(h, a, s).value;
            && next.digest == h.state(next.state)
            && (s.state.phase in {Complete, Halted} ==> next == s)
            && (s.state.phase !in {Complete, Halted} ==>
                 var n := |s.state.events|;
                 && |next.state.events| == n + 1 && next.state.events[..n] == s.state.events
                 && var e := next.state.events[n];
                    && Accepts(h, a, s.state, e.body.entry, next.state)
                    && e.body.index == n && e.digest == h.event(e.body)
                    && e.body.previous == if n == 0 then None else Some(s.state.events[n - 1].digest))
  {
    if s.state.phase !in {Complete, Halted} {
      StepRecords(h, a, s.state);
      StepExtends(h, a, s.state);
    }
  }

  lemma StepRecords(h: Hashes, a: Adapter, s: State)
    requires !Terminal(s.phase) && Step(h, a, s).Ok?
    ensures Added(Step(h, a, s).value).Some? && Accepts(h, a, s, Added(Step(h, a, s).value).value, Step(h, a, s).value)
  {
    match s.phase {
      case Select =>
      case Prepare =>
      case Evaluate =>
      case ValidateSuccess =>
      case Diagnose =>
      case Reveal =>
      case Learn =>
      case ValidateMachinery =>
      case Advance =>
    }
  }

  // --- the evidence a campaign holds ---------------------------------------------------------------------------------

  /** What a campaign holds was acceptable: its blind evidence never crossed the boundary of the hidden solution, every
      digest it must have is there, a diagnosis was made without sight of the solution, and a learned candidate
      descends from the machinery in place. */
  ghost predicate Clean(s: State)
  {
    && s.machinery.digest != ""
    && (s.currentCase.Some? ==> s.currentCase.value.caseId != "")
    && (s.blindFreeze.Some? ==>
         && !s.blindFreeze.value.humanFixInspected && !s.blindFreeze.value.issueTextInspected
         && s.blindFreeze.value.freezeDigest != "")
    && (s.blindResult.Some? ==> !s.blindResult.value.humanFixInspected && !s.blindResult.value.issueTextInspected)
    && (s.preRevealLearning.Some? ==> !s.preRevealLearning.value.solutionVisible && Brings(s.preRevealLearning.value))
    && (s.solutionReveal.Some? ==> s.solutionReveal.value.solutionDigest != "")
    && (s.learnedMachinery.Some? ==> Brings(s.learnedMachinery.value))
    && (s.phase == ValidateMachinery && s.learnedMachinery.Some? ==>
         s.learnedMachinery.value.machinery.value.parent in {"", s.machinery.digest})
  }

  lemma StepKeepsClean(h: Hashes, a: Adapter, s: State)
    requires Clean(s) && Backed(s) && !Terminal(s.phase) && Step(h, a, s).Ok?
    ensures Clean(Step(h, a, s).value)
  {
    if BlindPhase(s.phase) {
      BlindStepKeepsClean(h, a, s);
    } else {
      LaterStepKeepsClean(h, a, s);
    }
  }

  lemma BlindStepKeepsClean(h: Hashes, a: Adapter, s: State)
    requires Clean(s) && BlindPhase(s.phase) && Step(h, a, s).Ok?
    ensures Clean(Step(h, a, s).value)
  {
  }

  lemma LaterStepKeepsClean(h: Hashes, a: Adapter, s: State)
    requires Clean(s) && Backed(s) && !Terminal(s.phase) && !BlindPhase(s.phase) && Step(h, a, s).Ok?
    ensures Clean(Step(h, a, s).value)
  {
  }

  lemma {:induction false} TraceKeepsClean(h: Hashes, seed: seq<string>, s: Signed, adapters: seq<Adapter>)
    requires Valid(h, s) && Coherent(h, seed, s.state) && Clean(s.state)
    ensures Clean(Trace(h, s, adapters).state)
    decreases |adapters|
  {
    if adapters != [] {
      TransitionExtends(h, seed, adapters[0], s);
      match Transition(h, adapters[0], s)
      case Ok(next) =>
        if !Terminal(s.state.phase) {
          StepKeepsClean(h, adapters[0], s.state);
        }
        TraceKeepsClean(h, seed, next, adapters[1..]);
      case Err(_) => TraceKeepsClean(h, seed, s, adapters[1..]);
    }
  }

  // No run of any adapters ever holds evidence that crossed the boundary.
  lemma ReachableIsClean(h: Hashes, seed: seq<string>, s: Signed)
    requires Reachable(h, seed, s)
    ensures Clean(s.state)
  {
    var campaignId, machinery, maxCases, stop, adapters :|
      IsRunOf(h, seed, s, campaignId, machinery, maxCases, stop, adapters);
    CreatedIsCoherent(h, campaignId, machinery, maxCases, stop, seed);
    TraceKeepsClean(h, seed, CreateState(h, campaignId, machinery, maxCases, stop, seed).value, adapters);
  }

  // A campaign starts with what it was given and nothing else.
  lemma CreatedIs(h: Hashes, campaignId: string, machinery: Machinery, maxCases: int, stop: int, seed: seq<string>)
    ensures var created := CreateState(h, campaignId, machinery, maxCases, stop, seed);
            && (campaignId == "" || machinery.digest == "" <==> created == Err(MissingIdentities))
            && (campaignId != "" && machinery.digest != "" && (maxCases < 0 || stop < 0) <==>
                 created == Err(NegativeLimits))
            && (created.Ok? ==>
                 && created.value.digest == h.state(created.value.state)
                 && created.value.state == State(campaignId, Select, 0, maxCases, stop, seed, 0, machinery,
                                                 None, None, None, None, None, None, None, None, []))
  {
  }
}
