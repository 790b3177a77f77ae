/**
 The trusted controller of an external repair campaign, as a state machine over its eleven phases.

 Every transition asks an untrusted adapter one question and either appends one linked event to the
 log or refuses.  An adapter is eight functions of the state, any of which may raise (None); the
 theorems put a new arbitrary adapter at every step.
 */
module Campaign {
  import opened Wrappers
  import Orders

  datatype Phase =
    | Select | Prepare | Evaluate | ValidateSuccess | Diagnose | Reveal | Learn | ValidateMachinery | Advance
    | Complete | Halted

  // --- what the adapter answers; an empty string stands for a digest that is missing ---------------------------

  datatype Machinery = Machinery(digest: string, parent: string)

  datatype Case = Case(caseId: string, selectionDigest: string)

  datatype Freeze = Freeze(humanFixInspected: bool, issueTextInspected: bool, freezeDigest: string)

  datatype BlindResult = BlindResult(
    humanFixInspected: bool, issueTextInspected: bool, resultDigest: string, gatePassed: bool, winner: Option<int>)

  datatype Validation = Validation(passed: bool, validationDigest: string, winnerIndex: Option<int>,
    resumeIndex: Option<int>)

  datatype Learning = Learning(solutionVisible: bool, machinery: Option<Machinery>, learningDigest: string)

  datatype Solution = Solution(solutionDigest: string)

  datatype Adapter = Adapter(
    selectCase: State -> Option<Case>,
    prepareBlind: State -> Option<Freeze>,
    evaluateBlind: State -> Option<BlindResult>,
    validateSuccess: State -> Option<Validation>,
    diagnoseAndRetain: State -> Option<Learning>,
    revealSolution: State -> Option<Solution>,
    learnFromSolution: State -> Option<Learning>,
    validateMachinery: State -> Option<Validation>)

  // --- the log --------------------------------------------------------------------------------------------------

  datatype Entry =
    | CaseSelected(caseId: string, selectionDigest: string)
    | BlindFrozen(caseId: string, freezeDigest: string, machineryDigest: string)
    | BlindResultFrozen(caseId: string, resultDigest: string, passed: bool)
    | SuccessValidated(caseId: string, passed: bool, validationDigest: string, winnerIndex: Option<int>,
      resumeIndex: Option<int>)
    | NegativeDiagnosed(caseId: string, resultDigest: string, learningDigest: string, machineryDigest: string)
    | SolutionRevealed(caseId: string, negativeResultDigest: string, solutionDigest: string)
    | CandidateLearned(caseId: string, learningDigest: string, candidateMachineryDigest: string)
    | MachineryValidated(caseId: string, passed: bool, validationDigest: string, machineryDigest: string)
    | CaseClosed(caseId: string, generation: int, successCount: int, complete: bool)

  datatype Unsigned = Unsigned(index: nat, entry: Entry, previous: Option<string>)

  datatype Event = Event(body: Unsigned, digest: string)

  datatype State = State(
    campaignId: string,
    phase: Phase,
    generation: int,
    maxCases: int,
    stopAfterSuccesses: int,
    attemptedCaseIds: seq<string>,
    successCount: int,
    machinery: Machinery,
    currentCase: Option<Case>,
    blindFreeze: Option<Freeze>,
    blindResult: Option<BlindResult>,
    successValidation: Option<Validation>,
    preRevealLearning: Option<Learning>,
    solutionReveal: Option<Solution>,
    learnedMachinery: Option<Learning>,
    machineryValidation: Option<Validation>,
    events: seq<Event>)

  datatype Signed = Signed(state: State, digest: string)

  // Digests of the states, the events and the evidence, whatever they are computed from.
  datatype Hashes = Hashes(
    state: State -> string,
    event: Unsigned -> string,
    result: BlindResult -> string,
    validation: Validation -> string,
    learning: Learning -> string)

  datatype Error =
    | DigestDoesNotReproduce
    | AdapterRaised
    | NoCaseIdentity
    | AlreadyAttempted
    | CrossedBoundary
    | MissingDigest
    | SolutionVisible
    | NoMachinery
    | RevealWithoutNegative
    | RevealWithoutDiagnosis
    | WrongParent
    | Malformed
    | MissingIdentities
    | NegativeLimits
    | NoTransitions
    | NoCheckpoint

  function Sign(h: Hashes, s: State): Signed { Signed(s, h.state(s)) }

  predicate Valid(h: Hashes, s: Signed) { s.digest == h.state(s.state) }

  function CreateState(h: Hashes, campaignId: string, machinery: Machinery, maxCases: int, stopAfterSuccesses: int,
      attempted: seq<string>): Result<Signed, Error>
  {
    if campaignId == "" || machinery.digest == "" then Err(MissingIdentities)
    else if maxCases < 0 || stopAfterSuccesses < 0 then Err(NegativeLimits)
    else
      Ok(Sign(h, State(campaignId, Select, 0, maxCases, stopAfterSuccesses, attempted, 0, machinery,
                       None, None, None, None, None, None, None, None, [])))
  }

  function NextEvent(h: Hashes, events: seq<Event>, entry: Entry): Event
  {
    var body := Unsigned(|events|, entry, if events == [] then None else Some(events[|events| - 1].digest));
    Event(body, h.event(body))
  }

  function Append(h: Hashes, s: State, entry: Entry): State { s.(events := s.events + [NextEvent(h, s.events, entry)]) }

  predicate BlindPassed(r: BlindResult) { r.gatePassed || r.winner.Some? }

  function Named(digest: string, computed: string): string { if digest == "" then computed else digest }

  // --- the transitions ----------------------------------------------------------------------------------------

  function SelectCase(h: Hashes, a: Adapter, s: State): Result<State, Error>
  {
    match a.selectCase(s)
    case None => Err(AdapterRaised)
    case Some(c) =>
      if c.caseId == "" then Err(NoCaseIdentity)
      else if c.caseId in s.attemptedCaseIds then Err(AlreadyAttempted)
      else Ok(Append(h, s, CaseSelected(c.caseId, c.selectionDigest)).(phase := Prepare, currentCase := Some(c)))
  }

  function PrepareBlind(h: Hashes, a: Adapter, s: State): Result<State, Error>
  {
    match a.prepareBlind(s)
    case None => Err(AdapterRaised)
    case Some(f) =>
      if f.humanFixInspected || f.issueTextInspected then Err(CrossedBoundary)
      else if f.freezeDigest == "" then Err(MissingDigest)
      else if s.currentCase.None? then Err(Malformed)
      else Ok(Append(h, s, BlindFrozen(s.currentCase.value.caseId, f.freezeDigest, s.machinery.digest))
              .(phase := Evaluate, blindFreeze := Some(f)))
  }

  function EvaluateBlind(h: Hashes, a: Adapter, s: State): Result<State, Error>
  {
    match a.evaluateBlind(s)
    case None => Err(AdapterRaised)
    case Some(r) =>
      if r.humanFixInspected || r.issueTextInspected then Err(CrossedBoundary)
      else if s.currentCase.None? then Err(Malformed)
      else
        var digest := Named(r.resultDigest, h.result(r));
        Ok(Append(h, s, BlindResultFrozen(s.currentCase.value.caseId, digest, BlindPassed(r)))
           .(phase := if BlindPassed(r) then ValidateSuccess else Diagnose,
             blindResult := Some(r.(resultDigest := digest)),
             successValidation := None))
  }

  function ValidatePositive(h: Hashes, a: Adapter, s: State): Result<State, Error>
  {
    match a.validateSuccess(s)
    case None => Err(AdapterRaised)
    case Some(v) =>
      if s.currentCase.None? then Err(Malformed)
      else
        var digest := Named(v.validationDigest, h.validation(v));
        Ok(Append(h, s, SuccessValidated(s.currentCase.value.caseId, v.passed, digest, v.winnerIndex, v.resumeIndex))
           .(phase := if v.passed then Advance else Evaluate,
             successValidation := Some(v),
             successCount := s.successCount + (if v.passed then 1 else 0)))
  }

  function DiagnoseNegative(h: Hashes, a: Adapter, s: State): Result<State, Error>
  {
    match a.diagnoseAndRetain(s)
    case None => Err(AdapterRaised)
    case Some(l) =>
      if l.solutionVisible then Err(SolutionVisible)
      else if l.machinery.None? || l.machinery.value.digest == "" then Err(NoMachinery)
      else if s.currentCase.None? || s.blindResult.None? then Err(Malformed)
      else
        var digest := Named(l.learningDigest, h.learning(l));
        var result := s.blindResult.value.resultDigest;
        Ok(Append(h, s, NegativeDiagnosed(s.currentCase.value.caseId, result, digest, l.machinery.value.digest))
           .(phase := Reveal, preRevealLearning := Some(l), machinery := l.machinery.value))
  }

  function RevealSolution(h: Hashes, a: Adapter, s: State): Result<State, Error>
  {
    if s.blindResult.None? || BlindPassed(s.blindResult.value) then Err(RevealWithoutNegative)
    else if s.preRevealLearning.None? then Err(RevealWithoutDiagnosis)
    else
      match a.revealSolution(s)
      case None => Err(AdapterRaised)
      case Some(r) =>
        if r.solutionDigest == "" then Err(MissingDigest)
        else if s.currentCase.None? then Err(Malformed)
        else
          var result := s.blindResult.value.resultDigest;
          Ok(Append(h, s, SolutionRevealed(s.currentCase.value.caseId, result, r.solutionDigest))
             .(phase := Learn, solutionReveal := Some(r)))
  }

  function LearnSolution(h: Hashes, a: Adapter, s: State): Result<State, Error>
  {
    match a.learnFromSolution(s)
    case None => Err(AdapterRaised)
    case Some(l) =>
      if l.machinery.None? || l.machinery.value.digest == "" then Err(NoMachinery)
      else if l.machinery.value.parent != "" && l.machinery.value.parent != s.machinery.digest then Err(WrongParent)
      else if s.currentCase.None? then Err(Malformed)
      else
        var digest := Named(l.learningDigest, h.learning(l));
        Ok(Append(h, s, CandidateLearned(s.currentCase.value.caseId, digest, l.machinery.value.digest))
           .(phase := ValidateMachinery, learnedMachinery := Some(l)))
  }

  function ValidateCandidate(h: Hashes, a: Adapter, s: State): Result<State, Error>
  {
    match a.validateMachinery(s)
    case None => Err(AdapterRaised)
    case Some(v) =>
      if v.passed && (s.learnedMachinery.None? || s.learnedMachinery.value.machinery.None?) then Err(Malformed)
      else if s.currentCase.None? then Err(Malformed)
      else
        var next := if v.passed then s.learnedMachinery.value.machinery.value else s.machinery;
        var digest := Named(v.validationDigest, h.validation(v));
        Ok(Append(h, s, MachineryValidated(s.currentCase.value.caseId, v.passed, digest, next.digest))
           .(phase := if v.passed then Advance else Halted, machineryValidation := Some(v), machinery := next))
  }

  function CloseCase(h: Hashes, s: State): Result<State, Error>
  {
    if s.currentCase.None? then Err(Malformed)
    else
      var caseId := s.currentCase.value.caseId;
      var generation := s.generation + 1;
      var complete := (s.maxCases > 0 && generation >= s.maxCases) ||
        (s.stopAfterSuccesses > 0 && s.successCount >= s.stopAfterSuccesses);
      Ok(Append(h, s, CaseClosed(caseId, generation, s.successCount, complete))
         .(phase := if complete then Complete else Select,
           generation := generation,
           attemptedCaseIds := s.attemptedCaseIds + [caseId],
           currentCase := None,
           blindFreeze := None,
           blindResult := None,
           successValidation := None,
           preRevealLearning := None,
           solutionReveal := None,
           learnedMachinery := None,
           machineryValidation := None))
  }

  predicate Terminal(p: Phase) { p == Complete || p == Halted }

  function Step(h: Hashes, a: Adapter, s: State): Result<State, Error>
    requires !Terminal(s.phase)
  {
    match s.phase
    case Select => SelectCase(h, a, s)
    case Prepare => PrepareBlind(h, a, s)
    case Evaluate => EvaluateBlind(h, a, s)
    case ValidateSuccess => ValidatePositive(h, a, s)
    case Diagnose => DiagnoseNegative(h, a, s)
    case Reveal => RevealSolution(h, a, s)
    case Learn => LearnSolution(h, a, s)
    case ValidateMachinery => ValidateCandidate(h, a, s)
    case Advance => CloseCase(h, s)
  }

  function Transition(h: Hashes, a: Adapter, s: Signed): Result<Signed, Error>
  {
    if !Valid(h, s) then Err(DigestDoesNotReproduce)
    else if Terminal(s.state.phase) then Ok(s)
    else
      match Step(h, a, s.state)
      case Err(e) => Err(e)
      case Ok(next) => Ok(Sign(h, next))
  }

  // --- what a log says ---------------------------------------------------------------------------------------

  function Last(events: seq<Event>): Option<Entry>
  {
    if events == [] then None else Some(events[|events| - 1].body.entry)
  }

  // The phase a campaign is in after an event.
  function PhaseAfter(last: Option<Entry>): Phase
  {
    match last
    case None => Select
    case Some(CaseSelected(_, _)) => Prepare
    case Some(BlindFrozen(_, _, _)) => Evaluate
    case Some(BlindResultFrozen(_, _, passed)) => if passed then ValidateSuccess else Diagnose
    case Some(SuccessValidated(_, passed, _, _, _)) => if passed then Advance else Evaluate
    case Some(NegativeDiagnosed(_, _, _, _)) => Reveal
    case Some(SolutionRevealed(_, _, _)) => Learn
    case Some(CandidateLearned(_, _, _)) => ValidateMachinery
    case Some(MachineryValidated(_, passed, _, _)) => if passed then Advance else Halted
    case Some(CaseClosed(_, _, _, complete)) => if complete then Complete else Select
  }

  // The case a campaign is working on after an event.
  function OpenCase(last: Option<Entry>): Option<string>
  {
    if last.None? || last.value.CaseClosed? then None else Some(last.value.caseId)
  }

  function ClosedCases(events: seq<Event>): seq<string>
  {
    if events == [] then []
    else
      var last := events[|events| - 1].body.entry;
      ClosedCases(events[..|events| - 1]) + (if last.CaseClosed? then [last.caseId] else [])
  }

  function Successes(events: seq<Event>): nat
  {
    if events == [] then 0
    else
      var last := events[|events| - 1].body.entry;
      Successes(events[..|events| - 1]) + (if last.SuccessValidated? && last.passed then 1 else 0)
  }

  // Event `i` carries its place, the digest of the event before it, and its own digest.
  predicate LinkedAt(h: Hashes, events: seq<Event>, i: nat)
    requires i < |events|
  {
    events[i].body.index == i &&
    events[i].body.previous == (if i == 0 then None else Some(events[i - 1].digest)) &&
    events[i].digest == h.event(events[i].body)
  }

  ghost predicate Linked(h: Hashes, events: seq<Event>)
  {
    forall i: nat | i < |events| :: LinkedAt(h, events, i)
  }

  // The chronology of one campaign: what may stand right after what, always about the same case.
  predicate MayFollow(prev: Option<Entry>, next: Entry)
  {
    if next.CaseSelected? then prev.None? || (prev.value.CaseClosed? && !prev.value.complete)
    else
      prev.Some? && prev.value.caseId == next.caseId &&
      match next
      case BlindFrozen(_, _, _) => prev.value.CaseSelected?
      case BlindResultFrozen(_, _, _) => prev.value.BlindFrozen? || (prev.value.SuccessValidated? && !prev.value.passed)
      case SuccessValidated(_, _, _, _, _) => prev.value.BlindResultFrozen? && prev.value.passed
      case NegativeDiagnosed(_, digest, _, _) =>
        prev.value.BlindResultFrozen? && !prev.value.passed && prev.value.resultDigest == digest
      case SolutionRevealed(_, digest, _) => prev.value.NegativeDiagnosed? && prev.value.resultDigest == digest
      case CandidateLearned(_, _, _) => prev.value.SolutionRevealed?
      case MachineryValidated(_, _, _, _) => prev.value.CandidateLearned?
      case CaseClosed(_, _, _, _) =>
        (prev.value.SuccessValidated? || prev.value.MachineryValidated?) && prev.value.passed
  }

  ghost predicate Chronological(events: seq<Event>)
  {
    forall i: nat | i < |events| :: MayFollow(Last(events[..i]), events[i].body.entry)
  }
}
