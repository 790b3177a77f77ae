/**
 The checkpoint store of a campaign and the loop that runs it, one saved transition at a time.
 */
module CampaignRuntime {
  import opened Wrappers
  import opened Campaign
  import CampaignProperties

  // The last saved state of a run, and the refusal that stopped it, if one did.
  datatype Progress = Progress(state: Signed, error: Option<Error>)

  type Stepper = Signed -> Result<Signed, Error>

  // At most `n` steps, each starting from what the one before it saved.
  function Iterate(step: Stepper, s: Signed, n: nat): Progress
    decreases n
  {
    if n == 0 || Terminal(s.state.phase) then Progress(s, None)
    else
      match step(s)
      case Err(e) => Progress(s, Some(e))
      case Ok(next) => Iterate(step, next, n - 1)
  }

  function Transitions(h: Hashes, a: Adapter): Stepper { (s: Signed) => Transition(h, a, s) }

  function RunFrom(h: Hashes, a: Adapter, s: Signed, n: nat): Progress { Iterate(Transitions(h, a), s, n) }

  // A run that was stopped stands before a step that is refused.
  lemma {:induction false} StoppedBeforeRefusal(step: Stepper, s: Signed, n: nat)
    requires Iterate(step, s, n).error.Some?
    ensures var p := Iterate(step, s, n);
      !Terminal(p.state.state.phase) && step(p.state) == Err(p.error.value)
    decreases n
  {
    if step(s).Ok? { StoppedBeforeRefusal(step, step(s).value, n - 1); }
  }

  lemma {:induction false} RunSplits(step: Stepper, s: Signed, n: nat, m: nat)
    ensures var p := Iterate(step, s, n);
      Iterate(step, s, n + m) == if p.error.Some? then p else Iterate(step, p.state, m)
    decreases n
  {
    if n > 0 && !Terminal(s.state.phase) && step(s).Ok? { RunSplits(step, step(s).value, n - 1, m); }
  }

  /** Durable runs compose: for a deterministic adapter, running n transitions, reloading what was saved and running m
      more ends exactly as running n + m at once, refusals included. */
  lemma RunsCompose(h: Hashes, a: Adapter, s: Signed, n: nat, m: nat)
    requires m >= 1
    ensures RunFrom(h, a, RunFrom(h, a, s, n).state, m) == RunFrom(h, a, s, n + m)
  {
    RunSplits(Transitions(h, a), s, n, m);
    if RunFrom(h, a, s, n).error.Some? { StoppedBeforeRefusal(Transitions(h, a), s, n); }
  }

  lemma RunMore(step: Stepper, s: Signed, n: nat)
    ensures var p := Iterate(step, s, n);
      Iterate(step, s, n + 1) ==
        if p.error.Some? || Terminal(p.state.state.phase) then p
        else match step(p.state) case Err(e) => Progress(p.state, Some(e)) case Ok(next) => Progress(next, None)
  {
    RunSplits(step, s, n, 1);
    var p := Iterate(step, s, n);
    if p.error.None? && !Terminal(p.state.state.phase) && step(p.state).Ok? {
      assert Iterate(step, p.state, 1) == Iterate(step, step(p.state).value, 0);
    }
  }

  lemma TerminalRunsStop(step: Stepper, s: Signed, n: nat, m: nat)
    requires n <= m && Iterate(step, s, n).error.None? && Terminal(Iterate(step, s, n).state.state.phase)
    ensures Iterate(step, s, m) == Iterate(step, s, n)
  {
    RunSplits(step, s, n, m - n);
  }

  function Repeat(a: Adapter, n: nat): seq<Adapter> { if n == 0 then [] else [a] + Repeat(a, n - 1) }

  lemma {:induction false} TraceStays(h: Hashes, a: Adapter, s: Signed, n: nat)
    requires Transition(h, a, s).Err? || Transition(h, a, s) == Ok(s)
    ensures CampaignProperties.Trace(h, s, Repeat(a, n)) == s
    decreases n
  {
    if n > 0 {
      assert Repeat(a, n)[1..] == Repeat(a, n - 1);
      TraceStays(h, a, s, n - 1);
    }
  }

  /** What a run saves is a trace of its adapter, so the theorems about every trace hold of every saved state. */
  lemma {:induction false} RunIsTrace(h: Hashes, a: Adapter, s: Signed, n: nat)
    requires Valid(h, s)
    ensures RunFrom(h, a, s, n).state == CampaignProperties.Trace(h, s, Repeat(a, n))
    decreases n
  {
    if n > 0 {
      if Terminal(s.state.phase) || Transition(h, a, s).Err? {
        TraceStays(h, a, s, n);
      } else {
        assert Repeat(a, n)[1..] == Repeat(a, n - 1);
        RunIsTrace(h, a, Transition(h, a, s).value, n - 1);
      }
    }
  }

  // Where a run starts: the saved checkpoint if there is one, otherwise the initial state.
  function Origin(h: Hashes, file: Option<Signed>, initial: Option<Signed>): Result<Signed, Error>
  {
    var from := if file.Some? then file else initial;
    if from.None? then Err(NoCheckpoint)
    else if !Valid(h, from.value) then Err(DigestDoesNotReproduce)
    else Ok(from.value)
  }

  // What was saved since `before` are the states after `first`, `first + 1`, ... transitions.
  ghost predicate Logged(before: seq<Signed>, after: seq<Signed>, h: Hashes, a: Adapter, start: Signed, first: nat)
  {
    before <= after &&
    forall i :: |before| <= i < |after| ==> after[i] == RunFrom(h, a, start, first + i - |before|).state
  }

  lemma LoggedNext(before: seq<Signed>, after: seq<Signed>, h: Hashes, a: Adapter, start: Signed, first: nat, s: Signed)
    requires Logged(before, after, h, a, start, first)
    requires s == RunFrom(h, a, start, first + |after| - |before|).state
    ensures Logged(before, after + [s], h, a, start, first)
  {
  }

  // A first save of the start, and the saves of the transitions from it.
  lemma LoggedFromStart(before: seq<Signed>, after: seq<Signed>, h: Hashes, a: Adapter, start: Signed)
    requires Logged(before + [start], after, h, a, start, 1)
    ensures Logged(before, after, h, a, start, 0)
  {
    assert before <= before + [start] <= after && after[|before|] == start;
  }

  // `saves` lists every state the checkpoint file has been replaced by.
  class CampaignStore {
    var file: Option<Signed>
    var temporary: Option<Signed>
    ghost var saves: seq<Signed>

    constructor (file: Option<Signed>)
      ensures this.file == file && saves == []
    {
      this.file, temporary, saves := file, None, [];
    }

    method Load(h: Hashes) returns (r: Result<Signed, Error>)
      requires file.Some?
      ensures r == if Valid(h, file.value) then Ok(file.value) else Err(DigestDoesNotReproduce)
    {
      r := if Valid(h, file.value) then Ok(file.value) else Err(DigestDoesNotReproduce);
    }

    // The new checkpoint is written beside the old one, which stands until it is replaced.
    method WriteTemporary(s: Signed)
      modifies this`temporary
      ensures temporary == Some(s)
    {
      temporary := Some(s);
    }

    method Replace()
      requires temporary.Some?
      modifies this
      ensures file == old(temporary) && temporary == None && saves == old(saves) + [old(temporary).value]
    {
      saves := saves + [temporary.value];
      file, temporary := temporary, None;
    }

    method Save(h: Hashes, s: Signed) returns (r: Result<Signed, Error>)
      modifies this
      ensures r == if Valid(h, s) then Ok(s) else Err(DigestDoesNotReproduce)
      ensures file == if Valid(h, s) then Some(s) else old(file)
      ensures saves == if Valid(h, s) then old(saves) + [s] else old(saves)
    {
      if !Valid(h, s) { return Err(DigestDoesNotReproduce); }
      WriteTemporary(s);
      Replace();
      r := Ok(s);
    }

    // The saved checkpoint if there is one, otherwise the initial state, saved.
    method Open(h: Hashes, initial: Option<Signed>) returns (r: Result<Signed, Error>)
      modifies this
      ensures r == Origin(h, old(file), initial)
      ensures file == if r.Ok? then Some(r.value) else old(file)
      ensures saves == if r.Ok? && old(file).None? then old(saves) + [r.value] else old(saves)
    {
      if file.Some? {
        r := Load(h);
      } else if initial.Some? {
        r := Save(h, initial.value);
      } else {
        r := Err(NoCheckpoint);
      }
    }

    // Transition after transition, each saved before the next.
    method Advance(h: Hashes, a: Adapter, start: Signed, maxTransitions: nat) returns (r: Result<Signed, Error>)
      requires file == Some(start) && Valid(h, start)
      modifies this
      ensures var p := RunFrom(h, a, start, maxTransitions);
        file == Some(p.state) && r == if p.error.Some? then Err(p.error.value) else Ok(p.state)
      ensures Logged(old(saves), saves, h, a, start, 1)
    {
      r := Ok(start);
      var i := 0;
      while i < maxTransitions && r.Ok? && !Terminal(r.value.state.phase)
        invariant 0 <= i <= maxTransitions
        invariant file == Some(RunFrom(h, a, start, i).state) && Valid(h, file.value)
        invariant r == (match RunFrom(h, a, start, i).error case Some(e) => Err(e) case None => Ok(file.value))
        invariant Logged(old(saves), saves, h, a, start, 1)
        invariant r.Ok? ==> |saves| == |old(saves)| + i
        decreases maxTransitions - i, r.Ok?
      {
        RunMore(Transitions(h, a), start, i);
        r := Transition(h, a, r.value);
        if r.Ok? {
          LoggedNext(old(saves), saves, h, a, start, 1, r.value);
          r := Save(h, r.value);
        }
        i := i + 1;
      }
      if r.Err? {
        RunSplits(Transitions(h, a), start, i, maxTransitions - i);
      } else if i < maxTransitions {
        TerminalRunsStop(Transitions(h, a), start, i, maxTransitions);
      }
    }

    /** Run or resume.  The file ends as the state the transitions lead to, and what it was replaced by on the way are
        the states after each single transition, in order. */
    method Run(h: Hashes, a: Adapter, initial: Option<Signed>, maxTransitions: int) returns (r: Result<Signed, Error>)
      modifies this
      ensures maxTransitions < 1 ==> r == Err(NoTransitions) && file == old(file)
      ensures maxTransitions >= 1 ==>
        match Origin(h, old(file), initial)
        case Err(e) => r == Err(e) && file == old(file)
        case Ok(start) =>
          var p := RunFrom(h, a, start, maxTransitions);
          && file == Some(p.state) && r == (if p.error.Some? then Err(p.error.value) else Ok(p.state))
          && Logged(old(saves), saves, h, a, start, if old(file).Some? then 1 else 0)
    {
      if maxTransitions < 1 { return Err(NoTransitions); }
      ghost var starting := file.None?;
      r := Open(h, initial);
      if r.Ok? {
        ghost var start := r.value;
        r := Advance(h, a, r.value, maxTransitions);
        if starting { LoggedFromStart(old(saves), saves, h, a, start); }
      }
    }
  }
}
