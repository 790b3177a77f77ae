/**
 The objects behind the durable rounds: the admitted budget, the view that spends an already charged
 allowance, and the runtime whose call is proved to be a run of the durable-round system.
 */
module DurableRuntime {
  import opened Wrappers
  import opened DurableRound
  import NoRedraw

  datatype BudgetError = NegativeAmount | Exhausted

  function With(units: Units, d: Dimension, n: nat): (r: Units)
    ensures r.Get(d) == n && forall e :: e != d ==> r.Get(e) == units.Get(e)
  {
    if d == Candidates then units.(candidates := n) else units.(evaluations := n)
  }

  // The dimensions of a budget that no round reserves.
  class OrdinaryBudget {
    const limits: map<string, int>
    var spent: map<string, nat>

    constructor (limits: map<string, int>, spent: map<string, nat>)
      ensures this.limits == limits && this.spent == spent
    {
      this.limits, this.spent := limits, spent;
    }

    function SpentOn(name: string): nat
      reads this
    {
      if name in spent then spent[name] else 0
    }

    function LimitOn(name: string): Option<int> { if name in limits then Some(limits[name]) else None }

    function Remaining(name: string): int
      reads this
    {
      if LimitOn(name).Some? then LimitOn(name).value - SpentOn(name) else 0
    }

    method Spend(name: string, amount: int) returns (r: Result<int, BudgetError>)
      modifies this
      ensures r.Ok? <==> 0 <= amount && CanSpend(LimitOn(name), old(SpentOn(name)), amount)
      ensures r.Ok? ==> spent == old(spent)[name := old(SpentOn(name)) + amount] && r.value == Remaining(name)
      ensures r.Err? ==> spent == old(spent)
    {
      if amount < 0 {
        return Err(NegativeAmount);
      } else if !CanSpend(LimitOn(name), SpentOn(name), amount) {
        return Err(Exhausted);
      }
      spent := spent[name := SpentOn(name) + amount];
      r := Ok(Remaining(name));
    }
  }

  // The admitted budget of a lineage: the two dimensions rounds reserve, and the others.
  class Budget {
    const limits: Limits
    const ordinary: OrdinaryBudget
    var spent: Units

    constructor (limits: Limits, spent: Units, ordinary: OrdinaryBudget)
      ensures this.limits == limits && this.spent == spent && this.ordinary == ordinary
    {
      this.limits, this.spent, this.ordinary := limits, spent, ordinary;
    }

    function Remaining(d: Dimension): int
      reads this
    {
      if Limit(limits, d).Some? then Limit(limits, d).value - spent.Get(d) else 0
    }

    method Spend(d: Dimension, amount: int) returns (r: Result<int, BudgetError>)
      modifies this
      ensures r.Ok? <==> 0 <= amount && CanSpend(Limit(limits, d), old(spent).Get(d), amount)
      ensures r.Ok? ==> spent == With(old(spent), d, old(spent).Get(d) + amount) && r.value == Remaining(d)
      ensures r.Err? ==> spent == old(spent)
    {
      if amount < 0 {
        return Err(NegativeAmount);
      } else if !CanSpend(Limit(limits, d), spent.Get(d), amount) {
        return Err(Exhausted);
      }
      spent := With(spent, d, spent.Get(d) + amount);
      r := Ok(Remaining(d));
    }
  }

  // A dimension, as the evolution under a round names it.
  datatype Account = OfRound(dimension: Dimension) | Ordinary(name: string)

  // The slots of one round, already paid for in the budget behind it.
  class ReservedBudgetView {
    const base: Budget
    var allowances: Units

    constructor (base: Budget, allowances: Units)
      ensures this.base == base && this.allowances == allowances
    {
      this.base, this.allowances := base, allowances;
    }

    function Remaining(account: Account): int
      reads this, base, base.ordinary
    {
      match account
      case OfRound(d) => base.Remaining(d) + allowances.Get(d)
      case Ordinary(name) => base.ordinary.Remaining(name)
    }

    /** Spending a reserved dimension moves units out of the allowance and never touches the ledger; any other dimension
        is spent in the budget behind the view, and leaves the allowance alone. */
    method Spend(account: Account, amount: int) returns (r: Result<int, BudgetError>)
      modifies this, base.ordinary
      ensures r.Ok? ==> r.value == Remaining(account)
      ensures match account
        case OfRound(d) =>
          && (r.Ok? <==> 0 <= amount <= old(allowances).Get(d))
          && allowances
             == (if r.Ok? then With(old(allowances), d, old(allowances).Get(d) - amount) else old(allowances))
          && base.ordinary.spent == old(base.ordinary.spent)
        case Ordinary(name) =>
          && (r.Ok? <==> 0 <= amount && CanSpend(base.ordinary.LimitOn(name), old(base.ordinary.SpentOn(name)), amount))
          && allowances == old(allowances)
          && base.ordinary.spent ==
            (if r.Ok? then old(base.ordinary.spent)[name := old(base.ordinary.SpentOn(name)) + amount]
              else old(base.ordinary.spent))
    {
      match account
      case OfRound(d) =>
        if amount < 0 {
          r := Err(NegativeAmount);
        } else if allowances.Get(d) < amount {
          r := Err(Exhausted);
        } else {
          allowances := With(allowances, d, allowances.Get(d) - amount);
          r := Ok(Remaining(account));
        }
      case Ordinary(name) =>
        r := base.ordinary.Spend(name, amount);
    }
  }

  // What the evolution under a round does through the view, in order; any of it may be cut short by `Abort`.
  datatype InnerStep = Draw(account: Account, amount: int) | Observe(observation: Observation) | Checkpoint | Abort

  datatype Outcome =
    | NotBudgeted
    | Duplicate
    | CannotCharge
    | RedrawRefused
    | AlreadyCompleted
    | InnerFailure
    | SlotsLeftOver
    | Finished

  // `n` slots of one dimension.
  function Slots(d: Dimension, n: nat): (r: seq<Action>)
    ensures |r| == n
  {
    if n == 0 then [] else [Slot(d)] + Slots(d, n - 1)
  }

  /** The lineage process: its memory, and the two checkpoints on disk.  `at`, `slots` and `grants` are there
      for the proofs only, and `leaked` only records what refused charges kept. */
  class Runtime {
    const budget: Budget
    var observations: seq<Observation>
    var disk: Saved
    var older: Option<Saved>
    ghost var at: Point
    var leaked: Units
    ghost var slots: multiset<(Key, Dimension)>
    ghost var grants: multiset<Key>

    // A process that restarts from the committed checkpoint, or from the one it superseded.
    constructor (limits: Limits, disk: Saved, older: Option<Saved>, superseded: bool, ordinary: OrdinaryBudget)
      requires superseded ==> older.Some?
      ensures fresh(budget) && budget.ordinary == ordinary
      ensures State() == Next(World(limits, disk, older, None, multiset{}, multiset{}), Restart(superseded))
    {
      var from := if superseded then older.value else disk;
      budget := new Budget(limits, from.spent, ordinary);
      this.observations, this.disk, this.older := from.observations, disk, older;
      at, leaked, slots, grants := Idle, from.leaked, multiset{}, multiset{};
    }

    ghost function Memory(): Saved
      reads this, budget
    {
      Saved(observations, budget.spent, leaked)
    }

    ghost function State(): World
      reads this, budget
    {
      World(budget.limits, disk, older, Some(Process(Memory(), at)), slots, grants)
    }

    ghost predicate Valid()
      reads this, budget
    {
      OrderlyWorld(State())
    }

    // Replace the record of the round in place, or append it; refuse a list that holds two.
    method InstallRoundRecord(record: Record) returns (installed: bool)
      modifies this`observations
      ensures installed <==> |Records(old(observations), record.key)| <= 1
      ensures observations == if installed then Install(old(observations), record) else old(observations)
    {
      var result: seq<Observation> := [];
      var replaced, duplicate := false, false;
      var i := 0;
      while i < |observations| && !duplicate
        invariant 0 <= i <= |observations|
        invariant observations == old(observations)
        invariant duplicate ==> |Records(observations, record.key)| > 1
        invariant !duplicate ==> Installing(observations, observations[i..], record, result, replaced)
        decreases |observations| - i, !duplicate
      {
        var item := observations[i];
        InstallingStep(observations, observations[i..], record, result, replaced);
        assert observations[i..][1..] == observations[i + 1..];
        if !IsRound(item, record.key) {
          result := result + [item];
          i := i + 1;
        } else if replaced {
          duplicate := true;
        } else {
          result := result + [Round(record)];
          replaced := true;
          i := i + 1;
        }
      }
      if duplicate { return false; }
      assert observations[i..] == [];
      if !replaced { result := result + [Round(record)]; }
      observations := result;
      installed := true;
    }

    // The two dimensions are paid in turn; a refusal of the second leaves the first paid.
    method PayReservation(reserved: Units) returns (paid: bool)
      modifies budget
      ensures (budget.spent, paid) == ChargeSpent(budget.limits, old(budget.spent), reserved)
    {
      var dimensions := [Candidates, Evaluations];
      paid := true;
      var i := 0;
      while i < |dimensions| && paid
        invariant 0 <= i <= 2
        invariant i == 0 ==> paid && budget.spent == old(budget.spent)
        invariant i == 1 ==>
          (budget.spent, paid) == ChargeSpent(budget.limits, old(budget.spent), reserved.(evaluations := 0))
        invariant i == 1 && !paid ==>
          !CanSpend(budget.limits.candidates, old(budget.spent).candidates, reserved.candidates)
        invariant i == 2 ==> (budget.spent, paid) == ChargeSpent(budget.limits, old(budget.spent), reserved)
      {
        var amount := reserved.Get(dimensions[i]);
        if amount > 0 {
          var r := budget.Spend(dimensions[i], amount);
          paid := r.Ok?;
        }
        i := i + 1;
      }
    }

    method Persist()
      requires Valid() && Saving(at)
      modifies this`disk, this`older, this`at
      ensures Valid() && State() == Next(old(State()), Save) && at == AfterSave(old(at))
    {
      NextKeepsOrder(State(), Save);
      older := Some(disk);
      disk := Saved(observations, budget.spent, leaked);
      at := AfterSave(at);
    }

    // Look the round up and decide; `stage` says where the call goes on.
    method BeginRound(key: Key, units: Units) returns (stage: Point)
      requires Valid() && at == Idle
      modifies this`observations, this`at
      ensures Valid() && State() == Next(old(State()), Start(key, units)) && stage == at
    {
      NextKeepsOrder(State(), Start(key, units));
      FoundHasTheKey(observations, key);
      var found := Records(observations, key);
      stage := Idle;
      if key.extensions == {} || |found| > 1 {
      } else if found == [] {
        var installed := InstallRoundRecord(Record(key, units, Reserved, budget.spent, NOTHING));
        stage := SaveReserved(key);
      } else if found[0].status == Reserved {
        stage := Charging(key);
      } else if found[0].status == Charged {
        if Complete(observations, key) {
          stage := Running(key, false, NOTHING);
        } else {
          var installed := InstallRoundRecord(found[0].(status := CrashIncomplete));
          stage := SaveCrashed(key);
        }
      }
      at := stage;
    }

    // Charge the round that is recorded as reserved.
    method ChargeRound(key: Key) returns (charged: bool)
      requires Valid() && at == Charging(key)
      modifies this`observations, this`at, this`leaked, budget
      ensures Valid() && State() == Next(old(State()), Charge)
      ensures at == if charged then SaveCharged(key) else Idle
    {
      NextKeepsOrder(State(), Charge);
      FoundHasTheKey(observations, key);
      var found := Find(observations, key).value;
      var candidates := budget.spent.candidates;
      charged := PayReservation(found.reserved);
      if charged {
        var installed := InstallRoundRecord(found.(status := Charged, after := budget.spent));
        at := SaveCharged(key);
      } else {
        leaked := leaked.Plus(Units(budget.spent.candidates - candidates, 0));
        at := Idle;
      }
    }

    // The view a freshly charged round runs through: the one time its allowance is handed out.
    method HandOut(key: Key) returns (view: ReservedBudgetView)
      requires Valid() && at == Launching(key)
      modifies this`at, this`grants
      ensures Valid() && State() == Next(old(State()), Launch)
      ensures fresh(view) && view.base == budget && at == Running(key, true, view.allowances)
    {
      NextKeepsOrder(State(), Launch);
      var reserved := Find(observations, key).value.reserved;
      view := new ReservedBudgetView(budget, reserved);
      at := Running(key, true, reserved);
      grants := grants + multiset{key};
    }

    // Mark the round completed, unless some of its slots were left over.
    method CompleteRound(key: Key, unused: Units) returns (completed: bool)
      requires Valid() && at.Running? && at.key == key && at.unused == unused
      modifies this`observations, this`at
      ensures Valid() && State() == Next(old(State()), Finish)
      ensures completed <==> unused == NOTHING
      ensures at == if completed then SaveCompleted(key) else Idle
    {
      NextKeepsOrder(State(), Finish);
      FoundHasTheKey(observations, key);
      if unused != NOTHING {
        at := Idle;
        return false;
      }
      var found := Find(observations, key).value;
      var installed := InstallRoundRecord(found.(status := Completed));
      at := SaveCompleted(key);
      completed := true;
    }

    // Slots of the round consumed so far, plus what the view still allows.
    ghost function Budgeted(view: ReservedBudgetView, key: Key, d: Dimension): nat
      reads this, view
    {
      slots[(key, d)] + view.allowances.Get(d)
    }

    // The slots of a successful draw.
    ghost method Consume(d: Dimension, amount: nat)
      requires at.Running? && amount <= at.unused.Get(d)
      modifies this`at, this`slots
      ensures State() == Drawn(old(State()), d, amount)
      ensures at == old(at).(unused := With(old(at).unused, d, old(at).unused.Get(d) - amount))
      ensures slots == old(slots)[(at.key, d) := old(slots)[(at.key, d)] + amount]
    {
      slots := slots[(at.key, d) := slots[(at.key, d)] + amount];
      at := at.(unused := With(at.unused, d, at.unused.Get(d) - amount));
    }

    // One draw on the view: as many slots as the amount, all or nothing.
    method DrawSlots(view: ReservedBudgetView, key: Key, d: Dimension, amount: int)
      returns (ok: bool, ghost actions: seq<Action>)
      requires Valid() && at.Running? && at.key == key && at.unused == view.allowances
      modifies this`at, this`slots, view, view.base.ordinary
      ensures Valid() && State() == Run(old(State()), actions)
      ensures ok <==> 0 <= amount <= old(view.allowances).Get(d)
      ensures at == if ok then Running(key, old(at).granted, view.allowances) else Idle
      ensures ok ==> view.allowances == With(old(view.allowances), d, old(view.allowances).Get(d) - amount)
      ensures ok ==> slots == old(slots)[(key, d) := old(slots)[(key, d)] + amount]
      ensures !ok ==> view.allowances == old(view.allowances) && slots == old(slots)
    {
      ghost var w := State();
      var r := view.Spend(OfRound(d), amount);
      ok := r.Ok?;
      if ok {
        actions := Slots(d, amount);
        RunSlots(w, d, amount);
        Consume(d, amount);
        NoRedraw.RunKeepsOrder(w, actions);
      } else {
        actions := [Fail];
        NoRedraw.RunSteps(w, Fail, []);
        StopRun();
      }
    }

    // The same draw, in terms of what the round consumed and what it is still allowed.
    method DrawBudgeted(view: ReservedBudgetView, key: Key, d: Dimension, amount: int)
      returns (ok: bool, ghost actions: seq<Action>)
      requires Valid() && at.Running? && at.key == key && at.unused == view.allowances
      modifies this`at, this`slots, view, view.base.ordinary
      ensures Valid() && State() == Run(old(State()), actions)
      ensures ok <==> 0 <= amount <= old(view.allowances).Get(d)
      ensures at == if ok then Running(key, old(at).granted, view.allowances) else Idle
      ensures forall e: Dimension :: Budgeted(view, key, e) == old(Budgeted(view, key, e))
    {
      ok, actions := DrawSlots(view, key, d, amount);
    }

    // A draw on another dimension is no slot of the round.
    method DrawOrdinary(view: ReservedBudgetView, key: Key, name: string, amount: int)
      returns (ok: bool, ghost actions: seq<Action>)
      requires Valid() && at.Running? && at.key == key && at.unused == view.allowances
      modifies this`at, view, view.base.ordinary
      ensures Valid() && State() == Run(old(State()), actions)
      ensures at == if ok then Running(key, old(at).granted, view.allowances) else Idle
      ensures forall e: Dimension :: Budgeted(view, key, e) == old(Budgeted(view, key, e))
    {
      var r := view.Spend(Ordinary(name), amount);
      ok := r.Ok?;
      actions := [];
      if !ok {
        actions := [Fail];
        NoRedraw.RunSteps(State(), Fail, []);
        StopRun();
      }
    }

    method NoteObservation(o: Observation)
      requires Valid() && at.Running?
      modifies this`observations
      ensures Valid() && State() == Next(old(State()), Note(o))
    {
      NextKeepsOrder(State(), Note(o));
      if !o.Round? { observations := observations + [o]; }
    }

    method StopRun()
      requires Valid() && at.Running?
      modifies this`at
      ensures Valid() && State() == Next(old(State()), Fail) && at == Idle
    {
      NextKeepsOrder(State(), Fail);
      at := Idle;
    }

    method InnerAction(view: ReservedBudgetView, key: Key, step: InnerStep)
      returns (ok: bool, ghost actions: seq<Action>)
      requires Valid() && at.Running? && at.key == key && at.unused == view.allowances
      modifies this`at, this`slots, this`observations, this`disk, this`older, view, view.base.ordinary
      ensures Valid() && State() == Run(old(State()), actions)
      ensures at == if ok then Running(key, old(at).granted, view.allowances) else Idle
      ensures forall d: Dimension :: Budgeted(view, key, d) == old(Budgeted(view, key, d))
    {
      ghost var w := State();
      ok := !step.Abort?;
      match step
      case Draw(OfRound(d), amount) =>
        ok, actions := DrawBudgeted(view, key, d, amount);
      case Draw(Ordinary(name), amount) =>
        ok, actions := DrawOrdinary(view, key, name, amount);
      case Observe(o) =>
        NoteObservation(o);
        actions := [Note(o)];
      case Checkpoint =>
        Persist();
        actions := [Save];
      case Abort =>
        StopRun();
        actions := [Fail];
    }

    /** The evolution under the round.  Whatever it does and wherever it stops, what it consumed plus what is left of
        the allowance stays the same in each dimension, and the ledger behind the view is not touched. */
    method EvolveThrough(view: ReservedBudgetView, key: Key, script: seq<InnerStep>)
      returns (ok: bool, ghost actions: seq<Action>)
      requires Valid() && at.Running? && at.key == key && at.unused == view.allowances
      modifies this`at, this`slots, this`observations, this`disk, this`older, view, view.base.ordinary
      ensures Valid() && State() == Run(old(State()), actions)
      ensures at == if ok then Running(key, old(at).granted, view.allowances) else Idle
      ensures forall d: Dimension :: Budgeted(view, key, d) == old(Budgeted(view, key, d))
      ensures budget.spent == old(budget.spent)
    {
      ok, actions := true, [];
      var i := 0;
      while i < |script| && ok
        invariant 0 <= i <= |script|
        invariant Valid() && State() == Run(old(State()), actions)
        invariant at == if ok then Running(key, old(at).granted, view.allowances) else Idle
        invariant forall d: Dimension :: Budgeted(view, key, d) == old(Budgeted(view, key, d))
      {
        ghost var more;
        ok, more := InnerAction(view, key, script[i]);
        NoRedraw.RunConcat(old(State()), actions, more);
        actions := actions + more;
        i := i + 1;
      }
    }

    // The call up to its charge: the reservation of a new round is in a checkpoint before anything is paid.
    method Reserve(key: Key, units: Units) returns (stage: Point, refusal: Option<Outcome>)
      requires Valid() && at == Idle
      modifies this`observations, this`at, this`disk, this`older
      ensures refusal == old(Refusal(observations, key))
      ensures stage.SaveCrashed? <==> old(Crashing(observations, key))
      ensures stage == Charging(key) <==> old(NoRedraw.Chargeable(Memory(), key))
      ensures grants == old(grants)
      ensures stage != Charging(key) ==>
        (stage.Running? <==> refusal.None?) && Granted(old(State()), key, units) == old(grants)
      ensures stage == Charging(key) ==>
        refusal.None? && Granted(old(State()), key, units) == AfterLaunch(State()).grants
      ensures Valid() && stage == at
      ensures stage == Charging(key) || stage == Idle || stage == SaveCrashed(key) ||
        stage == Running(key, false, NOTHING)
      ensures State() ==
        if stage == Charging(key)
        then Next(Next(old(State()), Start(key, units)), Save)
        else Next(old(State()), Start(key, units))
    {
      StartRefuses(State(), key, units);
      StartGrants(State(), key, units);
      StartLeads(State(), key, units);
      refusal := Refusal(observations, key);
      stage := BeginRound(key, units);
      if stage.SaveReserved? {
        Persist();
        stage := Charging(key);
      }
    }

    // The charge of a reserved round: in memory, then in a checkpoint.
    method ChargeAndCommit(key: Key) returns (charged: bool)
      requires Valid() && at == Charging(key)
      modifies this`observations, this`at, this`leaked, this`disk, this`older, budget
      ensures Valid() && at == if charged then Launching(key) else Idle
      ensures State() == if charged then Next(Next(old(State()), Charge), Save) else Next(old(State()), Charge)
    {
      charged := ChargeRound(key);
      if charged { Persist(); }
    }

    // Mark the round completed and checkpoint that.
    method Finalise(key: Key, unused: Units) returns (completed: bool)
      requires Valid() && at.Running? && at.key == key && at.unused == unused
      modifies this`observations, this`at, this`disk, this`older
      ensures Valid() && at == Idle && (completed <==> unused == NOTHING)
      ensures State() == if completed then Next(Next(old(State()), Finish), Save) else Next(old(State()), Finish)
      ensures completed ==> StatusIs(disk, key, Completed)
    {
      completed := CompleteRound(key, unused);
      if completed { Persist(); }
    }

    /** Run the evolution behind a view, then complete the round.  A finished round consumed its whole allowance. */
    method RunAndComplete(view: ReservedBudgetView, key: Key, script: seq<InnerStep>)
      returns (outcome: Outcome, ghost actions: seq<Action>)
      requires Valid() && at.Running? && at.key == key && at.unused == view.allowances
      modifies this`at, this`slots, this`observations, this`disk, this`older, view, view.base.ordinary
      ensures Valid() && at == Idle && State() == Run(old(State()), actions)
      ensures outcome.InnerFailure? || outcome.SlotsLeftOver? || outcome.Finished?
      ensures outcome.Finished? ==> StatusIs(disk, key, Completed)
      ensures outcome.Finished? ==> forall d: Dimension :: slots[(key, d)] == old(Budgeted(view, key, d))
    {
      ghost var w := State();
      var ok;
      ok, actions := EvolveThrough(view, key, script);
      outcome := InnerFailure;
      if ok {
        ghost var last := FinishActions(view.allowances);
        RunFinish(w, actions, last);
        var completed := Finalise(key, view.allowances);
        actions := actions + last;
        outcome := if completed then Finished else SlotsLeftOver;
      }
    }

    // Hand the allowance out and run the round through it.
    method LaunchAndRun(key: Key, script: seq<InnerStep>) returns (outcome: Outcome, ghost actions: seq<Action>)
      requires Valid() && at == Launching(key)
      modifies this`at, this`slots, this`grants, this`observations, this`disk, this`older, budget.ordinary
      ensures Valid() && at == Idle && State() == Run(Next(old(State()), Launch), actions)
      ensures grants == Next(old(State()), Launch).grants && grants == old(grants) + multiset{key}
      ensures outcome.InnerFailure? || outcome.SlotsLeftOver? || outcome.Finished?
      ensures outcome.Finished? ==> StatusIs(disk, key, Completed)
    {
      var view := HandOut(key);
      outcome, actions := RunAndComplete(view, key, script);
    }

    // Charge the round, and once the charge is durable run it through the one view of its allowance.
    method ChargeAndRun(key: Key, script: seq<InnerStep>) returns (outcome: Outcome, ghost actions: seq<Action>)
      requires Valid() && at == Charging(key)
      modifies this`at, this`slots, this`grants, this`leaked, this`observations, this`disk, this`older, budget,
        budget.ordinary
      ensures Valid() && at == Idle && State() == Run(old(State()), actions)
      ensures grants == AfterLaunch(old(State())).grants
      ensures outcome.CannotCharge? || outcome.InnerFailure? || outcome.SlotsLeftOver? || outcome.Finished?
      ensures outcome.Finished? ==> StatusIs(disk, key, Completed)
      ensures outcome.CannotCharge? <==> grants == old(grants)
    {
      ghost var w := State();
      var charged := ChargeAndCommit(key);
      if charged {
        outcome, actions := LaunchAndRun(key, script);
        RunCharge(w, actions);
        actions := [Charge, Save, Launch] + actions;
      } else {
        RunCharge(w, []);
        outcome, actions := CannotCharge, [Charge];
        IdleUngranted(State());
      }
    }

    // A call that charges nothing: it refuses, or finishes a round whose measurements are all there.
    method RunUncharged(stage: Point, key: Key, refusal: Option<Outcome>, script: seq<InnerStep>)
      returns (outcome: Outcome, ghost actions: seq<Action>)
      requires Valid() && at == stage
      requires stage == Idle || stage == SaveCrashed(key) || stage == Running(key, false, NOTHING)
      requires stage.Running? <==> refusal.None?
      modifies this`at, this`slots, this`observations, this`disk, this`older, budget.ordinary
      ensures Valid() && at == Idle && State() == Run(old(State()), actions)
      ensures refusal.Some? ==> outcome == refusal.value
      ensures refusal.None? ==> outcome.InnerFailure? || outcome.SlotsLeftOver? || outcome.Finished?
      ensures outcome.Finished? && refusal.None? ==> StatusIs(disk, key, Completed)
      ensures stage.SaveCrashed? ==> Recorded(disk.observations, key, CrashIncomplete)
      ensures stage.Idle? ==> State() == old(State())
    {
      ghost var w := State();
      if stage.Running? {
        var view := new ReservedBudgetView(budget, NOTHING);
        outcome, actions := RunAndComplete(view, key, script);
      } else {
        outcome, actions := refusal.value, [];
        if stage.SaveCrashed? {
          NoRedraw.RunSteps(w, Save, []);
          StatusMeans(Memory(), key, CrashIncomplete);
          Persist();
          actions := [Save];
        }
      }
    }

    /** One call for a round.  Whatever it meets, it is a run of the durable-round system, so the theorems about runs
        are about this code; a crash inside it leaves the world after a prefix of that run.  It refuses exactly the
        rounds that have ended or cannot be completed, and hands the allowance out exactly when the memory it started
        from lets it.  A charged round is refused, and recorded as crashed, exactly when one of its measurements is
        missing. */
    method EvolveMetaPolicy(key: Key, units: Units, script: seq<InnerStep>)
      returns (outcome: Outcome, ghost actions: seq<Action>)
      requires Valid() && at == Idle
      modifies this`at, this`slots, this`grants, this`leaked, this`observations, this`disk, this`older, budget,
        budget.ordinary
      ensures Valid() && at == Idle && State() == Run(old(State()), actions)
      ensures grants == Granted(old(State()), key, units)
      ensures old(Refusal(observations, key)).Some? ==> outcome == old(Refusal(observations, key)).value
      ensures old(Refusal(observations, key)).None? ==>
        outcome.CannotCharge? || outcome.InnerFailure? || outcome.SlotsLeftOver? || outcome.Finished?
      ensures outcome.Finished? ==> StatusIs(disk, key, Completed)
      ensures old(Crashing(observations, key)) ==>
        outcome == RedrawRefused && grants == old(grants) && Recorded(disk.observations, key, CrashIncomplete)
      ensures Answers(old(State()), key, units, outcome, grants)
    {
      ghost var w := State();
      var stage, refusal := Reserve(key, units);
      if stage == Charging(key) {
        outcome, actions := ChargeAndRun(key, script);
        RunReserve(w, key, units, actions);
        actions := [Start(key, units), Save] + actions;
      } else {
        outcome, actions := RunUncharged(stage, key, refusal, script);
        NoRedraw.RunSteps(w, Start(key, units), actions);
        actions := [Start(key, units)] + actions;
      }
      AnswersHold(w, key, units, outcome, grants);
    }
  }

  lemma RunReserve(w: World, key: Key, units: Units, more: seq<Action>)
    ensures Run(w, [Start(key, units), Save] + more) == Run(Next(Next(w, Start(key, units)), Save), more)
  {
    assert [Start(key, units), Save] + more == [Start(key, units)] + ([Save] + more);
    NoRedraw.RunSteps(w, Start(key, units), [Save] + more);
    NoRedraw.RunSteps(Next(w, Start(key, units)), Save, more);
  }

  // The grants after a call: one more exactly when the memory lets the round be charged.
  function Granted(w: World, key: Key, units: Units): multiset<Key>
    requires w.process.Some?
  {
    w.grants + (if NoRedraw.Grantable(w.limits, w.process.value.mem, key, units) then multiset{key} else multiset{})
  }

  // A charged round of which some measurement is missing.
  ghost predicate Crashing(s: seq<Observation>, key: Key)
  {
    key.extensions != {} && Recorded(s, key, Charged) && Unmeasured(s, key)
  }

  // A limit leaves room for so many units on top of what is spent.
  ghost predicate Covers(limits: Limits, spent: Units, units: Units)
  {
    && (units.candidates == 0 ||
        (limits.candidates.Some? && spent.candidates + units.candidates <= limits.candidates.value))
    && (units.evaluations == 0 ||
        (limits.evaluations.Some? && spent.evaluations + units.evaluations <= limits.evaluations.value))
  }

  ghost predicate Ran(outcome: Outcome) { outcome.InnerFailure? || outcome.SlotsLeftOver? || outcome.Finished? }

  // How a call may end, and what it grants, told from the observations and the ledger it started from.
  ghost predicate Answers(w: World, key: Key, units: Units, outcome: Outcome, grants: multiset<Key>)
    requires w.process.Some?
  {
    var s, spent := w.process.value.mem.observations, w.process.value.mem.spent;
    if key.extensions == {} then outcome == NotBudgeted && grants == w.grants
    else
      && (Recorded(s, key, Completed) ==> outcome == AlreadyCompleted && grants == w.grants)
      && (Recorded(s, key, CrashIncomplete) ==> outcome == RedrawRefused && grants == w.grants)
      && (Recorded(s, key, Charged) && Unmeasured(s, key) ==> outcome == RedrawRefused && grants == w.grants)
      && (Recorded(s, key, Charged) && !Unmeasured(s, key) ==> Ran(outcome) && grants == w.grants)
      && (forall r :: Round(r) in s && r.key == key && r.status == Reserved ==>
            Charges(w, key, r.reserved, outcome, grants))
      && (Unrecorded(s, key) ==> Charges(w, key, units, outcome, grants))
  }

  // A round that can be charged gets its allowance, once, if the ledger covers it.
  ghost predicate Charges(w: World, key: Key, units: Units, outcome: Outcome, grants: multiset<Key>)
    requires w.process.Some?
  {
    if Covers(w.limits, w.process.value.mem.spent, units) then Ran(outcome) && grants == w.grants + multiset{key}
    else outcome == CannotCharge && grants == w.grants
  }

  lemma AffordableCovers(limits: Limits, spent: Units, units: Units)
    ensures Affordable(limits, spent, units) <==> Covers(limits, spent, units)
  {
  }

  lemma AnswersHold(w: World, key: Key, units: Units, outcome: Outcome, grants: multiset<Key>)
    requires OrderlyWorld(w) && w.process.Some? && grants == Granted(w, key, units)
    requires var m := w.process.value.mem; var refusal := Refusal(m.observations, key);
      && (refusal.Some? ==> outcome == refusal.value)
      && (refusal.None? ==> outcome.CannotCharge? || Ran(outcome))
      && (outcome.CannotCharge? <==> NoRedraw.Chargeable(m, key) && grants == w.grants)
    ensures Answers(w, key, units, outcome, grants)
  {
    var m := w.process.value.mem;
    FindIs(m.observations, key);
    CompleteMeans(m.observations, key);
    AffordableCovers(w.limits, m.spent, units);
    if Find(m.observations, key).Some? {
      AffordableCovers(w.limits, m.spent, Find(m.observations, key).value.reserved);
    }
    assert (w.grants + multiset{key})[key] == w.grants[key] + 1;
  }

  predicate ToCharge(at: Point) { at.SaveReserved? || at.Charging? }

  // What a call refuses, told from where its beginning leads.
  lemma StartRefuses(w: World, key: Key, units: Units)
    requires OrderlyWorld(w) && w.process.Some? && w.process.value.at == Idle
    ensures var w1 := Next(w, Start(key, units)); var refusal := Refusal(w.process.value.mem.observations, key);
      && w1.process.Some?
      && var at := w1.process.value.at;
      && (ToCharge(at) ==> at.key == key && refusal.None?)
      && (!ToCharge(at) ==>
            || (at == Running(key, false, NOTHING) && refusal.None?)
            || (refusal.Some? && (at == Idle || at == SaveCrashed(key))))
  {
    NoRedraw.BeginLands(w.process.value.mem, key, units);
    BeginRefuses(w.process.value.mem, key, units);
  }

  // Where it leads, told from the observations.
  lemma StartLeads(w: World, key: Key, units: Units)
    requires OrderlyWorld(w) && w.process.Some? && w.process.value.at == Idle
    ensures var w1 := Next(w, Start(key, units)); var m := w.process.value.mem;
      && w1.process.Some? && w1.grants == w.grants
      && (w1.process.value.at.SaveCrashed? <==> Crashing(m.observations, key))
      && (ToCharge(w1.process.value.at) <==> NoRedraw.Chargeable(m, key))
  {
    NoRedraw.BeginLands(w.process.value.mem, key, units);
    BeginMeans(w.process.value.mem, key, units);
  }

  // What it grants.
  lemma StartGrants(w: World, key: Key, units: Units)
    requires OrderlyWorld(w) && w.process.Some? && w.process.value.at == Idle
    ensures var w1 := Next(w, Start(key, units));
      && w1.process.Some?
      && Granted(w, key, units)
         == if ToCharge(w1.process.value.at) then AfterLaunch(Next(w1, Save)).grants else w.grants
  {
    NoRedraw.CallGrants(w, key, units);
    NoRedraw.RunCall(w, key, units);
    NoRedraw.BeginLands(w.process.value.mem, key, units);
  }

  function AfterLaunch(w: World): World { Next(Next(Next(w, Charge), Save), Launch) }

  lemma IdleUngranted(w: World)
    requires w.process.Some? && w.process.value.at == Idle
    ensures Next(Next(w, Save), Launch).grants == w.grants
  {
  }

  // The calls that do not get to run, and how they end.
  function Refusal(s: seq<Observation>, key: Key): Option<Outcome>
  {
    if key.extensions == {} then Some(NotBudgeted)
    else if |Records(s, key)| > 1 then Some(Duplicate)
    else if Find(s, key).None? then None
    else
      match Find(s, key).value.status
      case Reserved => None
      case Charged => if Complete(s, key) then None else Some(RedrawRefused)
      case Completed => Some(AlreadyCompleted)
      case CrashIncomplete => Some(RedrawRefused)
  }

  lemma BeginRefuses(m: Saved, key: Key, units: Units)
    ensures var at := Begin(m, key, units).at; var refusal := Refusal(m.observations, key);
      && (at.Idle? || at.SaveCrashed? <==> refusal.Some?)
      && (at.SaveCrashed? ==> refusal == Some(RedrawRefused))
      && (!at.Idle? ==> at.key == key)
      && (at.Running? ==> at == Running(key, false, NOTHING))
  {
    FoundHasTheKey(m.observations, key);
  }

  lemma RunCharge(w: World, more: seq<Action>)
    ensures Run(w, [Charge]) == Next(w, Charge)
    ensures Run(w, [Charge, Save, Launch] + more) == Run(AfterLaunch(w), more)
  {
    NoRedraw.RunSteps(w, Charge, []);
    NoRedraw.RunConcat(w, [Charge, Save, Launch], more);
    RunTwo(w, Charge, Save);
    NoRedraw.RunConcat(w, [Charge, Save], [Launch]);
    assert [Charge, Save] + [Launch] == [Charge, Save, Launch];
    NoRedraw.RunSteps(Next(Next(w, Charge), Save), Launch, []);
  }

  function FinishActions(unused: Units): seq<Action> { if unused == NOTHING then [Finish, Save] else [Finish] }

  lemma RunFinish(w: World, actions: seq<Action>, last: seq<Action>)
    requires last == [Finish] || last == [Finish, Save]
    ensures Run(w, actions + last)
      == if |last| == 1 then Next(Run(w, actions), Finish) else Next(Next(Run(w, actions), Finish), Save)
  {
    NoRedraw.RunConcat(w, actions, last);
    NoRedraw.RunSteps(Run(w, actions), Finish, last[1..]);
    if |last| == 2 { NoRedraw.RunSteps(Next(Run(w, actions), Finish), Save, []); }
  }

  // The world after `n` slots of one dimension.
  function Drawn(w: World, d: Dimension, n: nat): World
    requires w.process.Some? && w.process.value.at.Running? && n <= w.process.value.at.unused.Get(d)
  {
    var p := w.process.value;
    var slot := (p.at.key, d);
    w.(process := Some(Moved(p, p.at.(unused := With(p.at.unused, d, p.at.unused.Get(d) - n)))),
       slots := w.slots[slot := w.slots[slot] + n])
  }

  lemma DrawOneMore(w: World, d: Dimension, n: nat)
    requires w.process.Some? && w.process.value.at.Running? && 0 < n <= w.process.value.at.unused.Get(d)
    ensures Drawn(Next(w, Slot(d)), d, n - 1) == Drawn(w, d, n)
  {
    OneThenMore(w.slots, (w.process.value.at.key, d), n);
    LessThenWith(w.process.value.at.unused, d, n);
  }

  lemma OneThenMore<T>(slots: multiset<T>, slot: T, n: nat)
    requires n > 0
    ensures (slots + multiset{slot})[slot := (slots + multiset{slot})[slot] + (n - 1)] == slots[slot := slots[slot] + n]
  {
  }

  lemma LessThenWith(units: Units, d: Dimension, n: nat)
    requires 0 < n <= units.Get(d)
    ensures With(units.Less(d), d, units.Less(d).Get(d) - (n - 1)) == With(units, d, units.Get(d) - n)
  {
  }

  // Drawing the slots one by one.
  lemma {:induction false} RunSlots(w: World, d: Dimension, n: nat)
    requires w.process.Some? && w.process.value.at.Running? && n <= w.process.value.at.unused.Get(d)
    ensures Run(w, Slots(d, n)) == Drawn(w, d, n)
    decreases n
  {
    if n == 0 {
      var slot := (w.process.value.at.key, d);
      assert w.slots[slot := w.slots[slot]] == w.slots;
    } else {
      NoRedraw.RunSteps(w, Slot(d), Slots(d, n - 1));
      RunSlots(Next(w, Slot(d)), d, n - 1);
      DrawOneMore(w, d, n);
    }
  }

  // `result` is the new list up to the part of the old one still to be looked at.
  ghost predicate Installing(all: seq<Observation>, rest: seq<Observation>, record: Record, result: seq<Observation>,
      replaced: bool)
  {
    |Records(all, record.key)| == |Records(rest, record.key)| + (if replaced then 1 else 0) &&
    (|Records(all, record.key)| <= 1 ==>
      Install(all, record) == result + (if replaced then rest else Install(rest, record)))
  }

  lemma InstallingStep(all: seq<Observation>, rest: seq<Observation>, record: Record, result: seq<Observation>,
      replaced: bool)
    requires rest != [] && Installing(all, rest, record, result, replaced)
    ensures !IsRound(rest[0], record.key) ==> Installing(all, rest[1..], record, result + [rest[0]], replaced)
    ensures IsRound(rest[0], record.key) && !replaced ==>
      Installing(all, rest[1..], record, result + [Round(record)], true)
    ensures IsRound(rest[0], record.key) && replaced ==> |Records(all, record.key)| > 1
  {
    assert rest == [rest[0]] + rest[1..];
    assert result + ([rest[0]] + rest[1..]) == (result + [rest[0]]) + rest[1..];
    assert result + ([rest[0]] + Install(rest[1..], record)) == (result + [rest[0]]) + Install(rest[1..], record);
    assert result + ([Round(record)] + rest[1..]) == (result + [Round(record)]) + rest[1..];
  }
}
