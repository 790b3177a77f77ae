/**
 No restart redraws budgeted work: the guarantee of the durable rounds over whole runs, the one
 restart that breaks it, and the one charge that leaks.
 */
module NoRedraw {
  import opened Wrappers
  import opened DurableRound

  // The round is paid for in both images, with the same reservation.
  predicate PaidAs(a: Saved, b: Saved, k: Key)
  {
    Paid(a.observations, k) && Paid(b.observations, k) && Reservation(a, k) == Reservation(b, k)
  }

  function Reservation(m: Saved, k: Key): Units
  {
    if Find(m.observations, k).Some? then Find(m.observations, k).value.reserved else NOTHING
  }

  // The image knows every charge behind a granted allowance as the committed checkpoint does.
  ghost predicate Knows(w: World, m: Saved) { forall k :: k in w.grants ==> PaidAs(w.disk, m, k) }

  lemma ForwardKnows(w: World, a: Saved, b: Saved)
    requires Knows(w, a) && Forward(a, b)
    ensures Knows(w, b)
  {
    forall k | k in w.grants ensures PaidAs(w.disk, b, k) {
      assert PaidAs(w.disk, a, k);
      assert Moves(Find(a.observations, k), Find(b.observations, k));
    }
  }

  // What a granted run may still consume for a round.
  function Pending(w: World, k: Key): Units
  {
    if w.process.Some? && w.process.value.at.Running? && w.process.value.at.granted && w.process.value.at.key == k
    then w.process.value.at.unused
    else NOTHING
  }

  function Allowed(w: World, k: Key): Units { if k in w.grants then Reservation(w.disk, k) else NOTHING }

  ghost predicate Budgeted(w: World)
  {
    (forall k :: k in w.grants ==> w.grants[k] == 1 && k.extensions != {} && Paid(w.disk.observations, k)) &&
    (forall k, d :: w.slots[(k, d)] + Pending(w, k).Get(d) <= Allowed(w, k).Get(d))
  }

  // Where the process stands agrees with what is durable.
  ghost predicate Staged(w: World)
  {
    w.process.Some? ==>
      var p := w.process.value;
      Knows(w, p.mem) &&
      match p.at
      case SaveCharged(k) => k !in w.grants
      case Launching(k) =>
        k !in w.grants && StatusIs(w.disk, k, Charged) && Reservation(p.mem, k) == Reservation(w.disk, k)
      case Running(k, granted, unused) =>
        granted ==> k in w.grants && forall d :: w.slots[(k, d)] + unused.Get(d) == Reservation(w.disk, k).Get(d)
      case _ => true
  }

  ghost predicate Guarded(w: World)
  {
    OrderlyWorld(w) && Budgeted(w) && Staged(w)
  }

  // A superseded checkpoint is safe to restart from when it knows the charge of every round granted so far.
  ghost predicate SafeStep(w: World, a: Action)
  {
    a == Restart(true) && w.process.None? && w.older.Some? ==> Knows(w, w.older.value)
  }

  ghost predicate SafeRun(w: World, actions: seq<Action>)
    decreases |actions|
  {
    actions == [] || (SafeStep(w, actions[0]) && SafeRun(Next(w, actions[0]), actions[1..]))
  }

  lemma SaveKeepsGuard(w: World)
    requires Guarded(w) && w.process.Some? && Saving(w.process.value.at)
    ensures Guarded(Next(w, Save))
  {
    var p := w.process.value;
    var v := Next(w, Save);
    NextKeepsOrder(w, Save);
    forall k | k in w.grants ensures Paid(v.disk.observations, k) && Reservation(v.disk, k) == Reservation(w.disk, k) {
      assert Paid(w.disk.observations, k);
      assert PaidAs(w.disk, p.mem, k);
    }
    forall k ensures Pending(v, k) == Pending(w, k) && Allowed(v, k) == Allowed(w, k) {}
  }

  lemma StopKeepsGuard(w: World, a: Action)
    requires Guarded(w) && w.process.Some? && (a.Crash? || a.CrashInSave? || a.FailInSave?)
    ensures Guarded(Next(w, a))
  {
    var v := Next(w, a);
    NextKeepsOrder(w, a);
    forall k, d ensures v.slots[(k, d)] + Pending(v, k).Get(d) <= Allowed(v, k).Get(d) {
      assert w.slots[(k, d)] + Pending(w, k).Get(d) <= Allowed(w, k).Get(d);
    }
  }

  lemma RestartKeepsGuard(w: World, a: Action)
    requires Guarded(w) && w.process.None? && SafeStep(w, a)
    ensures Guarded(Next(w, a))
  {
    var v := Next(w, a);
    NextKeepsOrder(w, a);
    forall k ensures Pending(v, k) == Pending(w, k) && Allowed(v, k) == Allowed(w, k) {}
  }

  predicate Silent(a: Action) { a.Start? || a.Charge? || a.Note? || a.Fail? || a.Finish? }

  // A step in memory alone hands nothing out and performs no work.
  lemma SilentKeepsGuard(w: World, a: Action)
    requires Guarded(w) && w.process.Some? && Silent(a)
    ensures Guarded(Next(w, a))
  {
    var p := w.process.value;
    var v := Next(w, a);
    NextKeepsOrder(w, a);
    ActKeeps(w.limits, p, a);
    ForwardKnows(w, p.mem, v.process.value.mem);
    assert v.slots == w.slots && v.grants == w.grants;
    SilentStages(w, a);
    SilentSpends(w, a);
  }

  // Points that ask nothing of the durable state.
  predicate Calm(at: Point) { !at.SaveCharged? && !at.Launching? && (at.Running? ==> !at.granted) }

  lemma SilentLands(limits: Limits, p: Process, a: Action)
    requires Orderly(p) && Silent(a)
    ensures var q := Act(limits, p, a);
      || Calm(q.at)
      || (q.at == p.at && (p.at.Launching? ==> q.mem == p.mem))
      || (p.at.Charging? && q.at == SaveCharged(p.at.key))
  {
  }

  lemma SilentStages(w: World, a: Action)
    requires Guarded(w) && w.process.Some? && Silent(a)
    requires Knows(w, Act(w.limits, w.process.value, a).mem)
    ensures Staged(Next(w, a))
  {
    var p := w.process.value;
    SilentLands(w.limits, p, a);
    var v := Next(w, a);
    assert v.slots == w.slots && v.grants == w.grants && v.disk == w.disk;
    if p.at.Charging? {
      var k := p.at.key;
      assert k in w.grants ==> Paid(w.disk.observations, k);
      assert k in w.grants ==> PaidAs(w.disk, p.mem, k);
    }
  }

  lemma SilentSpends(w: World, a: Action)
    requires Guarded(w) && w.process.Some? && Silent(a)
    ensures Budgeted(Next(w, a))
  {
    var v := Next(w, a);
    SilentLands(w.limits, w.process.value, a);
    assert v.slots == w.slots && v.grants == w.grants && v.disk == w.disk;
    forall k, d ensures v.slots[(k, d)] + Pending(v, k).Get(d) <= Allowed(v, k).Get(d) {
      assert w.slots[(k, d)] + Pending(w, k).Get(d) <= Allowed(w, k).Get(d);
    }
  }

  lemma LaunchSpends(w: World)
    requires Guarded(w) && w.process.Some? && w.process.value.at.Launching?
    ensures Budgeted(Next(w, Launch))
  {
    var k := w.process.value.at.key;
    var v := Next(w, Launch);
    assert v.slots == w.slots && v.grants == w.grants + multiset{k} && v.disk == w.disk;
    forall j, d ensures v.slots[(j, d)] + Pending(v, j).Get(d) <= Allowed(v, j).Get(d) {
      assert w.slots[(j, d)] + Pending(w, j).Get(d) <= Allowed(w, j).Get(d);
    }
  }

  lemma LaunchKnows(w: World)
    requires Guarded(w) && w.process.Some? && w.process.value.at.Launching?
    ensures Knows(Next(w, Launch), w.process.value.mem)
  {
    var p := w.process.value;
    var v := Next(w, Launch);
    assert v.grants == w.grants + multiset{p.at.key} && v.disk == w.disk;
    assert PaidAs(w.disk, p.mem, p.at.key);
    forall j | j in v.grants ensures PaidAs(w.disk, p.mem, j) {
      assert j in w.grants || j == p.at.key;
    }
  }

  lemma LaunchStages(w: World)
    requires Guarded(w) && w.process.Some? && w.process.value.at.Launching?
    requires Knows(Next(w, Launch), w.process.value.mem)
    ensures Staged(Next(w, Launch))
  {
    var p := w.process.value;
    var v := Next(w, Launch);
    assert v.slots == w.slots && v.grants == w.grants + multiset{p.at.key} && v.disk == w.disk &&
      v.process.value.mem == p.mem;
    forall d ensures w.slots[(p.at.key, d)] == 0 {
      assert w.slots[(p.at.key, d)] + Pending(w, p.at.key).Get(d) <= Allowed(w, p.at.key).Get(d);
    }
  }

  lemma LaunchKeepsGuard(w: World)
    requires Guarded(w) && w.process.Some? && w.process.value.at.Launching?
    ensures Guarded(Next(w, Launch))
  {
    NextKeepsOrder(w, Launch);
    LaunchSpends(w);
    LaunchKnows(w);
    LaunchStages(w);
  }

  lemma SlotSpends(w: World, d: Dimension)
    requires Guarded(w) && w.process.Some? && w.process.value.at.Running?
    ensures Budgeted(Next(w, Slot(d)))
  {
    var v := Next(w, Slot(d));
    assert v.grants == w.grants;
    forall k, e: Dimension ensures v.slots[(k, e)] + Pending(v, k).Get(e) <= Allowed(v, k).Get(e) {
      assert w.slots[(k, e)] + Pending(w, k).Get(e) <= Allowed(w, k).Get(e);
    }
  }

  lemma SlotKeepsGuard(w: World, d: Dimension)
    requires Guarded(w) && w.process.Some? && w.process.value.at.Running?
    ensures Guarded(Next(w, Slot(d)))
  {
    NextKeepsOrder(w, Slot(d));
    SlotSpends(w, d);
    var p := w.process.value;
    var v := Next(w, Slot(d));
    assert v.disk == w.disk && v.grants == w.grants && v.process.value.mem == p.mem;
    if p.at.unused.Get(d) > 0 {
      assert v.slots == w.slots + multiset{(p.at.key, d)};
      assert v.process.value.at == p.at.(unused := p.at.unused.Less(d));
    }
  }

  lemma NextKeepsGuard(w: World, a: Action)
    requires Guarded(w) && SafeStep(w, a)
    ensures Guarded(Next(w, a))
  {
    if w.process.None? {
      RestartKeepsGuard(w, a);
    } else if a.Crash? || a.CrashInSave? || a.FailInSave? {
      StopKeepsGuard(w, a);
    } else if Silent(a) {
      SilentKeepsGuard(w, a);
    } else if a.Save? && Saving(w.process.value.at) {
      SaveKeepsGuard(w);
    } else if a.Launch? && w.process.value.at.Launching? {
      LaunchKeepsGuard(w);
    } else if a.Slot? && w.process.value.at.Running? {
      SlotKeepsGuard(w, a.dimension);
    } else {
      assert Next(w, a) == w;
    }
  }

  lemma {:induction false} RunKeepsGuard(w: World, actions: seq<Action>)
    requires Guarded(w) && SafeRun(w, actions)
    ensures Guarded(Run(w, actions))
    decreases |actions|
  {
    if actions != [] {
      NextKeepsGuard(w, actions[0]);
      RunKeepsGuard(Next(w, actions[0]), actions[1..]);
    }
  }

  // A machine before any work: no process, nothing executed, nobody granted anything.
  ghost predicate Untouched(w: World)
  {
    OrderlyWorld(w) && w.process.None? && w.slots == multiset{} && w.grants == multiset{}
  }

  /** Over every sequence of calls, crashes and safe restarts: the allowance of a round is handed out at most once, and
      only for a round whose charge is durable; the slots executed for a round never exceed its durable reservation,
      and a round not durably charged has executed none. */
  lemma NoRoundIsRedrawn(w: World, actions: seq<Action>, k: Key, d: Dimension)
    requires Untouched(w) && SafeRun(w, actions)
    ensures var v := Run(w, actions);
      && v.grants[k] <= 1
      && (k in v.grants ==> Paid(v.disk.observations, k))
      && v.slots[(k, d)] <= Reservation(v.disk, k).Get(d)
      && (v.slots[(k, d)] > 0 ==> k in v.grants)
  {
    RunKeepsGuard(w, actions);
    var v := Run(w, actions);
    assert v.slots[(k, d)] + Pending(v, k).Get(d) <= Allowed(v, k).Get(d);
  }

  // An allowance is handed out only for a round that is durably charged and was never granted before.
  lemma GrantFollowsDurableCharge(w: World, a: Action, k: Key)
    requires Guarded(w) && Next(w, a).grants[k] > w.grants[k]
    ensures StatusIs(w.disk, k, Charged) && k !in w.grants
  {
  }

  // --- what a call does when it starts from a given image ----------------------------------------------------------

  // The whole first half of a call: begin, checkpoint the reservation, charge, checkpoint the charge, launch.
  function Call(k: Key, units: Units): seq<Action> { [Start(k, units), Save, Charge, Save, Launch] }

  // The image lets a call for the round receive its allowance.
  predicate Grantable(limits: Limits, m: Saved, k: Key, units: Units)
  {
    k.extensions != {} &&
    match Find(m.observations, k)
    case None => Affordable(limits, m.spent, units)
    case Some(r) => r.status == Reserved && Affordable(limits, m.spent, r.reserved)
  }

  lemma RunCallPrefixes(w: World, k: Key, units: Units)
    ensures Run(w, [Start(k, units)]) == Next(w, Start(k, units))
    ensures Run(w, [Start(k, units), Save, Charge]) == Next(Next(Next(w, Start(k, units)), Save), Charge)
    ensures Run(w, [Start(k, units), Save, Charge, Save])
      == Next(Next(Next(Next(w, Start(k, units)), Save), Charge), Save)
  {
    RunSteps(w, Start(k, units), []);
    RunSteps(w, Start(k, units), [Save, Charge]);
    RunSteps(w, Start(k, units), [Save, Charge, Save]);
    var w1 := Next(w, Start(k, units));
    RunSteps(w1, Save, [Charge]);
    RunSteps(w1, Save, [Charge, Save]);
    var w2 := Next(w1, Save);
    RunSteps(w2, Charge, []);
    RunSteps(w2, Charge, [Save]);
    RunSteps(Next(w2, Charge), Save, []);
  }

  lemma RunCall(w: World, k: Key, units: Units)
    ensures Run(w, Call(k, units)) == Next(Next(Next(Next(Next(w, Start(k, units)), Save), Charge), Save), Launch)
  {
    RunCallPrefixes(w, k, units);
    RunConcat(w, [Start(k, units), Save, Charge, Save], [Launch]);
    assert Call(k, units) == [Start(k, units), Save, Charge, Save] + [Launch];
    RunSteps(Run(w, [Start(k, units), Save, Charge, Save]), Launch, []);
  }

  lemma RunSteps(w: World, a: Action, rest: seq<Action>)
    ensures Run(w, [a] + rest) == Run(Next(w, a), rest)
  {
    assert ([a] + rest)[1..] == rest;
  }

  // A call is on its way to a charge exactly when its round is unknown or reserved.
  predicate Chargeable(m: Saved, k: Key)
  {
    k.extensions != {} && (Find(m.observations, k).None? || Find(m.observations, k).value.status == Reserved)
  }

  lemma BeginLands(m: Saved, k: Key, units: Units)
    requires Unique(m.observations)
    ensures var q := Begin(m, k, units);
      if Chargeable(m, k) then
        && (q.at == SaveReserved(k) || q.at == Charging(k))
        && q.mem.spent == m.spent
        && Reservation(q.mem, k) == (if Find(m.observations, k).None? then units else Reservation(m, k))
      else q.at.Idle? || q.at.SaveCrashed? || (q.at.Running? && !q.at.granted)
  {
    FoundHasTheKey(m.observations, k);
    if Find(m.observations, k).None? && k.extensions != {} {
      InstallFinds(m.observations, Record(k, units, Reserved, m.spent, NOTHING), k);
    }
  }

  lemma SaveLands(w: World)
    requires w.process.Some?
    ensures var p := w.process.value; var v := Next(w, Save);
      && v.process.Some? && v.limits == w.limits && v.grants == w.grants && v.process.value.mem == p.mem
      && (p.at.SaveReserved? || p.at.Charging? ==> v.process.value.at == Charging(p.at.key))
      && (p.at.Idle? || p.at.SaveCrashed? ==> v.process.value.at == Idle)
      && (p.at.Running? ==> v.process.value.at == p.at)
  {
  }

  /** Exactly when a call that reaches its launch is handed the allowance: its round is unknown to the image it started
      from, or known as reserved, and the ledger of that image affords it.  No other round is granted anything. */
  lemma CallGrants(w: World, k: Key, units: Units)
    requires OrderlyWorld(w) && w.process.Some? && w.process.value.at == Idle
    ensures Run(w, Call(k, units)).grants
      == w.grants + (if Grantable(w.limits, w.process.value.mem, k, units) then multiset{k} else multiset{})
  {
    RunCall(w, k, units);
    var m := w.process.value.mem;
    BegunLands(w, k, units);
    var w2 := Next(Next(w, Start(k, units)), Save);
    if Chargeable(m, k) {
      ChargeGrants(w2, k);
    } else {
      CalmStaysUngranted(w2);
    }
  }

  // Where a call stands after its beginning and the first checkpoint.
  lemma BegunLands(w: World, k: Key, units: Units)
    requires OrderlyWorld(w) && w.process.Some? && w.process.value.at == Idle
    ensures var m := w.process.value.mem; var w2 := Next(Next(w, Start(k, units)), Save);
      && OrderlyWorld(w2) && w2.process.Some? && w2.grants == w.grants && w2.limits == w.limits
      && (if Chargeable(m, k) then
            && w2.process.value.at == Charging(k) && w2.process.value.mem.spent == m.spent
            && Reservation(w2.process.value.mem, k)
               == (if Find(m.observations, k).None? then units else Reservation(m, k))
          else w2.process.value.at.Idle? || (w2.process.value.at.Running? && !w2.process.value.at.granted))
  {
    var w1 := Next(w, Start(k, units));
    assert w1.process == Some(Begin(w.process.value.mem, k, units)) && w1.grants == w.grants && w1.limits == w.limits;
    BeginLands(w.process.value.mem, k, units);
    NextKeepsOrder(w, Start(k, units));
    SaveLands(w1);
    NextKeepsOrder(w1, Save);
  }

  lemma ChargeGrants(w: World, k: Key)
    requires OrderlyWorld(w) && w.process.Some? && w.process.value.at == Charging(k)
    ensures Next(Next(Next(w, Charge), Save), Launch).grants
      == (var m := w.process.value.mem;
          w.grants + (if Affordable(w.limits, m.spent, Reservation(m, k)) then multiset{k} else multiset{}))
  {
    FoundHasTheKey(w.process.value.mem.observations, k);
    NextKeepsOrder(w, Charge);
    NextKeepsOrder(Next(w, Charge), Save);
  }

  lemma CalmStaysUngranted(w: World)
    requires w.process.Some? &&
      (w.process.value.at.Idle? || (w.process.value.at.Running? && !w.process.value.at.granted))
    ensures Next(Next(Next(w, Charge), Save), Launch).grants == w.grants
  {
    assert Next(w, Charge) == w;
    SaveLands(w);
    var v := Next(w, Save);
    assert Next(v, Launch).grants == v.grants;
  }

  /** Restarting from the superseded checkpoint redraws a granted round exactly when that checkpoint still lets the
      round be charged: it has no record of it, or a merely reserved one, and affords it. */
  lemma SupersededRestartRedraws(w: World, k: Key, units: Units)
    requires Guarded(w) && w.process.None? && w.older.Some? && k in w.grants
    ensures Run(w, [Restart(true)] + Call(k, units)).grants[k] == 2 <==> Grantable(w.limits, w.older.value, k, units)
  {
    RunSteps(w, Restart(true), Call(k, units));
    NextKeepsOrder(w, Restart(true));
    CallGrants(Next(w, Restart(true)), k, units);
  }

  /** The restarts that are not safe are the ones that redraw, or lose sight of a charge.  A granted round the
      superseded image has not paid is redrawn exactly when that image affords it; and the charges behind all granted
      rounds survive the restart and the next checkpoint if and only if the restart was safe. */
  lemma UnsafeRestartRedraws(w: World, k: Key, units: Units)
    requires Guarded(w) && w.process.None? && w.older.Some? && k in w.grants
    ensures var o := w.older.value;
      var cost := if Find(o.observations, k).None? then units else Reservation(o, k);
      var again := Run(w, [Restart(true)] + Call(k, units));
      again.grants[k] == 2 <==> !Paid(o.observations, k) && Affordable(w.limits, o.spent, cost)
    ensures !Paid(w.older.value.observations, k) ==> !SafeStep(w, Restart(true))
    ensures SafeStep(w, Restart(true)) <==> Knows(w, Run(w, [Restart(true), Save]).disk)
  {
    SupersededRestartRedraws(w, k, units);
    SupersededRestartMovesForward(w);
    assert SafeStep(w, Restart(true)) ==> PaidAs(w.disk, w.older.value, k);
  }

  lemma {:induction false} RunConcat(w: World, first: seq<Action>, rest: seq<Action>)
    ensures Run(w, first + rest) == Run(Run(w, first), rest)
    decreases |first|
  {
    if first == [] {
      assert first + rest == rest;
    } else {
      RunConcat(Next(w, first[0]), first[1..], rest);
      assert (first + rest)[1..] == first[1..] + rest;
    }
  }

  // A new round after its first checkpoint.
  lemma ReservationSaved(w: World, k: Key, units: Units)
    requires OrderlyWorld(w) && w.process.Some? && w.process.value.at == Idle && k.extensions != {}
    requires Find(w.process.value.mem.observations, k).None?
    ensures var v := Next(Next(w, Start(k, units)), Save);
      && OrderlyWorld(v) && v.process == Some(Process(v.disk, Charging(k)))
      && StatusIs(v.disk, k, Reserved) && Reservation(v.disk, k) == units && v.disk.spent == w.process.value.mem.spent
      && v.grants == w.grants && v.limits == w.limits
  {
    var m := w.process.value.mem;
    var record := Record(k, units, Reserved, m.spent, NOTHING);
    InstallFinds(m.observations, record, k);
    var begun := Next(w, Start(k, units));
    assert begun.process == Some(Process(Installed(m, record), SaveReserved(k))) && begun.grants == w.grants;
    NextKeepsOrder(w, Start(k, units));
    NextKeepsOrder(begun, Save);
  }

  // After a granted call the superseded checkpoint is the one that knew the round as merely reserved.
  lemma GrantLeavesReservedBehind(w: World, k: Key, units: Units)
    requires OrderlyWorld(w) && w.process.Some? && w.process.value.at == Idle
    requires Grantable(w.limits, w.process.value.mem, k, units)
    requires Find(w.process.value.mem.observations, k).None?
    ensures var v := Run(w, Call(k, units));
      v.limits == w.limits && v.process.Some? && v.older.Some? && Grantable(v.limits, v.older.value, k, units)
  {
    RunCall(w, k, units);
    ReservationSaved(w, k, units);
    ChargeCommits(Next(Next(w, Start(k, units)), Save), k);
  }

  lemma ChargeCommits(w: World, k: Key)
    requires w.process == Some(Process(w.disk, Charging(k)))
    requires StatusIs(w.disk, k, Reserved) && Affordable(w.limits, w.disk.spent, Reservation(w.disk, k))
    ensures var v := Next(Next(Next(w, Charge), Save), Launch);
      v.limits == w.limits && v.process.Some? && v.older == Some(w.disk)
  {
  }

  /** The guarantee does fail without that care: on every machine that admits a new round, a crash after the launch and
      a restart from the superseded checkpoint hand the same allowance out a second time. */
  lemma EveryRoundCanBeRedrawn(w: World, k: Key, units: Units)
    requires Untouched(w) && Grantable(w.limits, w.disk, k, units) && Find(w.disk.observations, k).None?
    ensures Run(w, ([Restart(false)] + Call(k, units)) + ([Crash] + ([Restart(true)] + Call(k, units)))).grants[k] == 2
  {
    var again := [Restart(true)] + Call(k, units);
    RunConcat(w, [Restart(false)] + Call(k, units), [Crash] + again);
    RunSteps(w, Restart(false), Call(k, units));
    NextKeepsOrder(w, Restart(false));
    var w1 := Next(w, Restart(false));
    var w2 := Run(w1, Call(k, units));
    CallGrants(w1, k, units);
    GrantLeavesReservedBehind(w1, k, units);
    RunKeepsOrder(w1, Call(k, units));
    RunSteps(w2, Crash, again);
    var w3 := Next(w2, Crash);
    RunSteps(w3, Restart(true), Call(k, units));
    CallGrants(Next(w3, Restart(true)), k, units);
  }

  /** Nothing is lost where nothing was granted: a process that dies between the durable charge and the launch may be
      followed by a superseded restart, which hands the allowance out for the first time. */
  lemma LostChargeIsSafe(w: World, k: Key, units: Units)
    requires Untouched(w) && Grantable(w.limits, w.disk, k, units) && Find(w.disk.observations, k).None?
    ensures var lost := Next(Run(Next(w, Restart(false)), [Start(k, units), Save, Charge, Save]), Crash);
      && lost.older.Some? && !ForwardStep(lost, Restart(true))
      && SafeStep(lost, Restart(true)) && Run(lost, [Restart(true)] + Call(k, units)).grants == multiset{k}
  {
    NextKeepsOrder(w, Restart(false));
    var w1 := Next(w, Restart(false));
    RunCallPrefixes(w1, k, units);
    ReservationSaved(w1, k, units);
    LostAfterCharge(Next(Next(w1, Start(k, units)), Save), k, units);
  }

  lemma LostAfterCharge(w: World, k: Key, units: Units)
    requires OrderlyWorld(w) && w.process == Some(Process(w.disk, Charging(k))) && w.grants == multiset{}
    requires Affordable(w.limits, w.disk.spent, Reservation(w.disk, k))
    ensures var lost := Next(Next(Next(w, Charge), Save), Crash);
      && lost.older.Some? && !ForwardStep(lost, Restart(true))
      && SafeStep(lost, Restart(true)) && Run(lost, [Restart(true)] + Call(k, units)).grants == multiset{k}
  {
    NextKeepsOrder(w, Charge);
    NextKeepsOrder(Next(w, Charge), Save);
    ChargeSaved(w, k);
    var lost := Next(Next(Next(w, Charge), Save), Crash);
    assert !Moves(Find(lost.disk.observations, k), Find(lost.older.value.observations, k));
    RunSteps(lost, Restart(true), Call(k, units));
    NextKeepsOrder(lost, Restart(true));
    CallGrants(Next(lost, Restart(true)), k, units);
  }

  lemma ChargeSaved(w: World, k: Key)
    requires OrderlyWorld(w) && w.process == Some(Process(w.disk, Charging(k)))
    requires Affordable(w.limits, w.disk.spent, Reservation(w.disk, k))
    ensures var v := Next(Next(Next(w, Charge), Save), Crash);
      && OrderlyWorld(v) && v.process.None? && v.older == Some(w.disk) && StatusIs(v.disk, k, Charged)
      && v.grants == w.grants && v.limits == w.limits
  {
    NextKeepsOrder(w, Charge);
    NextKeepsOrder(Next(w, Charge), Save);
    assert Next(w, Charge).process == Some(Pay(w.limits, w.disk, k));
    assert Next(w, Charge).process.value.at == SaveCharged(k);
  }

  lemma {:induction false} RunKeepsOrder(w: World, actions: seq<Action>)
    requires OrderlyWorld(w)
    ensures OrderlyWorld(Run(w, actions))
    decreases |actions|
  {
    if actions != [] {
      NextKeepsOrder(w, actions[0]);
      RunKeepsOrder(Next(w, actions[0]), actions[1..]);
    }
  }

  // --- the charge that leaks ---------------------------------------------------------------------------------------

  // The ledger can pay the candidates of a round but not its evaluations.
  predicate HalfPayable(limits: Limits, spent: Units, amount: Units)
  {
    amount.candidates > 0 && CanSpend(limits.candidates, spent.candidates, amount.candidates) &&
    !CanSpend(limits.evaluations, spent.evaluations, amount.evaluations)
  }

  /** A refused charge leaves the ledger as it was unless the round is half payable; then it keeps the candidates. */
  lemma RefusedChargeLeaks(limits: Limits, m: Saved, k: Key)
    requires Unique(m.observations) && StatusIs(m, k, Reserved) && !Affordable(limits, m.spent, Reservation(m, k))
    ensures var q := Pay(limits, m, k); var r := Reservation(m, k);
      && q.at == Idle && q.mem.observations == m.observations
      && (q.mem.spent != m.spent <==> HalfPayable(limits, m.spent, r))
      && (HalfPayable(limits, m.spent, r) ==> q.mem.spent == m.spent.Plus(Units(r.candidates, 0)))
  {
  }

  ghost predicate LeakFree(w: World, a: Action)
  {
    a.Charge? && w.process.Some? && w.process.value.at.Charging? ==>
      !HalfPayable(w.limits, w.process.value.mem.spent, Reservation(w.process.value.mem, w.process.value.at.key))
  }

  ghost predicate LeakFreeRun(w: World, actions: seq<Action>)
    decreases |actions|
  {
    actions == [] || (LeakFree(w, actions[0]) && LeakFreeRun(Next(w, actions[0]), actions[1..]))
  }

  ghost predicate Tight(w: World)
  {
    w.disk.leaked == NOTHING && (w.older.Some? ==> w.older.value.leaked == NOTHING) &&
    (w.process.Some? ==> w.process.value.mem.leaked == NOTHING)
  }

  lemma ActKeepsLeak(limits: Limits, p: Process, a: Action)
    requires Orderly(p)
    requires a.Charge? && p.at.Charging? ==> !HalfPayable(limits, p.mem.spent, Reservation(p.mem, p.at.key))
    ensures p.mem.leaked == NOTHING ==> Act(limits, p, a).mem.leaked == NOTHING
  {
  }

  lemma {:induction false} LeakFreeRunsStayTight(w: World, actions: seq<Action>)
    requires OrderlyWorld(w) && Tight(w) && LeakFreeRun(w, actions)
    ensures Tight(Run(w, actions))
    decreases |actions|
  {
    if actions != [] {
      NextKeepsOrder(w, actions[0]);
      if w.process.Some? { ActKeepsLeak(w.limits, w.process.value, actions[0]); }
      LeakFreeRunsStayTight(Next(w, actions[0]), actions[1..]);
    }
  }

  /** Conservation: as long as no half-payable round is charged, the durable ledger is the starting one plus exactly the
      reservations of the rounds that are durably charged, in each dimension, whatever crashes and restarts there
      were. */
  lemma LedgerIsConserved(base: Units, w: World, actions: seq<Action>, d: Dimension)
    requires OrderlyWorld(w) && BalancedWorld(base, w) && Tight(w) && LeakFreeRun(w, actions)
    ensures Run(w, actions).disk.spent.Get(d) == base.Get(d) + ChargedTotal(Run(w, actions).disk.observations, d)
  {
    LedgerAgreesWithRounds(base, w, actions);
    LeakFreeRunsStayTight(w, actions);
  }

  /** A half-payable round spoils the ledger for good: the refused call leaves its candidates spent, and the next
      checkpoint of the process makes that durable although the round is still merely reserved. */
  lemma LeakBecomesDurable(w: World, k: Key, units: Units)
    requires OrderlyWorld(w) && w.process.Some? && w.process.value.at == Idle
    requires w.process.value.mem.spent == w.disk.spent
    requires Find(w.process.value.mem.observations, k).None? && k.extensions != {}
    requires HalfPayable(w.limits, w.disk.spent, units)
    ensures var v := Run(w, [Start(k, units), Save, Charge, Save]);
      v.disk.spent == w.disk.spent.Plus(Units(units.candidates, 0)) && StatusIs(v.disk, k, Reserved)
  {
    RunCallPrefixes(w, k, units);
    BegunLands(w, k, units);
    LeakIsSaved(Next(Next(w, Start(k, units)), Save), k);
  }

  lemma LeakIsSaved(w: World, k: Key)
    requires OrderlyWorld(w) && w.process.Some? && w.process.value.at == Charging(k)
    requires HalfPayable(w.limits, w.process.value.mem.spent, Reservation(w.process.value.mem, k))
    ensures var m := w.process.value.mem; var v := Next(Next(w, Charge), Save);
      v.disk.spent == m.spent.Plus(Units(Reservation(m, k).candidates, 0)) && StatusIs(v.disk, k, Reserved)
  {
    RefusedChargeLeaks(w.limits, w.process.value.mem, k);
    assert Next(w, Charge).process == Some(Pay(w.limits, w.process.value.mem, k));
  }
}
