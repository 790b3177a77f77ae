/**
 Crash-consistent budget rounds: reserve, charge, run, complete, with a checkpoint after each step.

 `World` separates what is durable (the committed checkpoint and the one it superseded) from the
 volatile process, and records two things nobody stores: which slots of work were physically
 executed, and who was handed an allowance.  An action is one step of the code, of the work it
 starts, or of the world around it: a crash or a restart may come between any two.
 */
module DurableRound {
  import opened Wrappers

  // What a measurement and a round are about.
  datatype Identity = Identity(objective: string, priorPolicy: string, parentMeta: string, body: string,
    contract: string)

  // A round is identified by its payload without the reservation: the identity and the extensions.
  datatype Key = Key(identity: Identity, extensions: set<string>)

  datatype Dimension = Candidates | Evaluations

  datatype Units = Units(candidates: nat, evaluations: nat)
  {
    function Get(d: Dimension): nat { if d == Candidates then candidates else evaluations }

    function Plus(other: Units): Units { Units(candidates + other.candidates, evaluations + other.evaluations) }

    function Less(d: Dimension): Units
      requires Get(d) > 0
    {
      if d == Candidates then Units(candidates - 1, evaluations) else Units(candidates, evaluations - 1)
    }
  }

  const NOTHING := Units(0, 0)

  // The admitted allowance of each dimension; None where the lineage declares no such dimension.
  datatype Limits = Limits(candidates: Option<int>, evaluations: Option<int>)

  function Limit(limits: Limits, d: Dimension): Option<int>
  {
    if d == Candidates then limits.candidates else limits.evaluations
  }

  datatype Status = Reserved | Charged | Completed | CrashIncomplete

  datatype Record = Record(key: Key, reserved: Units, status: Status, before: Units, after: Units)

  datatype Observation =
    | Round(record: Record)
    | Measurement(identity: Identity, mutation: string)
    | Other(text: string)

  // What a checkpoint holds of all this: the observations and the spend ledger.  `leaked` is not
  // stored; it is the part of `spent` paid by charges that failed half way.
  datatype Saved = Saved(observations: seq<Observation>, spent: Units, leaked: Units)

  // --- records in a list of observations -------------------------------------------------------------------

  predicate IsRound(o: Observation, k: Key) { o.Round? && o.record.key == k }

  function Records(s: seq<Observation>, k: Key): seq<Record>
  {
    if s == [] then [] else (if IsRound(s[0], k) then [s[0].record] else []) + Records(s[1..], k)
  }

  // Replace the record of the same round, or append.
  function Install(s: seq<Observation>, record: Record): seq<Observation>
  {
    if s == [] then [Round(record)]
    else if IsRound(s[0], record.key) then [Round(record)] + s[1..]
    else [s[0]] + Install(s[1..], record)
  }

  function Measured(s: seq<Observation>, identity: Identity): set<string>
  {
    set o | o in s && o.Measurement? && o.identity == identity :: o.mutation
  }

  predicate Complete(s: seq<Observation>, k: Key) { k.extensions <= Measured(s, k.identity) }

  function Find(s: seq<Observation>, k: Key): Option<Record>
  {
    if Records(s, k) == [] then None else Some(Records(s, k)[0])
  }

  predicate PaidStatus(status: Status) { status != Reserved }

  predicate Paid(s: seq<Observation>, k: Key) { Find(s, k).Some? && PaidStatus(Find(s, k).value.status) }

  // --- the world -----------------------------------------------------------------------------------------------

  // Where a process stands in a call for round `key`, or between calls.
  datatype Point =
    | Idle
    | SaveReserved(key: Key)
    | Charging(key: Key)
    | SaveCharged(key: Key)
    | Launching(key: Key)
    | Running(key: Key, granted: bool, unused: Units)
    | SaveCompleted(key: Key)
    | SaveCrashed(key: Key)

  datatype Process = Process(mem: Saved, at: Point)

  datatype World = World(
    limits: Limits,
    disk: Saved,
    older: Option<Saved>,
    process: Option<Process>,
    slots: multiset<(Key, Dimension)>,
    grants: multiset<Key>)

  datatype Action =
    | Start(key: Key, units: Units)
    | Save
    | Charge
    | Launch
    | Slot(dimension: Dimension)
    | Note(observation: Observation)
    | Fail
    | FailInSave
    | Finish
    | Crash
    | CrashInSave
    | Restart(superseded: bool)

  predicate CanSpend(limit: Option<int>, spent: nat, amount: nat)
  {
    amount == 0 || (limit.Some? && limit.value - spent >= amount)
  }

  // Pay candidates, then evaluations; a refusal of the second leaves the first paid.
  function ChargeSpent(limits: Limits, spent: Units, amount: Units): (Units, bool)
  {
    if !CanSpend(limits.candidates, spent.candidates, amount.candidates) then (spent, false)
    else
      var paid := spent.(candidates := spent.candidates + amount.candidates);
      if !CanSpend(limits.evaluations, spent.evaluations, amount.evaluations) then (paid, false)
      else (paid.(evaluations := paid.evaluations + amount.evaluations), true)
  }

  predicate Affordable(limits: Limits, spent: Units, amount: Units)
  {
    CanSpend(limits.candidates, spent.candidates, amount.candidates) &&
      CanSpend(limits.evaluations, spent.evaluations, amount.evaluations)
  }

  function Moved(p: Process, at: Point): Process { p.(at := at) }

  function Installed(m: Saved, record: Record): Saved
  {
    m.(observations := Install(m.observations, record))
  }

  // The first part of a call: find the record of the round and decide.
  function Begin(m: Saved, k: Key, units: Units): Process
  {
    var found := Records(m.observations, k);
    if k.extensions == {} || |found| > 1 then Process(m, Idle)
    else if found == [] then Process(Installed(m, Record(k, units, Reserved, m.spent, NOTHING)), SaveReserved(k))
    else
      match found[0].status
      case Reserved => Process(m, Charging(k))
      case Completed => Process(m, Idle)
      case CrashIncomplete => Process(m, Idle)
      case Charged =>
        if Complete(m.observations, k) then Process(m, Running(k, false, NOTHING))
        else Process(Installed(m, found[0].(status := CrashIncomplete)), SaveCrashed(k))
  }

  // The charge of a reserved round, in memory.
  function Pay(limits: Limits, m: Saved, k: Key): Process
  {
    var found := Find(m.observations, k);
    if found.None? then Process(m, Idle)
    else
      var (spent, ok) := ChargeSpent(limits, m.spent, found.value.reserved);
      if ok then Process(Installed(m, found.value.(status := Charged, after := spent)).(spent := spent), SaveCharged(k))
      else
        var leak := Units(spent.candidates - m.spent.candidates, 0);
        Process(m.(spent := spent, leaked := m.leaked.Plus(leak)), Idle)
  }

  // The end of a run: a leftover allowance is an error, otherwise the round is completed.
  function Conclude(p: Process): Process
    requires p.at.Running?
  {
    var found := Find(p.mem.observations, p.at.key);
    if p.at.unused != NOTHING || found.None? then Moved(p, Idle)
    else Process(Installed(p.mem, found.value.(status := Completed)), SaveCompleted(p.at.key))
  }

  // Points at which the call itself writes a checkpoint.
  predicate Committing(at: Point) { at.SaveReserved? || at.SaveCharged? || at.SaveCompleted? || at.SaveCrashed? }

  // A checkpoint may also be written between calls, and by the evolution under a round.
  predicate Saving(at: Point) { Committing(at) || at.Running? || at.Idle? }

  function AfterSave(at: Point): Point
  {
    match at
    case SaveReserved(k) => Charging(k)
    case SaveCharged(k) => Launching(k)
    case SaveCompleted(_) => Idle
    case SaveCrashed(_) => Idle
    case _ => at
  }

  function Noted(m: Saved, o: Observation): Saved { m.(observations := m.observations + [o]) }

  // A step of the process in its own memory; where it does not apply nothing happens.
  function Act(limits: Limits, p: Process, a: Action): Process
  {
    match a
    case Start(k, units) => if p.at == Idle then Begin(p.mem, k, units) else p
    case Charge => if p.at.Charging? then Pay(limits, p.mem, p.at.key) else p
    case Launch =>
      if !p.at.Launching? || Find(p.mem.observations, p.at.key).None? then p
      else Moved(p, Running(p.at.key, true, Find(p.mem.observations, p.at.key).value.reserved))
    case Slot(d) =>
      if !p.at.Running? then p
      else if p.at.unused.Get(d) == 0 then Moved(p, Idle)
      else Moved(p, p.at.(unused := p.at.unused.Less(d)))
    case Note(o) => if (p.at.Running? || p.at.Idle?) && !o.Round? then p.(mem := Noted(p.mem, o)) else p
    case Fail => if p.at.Running? || Committing(p.at) then Moved(p, Idle) else p
    case Finish => if p.at.Running? then Conclude(p) else p
    case _ => p
  }

  // The work a step performs, and the allowance it hands out.
  function Work(p: Process, a: Action): multiset<(Key, Dimension)>
  {
    if a.Slot? && p.at.Running? && p.at.unused.Get(a.dimension) > 0
    then multiset{(p.at.key, a.dimension)}
    else multiset{}
  }

  function Handed(p: Process, a: Action): multiset<Key>
  {
    if a.Launch? && p.at.Launching? && Find(p.mem.observations, p.at.key).Some? then multiset{p.at.key} else multiset{}
  }

  // One action; where it does not apply the world stays as it is.
  function Next(w: World, a: Action): World
  {
    match w.process
    case None =>
      if !a.Restart? then w
      else if !a.superseded then w.(process := Some(Process(w.disk, Idle)))
      else if w.older.None? then w
      else w.(process := Some(Process(w.older.value, Idle)))
    case Some(p) =>
      if a.Crash? then w.(process := None)
      else if a.CrashInSave? then (if Saving(p.at) then w.(process := None, older := Some(w.disk)) else w)
      else if a.FailInSave? then
        if Saving(p.at) then w.(process := Some(Moved(p, Idle)), older := Some(w.disk)) else w
      else if a.Save? then
        if Saving(p.at) then w.(disk := p.mem, older := Some(w.disk), process := Some(Moved(p, AfterSave(p.at)))) else w
      else
        World(w.limits, w.disk, w.older, Some(Act(w.limits, p, a)), w.slots + Work(p, a), w.grants + Handed(p, a))
  }

  function Run(w: World, actions: seq<Action>): World
    decreases |actions|
  {
    if actions == [] then w else Run(Next(w, actions[0]), actions[1..])
  }

  // --- what installing and noting do to the records --------------------------------------------------------------

  ghost predicate Unique(s: seq<Observation>) { forall k :: |Records(s, k)| <= 1 }

  // The list keeps one record per round: the installed one for its round, and every other round's as it was.
  lemma {:induction false} InstallReplaces(s: seq<Observation>, record: Record, k: Key)
    requires |Records(s, record.key)| <= 1
    ensures Records(Install(s, record), k) == if k == record.key then [record] else Records(s, k)
  {
    if s == [] {
    } else if IsRound(s[0], record.key) {
      assert ([Round(record)] + s[1..])[1..] == s[1..];
      assert |Records(s[1..], record.key)| == 0;
    } else {
      InstallReplaces(s[1..], record, k);
      assert ([s[0]] + Install(s[1..], record))[1..] == Install(s[1..], record);
    }
  }

  lemma {:induction false} RecordsHaveTheKey(s: seq<Observation>, k: Key)
    ensures forall r :: r in Records(s, k) ==> r.key == k
  {
    if s != [] { RecordsHaveTheKey(s[1..], k); }
  }

  lemma {:induction false} NoteKeepsRecords(s: seq<Observation>, o: Observation, k: Key)
    requires !o.Round?
    ensures Records(s + [o], k) == Records(s, k)
  {
    if s == [] {
      assert s + [o] == [o] && [o][1..] == [];
    } else {
      NoteKeepsRecords(s[1..], o, k);
      assert (s + [o])[1..] == s[1..] + [o];
    }
  }

  // The reservations a list of observations says were charged.
  function ChargedTotal(s: seq<Observation>, d: Dimension): nat
  {
    if s == [] then 0 else Share(s[0]).Get(d) + ChargedTotal(s[1..], d)
  }

  function Share(o: Observation): Units { if o.Round? then Cost(o.record) else NOTHING }

  function Cost(r: Record): Units { if PaidStatus(r.status) then r.reserved else NOTHING }

  function CostOf(found: Option<Record>): Units { if found.Some? then Cost(found.value) else NOTHING }

  lemma {:induction false} InstallMovesTotal(s: seq<Observation>, record: Record, d: Dimension)
    ensures ChargedTotal(Install(s, record), d) + CostOf(Find(s, record.key)).Get(d)
      == ChargedTotal(s, d) + Cost(record).Get(d)
  {
    if s == [] {
      assert [Round(record)][1..] == [];
    } else if IsRound(s[0], record.key) {
      assert ([Round(record)] + s[1..])[1..] == s[1..];
    } else {
      InstallMovesTotal(s[1..], record, d);
      assert ([s[0]] + Install(s[1..], record))[1..] == Install(s[1..], record);
    }
  }

  lemma {:induction false} NoteKeepsTotal(s: seq<Observation>, o: Observation, d: Dimension)
    requires !o.Round?
    ensures ChargedTotal(s + [o], d) == ChargedTotal(s, d)
  {
    if s == [] {
      assert s + [o] == [o] && [o][1..] == [];
    } else {
      NoteKeepsTotal(s[1..], o, d);
      assert (s + [o])[1..] == s[1..] + [o];
    }
  }

  // --- one image: what a step of the process does to its memory ----------------------------------------------------

  // How the record of one round may differ between an earlier and a later image: it appears, it is
  // charged, it ends; its reservation stays, and an ended round stays as it ended.
  predicate Moves(was: Option<Record>, now: Option<Record>)
  {
    was.None? ||
    (now.Some? && now.value.reserved == was.value.reserved &&
     match was.value.status
     case Reserved => true
     case Charged => now.value.status != Reserved
     case Completed => now.value.status == Completed
     case CrashIncomplete => now.value.status == CrashIncomplete)
  }

  ghost predicate Forward(was: Saved, now: Saved)
  {
    forall k :: Moves(Find(was.observations, k), Find(now.observations, k))
  }

  predicate StatusIs(m: Saved, k: Key, status: Status)
  {
    Find(m.observations, k).Some? && Find(m.observations, k).value.status == status
  }

  // The memory holds one record per round; the record of the round at work has the status of its stage, and names the
  // ledger it was reserved or charged at.
  ghost predicate Orderly(p: Process)
  {
    Unique(p.mem.observations) &&
    match p.at
    case Idle => true
    case SaveReserved(k) =>
      k.extensions != {} && StatusIs(p.mem, k, Reserved) && Find(p.mem.observations, k).value.before == p.mem.spent
    case Charging(k) => k.extensions != {} && StatusIs(p.mem, k, Reserved)
    case SaveCharged(k) =>
      k.extensions != {} && StatusIs(p.mem, k, Charged) && Find(p.mem.observations, k).value.after == p.mem.spent
    case Launching(k) => k.extensions != {} && StatusIs(p.mem, k, Charged)
    case Running(k, granted, unused) => StatusIs(p.mem, k, Charged) && (!granted ==> unused == NOTHING)
    case SaveCompleted(k) => StatusIs(p.mem, k, Completed)
    case SaveCrashed(k) => StatusIs(p.mem, k, CrashIncomplete)
  }

  // The ledger agrees with the records: beyond `base` it holds the charged reservations and the leaks.
  ghost predicate Balanced(base: Units, m: Saved)
  {
    forall d: Dimension :: m.spent.Get(d) == base.Get(d) + ChargedTotal(m.observations, d) + m.leaked.Get(d)
  }

  lemma InstallFinds(s: seq<Observation>, record: Record, k: Key)
    requires |Records(s, record.key)| <= 1
    ensures Find(Install(s, record), k) == if k == record.key then Some(record) else Find(s, k)
  {
    InstallReplaces(s, record, k);
  }

  lemma InstallKeepsUnique(s: seq<Observation>, record: Record)
    requires Unique(s)
    ensures Unique(Install(s, record))
  {
    forall k ensures |Records(Install(s, record), k)| <= 1 { InstallReplaces(s, record, k); }
  }

  lemma InstallMovesForward(m: Saved, record: Record)
    requires Unique(m.observations)
    requires Moves(Find(m.observations, record.key), Some(record))
    ensures Forward(m, Installed(m, record))
  {
    forall k ensures Moves(Find(m.observations, k), Find(Install(m.observations, record), k)) {
      InstallFinds(m.observations, record, k);
    }
  }

  lemma InstallEffect(m: Saved, record: Record)
    requires Unique(m.observations)
    requires Moves(Find(m.observations, record.key), Some(record))
    ensures Unique(Installed(m, record).observations) && Forward(m, Installed(m, record))
    ensures Find(Installed(m, record).observations, record.key) == Some(record)
  {
    InstallKeepsUnique(m.observations, record);
    InstallMovesForward(m, record);
    InstallFinds(m.observations, record, record.key);
  }

  lemma InstallBalances(base: Units, m: Saved, record: Record)
    requires Balanced(base, m) && Cost(record) == CostOf(Find(m.observations, record.key))
    ensures Balanced(base, Installed(m, record))
  {
    forall d: Dimension
      ensures ChargedTotal(Installed(m, record).observations, d) == ChargedTotal(m.observations, d)
    {
      InstallMovesTotal(m.observations, record, d);
    }
  }

  lemma FoundHasTheKey(s: seq<Observation>, k: Key)
    ensures Find(s, k).Some? ==> Find(s, k).value.key == k
  {
    RecordsHaveTheKey(s, k);
  }

  // --- what the observations say of a round --------------------------------------------------------------------------

  ghost predicate Recorded(s: seq<Observation>, k: Key, status: Status)
  {
    exists r :: Round(r) in s && r.key == k && r.status == status
  }

  ghost predicate Unrecorded(s: seq<Observation>, k: Key) { forall r :: Round(r) in s ==> r.key != k }

  // Some extension of the round was never measured.
  ghost predicate Unmeasured(s: seq<Observation>, k: Key)
  {
    exists e :: e in k.extensions && Measurement(k.identity, e) !in s
  }

  lemma {:induction false} RecordsAre(s: seq<Observation>, k: Key)
    ensures forall r :: r in Records(s, k) <==> Round(r) in s && r.key == k
  {
    if s != [] {
      RecordsAre(s[1..], k);
      assert s == [s[0]] + s[1..];
    }
  }

  // With one record per round, the record found is the one in the list.
  lemma FindIs(s: seq<Observation>, k: Key)
    requires |Records(s, k)| <= 1
    ensures forall r :: Find(s, k) == Some(r) <==> Round(r) in s && r.key == k
    ensures Find(s, k).None? <==> Unrecorded(s, k)
  {
    RecordsAre(s, k);
    forall r
      ensures Find(s, k) == Some(r) <==> Round(r) in s && r.key == k
    {
      assert r in Records(s, k) ==> Records(s, k) == [r];
    }
  }

  lemma StatusMeans(m: Saved, k: Key, status: Status)
    requires |Records(m.observations, k)| <= 1
    ensures StatusIs(m, k, status) <==> Recorded(m.observations, k, status)
  {
    FindIs(m.observations, k);
    if StatusIs(m, k, status) {
      var r := Find(m.observations, k).value;
      assert Round(r) in m.observations && r.key == k;
    }
  }

  lemma CompleteMeans(s: seq<Observation>, k: Key)
    ensures Complete(s, k) <==> !Unmeasured(s, k)
  {
    if Complete(s, k) {
      forall e | e in k.extensions
        ensures Measurement(k.identity, e) in s
      {
        var o :| o in s && o.Measurement? && o.identity == k.identity && o.mutation == e;
        assert o == Measurement(k.identity, e);
      }
    } else {
      var e :| e in k.extensions && e !in Measured(s, k.identity);
      assert Measurement(k.identity, e).mutation == e;
    }
  }

  // A call records the crash of exactly the charged rounds of which some measurement is missing.
  lemma BeginMeans(m: Saved, k: Key, units: Units)
    requires Unique(m.observations)
    ensures Begin(m, k, units).at.SaveCrashed? <==>
            k.extensions != {} && Recorded(m.observations, k, Charged) && Unmeasured(m.observations, k)
  {
    CompleteMeans(m.observations, k);
    StatusMeans(m, k, Charged);
  }

  lemma BeginKeeps(m: Saved, k: Key, units: Units)
    requires Unique(m.observations)
    ensures Orderly(Begin(m, k, units)) && Forward(m, Begin(m, k, units).mem)
  {
    FoundHasTheKey(m.observations, k);
    var found := Find(m.observations, k);
    if k.extensions == {} {
    } else if found.None? {
      InstallEffect(m, Record(k, units, Reserved, m.spent, NOTHING));
    } else if found.value.status == Charged && !Complete(m.observations, k) {
      InstallEffect(m, found.value.(status := CrashIncomplete));
    }
  }

  lemma BeginBalances(base: Units, m: Saved, k: Key, units: Units)
    requires Balanced(base, m)
    ensures Balanced(base, Begin(m, k, units).mem)
  {
    FoundHasTheKey(m.observations, k);
    var found := Find(m.observations, k);
    if k.extensions == {} {
    } else if found.None? {
      InstallBalances(base, m, Record(k, units, Reserved, m.spent, NOTHING));
    } else if found.value.status == Charged && !Complete(m.observations, k) {
      InstallBalances(base, m, found.value.(status := CrashIncomplete));
    }
  }

  lemma PayKeeps(limits: Limits, m: Saved, k: Key)
    requires Unique(m.observations) && StatusIs(m, k, Reserved) && k.extensions != {}
    ensures Orderly(Pay(limits, m, k)) && Forward(m, Pay(limits, m, k).mem)
  {
    FoundHasTheKey(m.observations, k);
    var found := Find(m.observations, k).value;
    var (spent, ok) := ChargeSpent(limits, m.spent, found.reserved);
    if ok { InstallEffect(m, found.(status := Charged, after := spent)); }
  }

  // A charge that goes through costs exactly the reservation; one that does not leaves at most its candidates.
  lemma PayBalances(base: Units, limits: Limits, m: Saved, k: Key)
    requires Balanced(base, m) && StatusIs(m, k, Reserved)
    ensures Balanced(base, Pay(limits, m, k).mem)
  {
    FoundHasTheKey(m.observations, k);
    var found := Find(m.observations, k).value;
    var (spent, ok) := ChargeSpent(limits, m.spent, found.reserved);
    if ok {
      var record := found.(status := Charged, after := spent);
      forall d: Dimension
        ensures ChargedTotal(Install(m.observations, record), d)
          == ChargedTotal(m.observations, d) + found.reserved.Get(d)
      {
        InstallMovesTotal(m.observations, record, d);
      }
    }
  }

  lemma ConcludeKeeps(p: Process)
    requires Orderly(p) && p.at.Running?
    ensures Orderly(Conclude(p)) && Forward(p.mem, Conclude(p).mem)
  {
    FoundHasTheKey(p.mem.observations, p.at.key);
    var found := Find(p.mem.observations, p.at.key).value;
    if p.at.unused == NOTHING { InstallEffect(p.mem, found.(status := Completed)); }
  }

  lemma ConcludeBalances(base: Units, p: Process)
    requires Orderly(p) && p.at.Running? && Balanced(base, p.mem)
    ensures Balanced(base, Conclude(p).mem)
  {
    FoundHasTheKey(p.mem.observations, p.at.key);
    var found := Find(p.mem.observations, p.at.key).value;
    if p.at.unused == NOTHING { InstallBalances(base, p.mem, found.(status := Completed)); }
  }

  lemma NoteKeeps(p: Process, o: Observation)
    requires Orderly(p) && !o.Round?
    ensures Orderly(p.(mem := Noted(p.mem, o))) && Forward(p.mem, Noted(p.mem, o))
  {
    forall k ensures Records(p.mem.observations + [o], k) == Records(p.mem.observations, k) {
      NoteKeepsRecords(p.mem.observations, o, k);
    }
  }

  lemma ActKeeps(limits: Limits, p: Process, a: Action)
    requires Orderly(p)
    ensures Orderly(Act(limits, p, a)) && Forward(p.mem, Act(limits, p, a).mem)
  {
    match a
    case Start(k, units) => if p.at == Idle { BeginKeeps(p.mem, k, units); }
    case Charge => if p.at.Charging? { PayKeeps(limits, p.mem, p.at.key); }
    case Note(o) => if (p.at.Running? || p.at.Idle?) && !o.Round? { NoteKeeps(p, o); }
    case Finish => if p.at.Running? { ConcludeKeeps(p); }
    case _ =>
  }

  lemma ActBalances(base: Units, limits: Limits, p: Process, a: Action)
    requires Orderly(p) && Balanced(base, p.mem)
    ensures Balanced(base, Act(limits, p, a).mem)
  {
    match a
    case Start(k, units) => if p.at == Idle { BeginBalances(base, p.mem, k, units); }
    case Charge => if p.at.Charging? { PayBalances(base, limits, p.mem, p.at.key); }
    case Note(o) =>
      if (p.at.Running? || p.at.Idle?) && !o.Round? {
        forall d: Dimension ensures ChargedTotal(p.mem.observations + [o], d) == ChargedTotal(p.mem.observations, d) {
          NoteKeepsTotal(p.mem.observations, o, d);
        }
      }
    case Finish => if p.at.Running? { ConcludeBalances(base, p); }
    case _ =>
  }

  // --- every run: one record per round, and a ledger that agrees with the records ------------------------------------

  ghost predicate OrderlyWorld(w: World)
  {
    Unique(w.disk.observations) &&
    (w.older.Some? ==> Unique(w.older.value.observations)) &&
    (w.process.Some? ==> Orderly(w.process.value))
  }

  ghost predicate BalancedWorld(base: Units, w: World)
  {
    Balanced(base, w.disk) &&
    (w.older.Some? ==> Balanced(base, w.older.value)) &&
    (w.process.Some? ==> Balanced(base, w.process.value.mem))
  }

  lemma NextKeepsOrder(w: World, a: Action)
    requires OrderlyWorld(w)
    ensures OrderlyWorld(Next(w, a))
  {
    if w.process.Some? { ActKeeps(w.limits, w.process.value, a); }
  }

  lemma NextKeepsBalance(base: Units, w: World, a: Action)
    requires OrderlyWorld(w) && BalancedWorld(base, w)
    ensures BalancedWorld(base, Next(w, a))
  {
    if w.process.Some? { ActBalances(base, w.limits, w.process.value, a); }
  }

  /** Over every run, whatever is restarted from: the durable ledger is what it was at the start, plus exactly the
      reservations of the rounds recorded as charged, plus what half-failed charges left behind. */
  lemma {:induction false} LedgerAgreesWithRounds(base: Units, w: World, actions: seq<Action>)
    requires OrderlyWorld(w) && BalancedWorld(base, w)
    ensures OrderlyWorld(Run(w, actions)) && BalancedWorld(base, Run(w, actions))
    decreases |actions|
  {
    if actions != [] {
      NextKeepsOrder(w, actions[0]);
      NextKeepsBalance(base, w, actions[0]);
      LedgerAgreesWithRounds(base, Next(w, actions[0]), actions[1..]);
    }
  }

  // --- the status of a round over whole runs -------------------------------------------------------------------

  lemma ForwardTransitive(a: Saved, b: Saved, c: Saved)
    requires Forward(a, b) && Forward(b, c)
    ensures Forward(a, c)
  {
    forall k ensures Moves(Find(a.observations, k), Find(c.observations, k)) {
      assert Moves(Find(a.observations, k), Find(b.observations, k));
      assert Moves(Find(b.observations, k), Find(c.observations, k));
    }
  }

  // A restart from the superseded checkpoint loses no progress when that image is no older in any round.
  ghost predicate ForwardStep(w: World, a: Action)
  {
    a == Restart(true) && w.process.None? && w.older.Some? ==> Forward(w.disk, w.older.value)
  }

  ghost predicate ForwardRun(w: World, actions: seq<Action>)
    decreases |actions|
  {
    actions == [] || (ForwardStep(w, actions[0]) && ForwardRun(Next(w, actions[0]), actions[1..]))
  }

  ghost predicate Advancing(start: Saved, w: World)
  {
    OrderlyWorld(w) && Forward(start, w.disk) && (w.process.Some? ==> Forward(w.disk, w.process.value.mem))
  }

  lemma NextAdvances(start: Saved, w: World, a: Action)
    requires Advancing(start, w) && ForwardStep(w, a)
    ensures Advancing(start, Next(w, a))
  {
    NextKeepsOrder(w, a);
    if w.process.Some? {
      var p := w.process.value;
      ActKeeps(w.limits, p, a);
      ForwardTransitive(w.disk, p.mem, Act(w.limits, p, a).mem);
      ForwardTransitive(start, w.disk, p.mem);
    }
  }

  /** Durable records never vanish and never change their reservation; their status moves from reserved to charged to
      completed or crash_incomplete, and an ended round stays as it ended: over every run whose superseded restarts
      lose no progress. */
  lemma {:induction false} StatusOnlyMovesForward(start: Saved, w: World, actions: seq<Action>)
    requires Advancing(start, w) && ForwardRun(w, actions)
    ensures Advancing(start, Run(w, actions))
    decreases |actions|
  {
    if actions != [] {
      NextAdvances(start, w, actions[0]);
      StatusOnlyMovesForward(start, Next(w, actions[0]), actions[1..]);
    }
  }

  lemma RunTwo(w: World, a: Action, b: Action)
    ensures Run(w, [a, b]) == Next(Next(w, a), b)
  {
    assert [a, b][1..] == [b] && [b][1..] == [];
    assert Run(Next(w, a), [b]) == Run(Next(Next(w, a), b), []);
  }

  /** The condition is exact: a superseded restart and the next checkpoint keep every durable status moving forward if
      and only if the superseded image was no older than the committed one in any round. */
  lemma SupersededRestartMovesForward(w: World)
    requires w.process.None? && w.older.Some?
    ensures Run(w, [Restart(true), Save]).disk == w.older.value
    ensures Forward(w.disk, Run(w, [Restart(true), Save]).disk) <==> ForwardStep(w, Restart(true))
  {
    RunTwo(w, Restart(true), Save);
  }

  // A run that consumed its allowance ends in a checkpoint that supersedes the one that charged the round.
  lemma EndSupersedesCharge(w: World, k: Key)
    requires OrderlyWorld(w) && w.process.Some? && w.process.value.at.Running? && w.process.value.at.key == k
    requires w.process.value.at.unused == NOTHING && StatusIs(w.disk, k, Charged)
    ensures var v := Next(Next(w, Finish), Save);
      v.older == Some(w.disk) && v.process.Some? && StatusIs(v.disk, k, Completed)
  {
    var p := w.process.value;
    ConcludeKeeps(p);
    assert Next(w, Finish).process == Some(Conclude(p));
  }

  /** It fails after the ordinary end of any round: a crash, a superseded restart and the next checkpoint make the
      completed round charged again. */
  lemma CompletedRoundIsRolledBack(w: World, k: Key)
    requires OrderlyWorld(w) && w.process.Some? && w.process.value.at.Running? && w.process.value.at.key == k
    requires w.process.value.at.unused == NOTHING && StatusIs(w.disk, k, Charged)
    ensures var ended := Next(Next(w, Finish), Save);
      && StatusIs(ended.disk, k, Completed)
      && StatusIs(Run(ended, [Crash] + [Restart(true), Save]).disk, k, Charged)
      && !ForwardStep(Next(ended, Crash), Restart(true))
  {
    EndSupersedesCharge(w, k);
    var ended := Next(Next(w, Finish), Save);
    var down := Next(ended, Crash);
    assert ([Crash] + [Restart(true), Save])[1..] == [Restart(true), Save];
    assert down.older == Some(w.disk) && down.disk == ended.disk && down.process.None?;
    SupersededRestartMovesForward(down);
    assert !Moves(Find(down.disk.observations, k), Find(down.older.value.observations, k));
  }
}
