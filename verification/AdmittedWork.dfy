/**
 The budget over all rounds together: the work physically executed never exceeds what the durable
 ledger has paid for, nor what was admitted.
 */
module AdmittedWork {
  import opened Wrappers
  import opened DurableRound
  import NoRedraw

  // The executed slots of one dimension, by round.
  ghost function Only(slots: multiset<(Key, Dimension)>, d: Dimension): (m: multiset<Key>)
    ensures forall k :: m[k] == slots[(k, d)]
    decreases |slots|
  {
    if slots == multiset{} then multiset{}
    else
      var slot :| slot in slots;
      var rest := Only(slots - multiset{slot}, d);
      if slot.1 == d then rest + multiset{slot.0} else rest
  }

  ghost function Executed(w: World, d: Dimension): nat { |Only(w.slots, d)| }

  // Work that stays within the cost of each recorded round stays within their total.
  lemma {:induction false} WorkFits(s: seq<Observation>, work: multiset<Key>, d: Dimension)
    requires forall k :: work[k] <= CostOf(Find(s, k)).Get(d)
    ensures |work| <= ChargedTotal(s, d)
    decreases |s|
  {
    if s == [] {
      assert forall k :: work[k] == 0;
      assert work == multiset{};
    } else {
      var rest := if s[0].Round? then work[s[0].record.key := 0] else work;
      forall k ensures rest[k] <= CostOf(Find(s[1..], k)).Get(d) {
        FindRest(s, k);
      }
      WorkFits(s[1..], rest, d);
      if s[0].Round? {
        assert work[s[0].record.key] <= Cost(s[0].record).Get(d);
      }
    }
  }

  lemma FindRest(s: seq<Observation>, k: Key)
    requires s != []
    ensures Find(s, k) == if IsRound(s[0], k) then Some(s[0].record) else Find(s[1..], k)
  {
  }

  // --- the admitted limits -----------------------------------------------------------------------------------

  predicate WithinLimit(limits: Limits, spent: Units, d: Dimension)
  {
    spent.Get(d) == 0 || (Limit(limits, d).Some? && spent.Get(d) <= Limit(limits, d).value)
  }

  ghost predicate Admitted(limits: Limits, m: Saved) { forall d :: WithinLimit(limits, m.spent, d) }

  ghost predicate AdmittedWorld(w: World)
  {
    Admitted(w.limits, w.disk) &&
    (w.older.Some? ==> Admitted(w.limits, w.older.value)) &&
    (w.process.Some? ==> Admitted(w.limits, w.process.value.mem))
  }

  // Charging is the only step that spends, and it asks the limits first.
  lemma ActStaysAdmitted(limits: Limits, p: Process, a: Action)
    requires Admitted(limits, p.mem)
    ensures Admitted(limits, Act(limits, p, a).mem)
  {
    if a.Charge? && p.at.Charging? && Find(p.mem.observations, p.at.key).Some? {
      var reserved := Find(p.mem.observations, p.at.key).value.reserved;
      forall d ensures WithinLimit(limits, ChargeSpent(limits, p.mem.spent, reserved).0, d) {
        assert WithinLimit(limits, p.mem.spent, d);
      }
    } else {
      assert Act(limits, p, a).mem.spent == p.mem.spent;
    }
  }

  lemma {:induction false} RunStaysAdmitted(w: World, actions: seq<Action>)
    requires AdmittedWorld(w)
    ensures AdmittedWorld(Run(w, actions)) && Run(w, actions).limits == w.limits
    decreases |actions|
  {
    if actions != [] {
      if w.process.Some? { ActStaysAdmitted(w.limits, w.process.value, actions[0]); }
      RunStaysAdmitted(Next(w, actions[0]), actions[1..]);
    }
  }

  /** Over every sequence of calls, crashes and safe restarts, all rounds together: the slots executed in a dimension
      are covered by the durably charged reservations, so by what the durable ledger has spent since the start, so by
      what the admitted limit left. */
  lemma ExecutedWorkIsAdmitted(base: Units, w: World, actions: seq<Action>, d: Dimension)
    requires NoRedraw.Untouched(w) && NoRedraw.SafeRun(w, actions)
    requires BalancedWorld(base, w) && AdmittedWorld(w)
    ensures var v := Run(w, actions);
      && Executed(v, d) <= ChargedTotal(v.disk.observations, d)
      && base.Get(d) + Executed(v, d) <= v.disk.spent.Get(d)
      && (Executed(v, d) > 0 ==> Limit(w.limits, d).Some? && base.Get(d) + Executed(v, d) <= Limit(w.limits, d).value)
  {
    var v := Run(w, actions);
    LedgerAgreesWithRounds(base, w, actions);
    RunStaysAdmitted(w, actions);
    forall k ensures Only(v.slots, d)[k] <= CostOf(Find(v.disk.observations, k)).Get(d) {
      NoRedraw.NoRoundIsRedrawn(w, actions, k, d);
    }
    WorkFits(v.disk.observations, Only(v.slots, d), d);
    assert WithinLimit(w.limits, v.disk.spent, d);
  }
}
