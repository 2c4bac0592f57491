/** What every run of group operations keeps, and what failover decides from a live or a stale view. */
module PumpSafety {
  import opened Results
  import opened PumpState
  import Strings

  /** Unit ids are non-empty and distinct, which adding a unit does not check. */
  predicate DistinctIds(s: GroupState) {
    && (forall i :: 0 <= i < |s.units| ==> s.units[i].id != "")
    && (forall i, j :: 0 <= i < j < |s.units| ==> s.units[i].id != s.units[j].id)
  }

  /** At most one unit runs; the active unit is empty when none runs and names the running one otherwise. */
  predicate OneRunning(s: GroupState) {
    && (forall i, j :: 0 <= i < j < |s.units| ==> !(s.units[i].status == Running && s.units[j].status == Running))
    && (s.active == "" <==> forall i :: 0 <= i < |s.units| ==> s.units[i].status != Running)
    && (s.active != "" ==> exists i :: 0 <= i < |s.units| && s.units[i].id == s.active && s.units[i].status == Running)
  }

  predicate NoLockedRunning(s: GroupState) {
    forall i :: 0 <= i < |s.units| ==> !(s.units[i].locked && s.units[i].status == Running)
  }

  // The same invariant unit by unit, which is easier to carry through a step.

  predicate Coherent(s: GroupState) {
    && (forall i :: 0 <= i < |s.units| ==> (s.units[i].status == Running <==> s.units[i].id == s.active))
    && (s.active == "" || exists i :: 0 <= i < |s.units| && s.units[i].id == s.active)
  }

  lemma {:induction false} CoherentIsOneRunning(s: GroupState)
    requires DistinctIds(s)
    ensures Coherent(s) <==> OneRunning(s)
  {
    if OneRunning(s) && s.active != "" {
      var k :| 0 <= k < |s.units| && s.units[k].id == s.active && s.units[k].status == Running;
      forall i | 0 <= i < |s.units| ensures s.units[i].status == Running <==> s.units[i].id == s.active {
        assert i < k || i == k || k < i;
      }
    }
  }

  datatype Op =
    | Add(id: string, name: string)
    | StartUnit(id: string)
    | StopUnit(id: string)
    | Lock(id: string)
    | Release(id: string, saved: Outcome)
    | Trip(id: string)
    | Vibration(id: string, value: real)
    | Target(mpa: real)
    | Discharge(mpa: real)
    | Send(command: Command)
    | SendAll(commands: seq<Command>)
    | Adjust(mpa: real)
    | FailoverOn(view: View)
    | LiveFailover

  function Do(s: GroupState, op: Op): GroupState {
    match op
    case Add(id, name) => Adding(s, id, name)
    case StartUnit(id) => Starting(s, id).state
    case StopUnit(id) => Stopping(s, id).state
    case Lock(id) => Locking(s, id).state
    case Release(id, saved) => Releasing(s, id, saved).state
    case Trip(id) => Tripping(s, id).state
    case Vibration(id, value) => Vibrating(s, id, value).state
    case Target(mpa) => Targeting(s, mpa).state
    case Discharge(mpa) => Discharging(s, mpa).state
    case Send(command) => Applying(s, command).state
    case SendAll(commands) => ApplyingAll(s, commands).state
    case Adjust(mpa) => Adjusting(s, mpa).state
    case FailoverOn(view) => FailingOver(s, view).state
    case LiveFailover => FailingOverLive(s).state
  }

  function Run(s: GroupState, ops: seq<Op>): GroupState {
    if ops == [] then s else Do(Run(s, ops[..|ops| - 1]), ops[|ops| - 1])
  }

  /** Every added id is new and non-empty when it is added. */
  predicate AddsFresh(s: GroupState, ops: seq<Op>) {
    ops == [] ||
    (AddsFresh(s, ops[..|ops| - 1]) &&
     var last := ops[|ops| - 1];
     last.Add? ==> last.id != "" && forall u :: u in Run(s, ops[..|ops| - 1]).units ==> u.id != last.id)
  }

  /** The view does not show a locked primary as running. */
  predicate SafeView(s: GroupState, view: View) {
    !(PrimaryRuns(s.units, view) && s.units[0].locked)
  }

  predicate ViewsSafe(s: GroupState, ops: seq<Op>) {
    ops == [] ||
    (ViewsSafe(s, ops[..|ops| - 1]) &&
     var last := ops[|ops| - 1];
     last.FailoverOn? ==> SafeView(Run(s, ops[..|ops| - 1]), last.view))
  }

  // One step.

  /** Failover never picks an id outside the group. */
  lemma {:induction false} EligibleIdsAreUnits(units: seq<UnitState>, view: View)
    ensures forall id :: id in EligibleIds(units, view)
                    <==> exists i :: 0 <= i < |units| && units[i].id == id && Eligible(units[i], view)
  {
    if units != [] {
      var n := |units| - 1;
      EligibleIdsAreUnits(units[..n], view);
      forall id ensures id in EligibleIds(units, view)
                    <==> exists i :: 0 <= i < |units| && units[i].id == id && Eligible(units[i], view)
      {
        if id in EligibleIds(units[..n], view) {
          var i :| 0 <= i < n && units[..n][i].id == id && Eligible(units[..n][i], view);
          assert units[i].id == id && Eligible(units[i], view);
        }
        if i :| 0 <= i < |units| && units[i].id == id && Eligible(units[i], view) {
          if i < n { assert units[..n][i].id == id && Eligible(units[..n][i], view); }
        }
      }
    }
  }

  lemma {:induction false} ChoiceIsUnit(units: seq<UnitState>, view: View)
    ensures Choice(units, view) != "" ==>
              exists i :: 0 <= i < |units| && units[i].id == Choice(units, view)
                          && (if PrimaryRuns(units, view) then i == 0 else Eligible(units[i], view))
  {
    EligibleIdsAreUnits(units, view);
    var healthy := EligibleIds(units, view);
    if healthy != [] { Strings.SortedHeadIsLeast(healthy); }
  }

  lemma {:induction false} SwitchKeeps(s: GroupState, chosen: string)
    requires DistinctIds(s) && exists i :: 0 <= i < |s.units| && s.units[i].id == chosen
    ensures DistinctIds(SwitchTo(s, chosen)) && Coherent(SwitchTo(s, chosen))
  {
    var k :| 0 <= k < |s.units| && s.units[k].id == chosen;
    var t := SwitchTo(s, chosen);
    assert t.units[k].id == t.active;
  }

  lemma {:induction false} SwitchLocksIff(s: GroupState, chosen: string)
    ensures NoLockedRunning(SwitchTo(s, chosen)) <==>
              forall i :: 0 <= i < |s.units| && s.units[i].id == chosen ==> !s.units[i].locked
  {
    var t := SwitchTo(s, chosen);
    forall i | 0 <= i < |s.units|
      ensures t.units[i].locked == s.units[i].locked && (t.units[i].status == Running <==> s.units[i].id == chosen)
    {}
  }

  lemma {:induction false} RetireKeeps(s: GroupState, k: nat, u: UnitState)
    requires DistinctIds(s) && k < |s.units| && u.id == s.units[k].id && u.status != Running
    ensures var t := Retire(s, k, u);
            && DistinctIds(t)
            && (Coherent(s) ==> Coherent(t))
            && (NoLockedRunning(s) ==> NoLockedRunning(t))
  {
    var t := Retire(s, k, u);
    if Coherent(s) && t.active != "" {
      var i :| 0 <= i < |s.units| && s.units[i].id == s.active;
      assert t.units[i].id == t.active;
    }
  }

  /** A unit that keeps its id and status leaves the one-running invariant alone. */
  lemma {:induction false} ReplaceKeeps(s: GroupState, k: nat, u: UnitState)
    requires DistinctIds(s) && k < |s.units| && u.id == s.units[k].id
    requires u.status == s.units[k].status || (u.status != Running && s.units[k].status != Running)
    ensures var t := s.(units := s.units[k := u]);
            && DistinctIds(t)
            && (Coherent(s) ==> Coherent(t))
            && (NoLockedRunning(s) && (u.locked ==> s.units[k].locked) ==> NoLockedRunning(t))
  {
    var t := s.(units := s.units[k := u]);
    if Coherent(s) && t.active != "" {
      var i :| 0 <= i < |s.units| && s.units[i].id == s.active;
      assert t.units[i].id == t.active;
    }
  }

  lemma {:induction false} StartKeeps(s: GroupState, id: string)
    requires DistinctIds(s)
    ensures var t := Starting(s, id).state;
            && DistinctIds(t)
            && (Coherent(s) ==> Coherent(t))
            && (NoLockedRunning(s) ==> NoLockedRunning(t))
  {
    var k := Find(s.units, id);
    if k < |s.units| && !s.units[k].locked {
      SwitchKeeps(s, id);
      SwitchLocksIff(s, id);
      forall i | 0 <= i < |s.units| && s.units[i].id == id ensures i == k {}
    }
  }

  lemma {:induction false} ApplyKeeps(s: GroupState, command: Command)
    requires DistinctIds(s)
    ensures var t := Applying(s, command).state;
            && DistinctIds(t)
            && (Coherent(s) ==> Coherent(t))
            && (NoLockedRunning(s) ==> NoLockedRunning(t))
  {
    var k := Find(s.units, command.unit);
    match command.action
    case Start => StartKeeps(s, command.unit);
    case Stop => if k < |s.units| { RetireKeeps(s, k, s.units[k].(status := Standby)); }
    case SetTarget =>
    case Unknown(_) =>
  }

  lemma {:induction false} ApplyAllKeeps(s: GroupState, commands: seq<Command>)
    requires DistinctIds(s)
    ensures var t := ApplyingAll(s, commands).state;
            && DistinctIds(t)
            && (Coherent(s) ==> Coherent(t))
            && (NoLockedRunning(s) ==> NoLockedRunning(t))
    decreases |commands|
  {
    if commands != [] {
      ApplyKeeps(s, commands[0]);
      ApplyAllKeeps(Applying(s, commands[0]).state, commands[1..]);
    }
  }

  /** Lockout survives failover on a view exactly when that view does not show a locked primary as running. */
  lemma {:induction false} FailoverKeepsLockoutIff(s: GroupState, view: View)
    requires DistinctIds(s) && NoLockedRunning(s)
    ensures NoLockedRunning(FailingOver(s, view).state) <==> SafeView(s, view)
  {
    ChoiceIsUnit(s.units, view);
    var chosen := Choice(s.units, view);
    if chosen != "" {
      var k :| 0 <= k < |s.units| && s.units[k].id == chosen
                && (if PrimaryRuns(s.units, view) then k == 0 else Eligible(s.units[k], view));
      SwitchLocksIff(s, chosen);
      forall i | 0 <= i < |s.units| && s.units[i].id == chosen ensures i == k {}
    }
  }

  /** Under distinct ids a group reports every unit's own status. */
  lemma {:induction false} LiveShowsStatus(units: seq<UnitState>)
    requires forall i, j :: 0 <= i < j < |units| ==> units[i].id != units[j].id
    ensures forall i :: 0 <= i < |units| ==> Seen(Statuses(units), units[i].id) == units[i].status
  {
    if units != [] {
      var n := |units| - 1;
      LiveShowsStatus(units[..n]);
      forall i | 0 <= i < n ensures Seen(Statuses(units), units[i].id) == units[i].status {
        assert units[..n][i] == units[i];
        assert Seen(Statuses(units[..n]), units[i].id) == units[i].status;
      }
    }
  }

  lemma {:induction false} FailoverKeeps(s: GroupState, view: View)
    requires DistinctIds(s)
    ensures var t := FailingOver(s, view).state; DistinctIds(t) && (Coherent(s) ==> Coherent(t))
  {
    ChoiceIsUnit(s.units, view);
    if Choice(s.units, view) != "" { SwitchKeeps(s, Choice(s.units, view)); }
  }

  lemma {:induction false} AdjustKeeps(s: GroupState, mpa: real)
    requires DistinctIds(s)
    ensures var t := Adjusting(s, mpa).state;
            && DistinctIds(t)
            && (Coherent(s) ==> Coherent(t))
            && (NoLockedRunning(s) ==> NoLockedRunning(t))
  {
    var k := FirstRunning(s.units);
    if AnyOverLimit(s) && k < |s.units| {
      var m := Find(s.units, s.units[k].id);
      RetireKeeps(s, m, s.units[m].(status := Stopped));
    }
  }

  /**
   * One step keeps distinct ids and the one-running invariant; it keeps lockout unless failover reads an unsafe view.
   */
  lemma {:induction false} StepKeeps(s: GroupState, op: Op)
    requires DistinctIds(s)
    requires op.Add? ==> op.id != "" && forall u :: u in s.units ==> u.id != op.id
    ensures DistinctIds(Do(s, op))
    ensures Coherent(s) ==> Coherent(Do(s, op))
    ensures NoLockedRunning(s) && (op.FailoverOn? ==> SafeView(s, op.view)) ==> NoLockedRunning(Do(s, op))
  {
    match op
    case Add(id, name) => AddKeeps(s, id, name);
    case FailoverOn(view) => FailoverStepKeeps(s, view);
    case LiveFailover =>
      FailoverStepKeeps(s, Statuses(s.units));
      LiveShowsStatus(s.units);
    case _ => SafeStepKeeps(s, op);
  }

  /** A step that adds no unit and is no failover keeps all three invariants outright. */
  lemma {:induction false} SafeStepKeeps(s: GroupState, op: Op)
    requires DistinctIds(s) && !op.Add? && !op.FailoverOn? && !op.LiveFailover?
    ensures DistinctIds(Do(s, op))
    ensures Coherent(s) ==> Coherent(Do(s, op))
    ensures NoLockedRunning(s) ==> NoLockedRunning(Do(s, op))
  {
    match op
    case StartUnit(id) => StartKeeps(s, id);
    case Send(command) => ApplyKeeps(s, command);
    case SendAll(commands) => ApplyAllKeeps(s, commands);
    case Adjust(mpa) => AdjustKeeps(s, mpa);
    case Target(_) =>
    case Discharge(_) =>
    case Release(id, saved) => ReleaseKeeps(s, id, saved);
    case Vibration(id, value) => VibrationKeeps(s, id, value);
    case _ => RetiringStepKeeps(s, op);
  }

  lemma {:induction false} FailoverStepKeeps(s: GroupState, view: View)
    requires DistinctIds(s)
    ensures var t := FailingOver(s, view).state;
            && DistinctIds(t)
            && (Coherent(s) ==> Coherent(t))
            && (NoLockedRunning(s) && SafeView(s, view) ==> NoLockedRunning(t))
  {
    FailoverKeeps(s, view);
    if NoLockedRunning(s) { FailoverKeepsLockoutIff(s, view); }
  }

  lemma {:induction false} ReleaseKeeps(s: GroupState, id: string, saved: Outcome)
    requires DistinctIds(s)
    ensures var t := Releasing(s, id, saved).state;
            && DistinctIds(t)
            && (Coherent(s) ==> Coherent(t))
            && (NoLockedRunning(s) ==> NoLockedRunning(t))
  {
    var k := Find(s.units, id);
    if k < |s.units| {
      var u := s.units[k];
      ReplaceKeeps(s, k, u.(locked := false, status := if u.status == Maintenance then Standby else u.status));
    }
  }

  lemma {:induction false} VibrationKeeps(s: GroupState, id: string, value: real)
    requires DistinctIds(s)
    ensures var t := Vibrating(s, id, value).state;
            && DistinctIds(t)
            && (Coherent(s) ==> Coherent(t))
            && (NoLockedRunning(s) ==> NoLockedRunning(t))
  {
    var k := Find(s.units, id);
    if k < |s.units| { ReplaceKeeps(s, k, s.units[k].(vibration := value)); }
  }

  lemma {:induction false} AddKeeps(s: GroupState, id: string, name: string)
    requires DistinctIds(s) && id != "" && forall u :: u in s.units ==> u.id != id
    ensures DistinctIds(Adding(s, id, name))
    ensures Coherent(s) ==> Coherent(Adding(s, id, name))
    ensures NoLockedRunning(s) ==> NoLockedRunning(Adding(s, id, name))
  {
    var t := Adding(s, id, name);
    var n := |s.units|;
    assert forall i :: 0 <= i < n ==> t.units[i] == s.units[i] && s.units[i].id != id by {
      forall i | 0 <= i < n ensures s.units[i].id != id { assert s.units[i] in s.units; }
    }
    assert t.units[n].id == id && t.units[n].status == Standby;
    if Coherent(s) && s.active != "" {
      var i :| 0 <= i < n && s.units[i].id == s.active;
      assert t.units[i].id == t.active;
    }
  }

  lemma {:induction false} RetiringStepKeeps(s: GroupState, op: Op)
    requires DistinctIds(s) && (op.StopUnit? || op.Lock? || op.Trip?)
    ensures DistinctIds(Do(s, op))
    ensures Coherent(s) ==> Coherent(Do(s, op))
    ensures NoLockedRunning(s) ==> NoLockedRunning(Do(s, op))
  {
    var k := Find(s.units, op.id);
    if k < |s.units| {
      var u := s.units[k];
      RetireKeeps(s, k, match op
                        case StopUnit(_) => u.(status := Standby)
                        case Trip(_) => u.(status := Stopped)
                        case _ => u.(locked := true, status := Maintenance));
    }
  }

  // Whole runs.

  /** In every run, with failover on any views, at most one unit runs and the active unit names it. */
  lemma {:induction false} OneRunningAlways(s: GroupState, ops: seq<Op>)
    requires DistinctIds(s) && OneRunning(s) && AddsFresh(s, ops)
    ensures DistinctIds(Run(s, ops)) && OneRunning(Run(s, ops))
  {
    if ops != [] {
      var before := ops[..|ops| - 1];
      OneRunningAlways(s, before);
      CoherentIsOneRunning(Run(s, before));
      StepKeeps(Run(s, before), ops[|ops| - 1]);
      CoherentIsOneRunning(Run(s, ops));
    }
  }

  /** In every run whose cached views are safe, and so in every run of live failovers, no locked unit runs. */
  lemma {:induction false} LockedNeverRuns(s: GroupState, ops: seq<Op>)
    requires DistinctIds(s) && NoLockedRunning(s) && AddsFresh(s, ops) && ViewsSafe(s, ops)
    ensures DistinctIds(Run(s, ops)) && NoLockedRunning(Run(s, ops))
  {
    if ops != [] {
      var before := ops[..|ops| - 1];
      LockedNeverRuns(s, before);
      StepKeeps(Run(s, before), ops[|ops| - 1]);
    }
  }

  /** No locked unit runs at any point of a run. */
  ghost predicate LockoutThroughout(s: GroupState, ops: seq<Op>) {
    forall n :: 0 <= n <= |ops| ==> NoLockedRunning(Run(s, ops[..n]))
  }

  lemma {:induction false} ThroughoutMore(s: GroupState, ops: seq<Op>)
    requires ops != []
    ensures LockoutThroughout(s, ops) <==> LockoutThroughout(s, ops[..|ops| - 1]) && NoLockedRunning(Run(s, ops))
  {
    var before := ops[..|ops| - 1];
    if LockoutThroughout(s, ops) {
      forall n | 0 <= n <= |before| ensures NoLockedRunning(Run(s, before[..n])) {
        assert before[..n] == ops[..n];
      }
      assert ops[..|ops|] == ops;
    }
    if LockoutThroughout(s, before) && NoLockedRunning(Run(s, ops)) {
      forall n | 0 <= n <= |ops| ensures NoLockedRunning(Run(s, ops[..n])) {
        if n == |ops| { assert ops[..n] == ops; } else { assert ops[..n] == before[..n]; }
      }
    }
  }

  /** One step keeps lockout exactly when it is not a failover on an unsafe view. */
  lemma {:induction false} StepKeepsLockoutIff(s: GroupState, op: Op)
    requires DistinctIds(s) && NoLockedRunning(s)
    requires op.Add? ==> op.id != "" && forall u :: u in s.units ==> u.id != op.id
    ensures NoLockedRunning(Do(s, op)) <==> (op.FailoverOn? ==> SafeView(s, op.view))
  {
    if op.FailoverOn? { FailoverKeepsLockoutIff(s, op.view); } else { StepKeeps(s, op); }
  }

  /**
   * No locked unit runs at any point of a run if and only if no failover of it reads a view that shows a locked
   * primary as running.
   */
  lemma {:induction false} LockoutThroughoutIff(s: GroupState, ops: seq<Op>)
    requires DistinctIds(s) && NoLockedRunning(s) && AddsFresh(s, ops)
    ensures LockoutThroughout(s, ops) <==> ViewsSafe(s, ops)
  {
    if ops == [] {
      assert ops[..0] == [];
    } else {
      var before := ops[..|ops| - 1];
      LockoutThroughoutIff(s, before);
      ThroughoutMore(s, ops);
      if ViewsSafe(s, before) {
        LockedNeverRuns(s, before);
        StepKeepsLockoutIff(Run(s, before), ops[|ops| - 1]);
      }
    }
  }

  /** Start u-1, refresh the cache, lock u-1, fail over on the cache: the locked unit runs again. */
  lemma {:induction false} StaleViewRunsLockedUnit()
    ensures var s := GroupState("g-1", "st-1", "", [UnitState("u-1", "", Standby, false, 0.0),
                                                    UnitState("u-2", "", Standby, false, 0.0)], "", 0.0, 0.0);
            var cached := Statuses(Run(s, [StartUnit("u-1")]).units);
            var end := Run(s, [StartUnit("u-1"), Lock("u-1"), FailoverOn(cached)]);
            UnitState("u-1", "", Running, true, 0.0) in end.units
  {
    var s := GroupState("g-1", "st-1", "", [UnitState("u-1", "", Standby, false, 0.0),
                                            UnitState("u-2", "", Standby, false, 0.0)], "", 0.0, 0.0);
    var started := Do(s, StartUnit("u-1"));
    var locked := Do(started, Lock("u-1"));
    DistinctPair(s);
    StepKeeps(s, StartUnit("u-1"));
    LiveShowsStatus(started.units);
    var cached := Statuses(started.units);
    assert started.units[0].id == "u-1" && started.units[0].status == Running;
    assert Seen(cached, "u-1") == Running;
    RunThree(s, StartUnit("u-1"), Lock("u-1"), FailoverOn(cached));
    assert Do(locked, FailoverOn(cached)).units[0] == UnitState("u-1", "", Running, true, 0.0);
  }

  lemma {:induction false} RunThree(s: GroupState, a: Op, b: Op, c: Op)
    ensures Run(s, [a]) == Do(s, a) && Run(s, [a, b, c]) == Do(Do(Do(s, a), b), c)
  {
    assert Run(s, [a]) == Do(s, a) by {
      assert [] + [a] == [a];
      RunSnoc(s, [], a);
    }
    assert Run(s, [a, b]) == Do(Run(s, [a]), b) by {
      assert [a] + [b] == [a, b];
      RunSnoc(s, [a], b);
    }
    assert Run(s, [a, b, c]) == Do(Run(s, [a, b]), c) by {
      assert [a, b] + [c] == [a, b, c];
      RunSnoc(s, [a, b], c);
    }
  }

  lemma {:induction false} RunSnoc(s: GroupState, ops: seq<Op>, op: Op)
    ensures Run(s, ops + [op]) == Do(Run(s, ops), op)
  {
    assert (ops + [op])[..|ops|] == ops;
  }

  lemma {:induction false} DistinctPair(s: GroupState)
    requires |s.units| == 2 && s.units[0].id == "u-1" && s.units[1].id == "u-2"
    ensures DistinctIds(s)
  {
    assert "u-1"[2] != "u-2"[2];
  }

  // Failover on the live view.

  /** The live choice: the primary while it runs, else the least id that may run, else none. */
  lemma {:induction false} LiveChoice(s: GroupState)
    requires DistinctIds(s)
    ensures var chosen := Choice(s.units, Statuses(s.units));
            if s.units != [] && s.units[0].status == Running then chosen == s.units[0].id
            else if HealthyIds(s) != {} then
              chosen in HealthyIds(s) && forall id :: id in HealthyIds(s) ==> Strings.AtMost(chosen, id)
            else chosen == ""
  {
    var view := Statuses(s.units);
    var healthy := EligibleIds(s.units, view);
    LiveShowsStatus(s.units);
    EligibleIdsAreUnits(s.units, view);
    forall id ensures id in healthy <==> id in HealthyIds(s) {
      if id in healthy {
        var i :| 0 <= i < |s.units| && s.units[i].id == id && Eligible(s.units[i], view);
        assert s.units[i] in s.units;
      }
    }
    if healthy != [] {
      Strings.SortedHeadIsLeast(healthy);
      assert healthy[0] in HealthyIds(s);
    }
  }

  /** Live failover fails exactly when the primary is not running and no unit may run. */
  lemma {:induction false} LiveFailsIff(s: GroupState)
    requires DistinctIds(s)
    ensures FailingOverLive(s).outcome.Err?
            <==> !(s.units != [] && s.units[0].status == Running) && HealthyIds(s) == {}
  {
    LiveChoice(s);
    forall id | id in HealthyIds(s) ensures id != "" {
      var u :| u in s.units && u.id == id;
    }
  }

  lemma {:induction false} HandOverKeepsHealthy(s: GroupState, chosen: string)
    requires DistinctIds(s)
    requires exists u :: u in s.units && u.id == chosen && Usable(u.status)
    ensures HealthyIds(SwitchTo(s, chosen)) == HealthyIds(s)
  {
    var t := SwitchTo(s, chosen);
    forall i | 0 <= i < |s.units|
      ensures Usable(t.units[i].status) == Usable(s.units[i].status)
    {
      var u :| u in s.units && u.id == chosen && Usable(u.status);
      var k :| 0 <= k < |s.units| && s.units[k] == u;
      assert s.units[i].id == chosen ==> i == k;
    }
    forall id ensures id in HealthyIds(t) <==> id in HealthyIds(s) {
      if id in HealthyIds(t) {
        var i :| 0 <= i < |t.units| && t.units[i].id == id && Usable(t.units[i].status) && !t.units[i].locked;
        assert s.units[i] in s.units;
      }
      if id in HealthyIds(s) {
        var i :| 0 <= i < |s.units| && s.units[i].id == id && Usable(s.units[i].status) && !s.units[i].locked;
        assert t.units[i] in t.units;
      }
    }
  }

  /** Live failover leaves the set of units that may run as it was. */
  lemma {:induction false} LiveKeepsHealthy(s: GroupState)
    requires DistinctIds(s)
    ensures HealthyIds(FailingOverLive(s).state) == HealthyIds(s)
  {
    LiveChoice(s);
    var chosen := Choice(s.units, Statuses(s.units));
    if chosen != "" {
      if s.units[0].status == Running { assert s.units[0] in s.units; }
      HandOverKeepsHealthy(s, chosen);
    }
  }

  /** A second live failover chooses the same unit and changes nothing. */
  lemma {:induction false} LiveIdempotent(s: GroupState)
    requires DistinctIds(s)
    ensures var once := FailingOverLive(s);
            && FailingOverLive(once.state) == once
            && (once.outcome.Ok? ==>
                  Choice(once.state.units, Statuses(once.state.units)) == Choice(s.units, Statuses(s.units)))
  {
    var chosen := Choice(s.units, Statuses(s.units));
    if chosen != "" {
      var t := SwitchTo(s, chosen);
      SameChoiceAfterSwitch(s, chosen);
      SwitchTwice(s, chosen);
    }
  }

  lemma {:induction false} SwitchTwice(s: GroupState, chosen: string)
    ensures SwitchTo(SwitchTo(s, chosen), chosen) == SwitchTo(s, chosen)
  {
    var t := SwitchTo(s, chosen);
    assert SwitchTo(t, chosen).units == t.units;
  }

  lemma {:induction false} SameChoiceAfterSwitch(s: GroupState, chosen: string)
    requires DistinctIds(s) && chosen != "" && chosen == Choice(s.units, Statuses(s.units))
    ensures var t := SwitchTo(s, chosen); Choice(t.units, Statuses(t.units)) == chosen
  {
    var t := SwitchTo(s, chosen);
    ChoiceIsUnit(s.units, Statuses(s.units));
    SwitchKeeps(s, chosen);
    LiveChoice(s);
    LiveChoice(t);
    LiveKeepsHealthy(s);
    assert t.units[0].id == s.units[0].id;
    if t.units[0].status != Running {
      Strings.AtMostAntisymmetric(chosen, Choice(t.units, Statuses(t.units)));
    }
  }

  // Failover on the cached view, which is what the code reads.

  /** The ids a view leaves failover to choose from. */
  function Candidates(units: seq<UnitState>, view: View): set<string> {
    if PrimaryRuns(units, view) then {units[0].id} else set id | id in EligibleIds(units, view)
  }

  /** The least of these ids, or "" when there is none. */
  predicate LeastOf(chosen: string, among: set<string>) {
    if among == {} then chosen == ""
    else chosen != "" && chosen in among && forall id :: id in among ==> Strings.AtMost(chosen, id)
  }

  lemma {:induction false} ChoiceIsLeastCandidate(s: GroupState, view: View)
    requires DistinctIds(s)
    ensures LeastOf(Choice(s.units, view), Candidates(s.units, view))
  {
    var healthy := EligibleIds(s.units, view);
    EligibleIdsAreUnits(s.units, view);
    if PrimaryRuns(s.units, view) {
      Strings.AtMostTotal(s.units[0].id, s.units[0].id);
    } else if healthy != [] {
      assert healthy[0] in Candidates(s.units, view);
      Strings.SortedHeadIsLeast(healthy);
    }
  }

  /** `id` does not matter: another id, a candidate in both views, comes before it. */
  predicate Outranked(id: string, both: set<string>) {
    exists other :: other in both && other != id && Strings.AtMost(other, id)
  }

  lemma {:induction false} SameLeastIff(x: string, a: set<string>, y: string, b: set<string>)
    requires LeastOf(x, a) && LeastOf(y, b)
    ensures x == y <==> forall id :: id in a + b && id !in a * b ==> Outranked(id, a * b)
  {
    if x == y {
      forall id | id in a + b && id !in a * b ensures Outranked(id, a * b) {
        assert x in a * b;
      }
    } else if forall id :: id in a + b && id !in a * b ==> Outranked(id, a * b) {
      LeastIsShared(x, a, b);
      LeastIsShared(y, b, a);
      Strings.AtMostAntisymmetric(x, y);
    }
  }

  /**
   * Two views lead failover to the same choice exactly when every unit that is a candidate in only one
   * of them comes after some unit that is a candidate in both.
   */
  lemma {:induction false} SameChoiceIff(s: GroupState, cached: View, live: View)
    requires DistinctIds(s)
    ensures var a := Candidates(s.units, cached); var b := Candidates(s.units, live);
            Choice(s.units, cached) == Choice(s.units, live)
            <==> forall id :: id in a + b && id !in a * b ==> Outranked(id, a * b)
  {
    ChoiceIsLeastCandidate(s, cached);
    ChoiceIsLeastCandidate(s, live);
    SameLeastIff(Choice(s.units, cached), Candidates(s.units, cached), Choice(s.units, live),
                 Candidates(s.units, live));
  }

  lemma {:induction false} LeastIsShared(x: string, a: set<string>, b: set<string>)
    requires a != {} ==> x in a && forall id :: id in a ==> Strings.AtMost(x, id)
    requires forall id :: id in a + b && id !in a * b ==> Outranked(id, a * b)
    ensures a != {} ==> x in b
  {
    if a != {} && x !in b {
      assert Outranked(x, a * b);
      var other :| other in a * b && other != x && Strings.AtMost(other, x);
      Strings.AtMostAntisymmetric(other, x);
    }
  }

  lemma {:induction false} EligibleIdsFollowUnits(units: seq<UnitState>, v: View, w: View)
    requires forall i :: 0 <= i < |units| ==> Seen(v, units[i].id) == Seen(w, units[i].id)
    ensures EligibleIds(units, v) == EligibleIds(units, w)
  {
    if units != [] {
      var n := |units| - 1;
      assert forall i :: 0 <= i < n ==> units[..n][i] == units[i];
      EligibleIdsFollowUnits(units[..n], v, w);
    }
  }

  /** Failover depends on the view only through the statuses of the group's own units. */
  lemma {:induction false} ChoiceFollowsUnits(units: seq<UnitState>, v: View, w: View)
    requires forall i :: 0 <= i < |units| ==> Seen(v, units[i].id) == Seen(w, units[i].id)
    ensures Choice(units, v) == Choice(units, w)
  {
    EligibleIdsFollowUnits(units, v, w);
  }

  /** The documented scenario: u-1 recovers after the last refresh, yet failover on the cache keeps u-2. */
  lemma {:induction false} CachedFailoverIgnoresRecovery()
    ensures var down := GroupState("g-1", "st-1", "", [UnitState("u-1", "", Maintenance, false, 0.0),
                                                       UnitState("u-2", "", Running, false, 0.0)], "", 0.0, 0.0);
            var cached := Statuses(down.units);
            var recovered := Overriding(FailingOver(down, cached).state, "u-1", Running).state;
            Choice(recovered.units, cached) == "u-2" && Choice(recovered.units, Statuses(recovered.units)) == "u-1"
  {
    var down := GroupState("g-1", "st-1", "", [UnitState("u-1", "", Maintenance, false, 0.0),
                                               UnitState("u-2", "", Running, false, 0.0)], "", 0.0, 0.0);
    var cached := Statuses(down.units);
    DistinctPair(down);
    LiveShowsStatus(down.units);
    assert Seen(cached, down.units[0].id) == Maintenance && Seen(cached, down.units[1].id) == Running;
    LiveChoice(down);
    assert down.units[1] in down.units;
    assert "u-2" in HealthyIds(down);
    var switched := FailingOver(down, cached).state;
    OnlyEligible(down, cached);
    var recovered := Overriding(switched, "u-1", Running).state;
    DistinctPair(recovered);
    OnlyEligible(recovered, cached);
    LiveChoice(recovered);
  }

  lemma {:induction false} OnlyEligible(s: GroupState, view: View)
    requires DistinctIds(s) && |s.units| == 2 && !s.units[0].locked && !s.units[1].locked
    requires Seen(view, s.units[0].id) == Maintenance && Seen(view, s.units[1].id) == Running
    ensures Choice(s.units, view) == s.units[1].id
  {
    EligibleIdsAreUnits(s.units, view);
    ChoiceIsLeastCandidate(s, view);
    assert Eligible(s.units[1], view) && s.units[1].id in EligibleIds(s.units, view);
    assert s.units[1].id in Candidates(s.units, view);
  }

  // Vibration preempts a target change.

  /** Tripping the first running unit ends the over-limit condition exactly when no other unit is over the limit. */
  lemma {:induction false} AdjustClearsIff(s: GroupState, mpa: real)
    requires DistinctIds(s) && AnyOverLimit(s)
    ensures !AnyOverLimit(Adjusting(s, mpa).state)
            <==> forall j :: 0 <= j < |s.units| && OverLimit(s.units[j]) ==> j == FirstRunning(s.units)
  {
    var k := FirstRunning(s.units);
    var u :| u in s.units && OverLimit(u);
    var m := Find(s.units, s.units[k].id);
    assert m == k;
    var t := Adjusting(s, mpa).state;
    assert t.units == s.units[k := s.units[k].(status := Stopped)];
    forall j | 0 <= j < |s.units| && j != k && OverLimit(s.units[j]) ensures AnyOverLimit(t) {
      assert t.units[j] in t.units && OverLimit(t.units[j]);
    }
  }

  /**
   * With at most one running unit, an over-limit adjustment stops that unit, changes nothing else, and a retry works.
   */
  lemma {:induction false} AdjustTripsVibratingUnit(s: GroupState, mpa: real, again: real)
    requires DistinctIds(s) && OneRunning(s) && AnyOverLimit(s) && 0.0 <= again <= MAX_MPA
    ensures Adjusting(s, mpa).outcome == Err(OverVibration)
    ensures exists k :: 0 <= k < |s.units| && OverLimit(s.units[k])
                        && Adjusting(s, mpa).state
                           == s.(units := s.units[k := s.units[k].(status := Stopped)], active := "")
    ensures var t := Adjusting(s, mpa).state;
            !AnyOverLimit(t) && Adjusting(t, again) == Change(t.(target := again), Done)
  {
    var k := FirstRunning(s.units);
    var u :| u in s.units && OverLimit(u);
    var j :| 0 <= j < |s.units| && s.units[j] == u;
    assert j == k;
    assert Find(s.units, s.units[k].id) == k;
    CoherentIsOneRunning(s);
    AdjustClearsIff(s, mpa);
  }
}
