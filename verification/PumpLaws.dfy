/** What each group operation does to every field of a group, field by field. */
module PumpLaws {
  import opened Results
  import opened PumpState
  import Strings

  /** Everything but the units and the active unit is as it was. */
  predicate SameSettings(s: GroupState, t: GroupState) {
    && t.id == s.id && t.station == s.station && t.name == s.name
    && t.discharge == s.discharge && t.target == s.target
  }

  /** No unit has this id. */
  predicate NoUnit(s: GroupState, id: string) {
    forall i :: 0 <= i < |s.units| ==> s.units[i].id != id
  }

  /** Unit `k` is the first with this id. */
  predicate FirstUnit(s: GroupState, id: string, k: int) {
    0 <= k < |s.units| && s.units[k].id == id && forall j :: 0 <= j < k ==> s.units[j].id != id
  }

  /**
   * From `s` to `t` a unit takes over: it runs and is active, every other running unit stands by, and nothing else of
   * any unit or of the group changes.
   */
  predicate TakesOver(s: GroupState, id: string, t: GroupState) {
    && SameSettings(s, t) && t.active == id && |t.units| == |s.units|
    && (forall i :: 0 <= i < |s.units| ==>
          && t.units[i].id == s.units[i].id && t.units[i].name == s.units[i].name
          && t.units[i].locked == s.units[i].locked && t.units[i].vibration == s.units[i].vibration)
    && (forall i :: 0 <= i < |s.units| && s.units[i].id == id ==> t.units[i].status == Running)
    && (forall i :: 0 <= i < |s.units| && s.units[i].id != id && s.units[i].status == Running ==>
          t.units[i].status == Standby)
    && (forall i :: 0 <= i < |s.units| && s.units[i].id != id && s.units[i].status != Running ==>
          t.units[i].status == s.units[i].status)
  }

  /** From `s` to `t` only unit `k` changes, and of it only what is given. */
  predicate OneUnitChanges(s: GroupState, k: int, status: Status, locked: bool, vibration: real, t: GroupState)
    requires 0 <= k < |s.units|
  {
    && |t.units| == |s.units|
    && t.units[k].id == s.units[k].id && t.units[k].name == s.units[k].name
    && t.units[k].status == status && t.units[k].locked == locked && t.units[k].vibration == vibration
    && forall i :: 0 <= i < |s.units| && i != k ==> t.units[i] == s.units[i]
  }

  /** From `s` to `t` unit `k` gets this status and lock, and is no longer active if it was. */
  predicate Retires(s: GroupState, k: int, status: Status, locked: bool, t: GroupState)
    requires 0 <= k < |s.units|
  {
    && SameSettings(s, t) && OneUnitChanges(s, k, status, locked, s.units[k].vibration, t)
    && (s.active == s.units[k].id ==> t.active == "")
    && (s.active != s.units[k].id ==> t.active == s.active)
  }

  lemma {:induction false} FirstUnitFound(s: GroupState, id: string)
    ensures NoUnit(s, id) <==> Find(s.units, id) == |s.units|
    ensures forall k :: FirstUnit(s, id, k) <==> k == Find(s.units, id) && k < |s.units|
  {
    var f := Find(s.units, id);
    forall k ensures FirstUnit(s, id, k) <==> k == f && k < |s.units| {
      if FirstUnit(s, id, k) { assert k < f || k == f || f < k; }
    }
  }

  lemma {:induction false} AddLaw(s: GroupState, id: string, name: string)
    ensures var t := Adding(s, id, name); var n := |s.units|;
            && SameSettings(s, t) && t.active == s.active && |t.units| == n + 1 && t.units[..n] == s.units
            && t.units[n].id == id && t.units[n].name == name
            && t.units[n].status == Standby && !t.units[n].locked && t.units[n].vibration == 0.0
  {
  }

  lemma {:induction false} SwitchLaw(s: GroupState, chosen: string)
    ensures TakesOver(s, chosen, SwitchTo(s, chosen))
  {
  }

  /** A start succeeds exactly for a known unit that is not locked, and then that unit takes over. */
  lemma {:induction false} StartLaw(s: GroupState, id: string)
    ensures NoUnit(s, id) ==> Starting(s, id) == Change(s, Err(UnitNotFound))
    ensures forall k :: FirstUnit(s, id, k) && s.units[k].locked ==> Starting(s, id) == Change(s, Err(LockedOut))
    ensures forall k :: FirstUnit(s, id, k) && !s.units[k].locked ==>
              Starting(s, id).outcome.Ok? && TakesOver(s, id, Starting(s, id).state)
  {
    FirstUnitFound(s, id);
    SwitchLaw(s, id);
  }

  /** A failover on any view fails without a change, or the unit it returns takes over. */
  lemma {:induction false} FailoverLaw(s: GroupState, view: View)
    ensures var chosen := Choice(s.units, view);
            if chosen == "" then FailingOver(s, view) == Change(s, Err(NoHealthyUnit))
            else FailingOver(s, view).outcome.Ok? && TakesOver(s, chosen, FailingOver(s, view).state)
  {
    SwitchLaw(s, Choice(s.units, view));
  }

  /** The view shows the unit running or in standby, and the group has not locked it. */
  predicate Candidate(u: UnitState, view: View) {
    u.id in view && (view[u.id] == Running || view[u.id] == Standby) && !u.locked
  }

  /** The view shows the first unit running, whatever its lock. */
  predicate ShowsPrimaryRunning(s: GroupState, view: View) {
    s.units != [] && s.units[0].id != "" && s.units[0].id in view && view[s.units[0].id] == Running
  }

  /** On any view: the first unit while it is shown running, else the least candidate, else none. */
  lemma {:induction false} ChoiceLaw(s: GroupState, view: View)
    ensures var chosen := Choice(s.units, view);
            && (ShowsPrimaryRunning(s, view) ==> chosen == s.units[0].id)
            && (!ShowsPrimaryRunning(s, view) && (forall u :: u in s.units ==> !Candidate(u, view)) ==> chosen == "")
            && (!ShowsPrimaryRunning(s, view) && (exists u :: u in s.units && Candidate(u, view)) ==>
                  && (exists u :: u in s.units && Candidate(u, view) && u.id == chosen)
                  && forall u :: u in s.units && Candidate(u, view) ==> Strings.AtMost(chosen, u.id))
  {
    CandidatesEligible(s.units, view);
    if EligibleIds(s.units, view) != [] { Strings.SortedHeadIsLeast(EligibleIds(s.units, view)); }
  }

  lemma {:induction false} CandidatesEligible(units: seq<UnitState>, view: View)
    ensures forall u :: u in units && Candidate(u, view) ==> u.id in EligibleIds(units, view)
    ensures forall id :: id in EligibleIds(units, view) ==> exists u :: u in units && Candidate(u, view) && u.id == id
  {
    if units != [] {
      var n := |units| - 1;
      CandidatesEligible(units[..n], view);
      assert units == units[..n] + [units[n]];
      assert Candidate(units[n], view) <==> Eligible(units[n], view);
    }
  }

  /** A group reports each id with the status of the last unit that carries it, and no other id. */
  lemma {:induction false} StatusesLaw(units: seq<UnitState>, id: string)
    ensures id in Statuses(units) <==> exists i :: 0 <= i < |units| && units[i].id == id
    ensures forall i :: 0 <= i < |units| && units[i].id == id && (forall j :: i < j < |units| ==> units[j].id != id) ==>
              id in Statuses(units) && Statuses(units)[id] == units[i].status
  {
    if units != [] {
      var n := |units| - 1;
      StatusesLaw(units[..n], id);
      assert forall i :: 0 <= i < n ==> units[..n][i] == units[i];
    }
  }

  lemma {:induction false} StopLaw(s: GroupState, id: string)
    ensures NoUnit(s, id) ==> Stopping(s, id) == Change(s, Err(UnitNotFound))
    ensures forall k :: FirstUnit(s, id, k) ==>
              Stopping(s, id).outcome.Ok? && Retires(s, k, Standby, s.units[k].locked, Stopping(s, id).state)
  {
    FirstUnitFound(s, id);
  }

  lemma {:induction false} TripLaw(s: GroupState, id: string)
    ensures NoUnit(s, id) ==> Tripping(s, id) == Change(s, Err(UnitNotFound))
    ensures forall k :: FirstUnit(s, id, k) ==>
              Tripping(s, id).outcome.Ok? && Retires(s, k, Stopped, s.units[k].locked, Tripping(s, id).state)
  {
    FirstUnitFound(s, id);
  }

  lemma {:induction false} LockLaw(s: GroupState, id: string)
    ensures NoUnit(s, id) ==> Locking(s, id) == Change(s, Err(UnitNotFound))
    ensures forall k :: FirstUnit(s, id, k) ==>
              Locking(s, id).outcome.Ok? && Retires(s, k, Maintenance, true, Locking(s, id).state)
  {
    FirstUnitFound(s, id);
  }

  /** A released unit leaves maintenance for standby and keeps any other status; the active unit stays. */
  lemma {:induction false} ReleaseLaw(s: GroupState, id: string, saved: Outcome)
    ensures NoUnit(s, id) ==> Releasing(s, id, saved) == Change(s, Err(UnitNotFound))
    ensures forall k :: FirstUnit(s, id, k) ==>
              var r, u := Releasing(s, id, saved), s.units[k];
              && r.outcome == saved && SameSettings(s, r.state) && r.state.active == s.active
              && (u.status == Maintenance ==> OneUnitChanges(s, k, Standby, false, u.vibration, r.state))
              && (u.status != Maintenance ==> OneUnitChanges(s, k, u.status, false, u.vibration, r.state))
  {
    FirstUnitFound(s, id);
  }

  lemma {:induction false} OverrideLaw(s: GroupState, id: string, status: Status)
    ensures NoUnit(s, id) ==> Overriding(s, id, status) == Change(s, Err(UnitNotFound))
    ensures forall k :: FirstUnit(s, id, k) ==>
              var r, u := Overriding(s, id, status), s.units[k];
              && r.outcome.Ok? && SameSettings(s, r.state) && r.state.active == s.active
              && OneUnitChanges(s, k, status, u.locked, u.vibration, r.state)
  {
    FirstUnitFound(s, id);
  }

  lemma {:induction false} VibrationLaw(s: GroupState, id: string, value: real)
    ensures NoUnit(s, id) ==> Vibrating(s, id, value) == Change(s, Err(UnitNotFound))
    ensures forall k :: FirstUnit(s, id, k) ==>
              var r, u := Vibrating(s, id, value), s.units[k];
              && r.outcome.Ok? && SameSettings(s, r.state) && r.state.active == s.active
              && OneUnitChanges(s, k, u.status, u.locked, value, r.state)
  {
    FirstUnitFound(s, id);
  }

  /** From `s` to `t` at most target and discharge pressure change. */
  predicate NewPressures(s: GroupState, target: real, discharge: real, t: GroupState) {
    && t.id == s.id && t.station == s.station && t.name == s.name
    && t.units == s.units && t.active == s.active
    && t.target == target && t.discharge == discharge
  }

  /** A pressure is accepted exactly between 0 and 1.5 MPa, and sets its own field only. */
  lemma {:induction false} PressureLaw(s: GroupState, mpa: real)
    ensures 0.0 <= mpa <= 1.5 ==>
              && Targeting(s, mpa).outcome.Ok? && NewPressures(s, mpa, s.discharge, Targeting(s, mpa).state)
              && Discharging(s, mpa).outcome.Ok? && NewPressures(s, s.target, mpa, Discharging(s, mpa).state)
    ensures mpa < 0.0 || mpa > 1.5 ==>
              && Targeting(s, mpa) == Change(s, Err(TargetOutOfRange))
              && Discharging(s, mpa) == Change(s, Err(DischargeOutOfRange))
  {
  }

  /** What a command does, by its action. */
  lemma {:induction false} CommandLaw(s: GroupState, command: Command)
    ensures var r := Applying(s, command);
            && (r.outcome.Err? ==> r.state == s)
            && (command.action.Unknown? ==> r.outcome == Err(UnknownAction))
            && (command.action.Start? || command.action.Stop? ==>
                  (r.outcome == Err(UnitNotFound) <==> NoUnit(s, command.unit)))
            && (command.action.Start? ==>
                  && (forall k :: FirstUnit(s, command.unit, k) && s.units[k].locked ==> r.outcome == Err(LockedOut))
                  && (forall k :: FirstUnit(s, command.unit, k) && !s.units[k].locked ==>
                        r.outcome.Ok? && TakesOver(s, command.unit, r.state)))
            && (command.action.Stop? ==>
                  forall k :: FirstUnit(s, command.unit, k) ==>
                    r.outcome.Ok? && Retires(s, k, Standby, s.units[k].locked, r.state))
            && (command.action.SetTarget? ==>
                  if 0.0 <= command.target <= 1.5 then
                    r.outcome.Ok? && NewPressures(s, command.target, s.discharge, r.state)
                  else r.outcome == Err(TargetOutOfRange))
  {
    match command.action
    case Start =>
      StartLaw(s, command.unit);
      FirstUnitFound(s, command.unit);
    case Stop =>
      StopLaw(s, command.unit);
      FirstUnitFound(s, command.unit);
    case SetTarget => PressureLaw(s, command.target);
    case Unknown(_) =>
  }

  /** A list of commands applies those before the first refused one, and returns that one's error. */
  lemma {:induction false} CommandListLaw(s: GroupState, commands: seq<Command>)
    ensures commands == [] ==> ApplyingAll(s, commands) == Change(s, Done)
    ensures commands != [] ==>
              var init, last := ApplyingAll(s, commands[..|commands| - 1]), commands[|commands| - 1];
              ApplyingAll(s, commands) == if init.outcome.Err? then init else Applying(init.state, last)
    decreases |commands|
  {
    if |commands| > 1 {
      var first := Applying(s, commands[0]);
      var n := |commands| - 1;
      assert commands[..n][0] == commands[0] && commands[..n][1..] == commands[1..][..n - 1];
      if first.outcome.Ok? { CommandListLaw(first.state, commands[1..]); }
    } else if |commands| == 1 {
      assert commands[..0] == [] && commands[1..] == [];
    }
  }

  /** Some unit runs with a vibration above 4.5. */
  predicate Shakes(s: GroupState) {
    exists i :: 0 <= i < |s.units| && s.units[i].status == Running && s.units[i].vibration > 4.5
  }

  /** Unit `k` is the first that runs. */
  predicate FirstRuns(s: GroupState, k: int) {
    0 <= k < |s.units| && s.units[k].status == Running && forall j :: 0 <= j < k ==> s.units[j].status != Running
  }

  /** A new target, unless a running unit shakes: then the unit named like the first running one is stopped instead. */
  lemma {:induction false} AdjustLaw(s: GroupState, mpa: real)
    ensures var r := Adjusting(s, mpa);
            && (Shakes(s) ==> r.outcome == Err(OverVibration))
            && (Shakes(s) ==>
                  forall j, k :: FirstRuns(s, j) && FirstUnit(s, s.units[j].id, k) ==>
                    Retires(s, k, Stopped, s.units[k].locked, r.state))
            && (!Shakes(s) && 0.0 <= mpa <= 1.5 ==> r.outcome.Ok? && NewPressures(s, mpa, s.discharge, r.state))
            && (!Shakes(s) && (mpa < 0.0 || mpa > 1.5) ==> r == Change(s, Err(TargetOutOfRange)))
  {
    ShakesIff(s);
    if Shakes(s) {
      var f := FirstRunning(s.units);
      forall j | FirstRuns(s, j) ensures j == f { assert j < f || j == f || f < j; }
      if f < |s.units| {
        TripLaw(s, s.units[f].id);
      }
    } else {
      PressureLaw(s, mpa);
    }
  }

  lemma {:induction false} ShakesIff(s: GroupState)
    ensures Shakes(s) <==> AnyOverLimit(s)
  {
    if Shakes(s) {
      var i :| 0 <= i < |s.units| && s.units[i].status == Running && s.units[i].vibration > 4.5;
      assert s.units[i] in s.units && OverLimit(s.units[i]);
    }
    if AnyOverLimit(s) {
      var u :| u in s.units && OverLimit(u);
      var i :| 0 <= i < |s.units| && s.units[i] == u;
    }
  }

  /** The stored record holds every field under its own name, and a status as its text. */
  lemma {:induction false} RecordLaw(s: GroupState)
    ensures var r := Recorded(s);
            && r.id == s.id && r.station == s.station && r.name == s.name
            && r.active == s.active && r.discharge == s.discharge && r.target == s.target && |r.units| == |s.units|
            && forall i :: 0 <= i < |s.units| ==>
                 && r.units[i].id == s.units[i].id && r.units[i].name == s.units[i].name
                 && r.units[i].locked == s.units[i].locked && r.units[i].vibration == s.units[i].vibration
                 && (s.units[i].status == Running ==> r.units[i].status == "running")
                 && (s.units[i].status == Standby ==> r.units[i].status == "standby")
                 && (s.units[i].status == Maintenance ==> r.units[i].status == "maintenance")
                 && (s.units[i].status == Stopped ==> r.units[i].status == "stopped")
                 && (s.units[i].status.Other? ==> r.units[i].status == s.units[i].status.text)
  {
  }
}
