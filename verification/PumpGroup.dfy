/** The pump group as the mutable object it is: units changed in place, each method against its specification. */
module PumpGroup {
  import opened Results
  import opened PumpState
  import Strings

  class Unit {
    var id: string
    var name: string
    var status: Status
    var locked: bool
    var vibration: real

    constructor (u: UnitState)
      ensures State() == u
    {
      id, name, status, locked, vibration := u.id, u.name, u.status, u.locked, u.vibration;
    }

    function State(): UnitState
      reads this
    {
      UnitState(id, name, status, locked, vibration)
    }
  }

  function UnitStates(units: seq<Unit>): seq<UnitState>
    reads units
  {
    seq(|units|, i requires 0 <= i < |units| reads units => units[i].State())
  }

  class Group {
    var id: string
    var station: string
    var name: string
    var units: seq<Unit>
    var active: string
    var discharge: real
    var target: real

    function State(): GroupState
      reads this, units
    {
      GroupState(id, station, name, UnitStates(units), active, discharge, target)
    }

    /** No unit object is registered twice. */
    ghost predicate Valid()
      reads this
    {
      forall i, j :: 0 <= i < j < |units| ==> units[i] != units[j]
    }

    constructor (id: string, station: string, name: string)
      ensures Valid() && units == []
      ensures State() == GroupState(id, station, name, [], "", 0.0, 0.0)
    {
      this.id, this.station, this.name := id, station, name;
      units, active, discharge, target := [], "", 0.0, 0.0;
    }

    method AddUnit(id: string, name: string) returns (unit: Unit)
      requires Valid()
      modifies this
      ensures Valid() && fresh(unit) && units == old(units) + [unit]
      ensures State() == Adding(old(State()), id, name)
    {
      unit := new Unit(UnitState(id, name, Standby, false, 0.0));
      units := units + [unit];
      assert UnitStates(units) == old(UnitStates(units)) + [unit.State()];
    }

    method FindUnit(id: string) returns (k: nat)
      ensures k == Find(State().units, id)
    {
      k := 0;
      ghost var s := State().units;
      while k < |units|
        invariant k <= |units|
        invariant Find(s, id) == k + Find(s[k..], id)
      {
        if units[k].id == id { return; }
        k := k + 1;
      }
    }

    /** The loop that starting and failover share: the chosen unit runs, other running units stand by. */
    method Switch(chosen: string)
      requires Valid()
      modifies this, units
      ensures Valid() && units == old(units)
      ensures State() == SwitchTo(old(State()), chosen)
    {
      for i := 0 to |units|
        invariant unchanged(this)
        invariant forall j :: 0 <= j < i ==> units[j].State() == HandOver(old(units[j].State()), chosen)
        invariant forall j :: i <= j < |units| ==> units[j].State() == old(units[j].State())
      {
        if units[i].id == chosen {
          units[i].status := Running;
        } else if units[i].status == Running {
          units[i].status := Standby;
        }
      }
      active := chosen;
      assert State().units == SwitchTo(old(State()), chosen).units;
    }

    method StartUnit(id: string) returns (r: Outcome)
      requires Valid()
      modifies this, units
      ensures Valid() && units == old(units)
      ensures Change(State(), r) == Starting(old(State()), id)
    {
      var k := FindUnit(id);
      if k == |units| { return Err(UnitNotFound); }
      if units[k].locked { return Err(LockedOut); }
      Switch(id);
      r := Done;
    }

    /** Stores one unit's new status and lock; a retired unit is no longer the active one. */
    method Update(k: nat, status: Status, locked: bool, retire: bool)
      requires Valid() && k < |units|
      modifies this`active, units[k]
      ensures Valid()
      ensures var u := old(State()).units[k].(status := status, locked := locked);
              State() == if retire then Retire(old(State()), k, u)
                         else old(State()).(units := old(State()).units[k := u])
    {
      var unit := units[k];
      unit.status, unit.locked := status, locked;
      if retire && active == unit.id { active := ""; }
      assert UnitStates(units) == old(UnitStates(units))[k := unit.State()];
    }

    method StopUnit(id: string) returns (r: Outcome)
      requires Valid()
      modifies this, units
      ensures Valid() && units == old(units)
      ensures Change(State(), r) == Stopping(old(State()), id)
    {
      var k := FindUnit(id);
      if k == |units| { return Err(UnitNotFound); }
      Update(k, Standby, units[k].locked, true);
      r := Done;
    }

    method LockUnit(id: string) returns (r: Outcome)
      requires Valid()
      modifies this, units
      ensures Valid() && units == old(units)
      ensures Change(State(), r) == Locking(old(State()), id)
    {
      var k := FindUnit(id);
      if k == |units| { return Err(UnitNotFound); }
      Update(k, Maintenance, true, true);
      r := Done;
    }

    /** `saved` is what writing the group's file returns: an error also when the group has no store. */
    method ClearLockout(id: string, saved: Outcome) returns (r: Outcome)
      requires Valid()
      modifies this, units
      ensures Valid() && units == old(units)
      ensures Change(State(), r) == Releasing(old(State()), id, saved)
    {
      var k := FindUnit(id);
      if k == |units| { return Err(UnitNotFound); }
      Update(k, if units[k].status == Maintenance then Standby else units[k].status, false, false);
      r := saved;
    }

    method IsLocked(id: string) returns (r: Result<bool>)
      ensures var s := State().units; var k := Find(s, id);
              r == if k < |s| then Ok(s[k].locked) else Err(UnitNotFound)
    {
      var k := FindUnit(id);
      if k == |units| { return Err(UnitNotFound); }
      r := Ok(units[k].locked);
    }

    method Trip(id: string) returns (r: Outcome)
      requires Valid()
      modifies this, units
      ensures Valid() && units == old(units)
      ensures Change(State(), r) == Tripping(old(State()), id)
    {
      var k := FindUnit(id);
      if k == |units| { return Err(UnitNotFound); }
      Update(k, Stopped, units[k].locked, true);
      r := Done;
    }

    /** The operator override: any status, whatever the lock and the active unit say. */
    method SetStatus(id: string, text: string) returns (r: Outcome)
      requires Valid()
      modifies this, units
      ensures Valid() && units == old(units)
      ensures Change(State(), r) == Overriding(old(State()), id, ParseStatus(text))
    {
      var k := FindUnit(id);
      if k == |units| { return Err(UnitNotFound); }
      Update(k, ParseStatus(text), units[k].locked, false);
      r := Done;
    }

    method RecordVibration(id: string, value: real) returns (r: Outcome)
      requires Valid()
      modifies units
      ensures Change(State(), r) == Vibrating(old(State()), id, value)
    {
      var k := FindUnit(id);
      if k == |units| { return Err(UnitNotFound); }
      units[k].vibration := value;
      assert UnitStates(units) == old(UnitStates(units))[k := units[k].State()];
      r := Done;
    }

    method SetTarget(mpa: real) returns (r: Outcome)
      modifies this`target
      ensures Change(State(), r) == Targeting(old(State()), mpa)
    {
      if mpa < 0.0 || mpa > MAX_MPA { return Err(TargetOutOfRange); }
      target := mpa;
      r := Done;
    }

    method SetDischarge(mpa: real) returns (r: Outcome)
      modifies this`discharge
      ensures Change(State(), r) == Discharging(old(State()), mpa)
    {
      if mpa < 0.0 || mpa > MAX_MPA { return Err(DischargeOutOfRange); }
      discharge := mpa;
      r := Done;
    }

    /** One command, the whole transition under the group's lock. */
    method Apply(command: Command) returns (r: Outcome)
      requires Valid()
      modifies this, units
      ensures Valid() && units == old(units)
      ensures Change(State(), r) == Applying(old(State()), command)
    {
      match command.action
      case Start =>
        var k := FindUnit(command.unit);
        if k == |units| { return Err(UnitNotFound); }
        if units[k].locked { return Err(LockedOut); }
        Switch(command.unit);
        r := Done;
      case Stop =>
        var k := FindUnit(command.unit);
        if k == |units| { return Err(UnitNotFound); }
        Update(k, Standby, units[k].locked, true);
        r := Done;
      case SetTarget =>
        if command.target < 0.0 || command.target > MAX_MPA { return Err(TargetOutOfRange); }
        target := command.target;
        r := Done;
      case Unknown(_) =>
        r := Err(UnknownAction);
    }

    /** The returned count is 0 on an error, although the commands before it stay applied. */
    method ApplyCommandList(commands: seq<Command>) returns (count: nat, r: Outcome)
      requires Valid()
      modifies this, units
      ensures Valid() && units == old(units)
      ensures Change(State(), r) == ApplyingAll(old(State()), commands)
      ensures count == if r.Ok? then |commands| else 0
    {
      for i := 0 to |commands|
        invariant Valid() && units == old(units)
        invariant ApplyingAll(State(), commands[i..]) == ApplyingAll(old(State()), commands)
      {
        assert commands[i..][1..] == commands[i + 1..];
        r := Apply(commands[i]);
        if r.Err? { return 0, r; }
      }
      return |commands|, Done;
    }

    method VibrationOverLimit() returns (over: bool)
      ensures over == AnyOverLimit(State())
    {
      for i := 0 to |units|
        invariant forall j :: 0 <= j < i ==> !OverLimit(State().units[j])
      {
        if units[i].status == Running && units[i].vibration > VIBRATION_LIMIT {
          assert State().units[i] in State().units && OverLimit(State().units[i]);
          return true;
        }
      }
      return false;
    }

    method FirstRunningUnit() returns (r: Result<string>)
      ensures var s := State().units; var k := FirstRunning(s);
              r == if k < |s| then Ok(s[k].id) else Err(NoRunningUnit)
    {
      ghost var s := State().units;
      var i := 0;
      while i < |units|
        invariant i <= |units|
        invariant FirstRunning(s) == i + FirstRunning(s[i..])
      {
        if units[i].status == Running { return Ok(units[i].id); }
        i := i + 1;
      }
      return Err(NoRunningUnit);
    }

    /** A new target, unless a running unit vibrates over the limit: then that unit is tripped instead. */
    method Adjust(mpa: real) returns (r: Outcome)
      requires Valid()
      modifies this, units
      ensures Valid() && units == old(units)
      ensures Change(State(), r) == Adjusting(old(State()), mpa)
    {
      var over := VibrationOverLimit();
      if over {
        var running := FirstRunningUnit();
        if running.Ok? { r := Trip(running.value); }
        return Err(OverVibration);
      }
      r := SetTarget(mpa);
    }

    /** The ids of running units, sorted. */
    method RunningUnits() returns (ids: seq<string>)
      ensures Strings.Sorted(ids)
      ensures forall id :: id in ids <==> exists u :: u in State().units && u.status == Running && u.id == id
    {
      ghost var s := State().units;
      var running := [];
      for i := 0 to |units|
        invariant forall id :: id in running <==> exists k :: 0 <= k < i && s[k].status == Running && s[k].id == id
      {
        if units[i].status == Running {
          running := running + [units[i].id];
          assert s[i].status == Running && s[i].id == units[i].id;
        }
      }
      ids := Strings.Sort(running);
      Strings.SortKeepsMembers(running);
      assert forall k :: 0 <= k < |s| ==> s[k] in s;
    }

    /** The ids of units that may start, sorted. */
    method HealthyUnits() returns (ids: seq<string>)
      ensures Strings.Sorted(ids)
      ensures forall id :: id in ids <==> id in HealthyIds(State())
    {
      ghost var s := State().units;
      var healthy := [];
      for i := 0 to |units|
        invariant forall id :: id in healthy
                    <==> exists k :: 0 <= k < i && !s[k].locked && Usable(s[k].status) && s[k].id == id
      {
        if units[i].locked { continue; }
        if units[i].status == Standby || units[i].status == Running {
          healthy := healthy + [units[i].id];
          assert !s[i].locked && Usable(s[i].status) && s[i].id == units[i].id;
        }
      }
      ids := Strings.Sort(healthy);
      Strings.SortKeepsMembers(healthy);
      assert forall k :: 0 <= k < |s| ==> s[k] in s;
    }

    /** Picks a unit from the given status view and switches to it. */
    method Failover(view: View) returns (r: Result<string>)
      requires Valid()
      modifies this, units
      ensures Valid() && units == old(units)
      ensures State() == FailingOver(old(State()), view).state
      ensures r == if FailingOver(old(State()), view).outcome.Ok? then Ok(Choice(old(State()).units, view))
                   else Err(NoHealthyUnit)
    {
      ghost var s := State().units;
      var primary, healthy := "", [];
      for i := 0 to |units|
        invariant healthy == EligibleIds(s[..i], view)
        invariant primary == if i == 0 then "" else s[0].id
      {
        if i == 0 { primary := units[i].id; }
        assert s[..i + 1][..i] == s[..i];
        var seen := Seen(view, units[i].id);
        if seen == Running || seen == Standby {
          if !units[i].locked {
            healthy := healthy + [units[i].id];
          }
        }
      }
      assert s[..|units|] == s;
      var chosen := "";
      if primary != "" && Seen(view, primary) == Running {
        chosen := primary;
      } else if healthy != [] {
        chosen := Strings.Sort(healthy)[0];
      }
      if chosen == "" { return Err(NoHealthyUnit); }
      Switch(chosen);
      r := Ok(chosen);
    }

    method Statuses() returns (view: View)
      ensures view == PumpState.Statuses(State().units)
    {
      ghost var s := State().units;
      view := map[];
      for i := 0 to |units|
        invariant view == PumpState.Statuses(s[..i])
      {
        assert s[..i + 1][..i] == s[..i];
        view := view[units[i].id := units[i].status];
      }
      assert s[..|units|] == s;
    }

    method Record() returns (record: GroupRecord)
      ensures record == Recorded(State())
    {
      var rows := [];
      for i := 0 to |units|
        invariant |rows| == i && forall j :: 0 <= j < i ==> rows[j] == UnitRow(State().units[j])
      {
        rows := rows + [UnitRow(units[i].State())];
      }
      record := GroupRecord(id, station, name, rows, active, discharge, target);
      assert record.units == Recorded(State()).units;
    }

    /** Replaces every field and every unit object by what the record says. */
    method Restore(record: GroupRecord)
      modifies this
      ensures Valid() && fresh(units)
      ensures State() == Restored(record)
    {
      var loaded: seq<Unit> := [];
      for i := 0 to |record.units|
        invariant |loaded| == i && fresh(loaded)
        invariant forall j :: 0 <= j < i ==> loaded[j].State() == UnitFromRow(record.units[j])
        invariant forall j, k :: 0 <= j < k < i ==> loaded[j] != loaded[k]
      {
        var unit := new Unit(UnitFromRow(record.units[i]));
        loaded := loaded + [unit];
      }
      id, station, name := record.id, record.station, record.name;
      active, discharge, target := record.active, record.discharge, record.target;
      units := loaded;
      assert State().units == Restored(record).units;
    }
  }

  /** The unit objects of all these groups. */
  ghost function Parts(groups: set<Group>): (parts: set<Unit>)
    reads groups
    ensures forall g, u :: g in groups && u in g.units ==> u in parts
  {
    set g, u | g in groups && u in g.units :: u
  }

  /** Every group of the set as a value. */
  ghost function Snapshot(groups: set<Group>): map<Group, GroupState>
    reads groups, Parts(groups)
  {
    map g | g in groups :: g.State()
  }

  /** Different group objects share no unit object. */
  ghost predicate Separate(groups: set<Group>)
    reads groups
  {
    && (forall g :: g in groups ==> g.Valid())
    && (forall g, h, u :: g in groups && h in groups && g != h && u in g.units ==> u !in h.units)
  }

  /** Every group of the set but one, as a value. */
  ghost function Others(groups: set<Group>, group: Group): map<Group, GroupState>
    reads groups - {group}, Parts(groups - {group})
  {
    Snapshot(groups - {group})
  }

  /** The unit objects of one group are none of another's, and its value completes the others'. */
  lemma {:induction false} OthersApart(groups: set<Group>, group: Group)
    requires Separate(groups) && group in groups
    ensures Parts(groups - {group}) !! set u | u in group.units
    ensures Snapshot(groups) == Others(groups, group)[group := group.State()]
  {
  }

  lemma {:induction false} ReplacedTwice(m: map<Group, GroupState>, group: Group, a: GroupState, b: GroupState)
    ensures m[group := a][group := b] == m[group := b]
  {
  }

  /** `Apply` seen from a set of groups: the other groups keep their values. */
  method ApplyAmong(ghost groups: set<Group>, group: Group, command: Command) returns (r: Outcome)
    requires Separate(groups) && group in groups
    modifies group, group.units
    ensures Separate(groups) && group.units == old(group.units) && group.id == old(group.id)
    ensures Change(group.State(), r) == Applying(old(group.State()), command)
    ensures Snapshot(groups) == old(Snapshot(groups))[group := group.State()]
  {
    OthersApart(groups, group);
    ghost var others, before := Others(groups, group), group.State();
    r := group.Apply(command);
    assert Others(groups, group) == others && group.State().id == before.id;
    OthersApart(groups, group);
    ReplacedTwice(others, group, before, group.State());
  }

  /** `Adjust` with what it leaves alone. */
  method AdjustApart(ghost groups: set<Group>, group: Group, mpa: real) returns (r: Outcome)
    requires Separate(groups) && group in groups
    modifies group, group.units
    ensures forall g :: g in groups ==> g.units == old(g.units)
    ensures Change(group.State(), r) == Adjusting(old(group.State()), mpa)
    ensures Others(groups, group) == old(Others(groups, group))
  {
    OthersApart(groups, group);
    r := group.Adjust(mpa);
  }

  /** `Adjust` seen from a set of groups. */
  method AdjustAmong(ghost groups: set<Group>, group: Group, mpa: real) returns (r: Outcome)
    requires Separate(groups) && group in groups
    modifies group, group.units
    ensures Separate(groups) && group.units == old(group.units)
    ensures Change(group.State(), r) == Adjusting(old(group.State()), mpa)
    ensures Snapshot(groups) == old(Snapshot(groups))[group := group.State()]
  {
    OthersApart(groups, group);
    ghost var others, before := Others(groups, group), group.State();
    r := AdjustApart(groups, group, mpa);
    OthersApart(groups, group);
    ReplacedTwice(others, group, before, group.State());
  }
}
