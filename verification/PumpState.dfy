/** A pump group as a value, and what each group operation does to that value. */
module PumpState {
  import opened Results
  import Strings

  /** The four named states; `SetStatus` and stored records may carry any other text. */
  datatype Status = Running | Standby | Maintenance | Stopped | Other(text: string)

  datatype UnitState = UnitState(id: string, name: string, status: Status, locked: bool, vibration: real)

  datatype GroupState = GroupState(
    id: string, station: string, name: string, units: seq<UnitState>,
    active: string, discharge: real, target: real)

  datatype Action = Start | Stop | SetTarget | Unknown(text: string)

  datatype Command = Command(id: string, group: string, unit: string, action: Action, target: real)

  /** The group after a call and what the call returned. */
  datatype Change = Change(state: GroupState, outcome: Outcome)

  /** What a station shows of its units: a status per unit id. */
  type View = map<string, Status>

  const MAX_MPA := 1.5
  const VIBRATION_LIMIT := 4.5

  /** Reading a missing key of a Go map yields the empty status. */
  function Seen(view: View, id: string): Status {
    if id in view then view[id] else Other("")
  }

  /** Index of the first unit with this id, or the number of units. */
  function Find(units: seq<UnitState>, id: string): (k: nat)
    ensures k <= |units|
    ensures k < |units| ==> units[k].id == id
    ensures forall j :: 0 <= j < k ==> units[j].id != id
  {
    if units == [] then 0 else if units[0].id == id then 0 else 1 + Find(units[1..], id)
  }

  function Adding(s: GroupState, id: string, name: string): GroupState {
    s.(units := s.units + [UnitState(id, name, Standby, false, 0.0)])
  }

  /** One unit when `chosen` takes over: the chosen one runs, another running one stands by. */
  function HandOver(u: UnitState, chosen: string): UnitState {
    if u.id == chosen then u.(status := Running)
    else if u.status == Running then u.(status := Standby)
    else u
  }

  function SwitchTo(s: GroupState, chosen: string): GroupState {
    s.(units := seq(|s.units|, i requires 0 <= i < |s.units| => HandOver(s.units[i], chosen)), active := chosen)
  }

  /** The first unit with this id takes a new value and is no longer the active one. */
  function Retire(s: GroupState, k: nat, u: UnitState): GroupState
    requires k < |s.units|
  {
    s.(units := s.units[k := u], active := if s.active == s.units[k].id then "" else s.active)
  }

  function Starting(s: GroupState, id: string): Change {
    var k := Find(s.units, id);
    if k == |s.units| then Change(s, Err(UnitNotFound))
    else if s.units[k].locked then Change(s, Err(LockedOut))
    else Change(SwitchTo(s, id), Done)
  }

  function Stopping(s: GroupState, id: string): Change {
    var k := Find(s.units, id);
    if k == |s.units| then Change(s, Err(UnitNotFound))
    else Change(Retire(s, k, s.units[k].(status := Standby)), Done)
  }

  function Tripping(s: GroupState, id: string): Change {
    var k := Find(s.units, id);
    if k == |s.units| then Change(s, Err(UnitNotFound))
    else Change(Retire(s, k, s.units[k].(status := Stopped)), Done)
  }

  function Locking(s: GroupState, id: string): Change {
    var k := Find(s.units, id);
    if k == |s.units| then Change(s, Err(UnitNotFound))
    else Change(Retire(s, k, s.units[k].(locked := true, status := Maintenance)), Done)
  }

  /** The lock is cleared even when persisting the group then fails. */
  function Releasing(s: GroupState, id: string, saved: Outcome): Change {
    var k := Find(s.units, id);
    if k == |s.units| then Change(s, Err(UnitNotFound))
    else
      var u := s.units[k];
      var freed := u.(locked := false, status := if u.status == Maintenance then Standby else u.status);
      Change(s.(units := s.units[k := freed]), saved)
  }

  function Overriding(s: GroupState, id: string, status: Status): Change {
    var k := Find(s.units, id);
    if k == |s.units| then Change(s, Err(UnitNotFound))
    else Change(s.(units := s.units[k := s.units[k].(status := status)]), Done)
  }

  function Vibrating(s: GroupState, id: string, value: real): Change {
    var k := Find(s.units, id);
    if k == |s.units| then Change(s, Err(UnitNotFound))
    else Change(s.(units := s.units[k := s.units[k].(vibration := value)]), Done)
  }

  function Targeting(s: GroupState, mpa: real): Change {
    if mpa < 0.0 || mpa > MAX_MPA then Change(s, Err(TargetOutOfRange)) else Change(s.(target := mpa), Done)
  }

  function Discharging(s: GroupState, mpa: real): Change {
    if mpa < 0.0 || mpa > MAX_MPA then Change(s, Err(DischargeOutOfRange)) else Change(s.(discharge := mpa), Done)
  }

  function Applying(s: GroupState, command: Command): Change {
    match command.action
    case Start => Starting(s, command.unit)
    case Stop => Stopping(s, command.unit)
    case SetTarget => Targeting(s, command.target)
    case Unknown(_) => Change(s, Err(UnknownAction))
  }

  /** A batch stops at its first error; the commands before it stay applied. */
  function ApplyingAll(s: GroupState, commands: seq<Command>): Change
    decreases |commands|
  {
    if commands == [] then Change(s, Done)
    else
      var first := Applying(s, commands[0]);
      if first.outcome.Err? then first else ApplyingAll(first.state, commands[1..])
  }

  predicate OverLimit(u: UnitState) {
    u.status == Running && u.vibration > VIBRATION_LIMIT
  }

  predicate AnyOverLimit(s: GroupState) {
    exists u :: u in s.units && OverLimit(u)
  }

  /** Index of the first running unit, or the number of units. */
  function FirstRunning(units: seq<UnitState>): (k: nat)
    ensures k <= |units|
    ensures k < |units| ==> units[k].status == Running
    ensures forall j :: 0 <= j < k ==> units[j].status != Running
  {
    if units == [] then 0 else if units[0].status == Running then 0 else 1 + FirstRunning(units[1..])
  }

  function Adjusting(s: GroupState, target: real): Change {
    if AnyOverLimit(s) then
      var k := FirstRunning(s.units);
      var tripped := if k < |s.units| then Tripping(s, s.units[k].id).state else s;
      Change(tripped, Err(OverVibration))
    else Targeting(s, target)
  }

  predicate Usable(status: Status) {
    status == Running || status == Standby
  }

  /** A unit failover may promote: usable in the view and not locked in the group itself. */
  predicate Eligible(u: UnitState, view: View) {
    Usable(Seen(view, u.id)) && !u.locked
  }

  /** The promotable ids in unit order. */
  function EligibleIds(units: seq<UnitState>, view: View): seq<string> {
    if units == [] then []
    else
      var last := units[|units| - 1];
      EligibleIds(units[..|units| - 1], view) + if Eligible(last, view) then [last.id] else []
  }

  predicate PrimaryRuns(units: seq<UnitState>, view: View) {
    units != [] && units[0].id != "" && Seen(view, units[0].id) == Running
  }

  /** The unit failover picks from a view; "" when it finds none. */
  function Choice(units: seq<UnitState>, view: View): string {
    var healthy := EligibleIds(units, view);
    if PrimaryRuns(units, view) then units[0].id
    else if healthy != [] then Strings.Sort(healthy)[0]
    else ""
  }

  function FailingOver(s: GroupState, view: View): Change {
    var chosen := Choice(s.units, view);
    if chosen == "" then Change(s, Err(NoHealthyUnit)) else Change(SwitchTo(s, chosen), Done)
  }

  /** The statuses a group reports, later units winning a shared id. */
  function Statuses(units: seq<UnitState>): View {
    if units == [] then map[]
    else
      var last := units[|units| - 1];
      Statuses(units[..|units| - 1])[last.id := last.status]
  }

  /** Failover deciding on the group's own current statuses, as its documentation asks. */
  function FailingOverLive(s: GroupState): Change {
    FailingOver(s, Statuses(s.units))
  }

  /** Ids of the units that may run: usable and unlocked. */
  function HealthyIds(s: GroupState): set<string> {
    set u | u in s.units && Usable(u.status) && !u.locked :: u.id
  }

  // The stored form of a group.

  datatype UnitRecord = UnitRecord(id: string, name: string, status: string, locked: bool, vibration: real)

  datatype GroupRecord = GroupRecord(
    id: string, station: string, name: string, units: seq<UnitRecord>,
    active: string, discharge: real, target: real)

  function StatusText(status: Status): string {
    match status
    case Running => "running"
    case Standby => "standby"
    case Maintenance => "maintenance"
    case Stopped => "stopped"
    case Other(text) => text
  }

  function ParseStatus(text: string): (status: Status)
    ensures StatusText(status) == text
  {
    if text == "running" then Running
    else if text == "standby" then Standby
    else if text == "maintenance" then Maintenance
    else if text == "stopped" then Stopped
    else Other(text)
  }

  /** The four names are read as their statuses, and any other text as itself. */
  lemma {:induction false} StatusesAreNamed(text: string)
    ensures ParseStatus("running") == Running && ParseStatus("standby") == Standby
    ensures ParseStatus("maintenance") == Maintenance && ParseStatus("stopped") == Stopped
    ensures text != "running" && text != "standby" && text != "maintenance" && text != "stopped" ==>
              ParseStatus(text) == Other(text)
  {
    assert |"running"| == 7 && |"standby"| == 7 && "running"[0] != "standby"[0];
    assert |"maintenance"| == 11 && |"stopped"| == 7 && "running"[0] != "stopped"[0] && "standby"[2] != "stopped"[2];
  }

  /** A status whose text is not one of the four names is carried as `Other`, never the reverse. */
  predicate Canonical(status: Status) {
    ParseStatus(StatusText(status)) == status
  }

  function UnitRow(u: UnitState): UnitRecord {
    UnitRecord(u.id, u.name, StatusText(u.status), u.locked, u.vibration)
  }

  function UnitFromRow(r: UnitRecord): UnitState {
    UnitState(r.id, r.name, ParseStatus(r.status), r.locked, r.vibration)
  }

  function Recorded(s: GroupState): GroupRecord {
    GroupRecord(s.id, s.station, s.name, seq(|s.units|, i requires 0 <= i < |s.units| => UnitRow(s.units[i])),
                s.active, s.discharge, s.target)
  }

  function Restored(r: GroupRecord): GroupState {
    GroupState(r.id, r.station, r.name, seq(|r.units|, i requires 0 <= i < |r.units| => UnitFromRow(r.units[i])),
               r.active, r.discharge, r.target)
  }

  /** Saving a group and loading it back gives the same group. */
  lemma {:induction false} RecordRoundTrip(s: GroupState)
    requires forall u :: u in s.units ==> Canonical(u.status)
    ensures Restored(Recorded(s)) == s
  {
    assert Restored(Recorded(s)).units == s.units;
  }
}
