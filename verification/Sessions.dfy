/**
 * The dispatch executor: one lock per group id, a transition and a receipt under it, and every interleaving of
 * sessions.
 */
module Sessions {
  import opened Results
  import opened PumpState
  import opened PumpGroup
  import P = PumpSafety
  import opened Files
  import opened Snapshots
  import opened Logs
  import opened Receipts

  function ActionText(action: Action): string {
    match action
    case Start => "start"
    case Stop => "stop"
    case SetTarget => "set_target"
    case Unknown(text) => text
  }

  function ReceiptOf(command: Command): ExecutionRecord {
    ExecutionRecord(command.id, command.group, ActionText(command.action), APPLIED)
  }

  /** The text of an action in a receipt. */
  predicate NamesAction(text: string, action: Action) {
    && (action == Start ==> text == "start")
    && (action == Stop ==> text == "stop")
    && (action == SetTarget ==> text == "set_target")
    && (action.Unknown? ==> text == action.text)
  }

  /** The receipt says of this command, and of no other with another id, group or action, that it was applied. */
  predicate StandsFor(receipt: ExecutionRecord, command: Command) {
    && receipt.commandId == command.id && receipt.target == command.group
    && NamesAction(receipt.action, command.action) && receipt.result == "applied"
  }

  /** A command has exactly one receipt, the one that is written for it. */
  lemma {:induction false} ReceiptStands(receipt: ExecutionRecord, command: Command)
    ensures StandsFor(receipt, command) <==> receipt == ReceiptOf(command)
  {
  }

  class Mutex {
    constructor () {}
  }

  class Executor {
    var groupLocks: map<string, Mutex>
    const receipts: RecordLog<ExecutionRecord>

    constructor (receipts: RecordLog<ExecutionRecord>)
      ensures groupLocks == map[] && this.receipts == receipts
    {
      this.groupLocks, this.receipts := map[], receipts;
    }

    /** The lock of a group id, made on first use and the same ever after. */
    method GroupLock(id: string) returns (lock: Mutex)
      modifies this
      ensures groupLocks == old(groupLocks)[id := lock]
      ensures if id in old(groupLocks) then lock == old(groupLocks)[id] else fresh(lock)
    {
      if id in groupLocks {
        lock := groupLocks[id];
        assert groupLocks[id := lock] == groupLocks;
      } else {
        lock := new Mutex();
        groupLocks := groupLocks[id := lock];
      }
    }

    /** Writes a receipt; `stop` says where its append ends. */
    method Record(command: Command, stop: Stop) returns (r: Outcome)
      modifies receipts.store
      ensures receipts.Data() == Grown(receipts.codec, old(receipts.Data()), [Write(ReceiptOf(command), stop)])
      ensures r == if Kept(stop) then Results.Done else Err(StoreFailed)
      ensures OnlyChanged(old(receipts.store.files), receipts.store.files, receipts.path)
    {
      r := receipts.Append(ReceiptOf(command), stop);
    }

    /** One command on one group, and its receipt once the command succeeded. */
    method Apply(command: Command, group: Group, stop: Stop) returns (r: Outcome)
      requires group.Valid()
      modifies this, group, group.units, receipts.store
      ensures group.Valid() && group.units == old(group.units)
      ensures var change := Applying(old(group.State()), command);
              && group.State() == change.state
              && r == (if change.outcome.Err? || Kept(stop) then change.outcome else Err(StoreFailed))
              && receipts.Data()
                 == Grown(receipts.codec, old(receipts.Data()),
                          if change.outcome.Ok? then [Write(ReceiptOf(command), stop)] else [])
      ensures OnlyChanged(old(receipts.store.files), receipts.store.files, receipts.path)
    {
      ghost var data, change := receipts.Data(), Applying(group.State(), command);
      var lock := GroupLock(command.group);
      r := group.Apply(command);
      assert Change(group.State(), r) == change && receipts.Data() == data;
      if r.Ok? {
        r := Record(command, stop);
        assert group.State() == change.state;
      }
    }
  }

  // Requests running at once. Each step below is atomic: the lock map, the lock and the group have locks of their own,
  // and an append is one write that the file system is assumed to place whole at the end of the file.

  /** A command and the key of the group object it is sent with. */
  datatype Request = Request(command: Command, group: string)

  datatype End = Recorded | Refused | Lost

  datatype Phase =
    | Fresh
    | Waiting(lock: nat)
    | Inside(lock: nat)
    | Applied(lock: nat)
    | Leaving(lock: nat, end: End)
    | Done(end: End)

  /** Who waits for, holds and has passed which lock. */
  datatype Control = Control(locks: map<string, nat>, made: nat, owners: map<nat, nat>, phases: seq<Phase>)

  /** `applied` and `recorded` list requests in the order their transition and their receipt happened. */
  datatype World = World(
    groups: map<string, GroupState>, control: Control, receipts: seq<Write<ExecutionRecord>>, applied: seq<nat>,
    recorded: seq<nat>)

  datatype Event =
    | FindLock(request: nat)
    | Lock(request: nat)
    | Transition(request: nat)
    | Record(request: nat, stop: Stop)
    | Unlock(request: nat)

  /** A step of a request, or a change of a group that goes past the executor and leaves no receipt. */
  datatype Step = Session(event: Event) | Unrecorded(group: string, op: P.Op)

  predicate Enabled(c: Control, e: Event) {
    e.request < |c.phases| &&
    var phase := c.phases[e.request];
    match e
    case FindLock(_) => phase == Fresh
    case Lock(_) => phase.Waiting? && phase.lock !in c.owners
    case Transition(_) => phase.Inside?
    case Record(_, _) => phase.Applied?
    case Unlock(_) => phase.Leaving?
  }

  /** The locks after one step; `refused` says that the transition of this step returned an error. */
  function NextControl(c: Control, requests: seq<Request>, e: Event, refused: bool): (n: Control)
    requires |c.phases| == |requests| && Enabled(c, e)
    ensures |n.phases| == |requests|
  {
    var t := e.request;
    var name := requests[t].command.group;
    match e
    case FindLock(_) =>
      if name in c.locks then c.(phases := c.phases[t := Waiting(c.locks[name])])
      else Control(c.locks[name := c.made], c.made + 1, c.owners, c.phases[t := Waiting(c.made)])
    case Lock(_) => c.(owners := c.owners[c.phases[t].lock := t], phases := c.phases[t := Inside(c.phases[t].lock)])
    case Transition(_) =>
      c.(phases := c.phases[t := if refused then Leaving(c.phases[t].lock, Refused) else Applied(c.phases[t].lock)])
    case Record(_, stop) => c.(phases := c.phases[t := Leaving(c.phases[t].lock, if Kept(stop) then Recorded
                                                               else Lost)])
    case Unlock(_) => c.(owners := c.owners - {c.phases[t].lock}, phases := c.phases[t := Done(c.phases[t].end)])
  }

  predicate Wired(w: World, requests: seq<Request>) {
    |w.control.phases| == |requests| && forall r :: r in requests ==> r.group in w.groups
  }

  /** What the transition of request `t` would do now. */
  function Attempt(w: World, requests: seq<Request>, t: nat): Change
    requires Wired(w, requests) && t < |requests|
  {
    assert requests[t] in requests;
    Applying(w.groups[requests[t].group], requests[t].command)
  }

  /** One step, in which a transition, if this is one, has the given effect on the request's group. */
  function NextWith(w: World, requests: seq<Request>, e: Event, change: Change): (n: World)
    requires Wired(w, requests) && Enabled(w.control, e)
    ensures Wired(n, requests) && n.groups.Keys == w.groups.Keys
  {
    var t := e.request;
    var control := NextControl(w.control, requests, e, change.outcome.Err?);
    assert requests[t] in requests;
    match e
    case Transition(_) =>
      World(w.groups[requests[t].group := change.state], control, w.receipts,
            if change.outcome.Ok? then w.applied + [t] else w.applied, w.recorded)
    case Record(_, stop) =>
      World(w.groups, control, w.receipts + [Write(ReceiptOf(requests[t].command), stop)],
            w.applied, if Kept(stop) then w.recorded + [t] else w.recorded)
    case _ => w.(control := control)
  }

  function Next(w: World, requests: seq<Request>, e: Event): (n: World)
    requires Wired(w, requests) && Enabled(w.control, e)
    ensures Wired(n, requests) && n.groups.Keys == w.groups.Keys
  {
    NextWith(w, requests, e, Attempt(w, requests, e.request))
  }

  function Begin(groups: map<string, GroupState>, requests: seq<Request>): World {
    World(groups, Control(map[], 0, map[], seq(|requests|, _ => Fresh)), [], [], [])
  }

  predicate Possible(w: World, step: Step) {
    match step
    case Session(e) => Enabled(w.control, e)
    case Unrecorded(g, _) => g in w.groups
  }

  function NextStep(w: World, requests: seq<Request>, step: Step): (n: World)
    requires Wired(w, requests) && Possible(w, step)
    ensures Wired(n, requests) && n.groups.Keys == w.groups.Keys
  {
    match step
    case Session(e) => Next(w, requests, e)
    case Unrecorded(g, op) => w.(groups := w.groups[g := P.Do(w.groups[g], op)])
  }

  /** The world after these steps, if each was possible in turn. */
  function Run(groups: map<string, GroupState>, requests: seq<Request>, steps: seq<Step>): (w: Option<World>)
    requires forall r :: r in requests ==> r.group in groups
    ensures w.Some? ==> Wired(w.value, requests) && w.value.groups.Keys == groups.Keys
  {
    if steps == [] then Some(Begin(groups, requests))
    else
      var before := Run(groups, requests, steps[..|steps| - 1]);
      var step := steps[|steps| - 1];
      if before.None? || !Possible(before.value, step) then None else Some(NextStep(before.value, requests, step))
  }

  // Mutual exclusion.

  predicate HasLock(phase: Phase) {
    phase.Waiting? || Critical(phase)
  }

  /** Between lock and unlock. */
  predicate Critical(phase: Phase) {
    phase.Inside? || phase.Applied? || phase.Leaving?
  }

  ghost predicate LocksDistinct(c: Control) {
    && (forall g :: g in c.locks ==> c.locks[g] < c.made)
    && (forall g, h :: g in c.locks && h in c.locks && c.locks[g] == c.locks[h] ==> g == h)
  }

  ghost predicate LocksNamed(c: Control, requests: seq<Request>)
    requires |c.phases| == |requests|
  {
    forall t :: 0 <= t < |requests| && HasLock(c.phases[t]) ==>
                  requests[t].command.group in c.locks && c.phases[t].lock == c.locks[requests[t].command.group]
  }

  ghost predicate OwnersInside(c: Control) {
    && (forall t :: 0 <= t < |c.phases| && Critical(c.phases[t]) ==>
        c.phases[t].lock in c.owners && c.owners[c.phases[t].lock] == t)
    && (forall lock :: lock in c.owners ==>
          var t := c.owners[lock]; t < |c.phases| && Critical(c.phases[t]) && c.phases[t].lock == lock)
  }

  ghost predicate Exclusive(c: Control, requests: seq<Request>)
    requires |c.phases| == |requests|
  {
    LocksDistinct(c) && LocksNamed(c, requests) && OwnersInside(c)
  }

  lemma {:induction false} StepOwners(c: Control, requests: seq<Request>, e: Event, refused: bool)
    requires |c.phases| == |requests| && Enabled(c, e) && OwnersInside(c)
    ensures OwnersInside(NextControl(c, requests, e, refused))
  {
    var n := NextControl(c, requests, e, refused);
    var t := e.request;
    forall u | 0 <= u < |n.phases| && Critical(n.phases[u])
        ensures n.phases[u].lock in n.owners && n.owners[n.phases[u].lock] == u {
      assert u != t ==> c.phases[u].lock in c.owners && c.owners[c.phases[u].lock] == u;
    }
  }

  lemma {:induction false} StepLocks(c: Control, requests: seq<Request>, e: Event, refused: bool)
    requires |c.phases| == |requests| && Enabled(c, e) && LocksDistinct(c) && LocksNamed(c, requests)
    ensures var n := NextControl(c, requests, e, refused); LocksDistinct(n) && LocksNamed(n, requests)
  {
  }

  lemma {:induction false} StepExclusive(c: Control, requests: seq<Request>, e: Event, refused: bool)
    requires |c.phases| == |requests| && Enabled(c, e) && Exclusive(c, requests)
    ensures Exclusive(NextControl(c, requests, e, refused), requests)
  {
    StepOwners(c, requests, e, refused);
    StepLocks(c, requests, e, refused);
  }

  lemma {:induction false} AlwaysExclusive(groups: map<string, GroupState>, requests: seq<Request>, steps: seq<Step>)
    requires (forall r :: r in requests ==> r.group in groups) && Run(groups, requests, steps).Some?
    ensures Exclusive(Run(groups, requests, steps).value.control, requests)
  {
    if steps != [] {
      var before := steps[..|steps| - 1];
      var w, step := Run(groups, requests, before).value, steps[|steps| - 1];
      AlwaysExclusive(groups, requests, before);
      if step.Session? {
        StepExclusive(w.control, requests, step.event, Attempt(w, requests, step.event.request).outcome.Err?);
      }
    }
  }

  /** All requests naming one group id get the same lock, and at most one of them is between lock and unlock. */
  lemma {:induction false} OneLockPerGroup(
      groups: map<string, GroupState>, requests: seq<Request>, steps: seq<Step>, t: nat, u: nat)
    requires (forall r :: r in requests ==> r.group in groups) && Run(groups, requests, steps).Some?
    requires t < |requests| && u < |requests| && requests[t].command.group == requests[u].command.group
    ensures var phases := Run(groups, requests, steps).value.control.phases;
            && (HasLock(phases[t]) && HasLock(phases[u]) ==> phases[t].lock == phases[u].lock)
            && (Critical(phases[t]) && Critical(phases[u]) ==> t == u)
  {
    AlwaysExclusive(groups, requests, steps);
  }

  // The state of a group is its history of applied commands.

  /** The listed requests that were sent with group `g`. */
  function Of(list: seq<nat>, requests: seq<Request>, g: string): seq<nat> {
    if list == [] then []
    else
      var t := list[|list| - 1];
      Of(list[..|list| - 1], requests, g) + if t < |requests| && requests[t].group == g then [t] else []
  }

  function CommandsOf(list: seq<nat>, requests: seq<Request>): (commands: seq<Command>)
    requires forall t :: t in list ==> t < |requests|
  {
    seq(|list|, i requires 0 <= i < |list| =>
      assert list[i] in list;
      requests[list[i]].command)
  }

  lemma {:induction false} OfMembers(list: seq<nat>, requests: seq<Request>, g: string)
    ensures forall t :: t in Of(list, requests, g) <==> t in list && t < |requests| && requests[t].group == g
  {
    if list != [] {
      OfMembers(list[..|list| - 1], requests, g);
      assert list == list[..|list| - 1] + [list[|list| - 1]];
    }
  }

  lemma {:induction false} OfSnoc(list: seq<nat>, requests: seq<Request>, g: string, t: nat)
    ensures Of(list + [t], requests, g) == Of(list, requests, g) + if t < |requests| && requests[t].group == g
        then [t] else []
  {
    assert (list + [t])[..|list|] == list;
  }

  lemma {:induction false} ApplyOneMore(s: GroupState, commands: seq<Command>, command: Command)
    requires ApplyingAll(s, commands).outcome.Ok?
    ensures ApplyingAll(s, commands + [command]) == Applying(ApplyingAll(s, commands).state, command)
    decreases |commands|
  {
    if commands == [] {
      assert [command][1..] == [];
      assert commands + [command] == [command];
    } else {
      var first := Applying(s, commands[0]);
      assert (commands + [command])[1..] == commands[1..] + [command];
      ApplyOneMore(first.state, commands[1..], command);
    }
  }

  lemma {:induction false} AcceptedIsDone(s: GroupState, command: Command)
    ensures Applying(s, command).outcome.Ok? ==> Applying(s, command).outcome == Results.Done
    ensures Applying(s, command).outcome.Err? ==> Applying(s, command).state == s
  {
  }

  /** Everything that changed group `g`, in order: accepted commands of requests and unrecorded changes. */
  function Changes(groups: map<string, GroupState>, requests: seq<Request>, steps: seq<Step>, g: string): seq<P.Op>
    requires (forall r :: r in requests ==> r.group in groups) && Run(groups, requests, steps).Some?
  {
    if steps == [] then []
    else
      var before, step := steps[..|steps| - 1], steps[|steps| - 1];
      var w := Run(groups, requests, before).value;
      Changes(groups, requests, before, g)
      + match step
        case Unrecorded(h, op) => if h == g then [op] else []
        case Session(e) =>
          if e.Transition? && requests[e.request].group == g && Attempt(w, requests, e.request).outcome.Ok?
          then [P.Send(requests[e.request].command)] else []
  }

  lemma {:induction false} ChangesMore(
      groups: map<string, GroupState>, requests: seq<Request>, w: World, step: Step, g: string, changes: seq<P.Op>,
      more: seq<P.Op>)
    requires Wired(w, requests) && Possible(w, step) && g in w.groups && g in groups
    requires w.groups[g] == P.Run(groups[g], changes)
    requires step.Unrecorded? ==> more == if step.group == g then [step.op] else []
    requires step.Session? ==>
               var e := step.event;
               more == if e.Transition? && requests[e.request].group == g && Attempt(w, requests, e.request).outcome.Ok?
                       then [P.Send(requests[e.request].command)] else []
    ensures NextStep(w, requests, step).groups[g] == P.Run(groups[g], changes + more)
  {
    if more == [] {
      assert changes + more == changes;
      if step.Session? && step.event.Transition? {
        AcceptedIsDone(w.groups[requests[step.event.request].group], requests[step.event.request].command);
      }
    } else {
      assert changes + more == changes + [more[0]];
      P.RunSnoc(groups[g], changes, more[0]);
    }
  }

  /**
   * In every interleaving, lost receipts and mismatched groups allowed, a group is the fold of its changes in order.
   */
  lemma {:induction false} GroupIsItsHistory(
      groups: map<string, GroupState>, requests: seq<Request>, steps: seq<Step>, g: string)
    requires (forall r :: r in requests ==> r.group in groups) && Run(groups, requests, steps).Some? && g in groups
    ensures Run(groups, requests, steps).value.groups[g] == P.Run(groups[g], Changes(groups, requests, steps, g))
  {
    if steps != [] {
      var before, step := steps[..|steps| - 1], steps[|steps| - 1];
      GroupIsItsHistory(groups, requests, before, g);
      var changes := Changes(groups, requests, before, g);
      var all := Changes(groups, requests, steps, g);
      ChangesMore(groups, requests, Run(groups, requests, before).value, step, g, changes, all[|changes|..]);
      assert all == changes + all[|changes|..];
    }
  }

  /** So concurrent sessions and unrecorded changes together never run two units of a group. */
  lemma {:induction false} SessionsRunOneUnit(
      groups: map<string, GroupState>, requests: seq<Request>, steps: seq<Step>, g: string)
    requires (forall r :: r in requests ==> r.group in groups) && Run(groups, requests, steps).Some? && g in groups
    requires P.DistinctIds(groups[g]) && P.OneRunning(groups[g])
    requires P.AddsFresh(groups[g], Changes(groups, requests, steps, g))
    ensures P.OneRunning(Run(groups, requests, steps).value.groups[g])
  {
    GroupIsItsHistory(groups, requests, steps, g);
    P.OneRunningAlways(groups[g], Changes(groups, requests, steps, g));
  }

  // What the commands alone give, without the unrecorded changes.

  /** How much of a group is compared: all of it, or which unit is active and each unit's id, status and lock. */
  datatype Detail = Everything | Units

  predicate Alike(s: GroupState, t: GroupState, detail: Detail) {
    match detail
    case Everything => s == t
    case Units =>
      && s.active == t.active && |s.units| == |t.units|
      && forall i :: 0 <= i < |s.units| ==>
           && s.units[i].id == t.units[i].id
           && s.units[i].status == t.units[i].status
           && s.units[i].locked == t.units[i].locked
  }

  lemma {:induction false} SameIdsFound(a: seq<UnitState>, b: seq<UnitState>, id: string)
    requires |a| == |b| && forall i :: 0 <= i < |a| ==> a[i].id == b[i].id
    ensures Find(a, id) == Find(b, id)
  {
    var k := Find(a, id);
    if k < |a| { assert b[k].id == id; }
  }

  /** A command does the same to groups with the same units, whatever their targets and vibrations. */
  lemma {:induction false} ApplyingAlike(s: GroupState, t: GroupState, command: Command, detail: Detail)
    requires Alike(s, t, detail)
    ensures Applying(s, command).outcome == Applying(t, command).outcome
    ensures Alike(Applying(s, command).state, Applying(t, command).state, detail)
  {
    if detail == Units {
      SameIdsFound(s.units, t.units, command.unit);
      match command.action
      case Start => StartingAlike(s, t, command.unit);
      case Stop => StoppingAlike(s, t, command.unit);
      case _ =>
    }
  }

  lemma {:induction false} StartingAlike(s: GroupState, t: GroupState, id: string)
    requires Alike(s, t, Units) && Find(s.units, id) == Find(t.units, id)
    ensures Starting(s, id).outcome == Starting(t, id).outcome
    ensures Alike(Starting(s, id).state, Starting(t, id).state, Units)
  {
    var a, b := SwitchTo(s, id), SwitchTo(t, id);
    assert Alike(a, b, Units);
  }

  lemma {:induction false} StoppingAlike(s: GroupState, t: GroupState, id: string)
    requires Alike(s, t, Units) && Find(s.units, id) == Find(t.units, id)
    ensures Stopping(s, id).outcome == Stopping(t, id).outcome
    ensures Alike(Stopping(s, id).state, Stopping(t, id).state, Units)
  {
  }

  /** Target, discharge and vibration leave the units alike. */
  lemma {:induction false} SettingsKeepUnits(s: GroupState, op: P.Op)
    requires op.Target? || op.Discharge? || op.Vibration?
    ensures Alike(s, P.Do(s, op), Units)
  {
  }

  /** The commands applied to `g` so far, run alone, are all accepted and give the group. */
  ghost predicate CommandsGive(
      w: World, groups: map<string, GroupState>, requests: seq<Request>, g: string, detail: Detail)
    requires g in w.groups && g in groups
  {
    var mine := Of(w.applied, requests, g);
    && (forall t :: t in mine ==> t < |requests|)
    && var alone := ApplyingAll(groups[g], CommandsOf(mine, requests));
       alone.outcome == Results.Done && Alike(alone.state, w.groups[g], detail)
  }

  /** No unrecorded change made a difference to `g` when it happened. */
  predicate Neutral(
      groups: map<string, GroupState>, requests: seq<Request>, steps: seq<Step>, g: string, detail: Detail)
    requires (forall r :: r in requests ==> r.group in groups) && Run(groups, requests, steps).Some? && g in groups
  {
    steps == [] ||
    (Neutral(groups, requests, steps[..|steps| - 1], g, detail) &&
     var step, s := steps[|steps| - 1], Run(groups, requests, steps[..|steps| - 1]).value.groups[g];
     step.Unrecorded? && step.group == g ==> Alike(s, P.Do(s, step.op), detail))
  }

  lemma {:induction false} TransitionExtends(
      s: GroupState, now: GroupState, mine: seq<nat>, requests: seq<Request>, t: nat, detail: Detail)
    requires (forall u :: u in mine ==> u < |requests|) && t < |requests|
    requires var alone := ApplyingAll(s, CommandsOf(mine, requests));
        alone.outcome == Results.Done && Alike(alone.state, now, detail)
    requires Applying(now, requests[t].command).outcome.Ok?
    ensures forall u :: u in mine + [t] ==> u < |requests|
    ensures var alone := ApplyingAll(s, CommandsOf(mine + [t], requests));
            alone.outcome == Results.Done && Alike(alone.state, Applying(now, requests[t].command).state, detail)
  {
    assert CommandsOf(mine + [t], requests) == CommandsOf(mine, requests) + [requests[t].command];
    ApplyOneMore(s, CommandsOf(mine, requests), requests[t].command);
    var alone := ApplyingAll(s, CommandsOf(mine, requests)).state;
    ApplyingAlike(alone, now, requests[t].command, detail);
    AcceptedIsDone(alone, requests[t].command);
  }

  lemma {:induction false} EventKeepsCommands(
      w: World, groups: map<string, GroupState>, requests: seq<Request>, e: Event, g: string, detail: Detail)
    requires Wired(w, requests) && Enabled(w.control, e) && g in w.groups && g in groups
    requires CommandsGive(w, groups, requests, g, detail)
    ensures CommandsGive(Next(w, requests, e), groups, requests, g, detail)
  {
    var t := e.request;
    if e.Transition? {
      var change := Attempt(w, requests, t);
      AcceptedIsDone(w.groups[requests[t].group], requests[t].command);
      if change.outcome.Ok? {
        OfSnoc(w.applied, requests, g, t);
        if requests[t].group == g {
          TransitionExtends(groups[g], w.groups[g], Of(w.applied, requests, g), requests, t, detail);
        } else {
          assert Of(w.applied + [t], requests, g) == Of(w.applied, requests, g);
        }
      }
    }
  }

  lemma {:induction false} StepGivesIff(
      w: World, groups: map<string, GroupState>, requests: seq<Request>, step: Step, g: string, detail: Detail)
    requires Wired(w, requests) && Possible(w, step) && g in w.groups && g in groups
    requires CommandsGive(w, groups, requests, g, detail)
    ensures CommandsGive(NextStep(w, requests, step), groups, requests, g, detail)
            <==> (step.Unrecorded? && step.group == g ==> Alike(w.groups[g], P.Do(w.groups[g], step.op), detail))
  {
    match step
    case Session(e) => EventKeepsCommands(w, groups, requests, e, g, detail);
    case Unrecorded(h, op) =>
  }

  /** While no unrecorded change makes a difference, the applied commands alone give the group. */
  lemma {:induction false} CommandsGiveGroup(
      groups: map<string, GroupState>, requests: seq<Request>, steps: seq<Step>, g: string, detail: Detail)
    requires (forall r :: r in requests ==> r.group in groups) && Run(groups, requests, steps).Some? && g in groups
    requires Neutral(groups, requests, steps, g, detail)
    ensures CommandsGive(Run(groups, requests, steps).value, groups, requests, g, detail)
  {
    if steps != [] {
      var before := steps[..|steps| - 1];
      CommandsGiveGroup(groups, requests, before, g, detail);
      StepGivesIff(Run(groups, requests, before).value, groups, requests, steps[|steps| - 1], g, detail);
    }
  }

  /** At every point of a run. */
  ghost predicate CommandsGiveThroughout(
      groups: map<string, GroupState>, requests: seq<Request>, steps: seq<Step>, g: string, detail: Detail)
    requires (forall r :: r in requests ==> r.group in groups) && g in groups
  {
    forall n :: 0 <= n <= |steps| ==>
      && Run(groups, requests, steps[..n]).Some?
      && CommandsGive(Run(groups, requests, steps[..n]).value, groups, requests, g, detail)
  }

  lemma {:induction false} ThroughoutMore(
      groups: map<string, GroupState>, requests: seq<Request>, steps: seq<Step>, g: string, detail: Detail)
    requires (forall r :: r in requests ==> r.group in groups) && Run(groups, requests, steps).Some?
    requires g in groups && steps != []
    ensures CommandsGiveThroughout(groups, requests, steps, g, detail)
            <==> CommandsGiveThroughout(groups, requests, steps[..|steps| - 1], g, detail)
                 && CommandsGive(Run(groups, requests, steps).value, groups, requests, g, detail)
  {
    var before := steps[..|steps| - 1];
    if CommandsGiveThroughout(groups, requests, steps, g, detail) {
      forall n | 0 <= n <= |before|
        ensures Run(groups, requests, before[..n]).Some?
                && CommandsGive(Run(groups, requests, before[..n]).value, groups, requests, g, detail)
      {
        assert before[..n] == steps[..n];
      }
      assert steps[..|steps|] == steps;
    }
    if CommandsGiveThroughout(groups, requests, before, g, detail)
       && CommandsGive(Run(groups, requests, steps).value, groups, requests, g, detail) {
      forall n | 0 <= n <= |steps|
        ensures Run(groups, requests, steps[..n]).Some?
                && CommandsGive(Run(groups, requests, steps[..n]).value, groups, requests, g, detail)
      {
        if n == |steps| { assert steps[..n] == steps; } else { assert steps[..n] == before[..n]; }
      }
    }
  }

  /**
   * The applied commands alone give the group at every point of a run if and only if no unrecorded change ever made a
   * difference.
   */
  lemma {:induction false} CommandsGiveGroupIff(
      groups: map<string, GroupState>, requests: seq<Request>, steps: seq<Step>, g: string, detail: Detail)
    requires (forall r :: r in requests ==> r.group in groups) && Run(groups, requests, steps).Some? && g in groups
    ensures CommandsGiveThroughout(groups, requests, steps, g, detail) <==> Neutral(groups, requests, steps, g, detail)
  {
    if steps == [] {
      assert steps[..0] == [];
      CommandsGiveGroup(groups, requests, [], g, detail);
    } else {
      var before := steps[..|steps| - 1];
      CommandsGiveGroupIff(groups, requests, before, g, detail);
      ThroughoutMore(groups, requests, steps, g, detail);
      if Neutral(groups, requests, before, g, detail) {
        CommandsGiveGroup(groups, requests, before, g, detail);
        StepGivesIff(Run(groups, requests, before).value, groups, requests, steps[|steps| - 1], g, detail);
      }
    }
  }

  // Receipts follow that history.

  /** Every command is sent with the group it names. */
  predicate Matched(requests: seq<Request>) {
    forall r :: r in requests ==> r.command.group == r.group
  }

  predicate IsLost(phase: Phase) {
    (phase.Leaving? || phase.Done?) && phase.end == Lost
  }

  /** The listed requests whose receipt was not lost. */
  function Unlost(list: seq<nat>, phases: seq<Phase>): seq<nat> {
    if list == [] then []
    else
      var t := list[|list| - 1];
      Unlost(list[..|list| - 1], phases) + if t < |phases| && IsLost(phases[t]) then [] else [t]
  }

  /** The request for group `g` that was applied under the lock and not yet recorded, if any. */
  function InFlight(c: Control, g: string): seq<nat> {
    if
      && g in c.locks && c.locks[g] in c.owners
      && c.owners[c.locks[g]] < |c.phases| && c.phases[c.owners[c.locks[g]]].Applied?
    then [c.owners[c.locks[g]]] else []
  }

  predicate Ended(phase: Phase, end: End) {
    (phase.Leaving? || phase.Done?) && phase.end == end
  }

  /** The receipts that were written are those of the recorded requests, in order. */
  ghost predicate ReceiptsMatch(receipts: seq<ExecutionRecord>, recorded: seq<nat>, requests: seq<Request>) {
    && |receipts| == |recorded|
    && (forall i :: 0 <= i < |recorded| ==>
          recorded[i] < |requests| && receipts[i] == ReceiptOf(requests[recorded[i]].command))
  }

  /** Each listed request is in a phase that says so. */
  ghost predicate PhasesMatch(phases: seq<Phase>, applied: seq<nat>, recorded: seq<nat>) {
    && (forall t :: t in recorded ==> t < |phases| && Ended(phases[t], Recorded))
    && (forall t :: t in applied ==> t < |phases| && !phases[t].Fresh? && !phases[t].Waiting? && !phases[t].Inside?)
  }

  ghost predicate Booked(w: World, requests: seq<Request>)
    requires Wired(w, requests)
  {
    ReceiptsMatch(Records(w.receipts), w.recorded, requests) && PhasesMatch(w.control.phases, w.applied, w.recorded)
  }

  /** One request moves on from phase `p` to `q`, perhaps into one of the lists. */
  lemma {:induction false} PhasesStillMatch(
      phases: seq<Phase>, applied: seq<nat>, recorded: seq<nat>, t: nat, q: Phase, newApplied: seq<nat>,
      newRecorded: seq<nat>)
    requires t < |phases| && PhasesMatch(phases, applied, recorded)
    requires newApplied == applied + (if q.Applied? then [t] else [])
    requires newRecorded == recorded + (if phases[t].Applied? && Ended(q, Recorded) then [t] else [])
    requires t in recorded ==> Ended(q, Recorded)
    requires t in applied ==> !q.Fresh? && !q.Waiting? && !q.Inside?
    ensures PhasesMatch(phases[t := q], newApplied, newRecorded)
  {
    assert forall u :: u in newApplied ==> u in applied || (u == t && q.Applied?);
    assert forall u :: u in newRecorded ==> u in recorded || (u == t && Ended(q, Recorded));
  }

  /** The phase that the request of a step takes on. */
  lemma {:induction false} StepPhase(c: Control, requests: seq<Request>, e: Event, refused: bool)
    requires |c.phases| == |requests| && Enabled(c, e)
    ensures var t := e.request; var p, q := c.phases[t], NextControl(c, requests, e, refused).phases[t];
            && (Ended(p, Recorded) ==> Ended(q, Recorded))
            && (!p.Fresh? && !p.Waiting? && !p.Inside? ==> !q.Fresh? && !q.Waiting? && !q.Inside?)
            && (p.Applied? && Ended(q, Recorded) <==> e.Record? && Kept(e.stop))
  {
  }

  lemma {:induction false} ReceiptsStillMatch(
      receipts: seq<Write<ExecutionRecord>>, recorded: seq<nat>, requests: seq<Request>, t: nat, stop: Stop)
    requires t < |requests| && ReceiptsMatch(Records(receipts), recorded, requests)
    ensures ReceiptsMatch(Records(receipts + [Write(ReceiptOf(requests[t].command), stop)]),
                          if Kept(stop) then recorded + [t] else recorded, requests)
  {
    RecordsMore(receipts, Write(ReceiptOf(requests[t].command), stop));
  }

  lemma {:induction false} StepBooked(w: World, requests: seq<Request>, e: Event, change: Change)
    requires Wired(w, requests) && Enabled(w.control, e) && Booked(w, requests)
    ensures Booked(NextWith(w, requests, e, change), requests)
  {
    var n := NextWith(w, requests, e, change);
    var t := e.request;
    assert PhasesMatch(n.control.phases, n.applied, n.recorded) by {
      StepEffects(w, requests, e, change);
      StepPhase(w.control, requests, e, change.outcome.Err?);
      PhasesStillMatch(w.control.phases, w.applied, w.recorded, t, n.control.phases[t], n.applied, n.recorded);
    }
    assert ReceiptsMatch(Records(n.receipts), n.recorded, requests) by {
      if e.Record? { ReceiptsStillMatch(w.receipts, w.recorded, requests, t, e.stop); }
    }
  }

  lemma {:induction false} UnlostUnchanged(list: seq<nat>, a: seq<Phase>, b: seq<Phase>)
    requires |a| == |b| && forall t :: t in list && t < |a| ==> IsLost(a[t]) == IsLost(b[t])
    ensures Unlost(list, a) == Unlost(list, b)
  {
    if list != [] {
      assert list[|list| - 1] in list;
      assert forall t :: t in list[..|list| - 1] ==> t in list;
      UnlostUnchanged(list[..|list| - 1], a, b);
    }
  }

  function Without(list: seq<nat>, t: nat): seq<nat> {
    if list == [] then []
    else Without(list[..|list| - 1], t) + if list[|list| - 1] == t then [] else [list[|list| - 1]]
  }

  lemma {:induction false} UnlostDrops(list: seq<nat>, phases: seq<Phase>, t: nat, lost: Phase)
    requires t < |phases| && IsLost(lost)
    ensures Unlost(list, phases[t := lost]) == Without(Unlost(list, phases), t)
  {
    if list != [] {
      var n := |list| - 1;
      UnlostDrops(list[..n], phases, t, lost);
      var rest := Unlost(list[..n], phases);
      var u := list[n];
      assert (rest + [u])[..|rest|] == rest && rest + [] == rest;
      assert Without(rest + [u], t) == Without(rest, t) + if u == t then [] else [u];
    }
  }

  lemma {:induction false} WithoutAbsent(list: seq<nat>, t: nat)
    requires t !in list
    ensures Without(list, t) == list
  {
    if list != [] {
      WithoutAbsent(list[..|list| - 1], t);
      assert list == list[..|list| - 1] + [list[|list| - 1]];
    }
  }

  /** The receipts of `g`, then the request in flight, are the unlost applied requests of `g` in the same order. */
  ghost predicate ReceiptsFollow(w: World, requests: seq<Request>, g: string)
    requires Wired(w, requests)
  {
    Of(w.recorded, requests, g) + InFlight(w.control, g) == Unlost(Of(w.applied, requests, g), w.control.phases)
  }

  lemma {:induction false} FlightOfOthers(c: Control, requests: seq<Request>, e: Event, refused: bool, g: string)
    requires |c.phases| == |requests| && Enabled(c, e) && Exclusive(c, requests)
    requires requests[e.request].command.group != g
    ensures InFlight(NextControl(c, requests, e, refused), g) == InFlight(c, g)
  {
    if g in c.locks && c.locks[g] in c.owners {
      var u := c.owners[c.locks[g]];
      assert Critical(c.phases[u]) && c.phases[u].lock == c.locks[g];
      assert requests[u].command.group == g;
    }
    StepExclusive(c, requests, e, refused);
  }

  lemma {:induction false} FlightOfOwn(c: Control, requests: seq<Request>, e: Event, refused: bool, g: string)
    requires |c.phases| == |requests| && Enabled(c, e) && Exclusive(c, requests)
    requires requests[e.request].command.group == g
    ensures var n := NextControl(c, requests, e, refused);
            && (e.FindLock? ==> InFlight(n, g) == InFlight(c, g))
            && (!e.FindLock? ==> InFlight(n, g) == (if n.phases[e.request].Applied? then [e.request] else [])
                                 && InFlight(c, g) == if e.Record? then [e.request] else [])
  {
    StepExclusive(c, requests, e, refused);
    if e.FindLock? && g in c.locks && c.locks[g] in c.owners {
      assert Critical(c.phases[c.owners[c.locks[g]]]);
    }
  }

  lemma {:induction false} UnlostSnoc(list: seq<nat>, phases: seq<Phase>, t: nat)
    requires t < |phases| && !IsLost(phases[t])
    ensures Unlost(list + [t], phases) == Unlost(list, phases) + [t]
  {
    assert (list + [t])[..|list|] == list;
  }

  /** What one step appends to the two lists, and the one phase it changes. */
  lemma {:induction false} StepEffects(w: World, requests: seq<Request>, e: Event, change: Change)
    requires Wired(w, requests) && Enabled(w.control, e)
    ensures var t := e.request; var n := NextWith(w, requests, e, change); var p := n.control.phases[t];
            && n.control == NextControl(w.control, requests, e, change.outcome.Err?)
            && n.control.phases == w.control.phases[t := p]
            && n.applied == w.applied + (if p.Applied? then [t] else [])
            && n.recorded == w.recorded + (if e.Record? && Kept(e.stop) then [t] else [])
            && (IsLost(p) <==> (e.Record? && !Kept(e.stop)) || IsLost(w.control.phases[t]))
            && (e.Record? ==> w.control.phases[t].Applied?)
            && (e.FindLock? ==> !p.Applied?)
  {
  }

  lemma {:induction false} NotRecordedYet(w: World, requests: seq<Request>, e: Event)
    requires Wired(w, requests) && Enabled(w.control, e) && Booked(w, requests) && !e.Unlock?
    ensures e.request !in w.recorded
  {
  }

  lemma {:induction false} OfAppend(list: seq<nat>, more: seq<nat>, requests: seq<Request>, g: string, t: nat)
    requires (more == [] || more == [t]) && t < |requests|
    ensures Of(list + more, requests, g) == Of(list, requests, g) + if requests[t].group == g then more else []
  {
    if more == [] { assert list + more == list; } else { OfSnoc(list, requests, g, t); }
  }

  lemma {:induction false} StepFollowsOthers(w: World, requests: seq<Request>, e: Event, change: Change, g: string)
    requires Wired(w, requests) && Enabled(w.control, e) && Exclusive(w.control, requests)
    requires requests[e.request].group != g && requests[e.request].command.group != g && ReceiptsFollow(w, requests, g)
    ensures ReceiptsFollow(NextWith(w, requests, e, change), requests, g)
  {
    var t := e.request;
    var n := NextWith(w, requests, e, change);
    assert InFlight(n.control, g) == InFlight(w.control, g) by {
      FlightOfOthers(w.control, requests, e, change.outcome.Err?, g);
      StepEffects(w, requests, e, change);
    }
    assert Of(n.applied, requests, g) == Of(w.applied, requests, g)
           && Of(n.recorded, requests, g) == Of(w.recorded, requests, g) by {
      StepEffects(w, requests, e, change);
      OfAppend(w.applied, if n.control.phases[t].Applied? then [t] else [], requests, g, t);
      OfAppend(w.recorded, if e.Record? && Kept(e.stop) then [t] else [], requests, g, t);
    }
    assert Unlost(Of(w.applied, requests, g), w.control.phases)
        == Unlost(Of(w.applied, requests, g), n.control.phases) by {
      StepEffects(w, requests, e, change);
      OfMembers(w.applied, requests, g);
      UnlostUnchanged(Of(w.applied, requests, g), w.control.phases, n.control.phases);
    }
  }

  /** The same step on lists alone: `flight` before, `flight'` after. */
  lemma {:induction false} OwnListsFollow(
      applied: seq<nat>, recorded: seq<nat>, phases: seq<Phase>, t: nat, p: Phase, lost: bool, booked: bool,
      found: bool, flight: seq<nat>)
    requires t < |phases| && (lost ==> t !in recorded) && recorded + flight == Unlost(applied, phases)
    requires IsLost(p) <==> lost || IsLost(phases[t])
    requires lost || booked ==> flight == [t] && !p.Applied? && !found
    requires !(lost || booked || found) ==> flight == []
    requires !(lost && booked) && (found ==> !p.Applied?)
    ensures recorded + (if booked then [t] else []) + (if found then flight else if p.Applied? then [t] else [])
            == Unlost(applied + (if p.Applied? then [t] else []), phases[t := p])
  {
    if lost {
      UnlostDrops(applied, phases, t, p);
      assert (recorded + [t])[..|recorded|] == recorded;
      WithoutAbsent(recorded, t);
      assert applied + [] == applied && recorded + [] + [] == recorded;
    } else {
      UnlostUnchanged(applied, phases, phases[t := p]);
      if p.Applied? {
        UnlostSnoc(applied, phases[t := p], t);
      } else {
        assert applied + [] == applied;
      }
    }
  }

  lemma {:induction false} StepFollowsOwn(w: World, requests: seq<Request>, e: Event, change: Change, g: string)
    requires Wired(w, requests) && Enabled(w.control, e) && Exclusive(w.control, requests) && Booked(w, requests)
    requires requests[e.request].group == g && requests[e.request].command.group == g && ReceiptsFollow(w, requests, g)
    ensures ReceiptsFollow(NextWith(w, requests, e, change), requests, g)
  {
    var t := e.request;
    var n := NextWith(w, requests, e, change);
    var p := n.control.phases[t];
    var applied, recorded := Of(w.applied, requests, g), Of(w.recorded, requests, g);
    StepEffects(w, requests, e, change);
    FlightOfOwn(w.control, requests, e, change.outcome.Err?, g);
    assert Of(n.applied, requests, g) == applied + (if p.Applied? then [t] else [])
           && Of(n.recorded, requests, g) == recorded + (if e.Record? && Kept(e.stop) then [t] else []) by {
      OfAppend(w.applied, if p.Applied? then [t] else [], requests, g, t);
      OfAppend(w.recorded, if e.Record? && Kept(e.stop) then [t] else [], requests, g, t);
    }
    assert e.Record? ==> t !in recorded by {
      if e.Record? { NotRecordedYet(w, requests, e); }
      OfMembers(w.recorded, requests, g);
    }
    OwnListsFollow(applied, recorded, w.control.phases, t, p, e.Record? && !Kept(e.stop), e.Record? && Kept(e.stop),
                   e.FindLock?,
                   InFlight(w.control, g));
  }

  lemma {:induction false} AlwaysBookedAndFollowing(
      groups: map<string, GroupState>, requests: seq<Request>, steps: seq<Step>, g: string)
    requires (forall r :: r in requests ==> r.group in groups) && Run(groups, requests, steps).Some?
    requires Matched(requests)
    ensures var w := Run(groups, requests, steps).value; Booked(w, requests) && ReceiptsFollow(w, requests, g)
  {
    if steps != [] {
      var before, step := steps[..|steps| - 1], steps[|steps| - 1];
      AlwaysBookedAndFollowing(groups, requests, before, g);
      if step.Session? {
        AlwaysExclusive(groups, requests, before);
        EventKeepsBooks(Run(groups, requests, before).value, requests, step.event, g);
      }
    }
  }

  lemma {:induction false} EventKeepsBooks(w: World, requests: seq<Request>, e: Event, g: string)
    requires Wired(w, requests) && Enabled(w.control, e) && Exclusive(w.control, requests) && Matched(requests)
    requires Booked(w, requests) && ReceiptsFollow(w, requests, g)
    ensures Booked(Next(w, requests, e), requests) && ReceiptsFollow(Next(w, requests, e), requests, g)
  {
    var change := Attempt(w, requests, e.request);
    assert requests[e.request].command.group == requests[e.request].group by { assert requests[e.request] in requests; }
    StepBooked(w, requests, e, change);
    if requests[e.request].group == g {
      StepFollowsOwn(w, requests, e, change, g);
    } else {
      StepFollowsOthers(w, requests, e, change, g);
    }
  }

  predicate LostFor(w: World, requests: seq<Request>, g: string) {
    exists t :: t in Of(w.applied, requests, g) && t < |w.control.phases| && IsLost(w.control.phases[t])
  }

  lemma {:induction false} UnlostIsAllIff(list: seq<nat>, phases: seq<Phase>)
    ensures |Unlost(list, phases)| <= |list|
    ensures Unlost(list, phases) == list <==> forall t :: t in list && t < |phases| ==> !IsLost(phases[t])
  {
    if list != [] {
      var n := |list| - 1;
      UnlostIsAllIff(list[..n], phases);
      assert list == list[..n] + [list[n]];
      if Unlost(list, phases) == list { assert Unlost(list[..n], phases) == list[..n]; }
    }
  }

  /**
   * Receipts plus the request in flight list all applied commands of a group exactly when none of its receipts was
   * lost.
   */
  lemma {:induction false} ReceiptsCompleteIff(
      groups: map<string, GroupState>, requests: seq<Request>, steps: seq<Step>, g: string)
    requires (forall r :: r in requests ==> r.group in groups) && Run(groups, requests, steps).Some?
    requires Matched(requests)
    ensures var w := Run(groups, requests, steps).value;
            Of(w.recorded, requests, g) + InFlight(w.control, g) == Of(w.applied, requests, g)
            <==> !LostFor(w, requests, g)
  {
    AlwaysBookedAndFollowing(groups, requests, steps, g);
    var w := Run(groups, requests, steps).value;
    UnlostIsAllIff(Of(w.applied, requests, g), w.control.phases);
  }

  // Replaying the log.

  /** The command among the requests that a receipt stands for, if there is one. */
  function CommandOf(requests: seq<Request>, receipt: ExecutionRecord): seq<Command> {
    if requests == [] then []
    else if StandsFor(receipt, requests[0].command) then [requests[0].command]
    else CommandOf(requests[1..], receipt)
  }

  /** The commands of the dispatch receipts that target `g`, in log order; strokes of valves are skipped. */
  function Replayed(log: seq<ExecutionRecord>, requests: seq<Request>, g: string): seq<Command> {
    if log == [] then []
    else
      var last := log[|log| - 1];
      Replayed(log[..|log| - 1], requests, g)
      + if last.result == APPLIED && last.target == g then CommandOf(requests, last) else []
  }

  /** The dispatch receipts of a log that valve strokes share. */
  function Dispatched(log: seq<ExecutionRecord>): seq<ExecutionRecord> {
    if log == [] then []
    else Dispatched(log[..|log| - 1]) + if log[|log| - 1].result == APPLIED then [log[|log| - 1]] else []
  }

  lemma {:induction false} StrokesNotReplayed(log: seq<ExecutionRecord>, requests: seq<Request>, g: string)
    ensures Replayed(log, requests, g) == Replayed(Dispatched(log), requests, g)
  {
    if log != [] {
      var n := |log| - 1;
      StrokesNotReplayed(log[..n], requests, g);
      var sent := Dispatched(log[..n]);
      assert (sent + [log[n]])[..|sent|] == sent;
      assert sent + [] == sent && Replayed(log[..n], requests, g) + [] == Replayed(log[..n], requests, g);
    }
  }

  predicate DistinctCommands(requests: seq<Request>) {
    forall i, j :: 0 <= i < j < |requests| ==> requests[i].command.id != requests[j].command.id
  }

  lemma {:induction false} CommandFound(requests: seq<Request>, t: nat)
    requires DistinctCommands(requests) && t < |requests|
    ensures CommandOf(requests, ReceiptOf(requests[t].command)) == [requests[t].command]
  {
    ReceiptStands(ReceiptOf(requests[t].command), requests[t].command);
    if t > 0 { CommandFound(requests[1..], t - 1); }
  }

  lemma {:induction false} CommandsMore(list: seq<nat>, requests: seq<Request>, t: nat)
    requires (forall u :: u in list ==> u < |requests|) && t < |requests|
    ensures CommandsOf(list + [t], requests) == CommandsOf(list, requests) + [requests[t].command]
    ensures list + [] == list && CommandsOf(list, requests) + [] == CommandsOf(list, requests)
  {
  }

  lemma {:induction false} ReplayIsRecorded(
      receipts: seq<ExecutionRecord>, recorded: seq<nat>, requests: seq<Request>, g: string)
    requires DistinctCommands(requests) && Matched(requests) && |receipts| == |recorded|
    requires forall i :: 0 <= i < |recorded| ==>
               recorded[i] < |requests| && receipts[i] == ReceiptOf(requests[recorded[i]].command)
    ensures forall t :: t in Of(recorded, requests, g) ==> t < |requests|
    ensures Replayed(receipts, requests, g) == CommandsOf(Of(recorded, requests, g), requests)
  {
    OfMembers(recorded, requests, g);
    if receipts != [] {
      var n := |receipts| - 1;
      var t := recorded[n];
      var before := Of(recorded[..n], requests, g);
      ReplayIsRecorded(receipts[..n], recorded[..n], requests, g);
      assert receipts[n] == ReceiptOf(requests[t].command) && requests[t].command.group == requests[t].group by {
        assert requests[t] in requests;
      }
      assert CommandOf(requests, receipts[n]) == [requests[t].command] by { CommandFound(requests, t); }
      assert forall u :: u in before ==> u < |requests| by { OfMembers(recorded[..n], requests, g); }
      CommandsMore(before, requests, t);
    }
  }

  /**
   * Serialisability: while no receipt of a group was lost and no unrecorded change made a difference to it, the group
   * is the replay of its receipts in log order, followed by at most one applied and unrecorded command, held by the
   * current owner of the group's lock. The log may hold receipts of valve strokes anywhere between.
   */
  lemma {:induction false} Serialisable(
      groups: map<string, GroupState>, requests: seq<Request>, steps: seq<Step>, g: string, detail: Detail,
      log: seq<ExecutionRecord>)
    requires (forall r :: r in requests ==> r.group in groups) && Run(groups, requests, steps).Some? && g in groups
    requires Matched(requests) && DistinctCommands(requests)
    requires !LostFor(Run(groups, requests, steps).value, requests, g)
    requires Neutral(groups, requests, steps, g, detail)
    requires Dispatched(log) == Records(Run(groups, requests, steps).value.receipts)
    ensures var w := Run(groups, requests, steps).value; var c := w.control; var flight := InFlight(c, g);
            && (forall t :: t in flight ==> t < |requests|)
            && (flight == [] || (g in c.locks && c.locks[g] in c.owners && flight == [c.owners[c.locks[g]]]))
            && var replay := ApplyingAll(groups[g], Replayed(log, requests, g) + CommandsOf(flight, requests));
               replay.outcome == Results.Done && Alike(replay.state, w.groups[g], detail)
  {
    var w := Run(groups, requests, steps).value;
    var flight, recorded := InFlight(w.control, g), Of(w.recorded, requests, g);
    CommandsGiveGroup(groups, requests, steps, g, detail);
    AlwaysBookedAndFollowing(groups, requests, steps, g);
    ReceiptsCompleteIff(groups, requests, steps, g);
    StrokesNotReplayed(log, requests, g);
    ReplayIsRecorded(Records(w.receipts), w.recorded, requests, g);
    assert recorded + flight == Of(w.applied, requests, g);
    assert forall t :: t in flight ==> t in Of(w.applied, requests, g);
    CommandsConcat(recorded, flight, requests);
  }

  /**
   * The same from the bytes on disk: with no torn receipt, the log file and the table of requests restore the group.
   */
  lemma {:induction false} SerialisableFromDisk(
      groups: map<string, GroupState>, requests: seq<Request>, steps: seq<Step>, g: string, detail: Detail,
      codec: Codec<ExecutionRecord>, writes: seq<Write<ExecutionRecord>>)
    requires (forall r :: r in requests ==> r.group in groups) && Run(groups, requests, steps).Some? && g in groups
    requires Matched(requests) && DistinctCommands(requests)
    requires !LostFor(Run(groups, requests, steps).value, requests, g)
    requires Neutral(groups, requests, steps, g, detail)
    requires Dispatched(Records(writes)) == Records(Run(groups, requests, steps).value.receipts)
    requires AllLoggable(codec, writes) && NoTear(codec, writes)
    ensures var w := Run(groups, requests, steps).value; var flight := InFlight(w.control, g);
            var log := ReadBack(codec, Grown(codec, [], writes));
            && log.Ok? && (forall t :: t in flight ==> t < |requests|)
            && var replay := ApplyingAll(groups[g], Replayed(log.value, requests, g) + CommandsOf(flight, requests));
               replay.outcome == Results.Done && Alike(replay.state, w.groups[g], detail)
  {
    EmptyLogHasNoLines();
    ReadsRecordsIff(codec, [], writes);
    assert [] + Records(writes) == Records(writes);
    Serialisable(groups, requests, steps, g, detail, Records(writes));
  }

  lemma {:induction false} CommandsConcat(a: seq<nat>, b: seq<nat>, requests: seq<Request>)
    requires (forall t :: t in a ==> t < |requests|) && forall t :: t in b ==> t < |requests|
    ensures CommandsOf(a + b, requests) == CommandsOf(a, requests) + CommandsOf(b, requests)
  {
  }

  // One request alone.

  /** One request whose lock is free, from finding the lock to giving it back. */
  function Alone(w: World, requests: seq<Request>, t: nat, stop: Stop): (end: World)
    requires Wired(w, requests) && Enabled(w.control, FindLock(t))
    requires Enabled(Next(w, requests, FindLock(t)).control, Lock(t))
    ensures Wired(end, requests)
  {
    var locked := Next(Next(w, requests, FindLock(t)), requests, Lock(t));
    var moved := Next(locked, requests, Transition(t));
    var written := if Enabled(moved.control, Record(t, stop)) then Next(moved, requests, Record(t, stop)) else moved;
    Next(written, requests, Unlock(t))
  }

  /** Run alone through the steps, a request does to its group and to the log what `Executor.Apply` does. */
  lemma {:induction false} AloneIsApply(w: World, requests: seq<Request>, t: nat, stop: Stop)
    requires Wired(w, requests) && Enabled(w.control, FindLock(t))
    requires Enabled(Next(w, requests, FindLock(t)).control, Lock(t))
    ensures var end := Alone(w, requests, t, stop); var change := Attempt(w, requests, t);
        var receipt := ReceiptOf(requests[t].command);
            && end.groups == w.groups[requests[t].group := change.state]
            && end.receipts == w.receipts + (if change.outcome.Ok? then [Write(receipt, stop)] else [])
            && end.control.owners == w.control.owners
            && end.control.phases[t] == Done(if change.outcome.Err? then Refused else if Kept(stop) then Recorded
                                             else Lost)
  {
    var found := Next(w, requests, FindLock(t));
    var locked := Next(found, requests, Lock(t));
    assert locked.groups == w.groups && locked.receipts == w.receipts;
    assert Attempt(locked, requests, t) == Attempt(w, requests, t);
    var lock := found.control.phases[t].lock;
    assert w.control.owners[lock := t] - {lock} == w.control.owners;
  }

  // Commands sent with a group they do not name.

  /** Some group accepts the command. */
  predicate Acceptable(command: Command) {
    command.action.Start? || command.action.Stop? || (command.action.SetTarget? && 0.0 <= command.target <= MAX_MPA)
  }

  /** No two acceptable commands are sent with one group object under different names. */
  predicate NamesAgree(requests: seq<Request>) {
    forall i, j :: 0 <= i < j < |requests| && requests[i].group == requests[j].group
                   && Acceptable(requests[i].command) && Acceptable(requests[j].command)
                   ==> requests[i].command.group == requests[j].command.group
  }

  predicate Precedes(list: seq<nat>, a: nat, b: nat) {
    exists i, j :: 0 <= i < j < |list| && list[i] == a && list[j] == b
  }

  /** Requests sent with one group object are recorded in the order they were applied. */
  ghost predicate OrderKept(w: World, requests: seq<Request>) {
    forall a: nat, b: nat ::
      Precedes(w.recorded, a, b) && a < |requests| && b < |requests| && requests[a].group == requests[b].group ==>
        Precedes(w.applied, a, b)
  }

  lemma {:induction false} PrecedesMore(list: seq<nat>, t: nat, a: nat, b: nat)
    ensures Precedes(list + [t], a, b) <==> Precedes(list, a, b) || (b == t && a in list)
  {
    var all := list + [t];
    if Precedes(list, a, b) {
      var i, j :| 0 <= i < j < |list| && list[i] == a && list[j] == b;
      assert all[i] == a && all[j] == b;
    }
    if b == t && a in list {
      var i :| 0 <= i < |list| && list[i] == a;
      assert all[i] == a && all[|list|] == b;
    }
    if i, j :| 0 <= i < j < |all| && all[i] == a && all[j] == b {
      assert list[i] == a;
      assert j < |list| ==> list[j] == b;
    }
  }

  lemma {:induction false} AcceptedIsAcceptable(s: GroupState, command: Command)
    ensures Applying(s, command).outcome.Ok? ==> Acceptable(command)
  {
  }

  /** Each request's phase says whether it is among the applied and the recorded ones. */
  ghost predicate Listed(w: World, requests: seq<Request>)
    requires Wired(w, requests)
  {
    && (forall t :: t in w.recorded ==> t in w.applied)
    && (forall t :: t in w.applied ==> t < |requests| && Acceptable(requests[t].command))
    && (forall t :: 0 <= t < |requests| && w.control.phases[t].Applied? ==> t in w.applied)
  }

  /** Whatever is recorded was applied before what is now applied and unrecorded on the same object. */
  ghost predicate FlightIsLast(w: World, requests: seq<Request>)
    requires Wired(w, requests)
  {
    forall t, u :: t in w.recorded && 0 <= u < |requests| && t < |requests| && w.control.phases[u].Applied?
                   && requests[t].group == requests[u].group
                   ==> Precedes(w.applied, t, u)
  }

  ghost predicate Orderly(w: World, requests: seq<Request>)
    requires Wired(w, requests)
  {
    Listed(w, requests) && OrderKept(w, requests) && FlightIsLast(w, requests)
  }

  /** Two unrecorded applied requests of one object are the same request. */
  lemma {:induction false} OneFlight(w: World, requests: seq<Request>, t: nat, u: nat)
    requires Wired(w, requests) && NamesAgree(requests) && Exclusive(w.control, requests) && Listed(w, requests)
    requires t < |requests| && u < |requests| && requests[t].group == requests[u].group
    requires w.control.phases[t].Applied? && w.control.phases[u].Applied?
    ensures t == u
  {
    assert t in w.applied && u in w.applied;
    assert requests[t].command.group == requests[u].command.group by { assert t < u || t == u || u < t; }
  }

  lemma {:induction false} TransitionStaysOrderly(w: World, requests: seq<Request>, t: nat, change: Change)
    requires Wired(w, requests) && Enabled(w.control, Transition(t)) && Orderly(w, requests)
    requires change.outcome.Ok? ==> Acceptable(requests[t].command)
    ensures Orderly(NextWith(w, requests, Transition(t), change), requests)
  {
    var n := NextWith(w, requests, Transition(t), change);
    StepEffects(w, requests, Transition(t), change);
    if change.outcome.Ok? {
      forall a, b ensures Precedes(n.applied, a, b) <==> Precedes(w.applied, a, b) || (b == t && a in w.applied) {
        PrecedesMore(w.applied, t, a, b);
      }
    }
  }

  /** Recording the one request in flight of its object keeps the order. */
  lemma {:induction false} RecordedKeepsOrder(w: World, n: World, requests: seq<Request>, t: nat)
    requires Wired(w, requests) && Orderly(w, requests) && t < |requests| && w.control.phases[t].Applied?
    requires n.applied == w.applied && n.recorded == w.recorded + [t]
    ensures OrderKept(n, requests)
  {
    forall a: nat, b: nat
      | Precedes(n.recorded, a, b) && a < |requests| && b < |requests| && requests[a].group == requests[b].group
      ensures Precedes(n.applied, a, b)
    {
      PrecedesMore(w.recorded, t, a, b);
    }
  }

  /** After a request was recorded, requests in flight of its object are gone and those of others are as they were. */
  lemma {:induction false} RecordedLeavesFlight(w: World, n: World, requests: seq<Request>, t: nat, p: Phase)
    requires Wired(w, requests) && Orderly(w, requests) && t < |requests| && w.control.phases[t].Applied? && !p.Applied?
    requires NamesAgree(requests) && Exclusive(w.control, requests)
    requires Wired(n, requests) && n.control.phases == w.control.phases[t := p] && n.applied == w.applied
    requires n.recorded == w.recorded || n.recorded == w.recorded + [t]
    ensures FlightIsLast(n, requests) && Listed(n, requests)
  {
    forall u | 0 <= u < |requests| && n.control.phases[u].Applied?
      ensures u != t && w.control.phases[u].Applied? && requests[u].group != requests[t].group
    {
      if requests[u].group == requests[t].group { OneFlight(w, requests, t, u); }
    }
    assert forall v :: v in n.recorded ==> v in w.recorded || v == t;
  }

  lemma {:induction false} RecordStaysOrderly(w: World, requests: seq<Request>, t: nat, stop: Stop, change: Change)
    requires Wired(w, requests) && Enabled(w.control, Record(t, stop)) && Orderly(w, requests)
    requires NamesAgree(requests) && Exclusive(w.control, requests)
    ensures Orderly(NextWith(w, requests, Record(t, stop), change), requests)
  {
    var n := NextWith(w, requests, Record(t, stop), change);
    StepEffects(w, requests, Record(t, stop), change);
    assert n.applied == w.applied && n.recorded == w.recorded + (if Kept(stop) then [t] else []);
    RecordedLeavesFlight(w, n, requests, t, n.control.phases[t]);
    if Kept(stop) { RecordedKeepsOrder(w, n, requests, t); }
  }

  lemma {:induction false} StepStaysOrderly(w: World, requests: seq<Request>, e: Event, change: Change)
    requires Wired(w, requests) && Enabled(w.control, e) && Orderly(w, requests)
    requires NamesAgree(requests) && Exclusive(w.control, requests)
    requires e.Transition? && change.outcome.Ok? ==> Acceptable(requests[e.request].command)
    ensures Orderly(NextWith(w, requests, e, change), requests)
  {
    match e
    case Transition(t) => TransitionStaysOrderly(w, requests, t, change);
    case Record(t, stop) => RecordStaysOrderly(w, requests, t, stop, change);
    case _ => LockStepStaysOrderly(w, requests, e, change);
  }

  lemma {:induction false} LockStepStaysOrderly(w: World, requests: seq<Request>, e: Event, change: Change)
    requires Wired(w, requests) && Enabled(w.control, e) && Orderly(w, requests) && !e.Transition? && !e.Record?
    ensures Orderly(NextWith(w, requests, e, change), requests)
  {
    var t := e.request;
    var n := NextWith(w, requests, e, change);
    assert n.applied == w.applied && n.recorded == w.recorded;
    assert n.control.phases == w.control.phases[t := n.control.phases[t]] && !n.control.phases[t].Applied? by {
      StepEffects(w, requests, e, change);
    }
  }

  lemma {:induction false} AgreeingNamesKeepOrder(
      groups: map<string, GroupState>, requests: seq<Request>, steps: seq<Step>)
    requires (forall r :: r in requests ==> r.group in groups) && Run(groups, requests, steps).Some?
    requires NamesAgree(requests)
    ensures Orderly(Run(groups, requests, steps).value, requests)
  {
    if steps == [] {
      assert forall a, b :: !Precedes([], a, b);
    } else {
      var before, step := steps[..|steps| - 1], steps[|steps| - 1];
      var w := Run(groups, requests, before).value;
      AgreeingNamesKeepOrder(groups, requests, before);
      if step.Session? {
        var e := step.event;
        AlwaysExclusive(groups, requests, before);
        AcceptedIsAcceptable(w.groups[requests[e.request].group], requests[e.request].command);
        StepStaysOrderly(w, requests, e, Attempt(w, requests, e.request));
      }
    }
  }

  // Two acceptable commands, one object, two names: they can cross.

  /** A group that accepts both commands, in this order. */
  function Welcoming(a: Command, b: Command): GroupState {
    GroupState("", "", "", [UnitState(a.unit, "", Standby, false, 0.0), UnitState(b.unit, "", Standby, false, 0.0)],
               "", 0.0, 0.0)
  }

  lemma {:induction false} WelcomingAccepts(a: Command, b: Command)
    requires Acceptable(a) && Acceptable(b)
    ensures var first := Applying(Welcoming(a, b), a);
            first.outcome == Results.Done && Applying(first.state, b).outcome == Results.Done
  {
    var s := Welcoming(a, b);
    var first := Applying(s, a);
    assert Find(s.units, a.unit) == 0;
    assert |first.state.units| == 2 && first.state.units[1].id == b.unit;
    assert forall i :: 0 <= i < 2 ==> !first.state.units[i].locked;
    assert Find(first.state.units, b.unit) < 2;
  }

  lemma {:induction false} RunMore(groups: map<string, GroupState>, requests: seq<Request>, steps: seq<Step>, e: Event)
    requires (forall r :: r in requests ==> r.group in groups) && Run(groups, requests, steps).Some?
    requires Enabled(Run(groups, requests, steps).value.control, e)
    ensures Run(groups, requests, steps + [Session(e)]) == Some(Next(Run(groups, requests, steps).value, requests, e))
  {
    assert (steps + [Session(e)])[..|steps|] == steps;
  }

  /** Request `i` has applied its command under the first lock and has not recorded it. */
  lemma {:induction false} FirstApplied(groups: map<string, GroupState>, requests: seq<Request>, i: nat)
    requires (forall r :: r in requests ==> r.group in groups) && i < |requests|
    requires requests[i] in requests && Applying(groups[requests[i].group], requests[i].command).outcome == Results.Done
    ensures var run := Run(groups, requests, [Session(FindLock(i)), Session(Lock(i)), Session(Transition(i))]);
            && run.Some?
            && run.value.groups
               == groups[requests[i].group := Applying(groups[requests[i].group], requests[i].command).state]
            && run.value.control.locks == map[requests[i].command.group := 0] && run.value.control.made == 1
            && run.value.control.owners == map[0 := i]
            && run.value.control.phases[i] == Applied(0)
            && (forall u :: 0 <= u < |requests| && u != i ==> run.value.control.phases[u] == Fresh)
            && run.value.applied == [i] && run.value.recorded == []
  {
    var none: seq<Step> := [];
    RunMore(groups, requests, none, FindLock(i));
    assert none + [Session(FindLock(i))] == [Session(FindLock(i))];
    RunMore(groups, requests, [Session(FindLock(i))], Lock(i));
    assert [Session(FindLock(i))] + [Session(Lock(i))] == [Session(FindLock(i)), Session(Lock(i))];
    RunMore(groups, requests, [Session(FindLock(i)), Session(Lock(i))], Transition(i));
    assert [Session(FindLock(i)), Session(Lock(i))] + [Session(Transition(i))]
        == [Session(FindLock(i)), Session(Lock(i)), Session(Transition(i))];
    var w := Run(groups, requests, [Session(FindLock(i)), Session(Lock(i))]).value;
    assert w.applied == [] && w.groups == groups && w.applied + [i] == [i];
  }

  /** Another request that names another group finds another lock, and it is free. */
  lemma {:induction false} SecondEnters(
      groups: map<string, GroupState>, requests: seq<Request>, steps: seq<Step>, i: nat, j: nat)
    requires (forall r :: r in requests ==> r.group in groups) && Run(groups, requests, steps).Some?
    requires i < |requests| && j < |requests| && i != j && requests[i].command.group != requests[j].command.group
    requires var c := Run(groups, requests, steps).value.control;
             && c.locks == map[requests[i].command.group := 0] && c.made == 1 && c.owners == map[0 := i]
             && c.phases[i] == Applied(0) && c.phases[j] == Fresh
    ensures var run, w := Run(groups, requests, steps + [Session(FindLock(j)), Session(Lock(j))]),
        Run(groups, requests, steps).value;
            && run.Some? && run.value.(control := w.control) == w
            && run.value.control.phases[i] == Applied(0) && run.value.control.phases[j] == Inside(1)
  {
    RunMore(groups, requests, steps, FindLock(j));
    RunMore(groups, requests, steps + [Session(FindLock(j))], Lock(j));
    assert steps + [Session(FindLock(j))] + [Session(Lock(j))] == steps + [Session(FindLock(j)), Session(Lock(j))];
  }

  /** It is applied and recorded while the first one is applied and not recorded. */
  lemma {:induction false} SecondPasses(
      groups: map<string, GroupState>, requests: seq<Request>, steps: seq<Step>, i: nat, j: nat)
    requires (forall r :: r in requests ==> r.group in groups) && Run(groups, requests, steps).Some?
    requires i < |requests| && j < |requests| && i != j
    requires var w := Run(groups, requests, steps).value;
             && w.control.phases[i] == Applied(0) && w.control.phases[j] == Inside(1)
             && w.applied == [i] && w.recorded == [] && Attempt(w, requests, j).outcome == Results.Done
    ensures var run := Run(groups, requests, steps + [Session(Transition(j)), Session(Record(j, Completes))]);
            && run.Some? && run.value.applied == [i, j] && run.value.recorded == [j]
            && run.value.control.phases[i] == Applied(0)
  {
    var w := Run(groups, requests, steps).value;
    RunMore(groups, requests, steps, Transition(j));
    StepEffects(w, requests, Transition(j), Attempt(w, requests, j));
    var moved := steps + [Session(Transition(j))];
    var m := Run(groups, requests, moved).value;
    assert [i] + [j] == [i, j] && m.applied == [i, j];
    RunMore(groups, requests, moved, Record(j, Completes));
    StepEffects(m, requests, Record(j, Completes), Attempt(m, requests, j));
    assert moved + [Session(Record(j, Completes))] == steps + [Session(Transition(j)), Session(Record(j, Completes))];
    assert [] + [j] == [j];
  }

  /** The crossing run on given groups. */
  lemma {:induction false} CrossingRun(groups: map<string, GroupState>, requests: seq<Request>, i: nat, j: nat)
    requires (forall r :: r in requests ==> r.group in groups) && i < |requests| && j < |requests| && i != j
    requires requests[i].group == requests[j].group && requests[i].command.group != requests[j].command.group
    requires requests[i] in requests && requests[j] in requests
    requires var first := Applying(groups[requests[i].group], requests[i].command);
             first.outcome == Results.Done && Applying(first.state, requests[j].command).outcome == Results.Done
    ensures var first, second := [Session(FindLock(i)), Session(Lock(i)), Session(Transition(i))],
        [Session(FindLock(j)), Session(Lock(j))];
            var run := Run(groups, requests, first + second + [Session(Transition(j)), Session(Record(j, Completes))]
                           + [Session(Record(i, Completes))]);
            run.Some? && run.value.applied == [i, j] && run.value.recorded == [j, i]
  {
    FirstApplied(groups, requests, i);
    var first := [Session(FindLock(i)), Session(Lock(i)), Session(Transition(i))];
    SecondEnters(groups, requests, first, i, j);
    var inside := first + [Session(FindLock(j)), Session(Lock(j))];
    SecondPasses(groups, requests, inside, i, j);
    var steps := inside + [Session(Transition(j)), Session(Record(j, Completes))];
    RunMore(groups, requests, steps, Record(i, Completes));
    var w := Run(groups, requests, steps).value;
    StepEffects(w, requests, Record(i, Completes), Attempt(w, requests, i));
    assert [j] + [i] == [j, i] && [i, j] + [] == [i, j];
  }

  lemma {:induction false} CrossedIsNotKept(w: World, requests: seq<Request>, i: nat, j: nat)
    requires i < |requests| && j < |requests| && i != j && requests[i].group == requests[j].group
    requires w.applied == [i, j] && w.recorded == [j, i]
    ensures !OrderKept(w, requests)
  {
    assert w.recorded[0] == j && w.recorded[1] == i;
    assert Precedes(w.recorded, j, i) && !Precedes(w.applied, j, i);
  }

  lemma {:induction false} DisagreeingNamesCross(requests: seq<Request>, i: nat, j: nat)
    requires i < j < |requests| && requests[i].group == requests[j].group
    requires Acceptable(requests[i].command) && Acceptable(requests[j].command)
    requires requests[i].command.group != requests[j].command.group
    ensures exists groups, steps ::
              (forall r :: r in requests ==> r.group in groups) && Run(groups, requests, steps).Some?
              && !OrderKept(Run(groups, requests, steps).value, requests)
  {
    var a, b := requests[i].command, requests[j].command;
    var names := set r | r in requests :: r.group;
    var groups := map g | g in names :: Welcoming(a, b);
    assert requests[i] in requests && requests[j] in requests;
    assert forall r :: r in requests ==> r.group in groups && groups[r.group] == Welcoming(a, b);
    var first, second := [Session(FindLock(i)), Session(Lock(i)), Session(Transition(i))],
        [Session(FindLock(j)), Session(Lock(j))];
    var steps := first + second + [Session(Transition(j)), Session(Record(j, Completes))]
        + [Session(Record(i, Completes))];
    var run := Run(groups, requests, steps);
    assert run.Some? && run.value.applied == [i, j] && run.value.recorded == [j, i] by {
      WelcomingAccepts(a, b);
      CrossingRun(groups, requests, i, j);
    }
    CrossedIsNotKept(run.value, requests, i, j);
  }

  /**
   * Requests sent with one group object are recorded in the order they were applied, from all groups and in every
   * interleaving, if and only if no two acceptable ones name different groups.
   */
  lemma {:induction false} OrderAlwaysKeptIff(requests: seq<Request>)
    ensures (forall groups, steps ::
               (forall r :: r in requests ==> r.group in groups) && Run(groups, requests, steps).Some? ==>
                 OrderKept(Run(groups, requests, steps).value, requests))
            <==> NamesAgree(requests)
  {
    if NamesAgree(requests) {
      forall groups, steps | (forall r :: r in requests ==> r.group in groups) && Run(groups, requests, steps).Some?
        ensures OrderKept(Run(groups, requests, steps).value, requests)
      {
        AgreeingNamesKeepOrder(groups, requests, steps);
      }
    } else {
      var i, j :| 0 <= i < j < |requests| && requests[i].group == requests[j].group
                  && Acceptable(requests[i].command) && Acceptable(requests[j].command)
                  && requests[i].command.group != requests[j].command.group;
      DisagreeingNamesCross(requests, i, j);
    }
  }

  /** Sending every command with the group it names, as the console does, meets the condition. */
  lemma {:induction false} MatchedNamesAgree(requests: seq<Request>)
    requires Matched(requests)
    ensures NamesAgree(requests)
  {
    forall i, j | 0 <= i < j < |requests| && requests[i].group == requests[j].group
      ensures requests[i].command.group == requests[j].command.group
    {
      assert requests[i] in requests && requests[j] in requests;
    }
  }
}
