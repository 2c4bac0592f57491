/** Failover as the code runs it: on statuses remembered from the last refresh of a station with one group. */
module CachedFailovers {
  import opened Results
  import opened PumpState
  import opened PumpSafety

  datatype CachedOp = Plain(op: Op) | Refresh | CachedFailover

  /** A group and what its station remembers of it. */
  datatype CachedState = CachedState(group: GroupState, cached: View)

  function DoCached(c: CachedState, op: CachedOp): CachedState {
    match op
    case Plain(plain) => c.(group := Do(c.group, plain))
    case Refresh => c.(cached := Statuses(c.group.units))
    case CachedFailover => c.(group := FailingOver(c.group, c.cached).state)
  }

  /** A run from a station that has not been refreshed yet. */
  function RunCached(s: GroupState, ops: seq<CachedOp>): CachedState {
    if ops == [] then CachedState(s, map[]) else DoCached(RunCached(s, ops[..|ops| - 1]), ops[|ops| - 1])
  }

  /** Failover takes its view from the cache only, and every added id is new and non-empty. */
  predicate CachedAddsFresh(s: GroupState, ops: seq<CachedOp>) {
    ops == [] ||
    (CachedAddsFresh(s, ops[..|ops| - 1]) &&
     var last, group := ops[|ops| - 1], RunCached(s, ops[..|ops| - 1]).group;
     last.Plain? ==>
       && !last.op.FailoverOn?
       && (last.op.Add? ==> last.op.id != "" && forall u :: u in group.units ==> u.id != last.op.id))
  }

  /** The group at the last refresh. */
  function LastRefreshed(s: GroupState, ops: seq<CachedOp>): Option<GroupState> {
    if ops == [] then None
    else if ops[|ops| - 1].Refresh? then Some(RunCached(s, ops[..|ops| - 1]).group)
    else LastRefreshed(s, ops[..|ops| - 1])
  }

  /** The primary ran at the last refresh and is locked now. */
  predicate LockedSince(past: Option<GroupState>, now: GroupState) {
    && past.Some? && past.value.units != [] && past.value.units[0].status == Running
    && now.units != [] && now.units[0].locked
  }

  /** No failover happens while the primary ran at the last refresh and is locked. */
  predicate NoFailoverAfterLock(s: GroupState, ops: seq<CachedOp>) {
    ops == [] ||
    (NoFailoverAfterLock(s, ops[..|ops| - 1]) &&
     var before := ops[..|ops| - 1];
     ops[|ops| - 1].CachedFailover? ==> !LockedSince(LastRefreshed(s, before), RunCached(s, before).group))
  }

  // What the cache shows of the primary.

  /** The units of `s` are still there, with others perhaps after them. */
  predicate IdsExtend(s: GroupState, t: GroupState) {
    |s.units| <= |t.units| && forall i :: 0 <= i < |s.units| ==> s.units[i].id == t.units[i].id
  }

  lemma {:induction false} ApplyKeepsUnits(s: GroupState, command: Command)
    ensures IdsExtend(s, Applying(s, command).state)
  {
  }

  lemma {:induction false} ApplyAllKeepsUnits(s: GroupState, commands: seq<Command>)
    ensures IdsExtend(s, ApplyingAll(s, commands).state)
    decreases |commands|
  {
    if commands != [] {
      ApplyKeepsUnits(s, commands[0]);
      ApplyAllKeepsUnits(Applying(s, commands[0]).state, commands[1..]);
    }
  }

  lemma {:induction false} SwitchKeepsUnits(s: GroupState, view: View)
    ensures IdsExtend(s, FailingOver(s, view).state)
  {
    var chosen := Choice(s.units, view);
    assert IdsExtend(s, SwitchTo(s, chosen));
  }

  lemma {:induction false} AdjustKeepsUnits(s: GroupState, mpa: real)
    ensures IdsExtend(s, Adjusting(s, mpa).state)
  {
    var k := FirstRunning(s.units);
    if k < |s.units| { assert IdsExtend(s, Tripping(s, s.units[k].id).state); }
  }

  lemma {:induction false} DoKeepsUnits(s: GroupState, op: Op)
    ensures IdsExtend(s, Do(s, op))
  {
    match op
    case Send(command) => ApplyKeepsUnits(s, command);
    case SendAll(commands) => ApplyAllKeepsUnits(s, commands);
    case FailoverOn(view) => SwitchKeepsUnits(s, view);
    case LiveFailover => SwitchKeepsUnits(s, Statuses(s.units));
    case Adjust(mpa) => AdjustKeepsUnits(s, mpa);
    case StartUnit(id) => assert IdsExtend(s, Starting(s, id).state);
    case _ => OtherKeepsUnits(s, op);
  }

  lemma {:induction false} OtherKeepsUnits(s: GroupState, op: Op)
    requires !op.Send? && !op.SendAll? && !op.FailoverOn? && !op.LiveFailover? && !op.Adjust? && !op.StartUnit?
    ensures IdsExtend(s, Do(s, op))
  {
  }

  lemma {:induction false} CachedStepKeepsIds(c: CachedState, op: CachedOp)
    requires DistinctIds(c.group)
    requires op.Plain? && op.op.Add? ==> op.op.id != "" && forall u :: u in c.group.units ==> u.id != op.op.id
    ensures DistinctIds(DoCached(c, op).group) && IdsExtend(c.group, DoCached(c, op).group)
  {
    var group := DoCached(c, op).group;
    match op
    case Plain(plain) =>
      assert DistinctIds(group) by { StepKeeps(c.group, plain); }
      assert IdsExtend(c.group, group) by { DoKeepsUnits(c.group, plain); }
    case Refresh =>
    case CachedFailover =>
      assert DistinctIds(group) by { FailoverKeeps(c.group, c.cached); }
      assert IdsExtend(c.group, group) by { SwitchKeepsUnits(c.group, c.cached); }
  }

  /** The cache shows the group as it was at the last refresh, whose units are all still there. */
  predicate CacheFrom(c: CachedState, past: Option<GroupState>) {
    match past
    case None => c.cached == map[]
    case Some(t) => c.cached == Statuses(t.units) && DistinctIds(t) && IdsExtend(t, c.group)
  }

  lemma {:induction false} CacheIsLastRefresh(s: GroupState, ops: seq<CachedOp>)
    requires DistinctIds(s) && CachedAddsFresh(s, ops)
    ensures DistinctIds(RunCached(s, ops).group) && CacheFrom(RunCached(s, ops), LastRefreshed(s, ops))
  {
    if ops != [] {
      var before := ops[..|ops| - 1];
      CacheIsLastRefresh(s, before);
      CachedStepKeepsIds(RunCached(s, before), ops[|ops| - 1]);
    }
  }

  lemma {:induction false} SafeViewIff(c: CachedState, past: Option<GroupState>)
    requires DistinctIds(c.group) && CacheFrom(c, past)
    ensures SafeView(c.group, c.cached) <==> !LockedSince(past, c.group)
  {
    if past.Some? && past.value.units != [] {
      LiveShowsStatus(past.value.units);
      assert Seen(c.cached, past.value.units[0].id) == past.value.units[0].status;
    }
  }

  // Whole runs.

  ghost predicate CachedLockoutThroughout(s: GroupState, ops: seq<CachedOp>) {
    forall n :: 0 <= n <= |ops| ==> NoLockedRunning(RunCached(s, ops[..n]).group)
  }

  lemma {:induction false} CachedThroughoutMore(s: GroupState, ops: seq<CachedOp>)
    requires ops != []
    ensures CachedLockoutThroughout(s, ops)
            <==> CachedLockoutThroughout(s, ops[..|ops| - 1]) && NoLockedRunning(RunCached(s, ops).group)
  {
    var before := ops[..|ops| - 1];
    if CachedLockoutThroughout(s, ops) {
      forall n | 0 <= n <= |before| ensures NoLockedRunning(RunCached(s, before[..n]).group) {
        assert before[..n] == ops[..n];
      }
      assert ops[..|ops|] == ops;
    }
    if CachedLockoutThroughout(s, before) && NoLockedRunning(RunCached(s, ops).group) {
      forall n | 0 <= n <= |ops| ensures NoLockedRunning(RunCached(s, ops[..n]).group) {
        if n == |ops| { assert ops[..n] == ops; } else { assert ops[..n] == before[..n]; }
      }
    }
  }

  lemma {:induction false} CachedStepIff(c: CachedState, past: Option<GroupState>, op: CachedOp)
    requires DistinctIds(c.group) && NoLockedRunning(c.group) && CacheFrom(c, past)
    requires op.Plain? ==> !op.op.FailoverOn?
    requires op.Plain? && op.op.Add? ==> op.op.id != "" && forall u :: u in c.group.units ==> u.id != op.op.id
    ensures NoLockedRunning(DoCached(c, op).group) <==> (op.CachedFailover? ==> !LockedSince(past, c.group))
  {
    match op
    case Plain(plain) => StepKeepsLockoutIff(c.group, plain);
    case Refresh =>
    case CachedFailover =>
      SafeViewIff(c, past);
      FailoverKeepsLockoutIff(c.group, c.cached);
  }

  /**
   * No locked unit runs at any point of a run if and only if no failover of it happens while the primary ran at the
   * last refresh and is locked.
   */
  lemma {:induction false} CachedLockoutIff(s: GroupState, ops: seq<CachedOp>)
    requires DistinctIds(s) && NoLockedRunning(s) && CachedAddsFresh(s, ops)
    ensures CachedLockoutThroughout(s, ops) <==> NoFailoverAfterLock(s, ops)
  {
    if ops == [] {
      assert ops[..0] == [];
    } else {
      var before := ops[..|ops| - 1];
      CachedLockoutIff(s, before);
      CachedThroughoutMore(s, ops);
      if NoFailoverAfterLock(s, before) {
        CacheIsLastRefresh(s, before);
        assert before[..|before|] == before;
        CachedStepIff(RunCached(s, before), LastRefreshed(s, before), ops[|ops| - 1]);
      }
    }
  }

  /** A failover right after a refresh is the live failover, whatever happened before. */
  lemma {:induction false} RefreshThenFailoverIsLive(s: GroupState, ops: seq<CachedOp>)
    ensures RunCached(s, ops + [Refresh, CachedFailover]).group == FailingOverLive(RunCached(s, ops).group).state
  {
    var refreshed := ops + [Refresh];
    assert RunCached(s, refreshed) == DoCached(RunCached(s, ops), Refresh) by { CachedSnoc(s, ops, Refresh); }
    assert refreshed + [CachedFailover] == ops + [Refresh, CachedFailover];
    CachedSnoc(s, refreshed, CachedFailover);
  }

  lemma {:induction false} CachedSnoc(s: GroupState, ops: seq<CachedOp>, op: CachedOp)
    ensures RunCached(s, ops + [op]) == DoCached(RunCached(s, ops), op)
  {
    assert (ops + [op])[..|ops|] == ops;
  }
}
