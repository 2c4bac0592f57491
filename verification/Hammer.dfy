/** Protected closures: upstream before downstream at every moment, and a recorded pressure peak. */
module Hammers {
  import opened Results
  import opened Lines
  import opened Files
  import opened Snapshots
  import opened Logs
  import opened Receipts
  import opened Valves
  import opened Gates
  import opened Readings

  datatype Plan = Plan(zone: string, upstream: string, downstream: string, step: real, pre: int, post: int) {
    function OrderedValveIds(): seq<string> {
      [upstream, downstream]
    }
  }

  /** The plan of a two-valve isolation. */
  function PlanForStrokes(zone: string, upstream: string, downstream: string): Plan {
    Plan(zone, upstream, downstream, 0.25, 5, 5)
  }

  /** One closing step per planned valve, in plan order; an unknown id is an error. */
  method StepsOf(plan: Plan, valves: map<string, Valve>) returns (r: Result<seq<Step<Valve>>>)
    ensures plan.upstream in valves && plan.downstream in valves ==>
              r == Ok(ClosingSteps(valves[plan.upstream], valves[plan.downstream], plan.step))
    ensures !(plan.upstream in valves && plan.downstream in valves) ==> r == Err(ValveNotFound)
  {
    var ids := plan.OrderedValveIds();
    assert ids == [plan.upstream, plan.downstream];
    var steps: seq<Step<Valve>> := [];
    for i := 0 to |ids|
      invariant |steps| == i
      invariant forall j :: 0 <= j < i ==> ids[j] in valves && steps[j] == Step(valves[ids[j]], Close, plan.step)
    {
      if ids[i] !in valves { return Err(ValveNotFound); }
      steps := steps + [Step(valves[ids[i]], Close, plan.step)];
    }
    assert ids[0] == plan.upstream && ids[1] == plan.downstream;
    assert |ids| == 2 && plan.upstream in valves && plan.downstream in valves;
    assert steps == ClosingSteps(valves[plan.upstream], valves[plan.downstream], plan.step);
    r := Ok(steps);
  }

  function ClosingSteps<K>(up: K, down: K, step: real): seq<Step<K>> {
    [Step(up, Close, step), Step(down, Close, step)]
  }

  /** Runs the plan's strokes and counts the receipts; `stops` says where their appends end. */
  method Protect(executor: Executor, plan: Plan, valves: map<string, Valve>, stops: seq<Stop>) returns (r: Result<nat>)
    requires |stops| == 2
    modifies valves.Values, executor.log.store
    ensures OnlyChanged(old(executor.log.store.files), executor.log.store.files, executor.log.path)
    ensures !(plan.upstream in valves && plan.downstream in valves) ==>
              && r == Err(ValveNotFound) && executor.log.Data() == old(executor.log.Data())
              && forall v :: v in valves.Values ==> v.State() == old(v.State())
    ensures plan.upstream in valves && plan.downstream in valves ==>
              var up, down := valves[plan.upstream], valves[plan.downstream];
              var s := Stroking(old(Snapshot({up, down})), ClosingSteps(up, down, plan.step), stops);
              && Snapshot({up, down}) == s.valves
              && (forall v :: v in valves.Values && v != up && v != down ==> v.State() == old(v.State()))
              && executor.log.Data() == Grown(executor.log.codec, old(executor.log.Data()), s.wrote)
              && r == if s.outcome.Ok? then Ok(2) else Err(s.outcome.error)
  {
    var steps := StepsOf(plan, valves);
    if steps.Err? { return Err(steps.error); }
    r := StrokeBoth(executor, valves[plan.upstream], valves[plan.downstream], plan.step, steps.value, stops);
  }

  /** Runs the two closing steps and counts the receipts. */
  method StrokeBoth(
      executor: Executor, ghost up: Valve, ghost down: Valve, ghost step: real, steps: seq<Step<Valve>>,
      stops: seq<Stop>)
    returns (r: Result<nat>)
    requires steps == ClosingSteps(up, down, step) && |stops| == 2
    modifies up, down, executor.log.store
    ensures OnlyChanged(old(executor.log.store.files), executor.log.store.files, executor.log.path)
    ensures var s := Stroking(old(Snapshot({up, down})), steps, stops);
            && Snapshot({up, down}) == s.valves
            && executor.log.Data() == Grown(executor.log.codec, old(executor.log.Data()), s.wrote)
            && r == if s.outcome.Ok? then Ok(2) else Err(s.outcome.error)
  {
    assert ValvesOf(steps) == {up, down} by {
      assert steps[0].valve == up && steps[1].valve == down;
    }
    var records := executor.Apply(steps, stops);
    if records.Err? { return Err(records.error); }
    ReceiptsOfTwo(old(Snapshot({up, down})), up, down, step, stops);
    r := Ok(|records.value|);
  }

  /** A call in two steps. */
  lemma {:induction false} TwoStrokes<K>(valves: map<K, ValveState>, up: K, down: K, step: real, stops: seq<Stop>)
    requires up in valves && down in valves && |stops| == 2
    ensures var s := Stroking(valves, ClosingSteps(up, down, step), stops);
            var first := Stepping(valves, Step(up, Close, step), stops[0]);
            if first.outcome.Err? then s == first
            else var second := Stepping(first.valves, Step(down, Close, step), stops[1]);
                 s.valves == second.valves && s.outcome == second.outcome && s.wrote == first.wrote + second.wrote
  {
    var steps := ClosingSteps(up, down, step);
    assert steps[0..] == steps && stops[0..] == stops && steps[2..] == [];
    StrokingUnrolls(valves, steps, stops, 0);
    var first := Stepping(valves, steps[0], stops[0]);
    StrokingUnrolls(first.valves, steps, stops, 1);
    var second := Stepping(first.valves, steps[1], stops[1]);
    assert second.wrote + [] == second.wrote;
  }

  lemma {:induction false} ReceiptsOfTwo<K>(valves: map<K, ValveState>, up: K, down: K, step: real, stops: seq<Stop>)
    requires up in valves && down in valves && |stops| == 2
    ensures var s := Stroking(valves, ClosingSteps(up, down, step), stops); s.outcome.Ok? ==> |Records(s.wrote)| == 2
  {
    TwoStrokes(valves, up, down, step, stops);
    var first := Stepping(valves, Step(up, Close, step), stops[0]);
    if first.outcome.Ok? {
      var second := Stepping(first.valves, Step(down, Close, step), stops[1]);
      RecordsConcat(first.wrote, second.wrote);
    }
  }

  // The closing order.

  /** The openings of an upstream and a downstream valve. */
  datatype Pair = Pair(up: real, down: real)

  function Closer(x: real, step: real): real {
    if x - step < 0.0 then 0.0 else x - step
  }

  /** A protect call of which the first `moved` strokes happened; more than two means both. */
  function Called(p: Pair, step: real, moved: nat): Pair {
    if moved == 0 then p
    else if moved == 1 then Pair(Closer(p.up, step), p.down)
    else Pair(Closer(p.up, step), Closer(p.down, step))
  }

  /** Any number of protect calls, each possibly cut short. */
  function CalledAll(p: Pair, step: real, calls: seq<nat>): Pair {
    if calls == [] then p else Called(CalledAll(p, step, calls[..|calls| - 1]), step, calls[|calls| - 1])
  }

  /** A protect call moves distinct valves exactly as `Called` says, as far as its receipts can be written. */
  lemma {:induction false} ProtectIsCalled<K>(valves: map<K, ValveState>, up: K, down: K, step: real, stops: seq<Stop>)
    requires up in valves && down in valves && up != down && |stops| == 2 && step >= 0.0
    requires InRange(valves[up].position) && InRange(valves[down].position)
    ensures var after := Stroking(valves, ClosingSteps(up, down, step), stops).valves;
            && after.Keys == valves.Keys && InRange(after[up].position) && InRange(after[down].position)
            && Pair(after[up].position, after[down].position)
               == Called(Pair(valves[up].position, valves[down].position), step, Moved(stops))
  {
    TwoStrokes(valves, up, down, step, stops);
    assert Moved(stops) == if Kept(stops[0]) then 2 else 1 by {
      assert Moved(stops[1..]) == 1 by { assert stops[1..][1..] == []; }
    }
  }

  /** The valves after any number of protect calls; `calls[i]` says where the appends of call `i` end. */
  function Protecting<K(==)>(
      valves: map<K, ValveState>, up: K, down: K, step: real, calls: seq<seq<Stop>>): (after: map<K, ValveState>)
    requires up in valves && down in valves && forall c :: c in calls ==> |c| == 2
    ensures up in after && down in after
  {
    if calls == [] then valves
    else
      var last := calls[|calls| - 1];
      assert last in calls && forall c :: c in calls[..|calls| - 1] ==> c in calls;
      var before := Protecting(valves, up, down, step, calls[..|calls| - 1]);
      TwoStrokes(before, up, down, step, last);
      Stroking(before, ClosingSteps(up, down, step), last).valves
  }

  function MovedEach(calls: seq<seq<Stop>>): seq<nat> {
    if calls == [] then [] else MovedEach(calls[..|calls| - 1]) + [Moved(calls[|calls| - 1])]
  }

  /** Any number of protect calls move distinct valves exactly as `CalledAll` says. */
  lemma {:induction false} ProtectingIsCalledAll<K>(
      valves: map<K, ValveState>, up: K, down: K, step: real, calls: seq<seq<Stop>>)
    requires up in valves && down in valves && up != down && step >= 0.0 && forall c :: c in calls ==> |c| == 2
    requires InRange(valves[up].position) && InRange(valves[down].position)
    ensures var after := Protecting(valves, up, down, step, calls);
            && InRange(after[up].position) && InRange(after[down].position)
            && Pair(after[up].position, after[down].position)
               == CalledAll(Pair(valves[up].position, valves[down].position), step, MovedEach(calls))
  {
    if calls != [] {
      var before, last := calls[..|calls| - 1], calls[|calls| - 1];
      assert last in calls && forall c :: c in before ==> c in calls;
      ProtectingIsCalledAll(valves, up, down, step, before);
      ProtectIsCalled(Protecting(valves, up, down, step, before), up, down, step, last);
      var moves := MovedEach(before);
      assert (moves + [Moved(last)])[..|moves|] == moves;
    }
  }

  /** So on the valves themselves, an ordered start stays ordered through any calls, each possibly cut short. */
  lemma {:induction false} ProtectingKeepsOrder<K>(
      valves: map<K, ValveState>, up: K, down: K, step: real, calls: seq<seq<Stop>>)
    requires up in valves && down in valves && up != down && step >= 0.0 && forall c :: c in calls ==> |c| == 2
    requires InRange(valves[up].position) && InRange(valves[down].position)
    requires valves[up].position <= valves[down].position
    ensures var after := Protecting(valves, up, down, step, calls); after[up].position <= after[down].position
  {
    ProtectingIsCalledAll(valves, up, down, step, calls);
    OrderAlwaysKept(Pair(valves[up].position, valves[down].position), step, MovedEach(calls));
  }

  /** From an ordered start every intermediate state of any calls keeps upstream no more open than downstream. */
  lemma {:induction false} OrderAlwaysKept(p: Pair, step: real, calls: seq<nat>)
    requires step >= 0.0 && InRange(p.up) && InRange(p.down) && p.up <= p.down
    ensures var q := CalledAll(p, step, calls); q.up <= q.down && InRange(q.up) && InRange(q.down)
  {
    if calls != [] { OrderAlwaysKept(p, step, calls[..|calls| - 1]); }
  }

  /** From any start, a full call leaves the valves ordered exactly when they were, or the upstream one closes. */
  lemma {:induction false} OneCallOrdersIff(p: Pair, step: real)
    requires step >= 0.0 && InRange(p.up) && InRange(p.down)
    ensures var q := Called(p, step, 2); q.up <= q.down <==> p.up <= p.down || p.up <= step
  {
  }

  function FullCalls(k: nat): seq<nat> {
    if k == 0 then [] else FullCalls(k - 1) + [2]
  }

  /** The sum of `k` steps. */
  function Travel(k: nat, step: real): real {
    k as real * step
  }

  lemma {:induction false} TravelStep(k: nat, step: real)
    requires k > 0 && step >= 0.0
    ensures Travel(k, step) == Travel(k - 1, step) + step && Travel(k - 1, step) >= 0.0
  {
    var j: real := (k - 1) as real;
    assert k as real == j + 1.0 && j >= 0.0;
    assert (j + 1.0) * step == j * step + step;
  }

  lemma {:induction false} CloserTwice(x: real, a: real, b: real)
    requires a >= 0.0 && b >= 0.0
    ensures Closer(Closer(x, a), b) == Closer(x, a + b)
  {
  }

  /** After k full calls each valve has closed by k steps, and no further than shut. */
  lemma {:induction false} PositionsAfterCalls(p: Pair, step: real, k: nat)
    requires step >= 0.0 && InRange(p.up) && InRange(p.down)
    ensures CalledAll(p, step, FullCalls(k)) == Pair(Closer(p.up, Travel(k, step)), Closer(p.down, Travel(k, step)))
  {
    if k == 0 {
      assert Travel(0, step) == 0.0;
    } else {
      var calls := FullCalls(k);
      assert calls[..|calls| - 1] == FullCalls(k - 1);
      PositionsAfterCalls(p, step, k - 1);
      TravelStep(k, step);
      CloserTwice(p.up, Travel(k - 1, step), step);
      CloserTwice(p.down, Travel(k - 1, step), step);
    }
  }

  /** Four calls of the two-valve plan close both valves from any start. */
  lemma {:induction false} FourCallsClose(zone: string, upstream: string, downstream: string, p: Pair)
    requires InRange(p.up) && InRange(p.down)
    ensures CalledAll(p, PlanForStrokes(zone, upstream, downstream).step, FullCalls(4)) == Pair(0.0, 0.0)
  {
    PositionsAfterCalls(p, 0.25, 4);
  }

  // The closure peak.

  function ClosurePeakWindow(plan: Plan, closureAt: int): Window {
    Window(plan.zone, closureAt - plan.pre * SECOND, closureAt + plan.post * SECOND)
  }

  /** The row's slot is the minute of the window's start, not of the closure. */
  function ClosureRow(plan: Plan, closureAt: int, mpa: real): ReadingRecord {
    ReadingRecord(plan.zone, ClosurePeakWindow(plan, closureAt).Slot(), CLOSURE, mpa, 0.0, Some(closureAt))
  }

  method RecordClosurePeak(windows: WindowStore, plan: Plan, closureAt: int, mpa: real, stop: Stop) returns (r: Outcome)
    modifies windows.agg.log.store
    ensures var log := windows.agg.log;
            && log.Data() == Grown(log.codec, old(log.Data()), [Write(ClosureRow(plan, closureAt, mpa), stop)])
            && OnlyChanged(old(log.store.files), log.store.files, log.path)
    ensures r == if Kept(stop) then Done else Err(StoreFailed)
  {
    var window := ClosurePeakWindow(plan, closureAt);
    r := windows.Record(ReadingRecord(plan.zone, window.Slot(), CLOSURE, mpa, 0.0, Some(closureAt)), stop);
  }

  /** What asking for the peak around a closure answers on a log of these bytes. */
  predicate ClosurePeakAnswer(codec: Codec<ReadingRecord>, data: Bytes, plan: Plan, closureAt: int, r: Result<real>) {
    var loaded := ReadBack(codec, data);
    if loaded.Err? then r == Err(loaded.error)
    else PeakAnswer(WindowRows(loaded.value, plan.zone, ClosurePeakWindow(plan, closureAt)), r, NoReadings)
  }

  method PeakInWindow(windows: WindowStore, plan: Plan, closureAt: int) returns (r: Result<real>)
    ensures ClosurePeakAnswer(windows.agg.log.codec, windows.agg.log.Data(), plan, closureAt, r)
  {
    r := windows.Peak(plan.zone, ClosurePeakWindow(plan, closureAt));
  }

  /** The plan's window covers the closure instant exactly when it starts no later and ends later than it. */
  lemma {:induction false} WindowCoversClosureIff(plan: Plan, closureAt: int)
    ensures ClosurePeakWindow(plan, closureAt).Contains(closureAt) <==> plan.pre >= 0 && plan.post > 0
  {
  }

  /** A closure's row carries the closure's own minute exactly when the minute also holds the window's start. */
  lemma {:induction false} ClosureRowWellSlottedIff(plan: Plan, closureAt: int, mpa: real)
    ensures WellSlotted(ClosureRow(plan, closureAt, mpa))
            <==> plan.pre * SECOND <= closureAt % MINUTE < MINUTE + plan.pre * SECOND
  {
  }

  /** A recorded closure is always in its plan's window: the peak read back exists and is at least its pressure. */
  lemma {:induction false} PeakCoversClosure(
      rows: seq<ReadingRecord>, plan: Plan, closureAt: int, mpa: real, r: Result<real>)
    requires plan.pre >= 0 && plan.post > 0
    requires ClosureRow(plan, closureAt, mpa) in rows
    requires PeakAnswer(WindowRows(rows, plan.zone, ClosurePeakWindow(plan, closureAt)), r, NoReadings)
    ensures r.Ok? && r.value >= mpa
  {
    var row := ClosureRow(plan, closureAt, mpa);
    RowsSelected(rows, plan.zone, 0, ClosurePeakWindow(plan, closureAt));
    assert row in WindowRows(rows, plan.zone, ClosurePeakWindow(plan, closureAt));
  }

  /** On a log of whole readable lines, a closure recorded last is read back, and the peak is at least its pressure. */
  lemma {:induction false} RecordedClosureCovered(
      codec: Codec<ReadingRecord>, data: Bytes, plan: Plan, closureAt: int, mpa: real, stop: Stop, r: Result<real>)
    requires OnePerLine(codec, ClosureRow(plan, closureAt, mpa)) && Kept(stop)
    requires Terminated(data) && ReadBack(codec, data).Ok?
    requires plan.pre >= 0 && plan.post > 0
    requires ClosurePeakAnswer(codec, Grown(codec, data, [Write(ClosureRow(plan, closureAt, mpa), stop)]), plan,
                               closureAt, r)
    ensures r.Ok? && r.value >= mpa
  {
    var row := ClosureRow(plan, closureAt, mpa);
    ReadAfterAppend(codec, data, row, stop);
    var rows := ReadBack(codec, data).value + [row];
    GrownOne(codec, data, Write(row, stop));
    assert ReadBack(codec, data + Taken(codec.encode(row), stop)) == Ok(rows);
    assert rows[|rows| - 1] == row;
    PeakCoversClosure(rows, plan, closureAt, mpa, r);
  }

  /** A gated close leaves the readings log, another file of possibly the same store, alone. */
  method CloseThroughGate(
      v: Valve, guard: Guard, executor: Executor, stop: Stop, ghost readings: RecordLog<ReadingRecord>)
    returns (r: Outcome)
    requires executor.log.path != readings.path
    modifies v, guard, executor.log.store
    ensures readings.Data() == old(readings.Data())
    ensures var refused := Flag(old(guard.engaged), v.id);
            var (after, outcome) := Moving(old(v.State()), Close, 1.0);
            && r == (if refused then Err(ProtectionEngaged) else if outcome.Err? || Kept(stop) then outcome
                     else Err(StoreFailed))
            && v.State() == (if refused then old(v.State()) else after)
            && (guard.engaged, guard.closes) == Closing(old(guard.engaged), old(guard.closes), v.id, false)
            && executor.log.Data()
               == Grown(executor.log.codec, old(executor.log.Data()),
                        if !refused && outcome.Ok? then [Write(ReceiptOf(after), stop)] else [])
  {
    ghost var disk := readings.store.files;
    r := Execute(v, Close, guard, executor, stop);
    if readings.store == executor.log.store {
      OtherFileKept(disk, readings.store.files, executor.log.path, readings.path);
    }
  }

  /**
   * Records the closure's pressure and reads the window's peak back, 0 when it cannot; the receipt log is left alone.
   */
  method PeakOfClosure(
      windows: WindowStore, plan: Plan, closureAt: int, mpa: real, stop: Stop,
      ghost receipts: RecordLog<ExecutionRecord>)
    returns (r: Result<real>, ghost peak: Result<real>)
    requires receipts.path != windows.agg.log.path
    modifies windows.agg.log.store
    ensures receipts.Data() == old(receipts.Data())
    ensures var log := windows.agg.log;
            log.Data() == Grown(log.codec, old(log.Data()), [Write(ClosureRow(plan, closureAt, mpa), stop)])
    ensures r.Ok? == Kept(stop) && (r.Err? ==> r == Err(StoreFailed))
    ensures r.Ok? ==>
              && ClosurePeakAnswer(windows.agg.log.codec, windows.agg.log.Data(), plan, closureAt, peak)
              && r.value == if peak.Ok? then peak.value else 0.0
  {
    ghost var disk := receipts.store.files;
    var recorded := RecordClosurePeak(windows, plan, closureAt, mpa, stop);
    if receipts.store == windows.agg.log.store {
      OtherFileKept(disk, receipts.store.files, windows.agg.log.path, receipts.path);
    }
    if recorded.Err? { return Err(recorded.error), Err(recorded.error); }
    var found := PeakInWindow(windows, plan, closureAt);
    return Ok(if found.Ok? then found.value else 0.0), found;
  }

  /** The row a close request records for a valve that its stroke left like this. */
  function RequestRow(zone: string, upstream: string, v: ValveState, closureAt: int): ReadingRecord {
    ClosureRow(PlanForStrokes(zone, upstream, v.id), closureAt, v.position * 0.6)
  }

  /** The two-valve plan closes by quarters and looks five seconds around the closure. */
  lemma {:induction false} PlanLaw(zone: string, upstream: string, downstream: string, closureAt: int)
    ensures var plan := PlanForStrokes(zone, upstream, downstream);
            && plan.zone == zone && plan.upstream == upstream && plan.downstream == downstream && plan.step == 0.25
            && var window := ClosurePeakWindow(plan, closureAt);
               && window.zone == zone
               && window.start == closureAt - 5_000_000_000 && window.end == closureAt + 5_000_000_000
  {
  }

  /** The row of a close request, field by field; a valve closed from within its range leaves pressure 0. */
  lemma {:induction false} RequestRowLaw(zone: string, upstream: string, before: ValveState, closureAt: int)
    ensures var after := Moving(before, Close, 1.0).0; var row := RequestRow(zone, upstream, after, closureAt);
            && row.zone == zone && row.valve == "closure-peak" && row.flow == 0.0 && row.at == Some(closureAt)
            && row.slot == (closureAt - 5_000_000_000) / 60_000_000_000
            && row.mpa == after.position * 0.6
            && (before.position <= 1.0 ==> row.mpa == 0.0)
  {
  }

  /** The second half of a close request: record the pressure, read the peak back, release the gate on success. */
  method RecordAndRelease(
      v: Valve, guard: Guard, windows: WindowStore, zone: string, upstream: string, closureAt: int, stop: Stop,
      ghost receipts: RecordLog<ExecutionRecord>)
    returns (r: Result<real>, ghost peak: Result<real>)
    requires receipts.path != windows.agg.log.path
    modifies guard`engaged, windows.agg.log.store
    ensures guard.engaged == if Kept(stop) then old(guard.engaged) - {v.id} else old(guard.engaged)
    ensures receipts.Data() == old(receipts.Data()) && v.State() == old(v.State())
    ensures var log := windows.agg.log;
            log.Data()
            == Grown(log.codec, old(log.Data()), [Write(RequestRow(zone, upstream, v.State(), closureAt), stop)])
    ensures r.Ok? == Kept(stop) && (r.Err? ==> r == Err(StoreFailed))
    ensures r.Ok? ==>
              && ClosurePeakAnswer(windows.agg.log.codec, windows.agg.log.Data(),
                                   PlanForStrokes(zone, upstream, v.id), closureAt, peak)
              && r.value == if peak.Ok? then peak.value else 0.0
  {
    r, peak := PeakOfClosure(windows, PlanForStrokes(zone, upstream, v.id), closureAt, v.position * 0.6, stop,
                             receipts);
    if r.Ok? { guard.Release(v.id); }
  }

  /** What a close request on a valve answers, up to the peak it reports. */
  function CloseOutcome(engaged: map<string, bool>, v: ValveState, strokeStop: Stop, peakStop: Stop): Outcome {
    var outcome := Moving(v, Close, 1.0).1;
    if Flag(engaged, v.id) then Err(ProtectionEngaged)
    else if outcome.Err? then outcome
    else if !Kept(strokeStop) || !Kept(peakStop) then Err(StoreFailed)
    else Done
  }

  /** A close request succeeds exactly on an open gate, a valve the stroke can move, and two appends that succeed. */
  lemma {:induction false} CloseOutcomeLaw(engaged: map<string, bool>, v: ValveState, strokeStop: Stop, peakStop: Stop)
    ensures var busy := v.id in engaged && engaged[v.id]; var r := CloseOutcome(engaged, v, strokeStop, peakStop);
            && (busy ==> r == Err(ProtectionEngaged))
            && (!busy && v.position > 2.0 ==> r == Err(PositionOutOfRange))
            && (!busy && v.position <= 2.0 ==>
                  if Kept(strokeStop) && Kept(peakStop) then r.Ok? else r == Err(StoreFailed))
  {
  }

  /**
   * The console's close request with nobody else at the valve: gate, stroke, peak, release. The gate is released
   * exactly on success. The recorded pressure is derived from the position the stroke ended at, so it is zero unless
   * the valve was open beyond its range. `peak` is what the window answers; without an answer the request reports 0.
   */
  method HandleClose(
      v: Valve, guard: Guard, executor: Executor, windows: WindowStore,
      zone: string, upstream: string, closureAt: int, strokeStop: Stop, peakStop: Stop)
    returns (r: Result<real>, ghost peak: Result<real>)
    requires executor.log.path != windows.agg.log.path
    modifies v, guard, executor.log.store, windows.agg.log.store
    ensures var before := old(v.State()); var after := Moving(before, Close, 1.0).0;
            var admitted := !Flag(old(guard.engaged), v.id);
            var outcome := CloseOutcome(old(guard.engaged), before, strokeStop, peakStop);
            && v.State() == (if admitted then after else before)
            && r.Ok? == outcome.Ok? && (r.Err? ==> Err(r.error) == outcome)
            && (guard.engaged, guard.closes) == Closing(old(guard.engaged), old(guard.closes), v.id, outcome.Ok?)
    ensures var log := windows.agg.log;
            var stroked := CloseOutcome(old(guard.engaged), old(v.State()), strokeStop, Completes).Ok?;
            var row := RequestRow(zone, upstream, v.State(), closureAt);
            log.Data() == if stroked then Grown(log.codec, old(log.Data()), [Write(row, peakStop)]) else old(log.Data())
    ensures var log := executor.log; var (after, outcome) := Moving(old(v.State()), Close, 1.0);
            log.Data() == Grown(log.codec, old(log.Data()),
                                if !Flag(old(guard.engaged), v.id) && outcome.Ok?
                                    then [Write(ReceiptOf(after), strokeStop)] else [])
    ensures r.Ok? ==>
              && ClosurePeakAnswer(windows.agg.log.codec, windows.agg.log.Data(),
                                   PlanForStrokes(zone, upstream, v.id), closureAt, peak)
              && r.value == if peak.Ok? then peak.value else 0.0
  {
    var closed := CloseThroughGate(v, guard, executor, strokeStop, windows.agg.log);
    if closed.Err? { return Err(closed.error), Err(closed.error); }
    r, peak := RecordAndRelease(v, guard, windows, zone, upstream, closureAt, peakStop, executor.log);
  }
}
