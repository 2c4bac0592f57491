/** Valves, strokes executed step by step with a receipt each, and the single clamp every step list amounts to. */
module Valves {
  import opened Results
  import opened Lines
  import opened Files
  import opened Logs
  import opened Receipts

  datatype Action = Open | Close | Unknown(text: string)

  function ActionText(action: Action): string {
    match action
    case Open => "open"
    case Close => "close"
    case Unknown(text) => text
  }

  datatype ValveState = ValveState(id: string, position: real, last: Action)

  datatype Step<K> = Step(valve: K, action: Action, delta: real)

  /** The receipt of a stroke that left the valve like this. */
  function ReceiptOf(v: ValveState): ExecutionRecord {
    ExecutionRecord("stroke", v.id, ActionText(v.last), PositionText(v.position))
  }

  predicate InRange(x: real) {
    0.0 <= x <= 1.0
  }

  /** Where one step asks a valve to go: clamped on the side it moves to, not on the other. */
  function Aim(action: Action, start: real, delta: real): Option<real> {
    match action
    case Open => Some(if start + delta > 1.0 then 1.0 else start + delta)
    case Close => Some(if start - delta < 0.0 then 0.0 else start - delta)
    case Unknown(_) => None
  }

  function Moving(v: ValveState, action: Action, delta: real): (ValveState, Outcome) {
    var aim := Aim(action, v.position, delta);
    if aim.None? then (v, Err(UnknownAction))
    else if !InRange(aim.value) then (v, Err(PositionOutOfRange))
    else (v.(position := aim.value, last := action), Done)
  }

  /** All valves after some steps, the appends to the receipt log, and the outcome. */
  datatype Strokes<K(==)> = Strokes(valves: map<K, ValveState>, wrote: seq<Write<ExecutionRecord>>, outcome: Outcome)

  /** The same, after earlier appends. */
  function Following<K(==)>(earlier: seq<Write<ExecutionRecord>>, s: Strokes<K>): Strokes<K> {
    s.(wrote := earlier + s.wrote)
  }

  lemma {:induction false} FollowingBoth<K>(
      a: seq<Write<ExecutionRecord>>, b: seq<Write<ExecutionRecord>>, s: Strokes<K>)
    ensures Following(a, Following(b, s)) == Following(a + b, s) && Following([], s) == s
  {
    assert a + (b + s.wrote) == a + b + s.wrote && [] + s.wrote == s.wrote;
  }

  /** One step of a list; a step whose receipt fails has already moved its valve. */
  function Stepping<K(==)>(valves: map<K, ValveState>, step: Step<K>, stop: Stop): Strokes<K>
    requires step.valve in valves
  {
    var (v, outcome) := Moving(valves[step.valve], step.action, step.delta);
    if outcome.Err? then Strokes(valves, [], outcome)
    else Strokes(valves[step.valve := v], [Write(ReceiptOf(v), stop)], if Kept(stop) then Done else Err(StoreFailed))
  }

  /** Steps in order until one fails. */
  function Stroking<K(==)>(valves: map<K, ValveState>, steps: seq<Step<K>>, stops: seq<Stop>): Strokes<K>
    requires |stops| == |steps| && forall s :: s in steps ==> s.valve in valves
    decreases |steps|
  {
    if steps == [] then Strokes(valves, [], Done)
    else
      var first := Stepping(valves, steps[0], stops[0]);
      if first.outcome.Err? then first else Following(first.wrote, Stroking(first.valves, steps[1..], stops[1..]))
  }

  lemma {:induction false} StrokingUnrolls<K>(valves: map<K, ValveState>, steps: seq<Step<K>>, stops: seq<Stop>, i: nat)
    requires |stops| == |steps| && i < |steps| && forall s :: s in steps ==> s.valve in valves
    ensures steps[i] in steps
    ensures var first := Stepping(valves, steps[i], stops[i]);
            Stroking(valves, steps[i..], stops[i..])
            == if first.outcome.Err? then first
               else Following(first.wrote, Stroking(first.valves, steps[i + 1..], stops[i + 1..]))
  {
    assert steps[i..][1..] == steps[i + 1..] && stops[i..][1..] == stops[i + 1..];
  }

  class Valve {
    const id: string
    var position: real
    var last: Action
    var zone: string

    /** A new valve is fully open. */
    constructor (id: string)
      ensures this.id == id && position == 1.0 && zone == ""
    {
      this.id, position, last, zone := id, 1.0, Unknown(""), "";
    }

    function State(): ValveState
      reads this
    {
      ValveState(id, position, last)
    }

    method SetPosition(action: Action, position: real) returns (r: Outcome)
      modifies this`position, this`last
      ensures r == if InRange(position) then Done else Err(PositionOutOfRange)
      ensures State() == if r.Ok? then ValveState(id, position, action) else old(State())
    {
      if position < 0.0 || position > 1.0 { return Err(PositionOutOfRange); }
      this.position, last := position, action;
      r := Done;
    }
  }

  /** The valves of a step list, as values. */
  ghost function Snapshot(valves: set<Valve>): map<Valve, ValveState>
    reads valves
  {
    map v | v in valves :: v.State()
  }

  /** The valves a step list names. */
  function ValvesOf(steps: seq<Step<Valve>>): (all: set<Valve>)
    ensures forall s :: s in steps ==> s.valve in all
  {
    set s | s in steps :: s.valve
  }

  class Executor {
    const log: RecordLog<ExecutionRecord>

    constructor (log: RecordLog<ExecutionRecord>)
      ensures this.log == log
    {
      this.log := log;
    }

    /** One step: aim, move, write the receipt. */
    method Stroke(v: Valve, action: Action, delta: real, stop: Stop) returns (r: Result<ExecutionRecord>)
      modifies v, log.store
      ensures var (after, outcome) := Moving(old(v.State()), action, delta);
              && v.State() == after
              && r == (if outcome.Err? then Err(outcome.error) else if Kept(stop) then Ok(ReceiptOf(after))
                       else Err(StoreFailed))
              && log.Data()
                 == Grown(log.codec, old(log.Data()), if outcome.Ok? then [Write(ReceiptOf(after), stop)] else [])
      ensures OnlyChanged(old(log.store.files), log.store.files, log.path)
    {
      ghost var data := log.Data();
      var next: real;
      match action {
        case Open =>
          next := v.position + delta;
          if next > 1.0 { next := 1.0; }
        case Close =>
          next := v.position - delta;
          if next < 0.0 { next := 0.0; }
        case Unknown(_) =>
          return Err(UnknownAction);
      }
      var moved := v.SetPosition(action, next);
      if moved.Err? { return Err(moved.error); }
      assert log.Data() == data;
      var record := ExecutionRecord("stroke", v.id, ActionText(action), PositionText(next));
      var appended := log.Append(record, stop);
      r := if appended.Ok? then Ok(record) else Err(appended.error);
    }

    /** `Stroke` seen from a set of valves, after the appends `wrote` on a log that held `data`. */
    method StrokeAmong(
        ghost all: set<Valve>, step: Step<Valve>, stop: Stop, ghost data: Bytes,
        ghost wrote: seq<Write<ExecutionRecord>>)
      returns (r: Result<ExecutionRecord>)
      requires step.valve in all && log.Data() == Grown(log.codec, data, wrote)
      modifies step.valve, log.store
      ensures var first := Stepping(old(Snapshot(all)), step, stop);
              && Snapshot(all) == first.valves
              && log.Data() == Grown(log.codec, data, wrote + first.wrote)
              && first.outcome == (if r.Ok? then Done else Err(r.error))
              && (r.Ok? ==> first.wrote == [Write(r.value, stop)] && Kept(stop))
      ensures OnlyChanged(old(log.store.files), log.store.files, log.path)
    {
      ghost var before := Snapshot(all);
      ghost var first := Stepping(before, step, stop);
      r := Stroke(step.valve, step.action, step.delta, stop);
      assert Snapshot(all) == before[step.valve := step.valve.State()];
      assert before[step.valve := before[step.valve]] == before;
      GrownConcat(log.codec, data, wrote, first.wrote);
    }

    /** Step `i` of a list, after the appends `wrote` on a log that held `data`; the rest of the list is to follow. */
    method StrokeNext(
        steps: seq<Step<Valve>>, stops: seq<Stop>, i: nat, ghost data: Bytes, ghost wrote: seq<Write<ExecutionRecord>>)
      returns (r: Result<ExecutionRecord>)
      requires i < |steps| == |stops| && log.Data() == Grown(log.codec, data, wrote)
      modifies ValvesOf(steps), log.store
      ensures var all := ValvesOf(steps);
              var goal := Following(wrote, Stroking(old(Snapshot(all)), steps[i..], stops[i..]));
              if r.Ok? then
                var more := wrote + [Write(r.value, stops[i])];
                && Kept(stops[i]) && log.Data() == Grown(log.codec, data, more)
                && Following(more, Stroking(Snapshot(all), steps[i + 1..], stops[i + 1..])) == goal
              else goal == Strokes(Snapshot(all), goal.wrote, Err(r.error))
                   && log.Data() == Grown(log.codec, data, goal.wrote)
      ensures OnlyChanged(old(log.store.files), log.store.files, log.path)
    {
      ghost var all := ValvesOf(steps);
      StrokingUnrolls(Snapshot(all), steps, stops, i);
      ghost var first := Stepping(Snapshot(all), steps[i], stops[i]);
      r := StrokeAmong(all, steps[i], stops[i], data, wrote);
      if r.Ok? { FollowingBoth(wrote, first.wrote, Stroking(first.valves, steps[i + 1..], stops[i + 1..])); }
    }

    /** `stops[i]` says where the append of step `i` ends. */
    method Apply(steps: seq<Step<Valve>>, stops: seq<Stop>) returns (r: Result<seq<ExecutionRecord>>)
      requires |stops| == |steps|
      modifies ValvesOf(steps), log.store
      ensures var all := ValvesOf(steps); var s := Stroking(old(Snapshot(all)), steps, stops);
              && Snapshot(all) == s.valves
              && s.outcome == (if r.Ok? then Done else Err(r.error))
              && log.Data() == Grown(log.codec, old(log.Data()), s.wrote)
              && (r.Ok? ==> r.value == Records(s.wrote))
      ensures OnlyChanged(old(log.store.files), log.store.files, log.path)
    {
      ghost var all, data := ValvesOf(steps), log.Data();
      ghost var goal := Stroking(Snapshot(all), steps, stops);
      ghost var wrote: seq<Write<ExecutionRecord>> := [];
      var records: seq<ExecutionRecord> := [];
      assert steps[0..] == steps && stops[0..] == stops;
      FollowingBoth([], [], goal);
      for i := 0 to |steps|
        invariant Following(wrote, Stroking(Snapshot(all), steps[i..], stops[i..])) == goal
        invariant log.Data() == Grown(log.codec, data, wrote) && records == Records(wrote)
        invariant OnlyChanged(old(log.store.files), log.store.files, log.path)
      {
        var stroke := StrokeNext(steps, stops, i, data, wrote);
        if stroke.Err? { return Err(stroke.error); }
        RecordsMore(wrote, Write(stroke.value, stops[i]));
        wrote := wrote + [Write(stroke.value, stops[i])];
        records := records + [stroke.value];
      }
      assert steps[|steps|..] == [] && wrote + [] == wrote;
      r := Ok(records);
    }

    /** One stroke of the whole way: its effect from any position, in range or not. */
    method StrokeWholly(v: Valve, action: Action, stop: Stop) returns (r: Outcome)
      modifies v, log.store
      ensures var (after, outcome) := Moving(old(v.State()), action, 1.0);
              && v.State() == after
              && r == (if outcome.Err? || Kept(stop) then outcome else Err(StoreFailed))
              && log.Data()
                 == Grown(log.codec, old(log.Data()), if outcome.Ok? then [Write(ReceiptOf(after), stop)] else [])
      ensures OnlyChanged(old(log.store.files), log.store.files, log.path)
    {
      var steps := [Step(v, action, 1.0)];
      assert steps[0] in steps && v in ValvesOf(steps);
      StrokingUnrolls(Snapshot(ValvesOf(steps)), steps, [stop], 0);
      assert steps[0..] == steps && steps[1..] == [] && [stop][0..] == [stop];
      ghost var first := Stepping(Snapshot(ValvesOf(steps)), steps[0], stop);
      assert first.wrote + [] == first.wrote;
      var applied := Apply(steps, [stop]);
      r := if applied.Ok? then Done else Err(applied.error);
    }

    /** Ends shut exactly from a position of at most 1; only beyond 2 does the range check refuse the move. */
    method CloseFully(v: Valve, stop: Stop) returns (r: Outcome)
      modifies v, log.store
      ensures v.State() == Moving(old(v.State()), Close, 1.0).0
      ensures v.position == 0.0 <==> old(v.position) <= 1.0
      ensures r == if old(v.position) > 2.0 then Err(PositionOutOfRange) else if Kept(stop) then Done
          else Err(StoreFailed)
      ensures log.Data()
              == Grown(log.codec, old(log.Data()), if old(v.position) <= 2.0 then [Write(ReceiptOf(v.State()), stop)]
                       else [])
      ensures OnlyChanged(old(log.store.files), log.store.files, log.path)
    {
      r := StrokeWholly(v, Close, stop);
    }

    /** Ends fully open exactly from a position of at least 0; only below -1 does the range check refuse the move. */
    method OpenFully(v: Valve, stop: Stop) returns (r: Outcome)
      modifies v, log.store
      ensures v.State() == Moving(old(v.State()), Open, 1.0).0
      ensures v.position == 1.0 <==> old(v.position) >= 0.0
      ensures r == if old(v.position) < -1.0 then Err(PositionOutOfRange) else if Kept(stop) then Done
          else Err(StoreFailed)
      ensures log.Data()
              == Grown(log.codec, old(log.Data()), if old(v.position) >= -1.0
                       then [Write(ReceiptOf(v.State()), stop)] else [])
      ensures OnlyChanged(old(log.store.files), log.store.files, log.path)
    {
      r := StrokeWholly(v, Open, stop);
    }
  }

  // The normal form.

  /** x becomes x + shift, then is raised to `lo` and lowered to `hi`. */
  datatype Clamp = Clamp(shift: real, lo: real, hi: real) {
    predicate Valid() {
      0.0 <= lo <= hi <= 1.0
    }

    function At(x: real): real {
      if x + shift > hi then hi else if x + shift < lo then lo else x + shift
    }
  }

  const UNMOVED := Clamp(0.0, 0.0, 1.0)

  function Lower(a: real, b: real): real { if a < b then a else b }

  function Higher(a: real, b: real): real { if a < b then b else a }

  function Then(c: Clamp, action: Action, delta: real): Clamp {
    match action
    case Open => Clamp(c.shift + delta, Lower(c.lo + delta, 1.0), Lower(c.hi + delta, 1.0))
    case Close => Clamp(c.shift - delta, Higher(c.lo - delta, 0.0), Higher(c.hi - delta, 0.0))
    case Unknown(_) => c
  }

  /** The clamp of one valve's own steps; steps of other valves do not enter it. */
  function NormalForm<K(==)>(steps: seq<Step<K>>, valve: K): Clamp {
    if steps == [] then UNMOVED
    else
      var c := NormalForm(steps[..|steps| - 1], valve);
      var last := steps[|steps| - 1];
      if last.valve == valve then Then(c, last.action, last.delta) else c
  }

  predicate Regular<K(==)>(steps: seq<Step<K>>) {
    forall s :: s in steps ==> s.delta >= 0.0 && !s.action.Unknown?
  }

  lemma {:induction false} NormalFormValid<K>(steps: seq<Step<K>>, valve: K)
    requires Regular(steps)
    ensures NormalForm(steps, valve).Valid()
  {
    if steps != [] {
      assert steps[|steps| - 1] in steps;
      assert forall s :: s in steps[..|steps| - 1] ==> s in steps;
      NormalFormValid(steps[..|steps| - 1], valve);
    }
  }

  /** Number of steps that move their valve before the first failed receipt stops the list. */
  function Moved(stops: seq<Stop>): (n: nat)
    ensures n <= |stops|
  {
    if stops == [] then 0 else if !Kept(stops[0]) then 1 else 1 + Moved(stops[1..])
  }

  /** All receipts are kept exactly when the last step reached keeps its own. */
  lemma {:induction false} MovedAllIff(stops: seq<Stop>)
    ensures var n := Moved(stops);
            (forall i :: 0 <= i < |stops| ==> Kept(stops[i])) <==> stops[..n] == [] || Kept(stops[..n][n - 1])
  {
    if stops != [] {
      var rest := stops[1..];
      MovedAllIff(rest);
      assert forall i :: 0 <= i < |rest| ==> rest[i] == stops[i + 1];
    }
  }

  lemma {:induction false} ThenMoves(c: Clamp, x: real, v: ValveState, action: Action, delta: real)
    requires c.Valid() && v.position == c.At(x) && delta >= 0.0 && !action.Unknown? && InRange(x)
    ensures Moving(v, action, delta) == (v.(position := Then(c, action, delta).At(x), last := action), Done)
  {
  }

  lemma {:induction false} StrokingHead<K>(valves: map<K, ValveState>, steps: seq<Step<K>>, stops: seq<Stop>)
    requires |stops| == |steps| > 0 && forall s :: s in steps ==> s.valve in valves
    ensures steps[0] in steps
    ensures var first := Stepping(valves, steps[0], stops[0]);
            Stroking(valves, steps, stops)
            == if first.outcome.Err? then first
               else Following(first.wrote, Stroking(first.valves, steps[1..], stops[1..]))
  {
  }

  /** Valves keep their ids. */
  lemma {:induction false} StrokingKeepsIds<K>(valves: map<K, ValveState>, steps: seq<Step<K>>, stops: seq<Stop>)
    requires |stops| == |steps| && forall s :: s in steps ==> s.valve in valves
    ensures var after := Stroking(valves, steps, stops).valves;
            after.Keys == valves.Keys && forall k :: k in valves ==> after[k].id == valves[k].id
    decreases |steps|
  {
    if steps != [] {
      var first := Stepping(valves, steps[0], stops[0]);
      assert first.valves.Keys == valves.Keys && forall k :: k in valves ==> first.valves[k].id == valves[k].id;
      if first.outcome.Ok? { StrokingKeepsIds(first.valves, steps[1..], stops[1..]); }
    }
  }

  /** One step is the list of it. */
  lemma {:induction false} StrokeOne<K>(valves: map<K, ValveState>, step: Step<K>, stop: Stop)
    requires step.valve in valves
    ensures Stroking(valves, [step], [stop]) == Stepping(valves, step, stop)
  {
    assert [step][1..] == [] && [stop][1..] == [] && step in [step];
    var first := Stepping(valves, step, stop);
    assert first.wrote + [] == first.wrote;
  }

  /** All but the last step, from the first one on. */
  lemma {:induction false} StrokeInit<K>(valves: map<K, ValveState>, steps: seq<Step<K>>, stops: seq<Stop>)
    requires |stops| == |steps| > 1 && forall s :: s in steps ==> s.valve in valves
    requires Stroking(valves, steps[..|steps| - 1], stops[..|steps| - 1]).outcome.Ok?
    ensures steps[0] in steps && forall s :: s in steps[1..] ==> s in steps
    ensures var n := |steps| - 1; var first := Stepping(valves, steps[0], stops[0]);
            && first.outcome.Ok? && first.valves.Keys == valves.Keys
            && Stroking(valves, steps[..n], stops[..n])
               == Following(first.wrote, Stroking(first.valves, steps[1..][..n - 1], stops[1..][..n - 1]))
  {
    var n := |steps| - 1;
    assert steps[..n][1..] == steps[1..][..n - 1] && stops[..n][1..] == stops[1..][..n - 1];
    StrokingHead(valves, steps[..n], stops[..n]);
  }

  /** `Stroking` one more step at the end. */
  lemma {:induction false} StrokeLast<K>(valves: map<K, ValveState>, steps: seq<Step<K>>, stops: seq<Stop>)
    requires |stops| == |steps| > 0 && forall s :: s in steps ==> s.valve in valves
    requires Stroking(valves, steps[..|steps| - 1], stops[..|steps| - 1]).outcome.Ok?
    ensures var init := Stroking(valves, steps[..|steps| - 1], stops[..|steps| - 1]);
            var last := steps[|steps| - 1];
            && init.valves.Keys == valves.Keys && last in steps
            && Stroking(valves, steps, stops)
               == Following(init.wrote, Stepping(init.valves, last, stops[|steps| - 1]))
    decreases |steps|
  {
    var n := |steps| - 1;
    if n > 0 {
      var first := Stepping(valves, steps[0], stops[0]);
      var rest, ends := steps[1..], stops[1..];
      StrokeInit(valves, steps, stops);
      StrokeLast(first.valves, rest, ends);
      assert Stroking(valves, steps, stops) == Following(first.wrote, Stroking(first.valves, rest, ends)) by {
        StrokingHead(valves, steps, stops);
      }
      var init := Stroking(first.valves, rest[..n - 1], ends[..n - 1]);
      FollowingBoth(first.wrote, init.wrote, Stepping(init.valves, rest[n - 1], ends[n - 1]));
    } else {
      assert steps == [steps[0]] && stops == [stops[0]] && steps[..0] == [];
      StrokeOne(valves, steps[0], stops[0]);
      FollowingBoth([], [], Stepping(valves, steps[0], stops[0]));
    }
  }

  /** Steps after a failed receipt are never reached. */
  lemma {:induction false} StrokeStops<K>(valves: map<K, ValveState>, steps: seq<Step<K>>, stops: seq<Stop>)
    requires |stops| == |steps| && forall s :: s in steps ==> s.valve in valves
    ensures var n := Moved(stops); Stroking(valves, steps, stops) == Stroking(valves, steps[..n], stops[..n])
    ensures forall i :: 0 <= i < Moved(stops) - 1 ==> Kept(stops[i])
    ensures Moved(stops) < |stops| ==> Moved(stops) > 0 && !Kept(stops[Moved(stops) - 1])
    decreases |steps|
  {
    if steps != [] {
      var n := Moved(stops);
      var first := Stepping(valves, steps[0], stops[0]);
      StrokingHead(valves, steps, stops);
      StrokingHead(valves, steps[..n], stops[..n]);
      if Kept(stops[0]) {
        StrokeStops(first.valves, steps[1..], stops[1..]);
        assert steps[..n][1..] == steps[1..][..n - 1] && stops[..n][1..] == stops[1..][..n - 1];
      }
    }
  }

  lemma {:induction false} StrokeWhole<K>(valves: map<K, ValveState>, steps: seq<Step<K>>, stops: seq<Stop>, valve: K)
    requires |stops| == |steps| && forall s :: s in steps ==> s.valve in valves
    requires Regular(steps) && valve in valves && forall k :: k in valves ==> InRange(valves[k].position)
    requires forall i :: 0 <= i < |stops| - 1 ==> Kept(stops[i])
    ensures var d := Stroking(valves, steps, stops);
            && d.valves.Keys == valves.Keys
            && d.valves[valve].position == NormalForm(steps, valve).At(valves[valve].position)
            && d.outcome == (if stops == [] || Kept(stops[|stops| - 1]) then Done else Err(StoreFailed))
    decreases |steps|
  {
    if steps != [] {
      var n := |steps| - 1;
      var last := steps[n];
      assert last in steps && forall s :: s in steps[..n] ==> s in steps;
      StrokeWhole(valves, steps[..n], stops[..n], valve);
      StrokeWhole(valves, steps[..n], stops[..n], last.valve);
      StrokeLast(valves, steps, stops);
      NormalFormValid(steps[..n], last.valve);
      var before := Stroking(valves, steps[..n], stops[..n]).valves;
      ThenMoves(NormalForm(steps[..n], last.valve), valves[last.valve].position, before[last.valve], last.action,
                last.delta);
    }
  }

  /**
   * For non-negative deltas the effect of any step list on one valve is one clamp computed from that valve's own
   * steps; the list never leaves the range, and it ends early only where a receipt fails.
   */
  lemma {:induction false} StrokeNormalForm<K>(
      valves: map<K, ValveState>, steps: seq<Step<K>>, stops: seq<Stop>, valve: K)
    requires |stops| == |steps| && forall s :: s in steps ==> s.valve in valves
    requires Regular(steps) && valve in valves && forall k :: k in valves ==> InRange(valves[k].position)
    ensures var d := Stroking(valves, steps, stops); var c := NormalForm(steps[..Moved(stops)], valve);
            && c.Valid() && d.valves.Keys == valves.Keys
            && d.valves[valve].position == c.At(valves[valve].position)
            && d.outcome == (if forall i :: 0 <= i < |stops| ==> Kept(stops[i]) then Done else Err(StoreFailed))
  {
    var n := Moved(stops);
    var moved, ended := steps[..n], stops[..n];
    assert forall s :: s in moved ==> s in steps;
    NormalFormValid(moved, valve);
    MovedAllIff(stops);
    assert forall i :: 0 <= i < |ended| - 1 ==> Kept(ended[i]) by { StrokeStops(valves, steps, stops); }
    StrokeWhole(valves, moved, ended, valve);
    assert Stroking(valves, steps, stops) == Stroking(valves, moved, ended) by { StrokeStops(valves, steps, stops); }
  }

  /** Where one step takes a valve in range, and what it leaves of the valve. */
  lemma {:induction false} MovingLaw(v: ValveState, action: Action, delta: real)
    requires InRange(v.position) && delta >= 0.0
    ensures var (after, outcome) := Moving(v, action, delta);
            && after.id == v.id
            && (action.Unknown? ==> after == v && outcome == Err(UnknownAction))
            && (!action.Unknown? ==> outcome.Ok? && after.last == action)
            && (action == Open ==> after.position == if v.position + delta >= 1.0 then 1.0 else v.position + delta)
            && (action == Close ==> after.position == if v.position - delta <= 0.0 then 0.0 else v.position - delta)
  {
  }

  /** The receipt of a stroke of this valve that ended at this position. */
  predicate StrokeReceipt(record: ExecutionRecord, id: string, action: Action, position: real) {
    && record.commandId == "stroke" && record.target == id && record.result == PositionText(position)
    && (action == Open ==> record.action == "open")
    && (action == Close ==> record.action == "close")
  }

  /** Where a step's valve stands after that step, by the clamp of its steps so far. */
  function Reached<K(==)>(valves: map<K, ValveState>, steps: seq<Step<K>>, i: nat): real
    requires i < |steps| && steps[i].valve in valves
  {
    NormalForm(steps[..i + 1], steps[i].valve).At(valves[steps[i].valve].position)
  }

  lemma {:induction false} SteppingWrites<K>(valves: map<K, ValveState>, step: Step<K>, stop: Stop)
    requires step.valve in valves && InRange(valves[step.valve].position) && step.delta >= 0.0 && !step.action.Unknown?
    ensures var s := Stepping(valves, step, stop);
            && s.valves.Keys == valves.Keys && s.valves[step.valve].id == valves[step.valve].id
            && (forall k :: k in valves && k != step.valve ==> s.valves[k] == valves[k])
            && |s.wrote| == 1 && s.wrote[0].stop == stop
            && StrokeReceipt(s.wrote[0].record, valves[step.valve].id, step.action, s.valves[step.valve].position)
  {
  }

  /** The receipt of the `i`-th step, at the position its valve has reached by then. */
  predicate AsMoved<K(==)>(
      valves: map<K, ValveState>, steps: seq<Step<K>>, stops: seq<Stop>, w: Write<ExecutionRecord>, i: nat)
    requires i < |stops| == |steps| && steps[i].valve in valves
  {
    && w.stop == stops[i]
    && StrokeReceipt(w.record, valves[steps[i].valve].id, steps[i].action, Reached(valves, steps, i))
  }

  predicate WritesAsMoved<K(==)>(
      valves: map<K, ValveState>, steps: seq<Step<K>>, stops: seq<Stop>, wrote: seq<Write<ExecutionRecord>>)
    requires |stops| == |steps|
  {
    && |wrote| == |steps| && (forall i :: 0 <= i < |steps| ==> steps[i].valve in valves)
    && forall i :: 0 <= i < |steps| ==> AsMoved(valves, steps, stops, wrote[i], i)
  }

  /** Later steps do not matter. */
  lemma {:induction false} AsMovedBefore<K>(
      valves: map<K, ValveState>, steps: seq<Step<K>>, stops: seq<Stop>, w: Write<ExecutionRecord>, n: nat, i: nat)
    requires i < n <= |stops| == |steps| && steps[i].valve in valves
    ensures AsMoved(valves, steps, stops, w, i) <==> AsMoved(valves, steps[..n], stops[..n], w, i)
  {
    assert steps[..n][..i + 1] == steps[..i + 1] && steps[..n][i] == steps[i];
  }

  lemma {:induction false} WritesExtend<K>(
      valves: map<K, ValveState>, steps: seq<Step<K>>, stops: seq<Stop>, wrote: seq<Write<ExecutionRecord>>,
      w: Write<ExecutionRecord>)
    requires |stops| == |steps| > 0 && steps[|steps| - 1].valve in valves
    requires WritesAsMoved(valves, steps[..|steps| - 1], stops[..|steps| - 1], wrote)
    requires AsMoved(valves, steps, stops, w, |steps| - 1)
    ensures WritesAsMoved(valves, steps, stops, wrote + [w])
  {
    var n := |steps| - 1;
    forall i | 0 <= i < n ensures steps[i].valve in valves && AsMoved(valves, steps, stops, (wrote + [w])[i], i) {
      assert steps[..n][i] == steps[i] && (wrote + [w])[i] == wrote[i];
      AsMovedBefore(valves, steps, stops, wrote[i], n, i);
    }
  }

  /** The last step's receipt names the position its valve has reached. */
  lemma {:induction false} LastReceipt<K>(valves: map<K, ValveState>, steps: seq<Step<K>>, stops: seq<Stop>)
    requires |stops| == |steps| > 0 && forall s :: s in steps ==> s.valve in valves
    requires Regular(steps) && forall k :: k in valves ==> InRange(valves[k].position)
    requires forall i :: 0 <= i < |stops| - 1 ==> Kept(stops[i])
    ensures var n := |steps| - 1;
            var init := Stroking(valves, steps[..n], stops[..n]);
            var wrote := Stroking(valves, steps, stops).wrote;
            && steps[n].valve in valves && |wrote| == |init.wrote| + 1 && wrote == init.wrote + [wrote[|init.wrote|]]
            && AsMoved(valves, steps, stops, wrote[|init.wrote|], n)
  {
    var n := |steps| - 1;
    var last := steps[n];
    assert last in steps && forall s :: s in steps[..n] ==> s in steps;
    var init := Stroking(valves, steps[..n], stops[..n]);
    assert init.outcome.Ok? && InRange(init.valves[last.valve].position) by {
      StrokeWhole(valves, steps[..n], stops[..n], last.valve);
      NormalFormValid(steps[..n], last.valve);
    }
    assert init.valves[last.valve].id == valves[last.valve].id by { StrokingKeepsIds(valves, steps[..n], stops[..n]); }
    var s := Stepping(init.valves, last, stops[n]);
    assert Stroking(valves, steps, stops) == Following(init.wrote, s) by { StrokeLast(valves, steps, stops); }
    assert s.valves[last.valve].position == Reached(valves, steps, n) by {
      assert steps[..n + 1] == steps;
      StrokeWhole(valves, steps, stops, last.valve);
    }
    SteppingWrites(init.valves, last, stops[n]);
    assert s.wrote == [s.wrote[0]] && (init.wrote + s.wrote)[|init.wrote|] == s.wrote[0];
  }

  lemma {:induction false} ReceiptsAsMoved<K>(valves: map<K, ValveState>, steps: seq<Step<K>>, stops: seq<Stop>)
    requires |stops| == |steps| && forall s :: s in steps ==> s.valve in valves
    requires Regular(steps) && forall k :: k in valves ==> InRange(valves[k].position)
    requires forall i :: 0 <= i < |stops| - 1 ==> Kept(stops[i])
    ensures WritesAsMoved(valves, steps, stops, Stroking(valves, steps, stops).wrote)
    decreases |steps|
  {
    if steps != [] {
      var n := |steps| - 1;
      assert forall s :: s in steps[..n] ==> s in steps;
      ReceiptsAsMoved(valves, steps[..n], stops[..n]);
      LastReceipt(valves, steps, stops);
      var init, wrote := Stroking(valves, steps[..n], stops[..n]).wrote, Stroking(valves, steps, stops).wrote;
      WritesExtend(valves, steps, stops, init, wrote[|init|]);
    }
  }

  /** One receipt per step that moves, in order, each with its valve, its action and the position reached. */
  lemma {:induction false} StrokesWriteReceipts<K>(valves: map<K, ValveState>, steps: seq<Step<K>>, stops: seq<Stop>)
    requires |stops| == |steps| && forall s :: s in steps ==> s.valve in valves
    requires Regular(steps) && forall k :: k in valves ==> InRange(valves[k].position)
    ensures var n := Moved(stops);
            WritesAsMoved(valves, steps[..n], stops[..n], Stroking(valves, steps, stops).wrote)
  {
    var n := Moved(stops);
    StrokeStops(valves, steps, stops);
    assert forall s :: s in steps[..n] ==> s in steps;
    ReceiptsAsMoved(valves, steps[..n], stops[..n]);
  }

  /** The image of a clamp is [lo, hi]; it never reverses two positions nor moves them apart. */
  lemma {:induction false} ClampIsMonotoneAndNonExpansive(c: Clamp, x: real, y: real)
    requires c.Valid() && InRange(x) && InRange(y) && x <= y
    ensures c.lo <= c.At(x) <= c.At(y) <= c.hi
    ensures c.At(y) - c.At(x) <= y - x
  {
  }

  /** Once a step of at least 1 occurs the result no longer depends on where the valve started. */
  lemma {:induction false} FullStrokeForgetsStart<K>(steps: seq<Step<K>>, valve: K, x: real, y: real)
    requires Regular(steps) && exists s :: s in steps && s.valve == valve && s.delta >= 1.0
    ensures NormalForm(steps, valve).At(x) == NormalForm(steps, valve).At(y)
    ensures NormalForm(steps, valve).lo == NormalForm(steps, valve).hi
  {
    var n := |steps| - 1;
    assert steps == steps[..n] + [steps[n]];
    NormalFormValid(steps, valve);
    NormalFormValid(steps[..n], valve);
    if !(steps[n].valve == valve && steps[n].delta >= 1.0) {
      FullStrokeForgetsStart(steps[..n], valve, x, y);
    }
  }

  /** A supported step stays in range from every position exactly when its delta is not negative. */
  lemma {:induction false} StepNeverFailsIff(action: Action, delta: real)
    requires !action.Unknown?
    ensures (forall v: ValveState :: InRange(v.position) ==> Moving(v, action, delta).1 == Done) <==> delta >= 0.0
  {
    if delta < 0.0 {
      var v := ValveState("", if action == Open then 0.0 else 1.0, action);
      assert InRange(v.position) && Moving(v, action, delta).1 != Done;
    }
  }
}
