/** The water-hammer gate: one admitted closure per valve, under every interleaving of close requests. */
module Gates {
  import opened Results
  import opened Files
  import opened Logs
  import opened Valves

  function Flag(m: map<string, bool>, id: string): bool {
    id in m && m[id]
  }

  function Tally(m: map<string, int>, id: string): int {
    if id in m then m[id] else 0
  }

  class Guard {
    var engaged: map<string, bool>
    var closes: map<string, int>

    constructor ()
      ensures engaged == map[] && closes == map[]
    {
      engaged, closes := map[], map[];
    }

    /** Engages the gate; true for the one call that found it open. */
    method Protect(valve: string) returns (admitted: bool)
      modifies this
      ensures admitted == !Flag(old(engaged), valve)
      ensures engaged == if admitted then old(engaged)[valve := true] else old(engaged)
      ensures closes == if admitted then old(closes)[valve := Tally(old(closes), valve) + 1] else old(closes)
    {
      if Flag(engaged, valve) { return false; }
      engaged := engaged[valve := true];
      closes := closes[valve := Tally(closes, valve) + 1];
      admitted := true;
    }

    method CloseCount(valve: string) returns (n: int)
      ensures n == Tally(closes, valve)
    {
      n := Tally(closes, valve);
    }

    method IsEngaged(valve: string) returns (on: bool)
      ensures on == Flag(engaged, valve)
    {
      on := Flag(engaged, valve);
    }

    method Release(valve: string)
      modifies this`engaged
      ensures engaged == old(engaged) - {valve}
    {
      engaged := engaged - {valve};
    }
  }

  /** Whether a command is turned away before it moves anything. */
  function Refusal(engaged: map<string, bool>, id: string, action: Action): Outcome {
    if action.Unknown? then Err(UnknownAction)
    else if action == Close && Flag(engaged, id) then Err(ProtectionEngaged)
    else Done
  }

  /** Only a close is turned away for the gate, and only while it is engaged. */
  lemma {:induction false} RefusalLaw(engaged: map<string, bool>, id: string, action: Action)
    ensures var r := Refusal(engaged, id, action);
            && (action.Unknown? ==> r == Err(UnknownAction))
            && (action == Open ==> r.Ok?)
            && (action == Close ==> if id in engaged && engaged[id] then r == Err(ProtectionEngaged) else r.Ok?)
  {
  }

  /**
   * One valve command. A close needs the gate; a close that was admitted leaves it engaged, whether or not
   * the stroke succeeds.
   */
  method Execute(v: Valve, action: Action, guard: Guard, executor: Executor, stop: Stop) returns (r: Outcome)
    modifies v, guard, executor.log.store
    ensures var refusal := Refusal(old(guard.engaged), v.id, action);
            var (after, outcome) := Moving(old(v.State()), action, 1.0);
            if refusal.Err? then
              r == refusal && v.State() == old(v.State()) && executor.log.Data() == old(executor.log.Data())
            else
              && v.State() == after && r == (if outcome.Err? || Kept(stop) then outcome else Err(StoreFailed))
              && executor.log.Data()
                 == Grown(executor.log.codec, old(executor.log.Data()), if outcome.Ok?
                          then [Write(ReceiptOf(after), stop)] else [])
    ensures var admitted := action == Close && !Flag(old(guard.engaged), v.id);
            && guard.engaged == (if admitted then old(guard.engaged)[v.id := true] else old(guard.engaged))
            && guard.closes == (if admitted then old(guard.closes)[v.id := Tally(old(guard.closes), v.id) + 1]
                                else old(guard.closes))
    ensures OnlyChanged(old(executor.log.store.files), executor.log.store.files, executor.log.path)
  {
    if action != Close && action != Open { return Err(UnknownAction); }
    if action == Close {
      var admitted := guard.Protect(v.id);
      if !admitted { return Err(ProtectionEngaged); }
    }
    r := executor.StrokeWholly(v, action, stop);
  }

  /** The gate after a close request that, once admitted, succeeds or fails on the way to its release. */
  function Closing(
      engaged: map<string, bool>, closes: map<string, int>, id: string, ok: bool)
    : (map<string, bool>, map<string, int>)
  {
    if Flag(engaged, id) then (engaged, closes)
    else (if ok then engaged[id := true] - {id} else engaged[id := true], closes[id := Tally(closes, id) + 1])
  }

  /** A refused request leaves the gate alone; an admitted one is counted, and leaves it engaged exactly on failure. */
  lemma {:induction false} ClosingLaw(engaged: map<string, bool>, closes: map<string, int>, id: string, ok: bool)
    ensures var (e, c) := Closing(engaged, closes, id, ok);
            && (Flag(engaged, id) ==> e == engaged && c == closes)
            && (!Flag(engaged, id) ==>
                  && Flag(e, id) == !ok && Tally(c, id) == Tally(closes, id) + 1
                  && forall other :: other != id ==>
                       Flag(e, other) == Flag(engaged, other) && Tally(c, other) == Tally(closes, other))
  {
  }

  // Close requests running at once: enter the gate, stroke, record the peak, release.

  /** `Abandoned` is a request whose stroke or peak record failed: it ended without releasing the gate. */
  datatype Phase = Waiting | Admitted | Stroked | Peaked | Released | Rejected | Abandoned

  datatype World = World(engaged: map<string, bool>, closes: map<string, int>, released: map<string, int>,
                         phases: seq<Phase>)

  datatype Event =
    | Enter(request: nat)
    | Stroke(request: nat, ok: bool)
    | Peak(request: nat, ok: bool)
    | Leave(request: nat)

  predicate Enabled(w: World, e: Event) {
    e.request < |w.phases| &&
    match e
    case Enter(t) => w.phases[t] == Waiting
    case Stroke(t, _) => w.phases[t] == Admitted
    case Peak(t, _) => w.phases[t] == Stroked
    case Leave(t) => w.phases[t] == Peaked
  }

  /** One step; request `t` closes valve `valves[t]`. */
  function Next(w: World, valves: seq<string>, e: Event): World
    requires |w.phases| == |valves| && Enabled(w, e)
  {
    match e
    case Enter(t) =>
      if Flag(w.engaged, valves[t]) then w.(phases := w.phases[t := Rejected])
      else w.(engaged := w.engaged[valves[t] := true], closes := w.closes[valves[t] := Tally(w.closes, valves[t]) + 1],
              phases := w.phases[t := Admitted])
    case Stroke(t, ok) => w.(phases := w.phases[t := if ok then Stroked else Abandoned])
    case Peak(t, ok) => w.(phases := w.phases[t := if ok then Peaked else Abandoned])
    case Leave(t) =>
      w.(engaged := w.engaged - {valves[t]}, released := w.released[valves[t] := Tally(w.released, valves[t]) + 1],
         phases := w.phases[t := Released])
  }

  /** The world after these events from fresh requests, if each was enabled in turn. */
  function Run(valves: seq<string>, events: seq<Event>): (w: Option<World>)
    ensures w.Some? ==> |w.value.phases| == |valves|
  {
    if events == [] then Some(World(map[], map[], map[], seq(|valves|, _ => Waiting)))
    else
      var before := Run(valves, events[..|events| - 1]);
      var e := events[|events| - 1];
      if before.None? || !Enabled(before.value, e) then None else Some(Next(before.value, valves, e))
  }

  /** One request alone, from the gate to its end. */
  function Alone(w: World, valves: seq<string>, t: nat, strokeOk: bool, peakOk: bool): World
    requires |w.phases| == |valves| && Enabled(w, Enter(t))
  {
    var entered := Next(w, valves, Enter(t));
    if !Enabled(entered, Stroke(t, strokeOk)) then entered
    else
      var stroked := Next(entered, valves, Stroke(t, strokeOk));
      if !Enabled(stroked, Peak(t, peakOk)) then stroked
      else
        var peaked := Next(stroked, valves, Peak(t, peakOk));
        if Enabled(peaked, Leave(t)) then Next(peaked, valves, Leave(t)) else peaked
  }

  /** Run alone through the steps, a close request leaves the gate as `Closing` says. */
  lemma {:induction false} AloneIsClosing(w: World, valves: seq<string>, t: nat, strokeOk: bool, peakOk: bool)
    requires |w.phases| == |valves| && Enabled(w, Enter(t))
    ensures var end := Alone(w, valves, t, strokeOk, peakOk);
            && (end.engaged, end.closes) == Closing(w.engaged, w.closes, valves[t], strokeOk && peakOk)
            && end.phases[t] == (if Flag(w.engaged, valves[t]) then Rejected else if strokeOk && peakOk then Released
                                 else Abandoned)
  {
  }

  /** Admitted and not released, including requests that failed on the way. */
  predicate Outstanding(phase: Phase) {
    phase == Admitted || phase == Stroked || phase == Peaked || phase == Abandoned
  }

  predicate Holds(w: World, valves: seq<string>, t: int)
    requires |w.phases| == |valves|
  {
    0 <= t < |valves| && Outstanding(w.phases[t])
  }

  ghost predicate HeldFor(w: World, valves: seq<string>, id: string)
    requires |w.phases| == |valves|
  {
    exists t :: Holds(w, valves, t) && valves[t] == id
  }

  /** At most one outstanding close per valve; the gate is engaged exactly when there is one. */
  ghost predicate OneClosePerValve(w: World, valves: seq<string>)
    requires |w.phases| == |valves|
  {
    && (forall t, u :: Holds(w, valves, t) && Holds(w, valves, u) && valves[t] == valves[u] ==> t == u)
    && (forall id :: Flag(w.engaged, id) <==> HeldFor(w, valves, id))
  }

  /** Admitted closes are the released ones, plus one exactly when the gate is engaged. */
  ghost predicate ClosesBalance(w: World) {
    forall id :: Tally(w.closes, id) == Tally(w.released, id) + if Flag(w.engaged, id) then 1 else 0
  }

  /** When request `t` alone changes phase, a valve is held by `t` or by whoever else held it before. */
  lemma {:induction false} HeldAfter(w: World, n: World, valves: seq<string>, t: nat, id: string)
    requires |w.phases| == |valves| == |n.phases| && t < |valves| && n.phases == w.phases[t := n.phases[t]]
    ensures HeldFor(n, valves, id)
            <==> (Outstanding(n.phases[t]) && valves[t] == id)
                 || exists u :: u != t && Holds(w, valves, u) && valves[u] == id
  {
    if HeldFor(n, valves, id) {
      var u :| Holds(n, valves, u) && valves[u] == id;
      assert u != t ==> Holds(w, valves, u);
    }
    if Outstanding(n.phases[t]) && valves[t] == id { assert Holds(n, valves, t); }
    if u :| u != t && Holds(w, valves, u) && valves[u] == id { assert Holds(n, valves, u); }
  }

  lemma {:induction false} StepKeepsGate(w: World, valves: seq<string>, e: Event)
    requires |w.phases| == |valves| && Enabled(w, e) && OneClosePerValve(w, valves) && ClosesBalance(w)
    ensures OneClosePerValve(Next(w, valves, e), valves) && ClosesBalance(Next(w, valves, e))
  {
    var n := Next(w, valves, e);
    var t := e.request;
    assert forall u :: u != t ==> (Holds(n, valves, u) <==> Holds(w, valves, u));
    assert Holds(w, valves, t) <==> !e.Enter?;
    assert !e.Enter? ==> HeldFor(w, valves, valves[t]);
    forall id ensures Flag(n.engaged, id) <==> HeldFor(n, valves, id) {
      HeldAfter(w, n, valves, t, id);
      HeldAfter(w, w, valves, t, id);
    }
    forall id ensures Tally(n.closes, id) == Tally(n.released, id) + if Flag(n.engaged, id) then 1 else 0 {
      assert Tally(w.closes, id) == Tally(w.released, id) + if Flag(w.engaged, id) then 1 else 0;
    }
  }

  /**
   * In every interleaving, with failures anywhere, the gate admits one close per valve at a time and the counts
   * balance.
   */
  lemma {:induction false} GateSafe(valves: seq<string>, events: seq<Event>)
    requires Run(valves, events).Some?
    ensures OneClosePerValve(Run(valves, events).value, valves) && ClosesBalance(Run(valves, events).value)
  {
    if events == [] {
      var w := Run(valves, events).value;
      assert forall t :: !Holds(w, valves, t);
      assert forall id :: !Flag(w.engaged, id) && Tally(w.closes, id) == Tally(w.released, id) == 0;
    } else {
      var before := events[..|events| - 1];
      GateSafe(valves, before);
      StepKeepsGate(Run(valves, before).value, valves, events[|events| - 1]);
    }
  }

  /** Once a close of a valve was abandoned, no run that goes on ever admits another close of that valve. */
  lemma {:induction false} AbandonedCloseBlocksValve(valves: seq<string>, events: seq<Event>, more: seq<Event>, t: nat)
    requires Run(valves, events + more).Some? && Run(valves, events).Some? && t < |valves|
    requires Run(valves, events).value.phases[t] == Abandoned
    ensures var w := Run(valves, events + more).value;
            && w.phases[t] == Abandoned && Flag(w.engaged, valves[t])
            && Tally(w.closes, valves[t]) == Tally(Run(valves, events).value.closes, valves[t])
  {
    var all := events + more;
    GateSafe(valves, all);
    if more == [] {
      assert all == events;
    } else {
      assert all[..|all| - 1] == events + more[..|more| - 1];
      AbandonedCloseBlocksValve(valves, events, more[..|more| - 1], t);
    }
    assert Holds(Run(valves, all).value, valves, t);
  }
}
