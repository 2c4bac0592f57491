/**
 * Cumulative flow per meter: lifetime totals, segment bases and directions, against the history of flow and switches.
 */
module Cumulatives {
  import opened Results
  import Strings

  const FORWARD := "forward"
  const REVERSE := "reverse"

  datatype Flows = Flows(totals: map<string, real>, bases: map<string, real>, directions: map<string, string>)

  const EMPTY := Flows(map[], map[], map[])

  /** Reading a missing key of a Go map yields zero or the empty string. */
  function Amount(m: map<string, real>, id: string): real {
    if id in m then m[id] else 0.0
  }

  function Direction(f: Flows, id: string): string {
    if id in f.directions then f.directions[id] else ""
  }

  function Total(f: Flows, id: string): Result<real> {
    if id in f.totals then Ok(f.totals[id]) else Err(NotFound)
  }

  function SegmentTotal(f: Flows, id: string): Result<real> {
    if id in f.totals then Ok(f.totals[id] - Amount(f.bases, id)) else Err(NotFound)
  }

  function AddingFlow(f: Flows, id: string, delta: real): (Flows, Outcome) {
    if delta < 0.0 then (f, Err(NegativeDelta))
    else
      (Flows(f.totals[id := Amount(f.totals, id) + delta], f.bases,
             if Direction(f, id) == "" then f.directions[id := FORWARD] else f.directions), Done)
  }

  function Switching(f: Flows, id: string, direction: string): (Flows, Outcome) {
    if direction != FORWARD && direction != REVERSE then (f, Err(UnsupportedDirection))
    else if id !in f.totals then (f, Err(NotFound))
    else (Flows(f.totals, f.bases[id := f.totals[id]], f.directions[id := direction]), Done)
  }

  datatype Record = Record(meter: string, base: real, total: real, direction: string)

  function RecordOf(f: Flows, id: string): Record {
    Record(id, Amount(f.bases, id), Amount(f.totals, id), Direction(f, id))
  }

  /** One record per meter with a total, by ascending id. */
  ghost predicate IsSaveOf(records: seq<Record>, f: Flows) {
    && (forall i :: 0 <= i < |records| ==> records[i].meter in f.totals && records[i] == RecordOf(f, records[i].meter))
    && (forall id :: id in f.totals ==> RecordOf(f, id) in records)
    && (forall i, j :: 0 <= i < j < |records| ==> Strings.AtMost(records[i].meter, records[j].meter))
  }

  /** Each record overwrites its meter's entries; later records win. */
  function Loading(f: Flows, records: seq<Record>): Flows {
    if records == [] then f
    else
      var g := Loading(f, records[..|records| - 1]);
      var r := records[|records| - 1];
      Flows(g.totals[r.meter := r.total], g.bases[r.meter := r.base], g.directions[r.meter := r.direction])
  }

  class CumulativeLedger {
    var totals: map<string, real>
    var bases: map<string, real>
    var directions: map<string, string>

    function State(): Flows
      reads this
    {
      Flows(totals, bases, directions)
    }

    constructor ()
      ensures State() == EMPTY
    {
      totals, bases, directions := map[], map[], map[];
    }

    method Add(id: string, delta: real)
      modifies this
      ensures delta >= 0.0 ==> State() == AddingFlow(old(State()), id, delta).0
      ensures totals == old(totals)[id := Amount(old(totals), id) + delta] && bases == old(bases)
    {
      totals := totals[id := Amount(totals, id) + delta];
      if (if id in directions then directions[id] else "") == "" { directions := directions[id := FORWARD]; }
    }

    /** A meter's flow delta; negative ones are rejected before they reach the ledger. */
    method AddFlow(id: string, delta: real) returns (r: Outcome)
      modifies this
      ensures (State(), r) == AddingFlow(old(State()), id, delta)
    {
      if delta < 0.0 { return Err(NegativeDelta); }
      Add(id, delta);
      r := Done;
    }

    method SwitchBase(id: string) returns (r: Outcome)
      modifies this`bases
      ensures r == if id in totals then Done else Err(NotFound)
      ensures bases == if id in totals then old(bases)[id := totals[id]] else old(bases)
    {
      if id !in totals { return Err(NotFound); }
      bases := bases[id := totals[id]];
      r := Done;
    }

    method SetDirection(id: string, direction: string)
      modifies this`directions
      ensures directions == old(directions)[id := direction]
    {
      directions := directions[id := direction];
    }

    method SwitchDirection(id: string, direction: string) returns (r: Outcome)
      modifies this
      ensures (State(), r) == Switching(old(State()), id, direction)
    {
      if direction != FORWARD && direction != REVERSE { return Err(UnsupportedDirection); }
      r := SwitchBase(id);
      if r.Err? { return; }
      SetDirection(id, direction);
    }

    /** The records written to the store. */
    method Save() returns (records: seq<Record>)
      ensures IsSaveOf(records, State())
    {
      var ids := Strings.SortedMembers(totals.Keys);
      records := [];
      for i := 0 to |ids|
        invariant |records| == i && forall j :: 0 <= j < i ==> records[j] == RecordOf(State(), ids[j])
      {
        assert ids[i] in ids;
        records := records + [Record(ids[i], Amount(bases, ids[i]), totals[ids[i]],
                                     if ids[i] in directions then directions[ids[i]] else "")];
      }
      forall id | id in totals ensures RecordOf(State(), id) in records {
        assert id in ids;
        var j :| 0 <= j < |ids| && ids[j] == id;
        assert records[j] == RecordOf(State(), id);
      }
      forall i | 0 <= i < |records| ensures records[i].meter in totals {
        assert ids[i] in ids;
      }
    }

    method Load(records: seq<Record>)
      modifies this
      ensures State() == Loading(old(State()), records)
    {
      for i := 0 to |records|
        invariant State() == Loading(old(State()), records[..i])
      {
        assert records[..i + 1][..i] == records[..i];
        var r := records[i];
        totals := totals[r.meter := r.total];
        bases := bases[r.meter := r.base];
        directions := directions[r.meter := r.direction];
      }
      assert records[..|records|] == records;
    }
  }

  // Saving and loading.

  lemma {:induction false} LoadedMeter(f: Flows, records: seq<Record>, r: Record)
    requires r in records && forall q :: q in records && q.meter == r.meter ==> q == r
    ensures var g := Loading(f, records);
            && r.meter in g.totals && g.totals[r.meter] == r.total
            && Amount(g.bases, r.meter) == r.base && Direction(g, r.meter) == r.direction
  {
    var n := |records| - 1;
    assert records == records[..n] + [records[n]];
    if records[n].meter != r.meter { LoadedMeter(f, records[..n], r); }
  }

  lemma {:induction false} UntouchedMeter(f: Flows, records: seq<Record>, id: string)
    requires forall r :: r in records ==> r.meter != id
    ensures SameAnswers(Loading(f, records), f, id)
  {
    if records != [] {
      var n := |records| - 1;
      assert records[n] in records;
      UntouchedMeter(f, records[..n], id);
    }
  }

  /** Every answer the ledger gives about a meter. */
  predicate SameAnswers(f: Flows, g: Flows, id: string) {
    Total(f, id) == Total(g, id) && SegmentTotal(f, id) == SegmentTotal(g, id) && Direction(f, id) == Direction(g, id)
  }

  ghost predicate SameEverywhere(f: Flows, g: Flows) {
    forall id :: SameAnswers(f, g, id)
  }

  /** Only meters with a total have a direction. */
  ghost predicate DirectedHaveTotals(f: Flows) {
    forall id :: Direction(f, id) != "" ==> id in f.totals
  }

  /**
   * Saving and loading into an empty ledger preserves every answer exactly when only meters with a total have a
   * direction.
   */
  lemma {:induction false} SaveLoadRoundTripIff(f: Flows, records: seq<Record>)
    requires IsSaveOf(records, f)
    ensures SameEverywhere(Loading(EMPTY, records), f) <==> DirectedHaveTotals(f)
  {
    var g := Loading(EMPTY, records);
    forall id ensures SameAnswers(g, f, id) <==> (Direction(f, id) != "" ==> id in f.totals) {
      if id in f.totals {
        LoadedMeter(EMPTY, records, RecordOf(f, id));
      } else {
        UntouchedMeter(EMPTY, records, id);
      }
    }
  }

  // Whole histories.

  datatype Event = Flow(meter: string, delta: real) | Switch(meter: string, direction: string)

  function Do(f: Flows, event: Event): (Flows, Outcome) {
    match event
    case Flow(id, delta) => AddingFlow(f, id, delta)
    case Switch(id, direction) => Switching(f, id, direction)
  }

  function After(events: seq<Event>): Flows {
    if events == [] then EMPTY else Do(After(events[..|events| - 1]), events[|events| - 1]).0
  }

  predicate Counts(event: Event, id: string) {
    event.Flow? && event.meter == id && event.delta >= 0.0
  }

  /** A flow of this meter was accepted before. */
  predicate Known(events: seq<Event>, id: string) {
    exists e :: e in events && Counts(e, id)
  }

  /** A switch of a meter succeeds when the direction is one of the two and the meter has a total. */
  predicate SwitchesWhen(known: bool, event: Event, id: string) {
    event.Switch? && event.meter == id && (event.direction == FORWARD || event.direction == REVERSE) && known
  }

  predicate Switches(events: seq<Event>, event: Event, id: string) {
    SwitchesWhen(Known(events, id), event, id)
  }

  /** The sum of the accepted deltas since the last successful switch. */
  function Current(events: seq<Event>, id: string): real {
    if events == [] then 0.0
    else
      var before, e := events[..|events| - 1], events[|events| - 1];
      if Switches(before, e, id) then 0.0
      else Current(before, id) + if Counts(e, id) then e.delta else 0.0
  }

  /** The sums of the segments that successful switches closed, oldest first. */
  function Closed(events: seq<Event>, id: string): seq<real> {
    if events == [] then []
    else
      var before, e := events[..|events| - 1], events[|events| - 1];
      Closed(before, id) + if Switches(before, e, id) then [Current(before, id)] else []
  }

  function Sum(amounts: seq<real>): real {
    if amounts == [] then 0.0 else Sum(amounts[..|amounts| - 1]) + amounts[|amounts| - 1]
  }

  /** The direction of the last successful switch, or forward once flow was accepted. */
  function Facing(events: seq<Event>, id: string): string {
    if events == [] then ""
    else
      var before, e := events[..|events| - 1], events[|events| - 1];
      if Switches(before, e, id) then e.direction
      else if Counts(e, id) && Facing(before, id) == "" then FORWARD
      else Facing(before, id)
  }

  lemma {:induction false} ClosedStep(before: seq<Event>, e: Event, id: string)
    ensures Sum(Closed(before + [e], id))
            == Sum(Closed(before, id)) + if Switches(before, e, id) then Current(before, id) else 0.0
  {
    var events := before + [e];
    assert events[..|events| - 1] == before;
    var closed := Closed(events, id);
    if Switches(before, e, id) {
      assert closed[..|closed| - 1] == Closed(before, id);
    } else {
      assert closed == Closed(before, id);
    }
  }

  lemma {:induction false} HistoryStep(before: seq<Event>, e: Event, id: string)
    ensures var events := before + [e];
            && After(events) == Do(After(before), e).0
            && (Known(events, id) <==> Known(before, id) || Counts(e, id))
            && Current(events, id) == (if Switches(before, e, id) then 0.0
                                       else Current(before, id) + if Counts(e, id) then e.delta else 0.0)
            && Facing(events, id) == (if Switches(before, e, id) then e.direction
                                      else if Counts(e, id) && Facing(before, id) == "" then FORWARD
                                      else Facing(before, id))
  {
    var events := before + [e];
    assert events[..|events| - 1] == before;
  }

  /** What the ledger says of a meter is what the history says. */
  predicate Agrees(f: Flows, known: bool, closed: real, current: real, facing: string, id: string) {
    && (id in f.totals <==> known)
    && (known ==> Total(f, id) == Ok(closed + current) && SegmentTotal(f, id) == Ok(current))
    && (!known ==> closed == 0.0 && current == 0.0)
    && Amount(f.bases, id) == closed && 0.0 <= closed <= closed + current
    && Direction(f, id) == facing
    && (id in f.bases || facing != "" ==> id in f.totals)
  }

  /** What the history says of a meter. */
  datatype Account = Account(known: bool, closed: real, current: real, facing: string)

  predicate AgreesWith(f: Flows, a: Account, id: string) {
    Agrees(f, a.known, a.closed, a.current, a.facing, id)
  }

  /** How one more event changes what the history says. */
  function AccountAfter(a: Account, e: Event, id: string): Account {
    var switched := SwitchesWhen(a.known, e, id);
    Account(
      a.known || Counts(e, id),
      a.closed + if switched then a.current else 0.0,
      if switched then 0.0 else a.current + if Counts(e, id) then e.delta else 0.0,
      if switched then e.direction else if Counts(e, id) && a.facing == "" then FORWARD else a.facing)
  }

  lemma {:induction false} AgreesStep(f: Flows, a: Account, e: Event, id: string)
    requires AgreesWith(f, a, id)
    ensures AgreesWith(Do(f, e).0, AccountAfter(a, e, id), id)
  {
  }

  function AccountOf(events: seq<Event>, id: string): Account {
    Account(Known(events, id), Sum(Closed(events, id)), Current(events, id), Facing(events, id))
  }

  lemma {:induction false} AccountMore(before: seq<Event>, e: Event, id: string)
    ensures AccountOf(before + [e], id) == AccountAfter(AccountOf(before, id), e, id)
    ensures After(before + [e]) == Do(After(before), e).0
  {
    HistoryStep(before, e, id);
    ClosedStep(before, e, id);
  }

  lemma {:induction false} HistoryAgrees(events: seq<Event>, id: string)
    ensures AgreesWith(After(events), AccountOf(events, id), id)
  {
    if events != [] {
      var before, e := events[..|events| - 1], events[|events| - 1];
      HistoryAgrees(before, id);
      assert events == before + [e];
      assert After(events) == Do(After(before), e).0 && AccountOf(events, id) == AccountAfter(AccountOf(before, id),
          e, id) by {
        AccountMore(before, e, id);
      }
      AgreesStep(After(before), AccountOf(before, id), e, id);
    }
  }

  /**
   * Over every history the lifetime total is the closed segments plus the current one, the segment total is the
   * current one, the base is the closed segments, and bases and directions only exist for meters with a total.
   */
  lemma {:induction false} FlowConserved(events: seq<Event>, id: string)
    ensures Agrees(After(events), Known(events, id), Sum(Closed(events, id)), Current(events, id), Facing(events, id),
                   id)
  {
    HistoryAgrees(events, id);
  }

  /** What is saved of a meter after any history: its closed segments, its lifetime and its direction. */
  lemma {:induction false} SavedRecordLaw(events: seq<Event>, records: seq<Record>, r: Record)
    requires IsSaveOf(records, After(events)) && r in records
    ensures Known(events, r.meter)
    ensures r.base == Sum(Closed(events, r.meter))
    ensures r.total == Sum(Closed(events, r.meter)) + Current(events, r.meter)
    ensures r.direction == Facing(events, r.meter)
  {
    FlowConserved(events, r.meter);
  }

  /** Loading gives a meter what its record says. */
  lemma {:induction false} LoadedRecordLaw(f: Flows, r: Record)
    ensures var g := Loading(f, [r]);
            && Total(g, r.meter) == Ok(r.total) && SegmentTotal(g, r.meter) == Ok(r.total - r.base)
            && Direction(g, r.meter) == r.direction
            && forall id :: id != r.meter ==> SameAnswers(g, f, id)
  {
    assert [r][..0] == [];
  }

  /** Records loaded one list after the other. */
  lemma {:induction false} LoadedInTurn(f: Flows, a: seq<Record>, b: seq<Record>)
    ensures Loading(f, a + b) == Loading(Loading(f, a), b)
    decreases |b|
  {
    if b == [] {
      assert a + b == a;
    } else {
      var n := |b| - 1;
      assert (a + b)[..|a| + n] == a + b[..n] && (a + b)[|a| + n] == b[n];
      LoadedInTurn(f, a, b[..n]);
    }
  }

  /** The first flow faces a meter forward; a switch needs one of the two names and a meter that has had flow. */
  lemma {:induction false} DirectionLaw(f: Flows, id: string, delta: real, direction: string)
    ensures var (g, outcome) := AddingFlow(f, id, delta);
            && (delta < 0.0 ==> g == f && outcome == Err(NegativeDelta))
            && (delta >= 0.0 ==>
                  && outcome.Ok?
                  && Direction(g, id) == if Direction(f, id) == "" then "forward" else Direction(f, id))
    ensures var (g, outcome) := Switching(f, id, direction);
            var named := direction == "forward" || direction == "reverse";
            && (!named ==> outcome == Err(UnsupportedDirection))
            && (named && Total(f, id).Err? ==> outcome == Err(NotFound))
            && (named && Total(f, id).Ok? ==> outcome.Ok? && Direction(g, id) == direction)
            && (outcome.Err? ==> g == f)
  {
  }

  /** After any history, saving and loading into an empty ledger preserves every answer. */
  lemma {:induction false} HistorySurvivesSaveLoad(events: seq<Event>, records: seq<Record>)
    requires IsSaveOf(records, After(events))
    ensures SameEverywhere(Loading(EMPTY, records), After(events))
  {
    SaveLoadRoundTripIff(After(events), records);
    forall id | Direction(After(events), id) != "" ensures id in After(events).totals {
      FlowConserved(events, id);
    }
  }
}
