/** The console's sequence numbers and the step order of one control cycle. */
module Consoles {
  import opened Results
  import opened PumpState
  import opened PumpGroup
  import opened PumpSafety
  import opened PumpLaws
  import opened Stations
  import opened Files
  import opened Logs
  import opened Readings
  import opened Quotas
  import R = Receipts
  import S = Sessions

  class Server {
    var seqno: int

    constructor ()
      ensures seqno == 0
    {
      seqno := 0;
    }

    /** Dispatch numbers 1, 2, ..., each handed out once. */
    method NextSeq() returns (n: int)
      modifies this
      ensures n == old(seqno) + 1 == seqno
    {
      seqno := seqno + 1;
      n := seqno;
    }
  }

  /** One sample per valve until one fails; each has its own instant, and `stops` says where each append ends. */
  function SamplingEach(
      used: map<string, int>, limit: int, zones: map<string, string>, valves: seq<string>, nows: seq<int>,
      stops: seq<Stop>)
    : Sampled<()>
    requires |nows| == |stops| == |valves|
    decreases |valves|
  {
    if valves == [] then Sampled(used, [], Done)
    else
      var first := Sampling(used, limit, zones, valves[0], 0.40, 10.0, nows[0], stops[0]);
      if first.result.Err? then Sampled(first.used, first.wrote, Err(first.result.error))
      else Following(first.wrote, SamplingEach(first.used, limit, zones, valves[1..], nows[1..], stops[1..]))
  }

  lemma {:induction false} EachUnrolls(
      used: map<string, int>, limit: int, zones: map<string, string>, valves: seq<string>, nows: seq<int>,
      stops: seq<Stop>, i: nat)
    requires |nows| == |stops| == |valves| && i < |valves|
    ensures var first := Sampling(used, limit, zones, valves[i], 0.40, 10.0, nows[i], stops[i]);
            SamplingEach(used, limit, zones, valves[i..], nows[i..], stops[i..])
            == if first.result.Err? then Sampled(first.used, first.wrote, Err(first.result.error))
               else Following(first.wrote, SamplingEach(first.used, limit, zones, valves[i + 1..], nows[i + 1..],
                                                        stops[i + 1..]))
  {
    assert valves[i..][1..] == valves[i + 1..] && nows[i..][1..] == nows[i + 1..] && stops[i..][1..] == stops[i + 1..];
  }

  method SampleValves(sampler: Sampler, valves: seq<string>, nows: seq<int>, stops: seq<Stop>) returns (r: Outcome)
    requires |nows| == |stops| == |valves|
    modifies sampler.ledger`used, sampler.agg.log.store
    ensures var log := sampler.agg.log;
            var s := SamplingEach(old(sampler.ledger.used), sampler.ledger.limit, sampler.zones, valves, nows, stops);
            && sampler.ledger.used == s.used && r == s.result
            && log.Data() == Grown(log.codec, old(log.Data()), s.wrote)
            && OnlyChanged(old(log.store.files), log.store.files, log.path)
  {
    var log := sampler.agg.log;
    ghost var goal := SamplingEach(sampler.ledger.used, sampler.ledger.limit, sampler.zones, valves, nows, stops);
    ghost var wrote: seq<Write<ReadingRecord>> := [];
    assert valves[0..] == valves && nows[0..] == nows && stops[0..] == stops;
    FollowingBoth([], [], goal);
    for i := 0 to |valves|
      invariant Following(wrote, SamplingEach(sampler.ledger.used, sampler.ledger.limit, sampler.zones, valves[i..],
                                              nows[i..], stops[i..]))
                == goal
      invariant log.Data() == Grown(log.codec, old(log.Data()), wrote)
      invariant OnlyChanged(old(log.store.files), log.store.files, log.path)
    {
      EachUnrolls(sampler.ledger.used, sampler.ledger.limit, sampler.zones, valves, nows, stops, i);
      ghost var s := Sampling(sampler.ledger.used, sampler.ledger.limit, sampler.zones, valves[i], 0.40, 10.0,
                              nows[i], stops[i]);
      var sampled := sampler.SampleAfter(valves[i], Reading("", valves[i], 0.40, 10.0, nows[i]), stops[i],
                                         old(log.Data()), wrote);
      if sampled.Err? { return Err(sampled.error); }
      FollowingBoth(wrote, s.wrote, SamplingEach(s.used, sampler.ledger.limit, sampler.zones, valves[i + 1..],
                                                 nows[i + 1..], stops[i + 1..]));
      wrote := wrote + s.wrote;
    }
    assert valves[|valves|..] == [] && wrote + [] == wrote;
    r := Done;
  }

  // What the samples of a cycle write.

  /** Append `i` is the row of valve `i` at its own instant. */
  predicate RowInTurn(
      zones: map<string, string>, valves: seq<string>, nows: seq<int>, stops: seq<Stop>,
      wrote: seq<Write<ReadingRecord>>, i: nat)
    requires i < |nows| == |stops| == |valves| && i < |wrote|
  {
    wrote[i].stop == stops[i] && SampleRow(wrote[i].record, zones, valves[i], 0.40, 10.0, nows[i])
  }

  /** Successful appends of the first valves' rows, then at most one failed one. */
  predicate RowPerValve(
      zones: map<string, string>, valves: seq<string>, nows: seq<int>, stops: seq<Stop>,
      wrote: seq<Write<ReadingRecord>>)
    requires |nows| == |stops| == |valves|
  {
    && FailsLast(wrote, |Records(wrote)|) && |wrote| <= |valves|
    && forall i :: 0 <= i < |wrote| ==> RowInTurn(zones, valves, nows, stops, wrote, i)
  }

  /** After these rows the next valve has no zone, or its zone has no quota left; only then is no row tried for it. */
  predicate StopsFor(error: Error, used: map<string, int>, limit: int, zones: map<string, string>, valve: string) {
    if !Attributed(zones, valve) then error == NoZone
    else error == QuotaExceeded && Usage(used, zones[valve]) >= limit
  }

  lemma {:induction false} RowsFromHead(w: Write<ReadingRecord>, wrote: seq<Write<ReadingRecord>>, zone: string)
    ensures Rows([w] + wrote, zone) == Rows(wrote, zone) + if Kept(w.stop) && w.record.zone == zone then 1 else 0
  {
    if wrote == [] {
      RowsMore([], w, zone);
      assert [] + [w] == [w] + wrote;
    } else {
      var n := |wrote| - 1;
      RowsFromHead(w, wrote[..n], zone);
      assert ([w] + wrote)[..n + 1] == [w] + wrote[..n] && ([w] + wrote)[n + 1] == wrote[n];
    }
  }

  lemma {:induction false} RowsInTurnFromHead(
      zones: map<string, string>, valves: seq<string>, nows: seq<int>, stops: seq<Stop>, w: Write<ReadingRecord>,
      wrote: seq<Write<ReadingRecord>>)
    requires |nows| == |stops| == |valves| > 0 && Kept(w.stop)
    requires RowInTurn(zones, valves, nows, stops, [w], 0)
    requires RowPerValve(zones, valves[1..], nows[1..], stops[1..], wrote)
    ensures RowPerValve(zones, valves, nows, stops, [w] + wrote)
    ensures |Records([w] + wrote)| == 1 + |Records(wrote)|
  {
    RecordsFromHead(w, wrote, |Records(wrote)|);
    var all := [w] + wrote;
    forall i | 0 <= i < |all| ensures RowInTurn(zones, valves, nows, stops, all, i) {
      if i > 0 {
        assert RowInTurn(zones, valves[1..], nows[1..], stops[1..], wrote, i - 1) && all[i] == wrote[i - 1];
      }
    }
  }

  /** One row per valve until the first failure, and success exactly when every valve has its row. */
  lemma {:induction false} EachRowLaw(
      used: map<string, int>, limit: int, zones: map<string, string>, valves: seq<string>, nows: seq<int>,
      stops: seq<Stop>)
    requires |nows| == |stops| == |valves| && forall z :: Usage(used, z) >= 0
    ensures var s := SamplingEach(used, limit, zones, valves, nows, stops);
            && RowPerValve(zones, valves, nows, stops, s.wrote)
            && (s.result.Ok? <==> |Records(s.wrote)| == |valves|)
    decreases |valves|
  {
    if valves != [] {
      SampleLaw(used, limit, zones, valves[0], 0.40, 10.0, nows[0], stops[0]);
      var first := Sampling(used, limit, zones, valves[0], 0.40, 10.0, nows[0], stops[0]);
      if first.result.Ok? {
        EachRowLaw(first.used, limit, zones, valves[1..], nows[1..], stops[1..]);
        var rest := SamplingEach(first.used, limit, zones, valves[1..], nows[1..], stops[1..]);
        assert first.wrote == [first.wrote[0]];
        RowsInTurnFromHead(zones, valves, nows, stops, first.wrote[0], rest.wrote);
      }
    }
  }

  /** Each zone's usage grows by its rows. */
  lemma {:induction false} EachUsageLaw(
      used: map<string, int>, limit: int, zones: map<string, string>, valves: seq<string>, nows: seq<int>,
      stops: seq<Stop>, zone: string)
    requires |nows| == |stops| == |valves| && forall z :: Usage(used, z) >= 0
    ensures var s := SamplingEach(used, limit, zones, valves, nows, stops);
            Usage(s.used, zone) == Usage(used, zone) + Rows(s.wrote, zone)
    decreases |valves|
  {
    if valves != [] {
      SampleLaw(used, limit, zones, valves[0], 0.40, 10.0, nows[0], stops[0]);
      var first := Sampling(used, limit, zones, valves[0], 0.40, 10.0, nows[0], stops[0]);
      if first.wrote != [] {
        assert first.wrote == [first.wrote[0]] + [];
        RowsFromHead(first.wrote[0], [], zone);
      }
      if first.result.Ok? {
        EachUsageLaw(first.used, limit, zones, valves[1..], nows[1..], stops[1..], zone);
        RowsFromHead(first.wrote[0], SamplingEach(first.used, limit, zones, valves[1..], nows[1..], stops[1..]).wrote,
                     zone);
      }
    }
  }

  /** Why sampling ended early, and that no row is tried beyond the quota. */
  lemma {:induction false} EachStopsLaw(
      used: map<string, int>, limit: int, zones: map<string, string>, valves: seq<string>, nows: seq<int>,
      stops: seq<Stop>)
    requires |nows| == |stops| == |valves| && forall z :: Usage(used, z) >= 0
    ensures var s := SamplingEach(used, limit, zones, valves, nows, stops); var n := |Records(s.wrote)|;
            && n <= |s.wrote|
            && (s.result.Err? && |s.wrote| > n ==> s.result.error == StoreFailed)
            && (s.result.Err? && |s.wrote| == n ==>
                  n < |valves| && StopsFor(s.result.error, s.used, limit, zones, valves[n]))
    decreases |valves|
  {
    if valves != [] {
      SampleLaw(used, limit, zones, valves[0], 0.40, 10.0, nows[0], stops[0]);
      var first := Sampling(used, limit, zones, valves[0], 0.40, 10.0, nows[0], stops[0]);
      if first.result.Ok? {
        EachStopsLaw(first.used, limit, zones, valves[1..], nows[1..], stops[1..]);
        var rest := SamplingEach(first.used, limit, zones, valves[1..], nows[1..], stops[1..]);
        assert first.wrote == [first.wrote[0]];
        RecordsFromHead(first.wrote[0], rest.wrote, |Records(rest.wrote)|);
      }
    }
  }

  /** The row of valve `i` is tried only while its zone has quota left. */
  lemma {:induction false} EachQuotaLaw(
      used: map<string, int>, limit: int, zones: map<string, string>, valves: seq<string>, nows: seq<int>,
      stops: seq<Stop>, i: nat)
    requires |nows| == |stops| == |valves| && forall z :: Usage(used, z) >= 0
    requires i < |SamplingEach(used, limit, zones, valves, nows, stops).wrote| && i < |valves|
    ensures var wrote := SamplingEach(used, limit, zones, valves, nows, stops).wrote;
            Attributed(zones, valves[i]) && Usage(used, zones[valves[i]]) + Rows(wrote[..i], zones[valves[i]]) < limit
    decreases |valves|
  {
    SampleLaw(used, limit, zones, valves[0], 0.40, 10.0, nows[0], stops[0]);
    var first := Sampling(used, limit, zones, valves[0], 0.40, 10.0, nows[0], stops[0]);
    if i > 0 {
      var rest := SamplingEach(first.used, limit, zones, valves[1..], nows[1..], stops[1..]);
      EachQuotaLaw(first.used, limit, zones, valves[1..], nows[1..], stops[1..], i - 1);
      assert first.wrote == [first.wrote[0]] && ([first.wrote[0]] + rest.wrote)[..i]
                                                == [first.wrote[0]] + rest.wrote[..i - 1];
      RowsFromHead(first.wrote[0], rest.wrote[..i - 1], zones[valves[i]]);
    }
  }

  /** What the saves and the evaluation of one cycle return, where its appends end, and the day a rollover reads. */
  datatype Outside = Outside(
    stationSaved: Outcome, rolloverDay: string, samples: seq<Stop>, evaluated: Outcome, receipt: Stop,
    snapshotSaved: Outcome)

  /** What follows failover: the group, the receipts written and what the cycle returns. */
  datatype Acted = Acted(group: GroupState, receipts: seq<Write<R.ExecutionRecord>>, outcome: Outcome)

  /** After failover: evaluate, send the decided command, save a snapshot; the first error ends it. */
  function Acting(switched: Change, decision: Option<Command>, outside: Outside): Acted {
    if switched.outcome.Err? then Acted(switched.state, [], switched.outcome)
    else if outside.evaluated.Err? then Acted(switched.state, [], outside.evaluated)
    else if decision.None? then Acted(switched.state, [], outside.snapshotSaved)
    else
      var change := Applying(switched.state, decision.value);
      if change.outcome.Err? then Acted(change.state, [], change.outcome)
      else Acted(change.state, [Write(S.ReceiptOf(decision.value), outside.receipt)],
                 if Kept(outside.receipt) then outside.snapshotSaved else Err(StoreFailed))
  }

  /** The ledger and the appends of sampling in one cycle, and its outcome. */
  datatype Gathered = Gathered(ledger: LedgerState, wrote: seq<Write<ReadingRecord>>, result: Outcome)

  /** Nothing when the refresh failed; on a new day an empty ledger first, for which the clock is read once more. */
  function Gathering(
      ledger: LedgerState, today: string, zones: map<string, string>, valves: seq<string>, nows: seq<int>,
      outside: Outside): Gathered
    requires |nows| == |outside.samples| == |valves|
  {
    if outside.stationSaved.Err? then Gathered(ledger, [], outside.stationSaved)
    else
      var open := if ledger.window != today then LedgerState(map[], ledger.limit, outside.rolloverDay) else ledger;
      var s := SamplingEach(open.used, open.limit, zones, valves, nows, outside.samples);
      Gathered(open.(used := s.used), s.wrote, s.result)
  }

  /** The steps of a cycle before failover: they leave a fresh cache and touch no pump. */
  method Prepare(
      station: Station, sampler: Sampler, valves: seq<string>, nows: seq<int>, today: string, outside: Outside)
    returns (r: Outcome)
    requires |nows| == |outside.samples| == |valves|
    modifies station`cached, sampler.ledger, sampler.agg.log.store
    ensures station.cached == LiveView(old(States(station.groups)))
    ensures var log, ledger := sampler.agg.log, sampler.ledger;
            var s := Gathering(old(ledger.State()), today, sampler.zones, valves, nows, outside);
            && ledger.State() == s.ledger && r == s.result
            && log.Data() == Grown(log.codec, old(log.Data()), s.wrote)
            && OnlyChanged(old(log.store.files), log.store.files, log.path)
  {
    ghost var live, data := LiveView(States(station.groups)), sampler.agg.log.Data();
    r := station.Refresh(outside.stationSaved);
    assert station.cached == live && sampler.agg.log.Data() == data;
    if r.Err? { return; }
    if sampler.ledger.window != today { sampler.ledger.Rollover(outside.rolloverDay); }
    r := SampleValves(sampler, valves, nows, outside.samples);
  }

  /** The same, seen from a group and the receipt log: both stay as they are. */
  method PrepareApart(
      station: Station, sampler: Sampler, valves: seq<string>, nows: seq<int>, today: string, outside: Outside,
                      ghost group: Group, ghost receipts: RecordLog<R.ExecutionRecord>)
    returns (r: Outcome)
    requires |nows| == |outside.samples| == |valves| && receipts.path != sampler.agg.log.path
    modifies station`cached, sampler.ledger, sampler.agg.log.store
    ensures group.State() == old(group.State()) && receipts.Data() == old(receipts.Data())
    ensures station.cached == LiveView(old(States(station.groups)))
    ensures var log, ledger := sampler.agg.log, sampler.ledger;
            var s := Gathering(old(ledger.State()), today, sampler.zones, valves, nows, outside);
            && ledger.State() == s.ledger && r == s.result
            && log.Data() == Grown(log.codec, old(log.Data()), s.wrote)
  {
    ghost var disk := receipts.store.files;
    r := Prepare(station, sampler, valves, nows, today, outside);
    if receipts.store == sampler.agg.log.store {
      OtherFileKept(disk, receipts.store.files, sampler.agg.log.path, receipts.path);
    }
  }

  /** Failover on the cache, known to do what `switched` says. */
  method SwitchOver(station: Station, group: Group, ghost switched: Change) returns (r: Outcome)
    requires group.Valid() && FailingOver(group.State(), station.cached) == switched
    modifies group, group.units
    ensures group.Valid() && group.units == old(group.units)
    ensures Change(group.State(), r) == switched
  {
    var active := station.Failover(group);
    r := if active.Ok? then Done else Err(active.error);
  }

  /** The remaining steps of a cycle. */
  method Act(station: Station, group: Group, exec: S.Executor, decision: Option<Command>, outside: Outside,
             ghost switched: Change, ghost readings: RecordLog<ReadingRecord>)
    returns (r: Outcome)
    requires group.Valid() && FailingOver(group.State(), station.cached) == switched
    requires exec.receipts.path != readings.path
    modifies group, group.units, exec, exec.receipts.store
    ensures readings.Data() == old(readings.Data())
    ensures var log := exec.receipts; var end := Acting(switched, decision, outside);
            && group.State() == end.group && r == end.outcome
            && log.Data() == Grown(log.codec, old(log.Data()), end.receipts)
            && OnlyChanged(old(log.store.files), log.store.files, log.path)
  {
    ghost var data, disk := exec.receipts.Data(), readings.store.files;
    r := SwitchOver(station, group, switched);
    assert exec.receipts.Data() == data;
    if r.Err? { return; }
    if outside.evaluated.Err? { return outside.evaluated; }
    if decision.Some? {
      r := exec.Apply(decision.value, group, outside.receipt);
      if readings.store == exec.receipts.store {
        OtherFileKept(disk, readings.store.files, exec.receipts.path, readings.path);
      }
      if r.Err? { return; }
    }
    r := outside.snapshotSaved;
  }

  /** What a cycle does to the scheduled group and the receipt log, with failover on the live statuses of the group. */
  function Cycling(s: GroupState, gathered: Gathered, decision: Option<Command>, outside: Outside): Acted {
    if gathered.result.Err? then Acted(s, [], gathered.result) else Acting(FailingOverLive(s), decision, outside)
  }

  /**
   * The decided command is sent to the group that live failover left, and exactly its receipt is written; nothing is
   * sent or written when a step before it fails, when the group refuses it, or when none was decided. The cycle
   * succeeds exactly when every step does.
   */
  lemma {:induction false} CycleLaw(s: GroupState, gathered: Gathered, decision: Option<Command>, outside: Outside)
    ensures var live := FailingOverLive(s); var r := Cycling(s, gathered, decision, outside);
            var reached := gathered.result.Ok? && live.outcome.Ok? && outside.evaluated.Ok?;
            && (gathered.result.Err? ==> r == Acted(s, [], gathered.result))
            && (gathered.result.Ok? && live.outcome.Err? ==> r == Acted(s, [], Err(NoHealthyUnit)))
            && (gathered.result.Ok? && live.outcome.Ok? && outside.evaluated.Err? ==>
                  r == Acted(live.state, [], outside.evaluated))
            && (reached && decision.None? ==> r == Acted(live.state, [], outside.snapshotSaved))
            && (reached && decision.Some? ==> Sends(live.state, decision.value, outside, r))
            && (r.outcome.Ok? <==>
                && reached && outside.snapshotSaved.Ok?
                && (decision.Some? ==> Applying(live.state, decision.value).outcome.Ok? && Kept(outside.receipt)))
  {
    FailoverLaw(s, Statuses(s.units));
    if decision.Some? { CommandLaw(FailingOverLive(s).state, decision.value); }
  }

  /** `r` is what sending this command to this group does, and then saving a snapshot. */
  predicate Sends(s: GroupState, command: Command, outside: Outside, r: Acted) {
    var sent := Applying(s, command);
    if sent.outcome.Err? then r == Acted(s, [], sent.outcome)
    else
      && r.group == sent.state
      && |r.receipts| == 1 && r.receipts[0].stop == outside.receipt && S.StandsFor(r.receipts[0].record, command)
      && r.outcome == if Kept(outside.receipt) then outside.snapshotSaved else Err(StoreFailed)
  }

  /**
   * The quota rolls over exactly on a new day, then each valve gets one row in turn and its zone's usage counts it;
   * the first failure ends this, and nothing happens when the station was not saved.
   */
  lemma {:induction false} GatheringLaw(
      ledger: LedgerState, today: string, zones: map<string, string>, valves: seq<string>, nows: seq<int>,
      outside: Outside)
    requires |nows| == |outside.samples| == |valves| && forall z :: Usage(ledger.used, z) >= 0
    ensures var g := Gathering(ledger, today, zones, valves, nows, outside); var n := |Records(g.wrote)|;
            && (outside.stationSaved.Err? ==> g == Gathered(ledger, [], outside.stationSaved))
            && (outside.stationSaved.Ok? ==>
                  && g.ledger.limit == ledger.limit
                  && (ledger.window == today ==> g.ledger.window == today)
                  && (ledger.window != today ==> g.ledger.window == outside.rolloverDay)
                  && (forall z ::
                        Usage(g.ledger.used, z)
                        == (if ledger.window == today then Usage(ledger.used, z) else 0) + Rows(g.wrote, z))
                  && RowPerValve(zones, valves, nows, outside.samples, g.wrote)
                  && (g.result.Ok? <==> n == |valves|)
                  && (g.result.Err? && |g.wrote| > n ==> g.result.error == StoreFailed)
                  && (g.result.Err? && |g.wrote| == n ==>
                        n < |valves| && StopsFor(g.result.error, g.ledger.used, ledger.limit, zones, valves[n])))
  {
    var used := if ledger.window != today then map[] else ledger.used;
    assert forall z :: Usage(used, z) == if ledger.window == today then Usage(ledger.used, z) else 0;
    EachRowLaw(used, ledger.limit, zones, valves, nows, outside.samples);
    EachStopsLaw(used, ledger.limit, zones, valves, nows, outside.samples);
    var s := SamplingEach(used, ledger.limit, zones, valves, nows, outside.samples);
    forall z ensures Usage(s.used, z) == Usage(used, z) + Rows(s.wrote, z) {
      EachUsageLaw(used, ledger.limit, zones, valves, nows, outside.samples, z);
    }
  }

  /**
   * One cycle: refresh the cache, roll the quota over on a new day, sample, fail over, evaluate, send the decided
   * command, save a snapshot; the first error ends it with what was done before it. Because the refresh comes first
   * and nothing in between touches a pump, failover on the cache is failover on the live statuses.
   */
  method Tick(station: Station, group: Group, sampler: Sampler, exec: S.Executor,
              valves: seq<string>, nows: seq<int>, today: string, decision: Option<Command>, outside: Outside)
    returns (r: Outcome)
    requires group.Valid() && group in station.groups && DistinctIds(group.State())
    requires SharedIdsAgree(States(station.groups))
    requires |nows| == |outside.samples| == |valves| && exec.receipts.path != sampler.agg.log.path
    modifies station`cached, group, group.units, sampler.ledger, sampler.agg.log.store, exec, exec.receipts.store
    ensures station.cached == LiveView(old(States(station.groups)))
    ensures var readings, receipts, ledger := sampler.agg.log, exec.receipts, sampler.ledger;
            var gathered := Gathering(old(ledger.State()), today, sampler.zones, valves, nows, outside);
            var end := Cycling(old(group.State()), gathered, decision, outside);
            && group.State() == end.group && ledger.State() == gathered.ledger && r == end.outcome
            && readings.Data() == Grown(readings.codec, old(readings.Data()), gathered.wrote)
            && receipts.Data() == Grown(receipts.codec, old(receipts.Data()), end.receipts)
  {
    FreshCacheIsLive(station.groups, group);
    ghost var switched := FailingOverLive(group.State());
    r := Cycle(station, group, sampler, exec, valves, nows, today, decision, outside, switched);
  }

  /** The same, with failover known to do what `switched` says on the refreshed cache. */
  method Cycle(station: Station, group: Group, sampler: Sampler, exec: S.Executor,
               valves: seq<string>, nows: seq<int>, today: string, decision: Option<Command>, outside: Outside,
               ghost switched: Change)
    returns (r: Outcome)
    requires group.Valid() && FailingOver(group.State(), LiveView(States(station.groups))) == switched
    requires |nows| == |outside.samples| == |valves|
    requires exec.receipts.path != sampler.agg.log.path
    modifies station`cached, group, group.units, sampler.ledger, sampler.agg.log.store, exec, exec.receipts.store
    ensures station.cached == LiveView(old(States(station.groups)))
    ensures var readings, receipts, ledger := sampler.agg.log, exec.receipts, sampler.ledger;
            var gathered := Gathering(old(ledger.State()), today, sampler.zones, valves, nows, outside);
            var end := if gathered.result.Err? then Acted(old(group.State()), [], gathered.result)
                       else Acting(switched, decision, outside);
            && group.State() == end.group && ledger.State() == gathered.ledger && r == end.outcome
            && readings.Data() == Grown(readings.codec, old(readings.Data()), gathered.wrote)
            && receipts.Data() == Grown(receipts.codec, old(receipts.Data()), end.receipts)
  {
    ghost var data, live := exec.receipts.Data(), LiveView(States(station.groups));
    r := PrepareApart(station, sampler, valves, nows, today, outside, group, exec.receipts);
    assert station.cached == live;
    if r.Err? { return; }
    ghost var ledger := sampler.ledger.State();
    r := Act(station, group, exec, decision, outside, switched, sampler.agg.log);
    assert station.cached == live && sampler.ledger.State() == ledger;
  }

  /** Failover of an attached group on a cache just refreshed is the live failover. */
  lemma {:induction false} FreshCacheIsLive(groups: seq<Group>, group: Group)
    requires group in groups && SharedIdsAgree(States(groups)) && DistinctIds(group.State())
    ensures FailingOver(group.State(), LiveView(States(groups))) == FailingOverLive(group.State())
  {
    var i :| 0 <= i < |groups| && groups[i] == group;
    assert States(groups)[i] == group.State();
    LiveViewCoherentIff(States(groups));
    CoherentViewIsLive(States(groups), LiveView(States(groups)), group.State());
  }
}
