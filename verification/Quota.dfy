/** The sampling quota, the sampler that reserves from it before it appends a row, and interleaved samplers. */
module Quotas {
  import opened Results
  import opened Lines
  import opened Files
  import opened Snapshots
  import opened Logs
  import opened Readings

  /** Usage of a zone; a missing zone has used nothing. */
  function Usage(used: map<string, int>, zone: string): int {
    if zone in used then used[zone] else 0
  }

  function Reserving(used: map<string, int>, limit: int, zone: string, n: int): (map<string, int>, Outcome) {
    if Usage(used, zone) + n > limit then (used, Err(QuotaExceeded)) else (used[zone := Usage(used, zone) + n], Done)
  }

  function Returning(used: map<string, int>, zone: string, n: int): map<string, int> {
    used[zone := if Usage(used, zone) >= n then Usage(used, zone) - n else 0]
  }

  datatype LedgerState = LedgerState(used: map<string, int>, limit: int, window: string)

  class Ledger {
    var used: map<string, int>
    var limit: int
    var window: string

    function State(): LedgerState
      reads this
    {
      LedgerState(used, limit, window)
    }

    constructor (limit: int)
      ensures used == map[] && this.limit == limit && window == "current"
    {
      used, this.limit, window := map[], limit, "current";
    }

    method TryConsume(zone: string, n: int) returns (r: Outcome)
      modifies this`used
      ensures (used, r) == Reserving(old(used), limit, zone, n)
    {
      if Usage(used, zone) + n > limit { return Err(QuotaExceeded); }
      used := used[zone := Usage(used, zone) + n];
      r := Done;
    }

    method Release(zone: string, n: int)
      modifies this`used
      ensures used == Returning(old(used), zone, n)
    {
      if Usage(used, zone) >= n {
        used := used[zone := Usage(used, zone) - n];
      } else {
        used := used[zone := 0];
      }
    }

    method Rollover(today: string)
      modifies this
      ensures used == map[] && window == today && limit == old(limit)
    {
      used, window := map[], today;
    }

    /** What the zone can still reserve one by one: exactly this many reservations of one sample succeed. */
    method Remaining(zone: string) returns (remaining: int)
      ensures remaining >= 0
      ensures forall n :: n > 0 ==> (n <= remaining <==> Reserving(used, limit, zone, n).1.Ok?)
    {
      remaining := limit - Usage(used, zone);
      if remaining < 0 { remaining := 0; }
    }
  }

  datatype Reading = Reading(zone: string, valve: string, mpa: real, flow: real, at: int)

  /** What sampling changes: usage, the appends it made to the readings log, and what it returned. */
  datatype Sampled<R> = Sampled(used: map<string, int>, wrote: seq<Write<ReadingRecord>>, result: Result<R>)

  function RowOf(r: Reading): ReadingRecord {
    ReadingRecord(r.zone, SlotOf(r.at), r.valve, r.mpa, r.flow, Some(r.at))
  }

  /** Attribution, reservation, append, and release of the reservation when the append fails. */
  function Sampling(
      used: map<string, int>, limit: int, zones: map<string, string>, valve: string, mpa: real, flow: real, at: int,
      stop: Stop)
    : Sampled<Reading>
  {
    var zone := if valve in zones then zones[valve] else "";
    if zone == "" then Sampled(used, [], Err(NoZone))
    else
      var (reserved, outcome) := Reserving(used, limit, zone, 1);
      if outcome.Err? then Sampled(used, [], Err(outcome.error))
      else
        var reading := Reading(zone, valve, mpa, flow, at);
        var wrote := [Write(RowOf(reading), stop)];
        if Kept(stop) then Sampled(reserved, wrote, Ok(reading))
        else Sampled(Returning(reserved, zone, 1), wrote, Err(StoreFailed))
  }

  /** Readings one after the other until one fails; `stops` says where each append ends. */
  function SamplingAll(
      used: map<string, int>, limit: int, zones: map<string, string>, valve: string, readings: seq<Reading>,
      stops: seq<Stop>)
    : Sampled<()>
    requires |stops| == |readings|
    decreases |readings|
  {
    if readings == [] then Sampled(used, [], Done)
    else
      var first := Sampling(used, limit, zones, valve, readings[0].mpa, readings[0].flow, readings[0].at, stops[0]);
      if first.result.Err? then Sampled(first.used, first.wrote, Err(first.result.error))
      else Following(first.wrote, SamplingAll(first.used, limit, zones, valve, readings[1..], stops[1..]))
  }

  /** The same, after earlier appends. */
  function Following<R>(earlier: seq<Write<ReadingRecord>>, s: Sampled<R>): Sampled<R> {
    s.(wrote := earlier + s.wrote)
  }

  lemma {:induction false} FollowingBoth<R>(a: seq<Write<ReadingRecord>>, b: seq<Write<ReadingRecord>>, s: Sampled<R>)
    ensures Following(a, Following(b, s)) == Following(a + b, s) && Following([], s) == s
  {
    assert a + (b + s.wrote) == a + b + s.wrote && [] + s.wrote == s.wrote;
  }

  lemma {:induction false} BatchUnrolls(
      used: map<string, int>, limit: int, zones: map<string, string>, valve: string, readings: seq<Reading>,
      stops: seq<Stop>, i: nat)
    requires |stops| == |readings| && i < |readings|
    ensures var s := Sampling(used, limit, zones, valve, readings[i].mpa, readings[i].flow, readings[i].at, stops[i]);
            SamplingAll(used, limit, zones, valve, readings[i..], stops[i..])
            == if s.result.Err? then Sampled(s.used, s.wrote, Err(s.result.error))
               else Following(s.wrote, SamplingAll(s.used, limit, zones, valve, readings[i + 1..], stops[i + 1..]))
  {
    assert readings[i..][1..] == readings[i + 1..] && stops[i..][1..] == stops[i + 1..];
  }

  class Sampler {
    var zones: map<string, string>
    const agg: WindowAggregator
    const ledger: Ledger

    constructor (zones: map<string, string>, agg: WindowAggregator, ledger: Ledger)
      ensures this.zones == zones && this.agg == agg && this.ledger == ledger
    {
      this.zones, this.agg, this.ledger := zones, agg, ledger;
    }

    method Sample(valve: string, mpa: real, flow: real, at: int, stop: Stop) returns (r: Result<Reading>)
      modifies ledger`used, agg.log.store
      ensures var s := Sampling(old(ledger.used), ledger.limit, zones, valve, mpa, flow, at, stop);
              && ledger.used == s.used && r == s.result
              && agg.log.Data() == Grown(agg.log.codec, old(agg.log.Data()), s.wrote)
      ensures OnlyChanged(old(agg.log.store.files), agg.log.store.files, agg.log.path)
    {
      ghost var data := agg.log.Data();
      var zone := if valve in zones then zones[valve] else "";
      if zone == "" { return Err(NoZone); }
      var reserved := ledger.TryConsume(zone, 1);
      if reserved.Err? { return Err(reserved.error); }
      assert agg.log.Data() == data;
      var reading := Reading(zone, valve, mpa, flow, at);
      var row := ReadingRecord(zone, SlotOf(at), valve, mpa, flow, Some(at));
      var appended := agg.Append(row, stop);
      if appended.Err? {
        ledger.Release(zone, 1);
        return Err(appended.error);
      }
      r := Ok(reading);
    }

    /** `Sample` in a batch, after the appends `wrote` on a log that held `data`. */
    method SampleAfter(
        valve: string, reading: Reading, stop: Stop, ghost data: Bytes, ghost wrote: seq<Write<ReadingRecord>>)
      returns (r: Result<Reading>)
      requires agg.log.Data() == Grown(agg.log.codec, data, wrote)
      modifies ledger`used, agg.log.store
      ensures var s := Sampling(old(ledger.used), ledger.limit, zones, valve, reading.mpa, reading.flow, reading.at,
                                stop);
              && ledger.used == s.used && r == s.result
              && agg.log.Data() == Grown(agg.log.codec, data, wrote + s.wrote)
      ensures OnlyChanged(old(agg.log.store.files), agg.log.store.files, agg.log.path)
    {
      ghost var s := Sampling(ledger.used, ledger.limit, zones, valve, reading.mpa, reading.flow, reading.at, stop);
      r := Sample(valve, reading.mpa, reading.flow, reading.at, stop);
      GrownConcat(agg.log.codec, data, wrote, s.wrote);
    }

    /** The count is 0 on an error, although the rows before it stay. */
    method SampleBatch(valve: string, readings: seq<Reading>, stops: seq<Stop>) returns (count: nat, r: Outcome)
      requires |stops| == |readings|
      modifies ledger`used, agg.log.store
      ensures var s := SamplingAll(old(ledger.used), ledger.limit, zones, valve, readings, stops);
              && ledger.used == s.used && r == s.result
              && agg.log.Data() == Grown(agg.log.codec, old(agg.log.Data()), s.wrote)
      ensures count == if r.Ok? then |readings| else 0
      ensures OnlyChanged(old(agg.log.store.files), agg.log.store.files, agg.log.path)
    {
      ghost var goal := SamplingAll(ledger.used, ledger.limit, zones, valve, readings, stops);
      ghost var wrote: seq<Write<ReadingRecord>> := [];
      assert readings[0..] == readings && stops[0..] == stops;
      FollowingBoth([], [], goal);
      for i := 0 to |readings|
        invariant Following(wrote, SamplingAll(ledger.used, ledger.limit, zones, valve, readings[i..], stops[i..]))
            == goal
        invariant agg.log.Data() == Grown(agg.log.codec, old(agg.log.Data()), wrote)
        invariant OnlyChanged(old(agg.log.store.files), agg.log.store.files, agg.log.path)
      {
        BatchUnrolls(ledger.used, ledger.limit, zones, valve, readings, stops, i);
        ghost var s := Sampling(ledger.used, ledger.limit, zones, valve, readings[i].mpa, readings[i].flow,
                                readings[i].at, stops[i]);
        var sampled := SampleAfter(valve, readings[i], stops[i], old(agg.log.Data()), wrote);
        if sampled.Err? { return 0, Err(sampled.error); }
        FollowingBoth(wrote, s.wrote, SamplingAll(s.used, ledger.limit, zones, valve, readings[i + 1..],
                                                  stops[i + 1..]));
        wrote := wrote + s.wrote;
      }
      assert readings[|readings|..] == [] && wrote + [] == wrote;
      return |readings|, Done;
    }
  }

  // What a sample writes, field by field.

  predicate Attributed(zones: map<string, string>, valve: string) {
    valve in zones && zones[valve] != ""
  }

  /** The row of a sample: its valve's zone, the values given, and the minute its instant falls into. */
  predicate SampleRow(row: ReadingRecord, zones: map<string, string>, valve: string, mpa: real, flow: real, at: int) {
    && Attributed(zones, valve) && row.zone == zones[valve] && row.valve == valve
    && row.mpa == mpa && row.flow == flow && row.at == Some(at)
    && row.slot == at / 60_000_000_000
  }

  /** An attributed sample within the quota writes one row and counts once exactly when its append succeeds. */
  lemma {:induction false} SampleLaw(
      used: map<string, int>, limit: int, zones: map<string, string>, valve: string, mpa: real, flow: real, at: int,
      stop: Stop)
    requires forall z :: Usage(used, z) >= 0
    ensures var s := Sampling(used, limit, zones, valve, mpa, flow, at, stop);
            && (!Attributed(zones, valve) ==> s == Sampled(used, [], Err(NoZone)))
            && (Attributed(zones, valve) && Usage(used, zones[valve]) >= limit ==>
                  s == Sampled(used, [], Err(QuotaExceeded)))
            && (Attributed(zones, valve) && Usage(used, zones[valve]) < limit ==>
                  && |s.wrote| == 1 && s.wrote[0].stop == stop
                  && SampleRow(s.wrote[0].record, zones, valve, mpa, flow, at)
                  && s.result == (if Kept(stop) then Ok(Reading(zones[valve], valve, mpa, flow, at))
                                  else Err(StoreFailed))
                  && forall z :: Usage(s.used, z) == Usage(used, z) + if Kept(stop) && z == zones[valve] then 1 else 0)
  {
    assert forall z :: Usage(used, z) >= 0;
  }

  /** Every row a batch writes is the row of its reading, in order, with its append cut where that reading's is. */
  lemma {:induction false} BatchRowsLaw(
      used: map<string, int>, limit: int, zones: map<string, string>, valve: string, readings: seq<Reading>,
      stops: seq<Stop>)
    requires |stops| == |readings| && forall z :: Usage(used, z) >= 0
    ensures var s := SamplingAll(used, limit, zones, valve, readings, stops);
            && |s.wrote| <= |readings| && (s.result.Ok? ==> |s.wrote| == |readings|)
            && forall i :: 0 <= i < |s.wrote| ==>
                 && s.wrote[i].stop == stops[i]
                 && SampleRow(s.wrote[i].record, zones, valve, readings[i].mpa, readings[i].flow, readings[i].at)
    decreases |readings|
  {
    if readings != [] {
      SampleLaw(used, limit, zones, valve, readings[0].mpa, readings[0].flow, readings[0].at, stops[0]);
      var first := Sampling(used, limit, zones, valve, readings[0].mpa, readings[0].flow, readings[0].at, stops[0]);
      if first.result.Ok? {
        BatchRowsLaw(first.used, limit, zones, valve, readings[1..], stops[1..]);
      }
    }
  }

  /** A failed sample returns its reservation, and readers see what they saw exactly when it left no byte in the log. */
  lemma {:induction false} FailedSampleUndoneIff(
      used: map<string, int>, limit: int, zones: map<string, string>, reading: Reading, stop: Stop,
      codec: Codec<ReadingRecord>, data: Bytes)
    requires (forall z :: Usage(used, z) >= 0) && Terminated(data) && ReadBack(codec, data).Ok?
    requires Sampling(used, limit, zones, reading.valve, reading.mpa, reading.flow, reading.at, stop).result.Err?
    requires AllLines(codec, Sampling(used, limit, zones, reading.valve, reading.mpa, reading.flow, reading.at,
                                      stop).wrote)
    ensures var s := Sampling(used, limit, zones, reading.valve, reading.mpa, reading.flow, reading.at, stop);
            && (forall z :: Usage(s.used, z) == Usage(used, z))
            && (ReadBack(codec, Grown(codec, data, s.wrote)) == ReadBack(codec, data) <==> NoTear(codec, s.wrote))
  {
    var s := Sampling(used, limit, zones, reading.valve, reading.mpa, reading.flow, reading.at, stop);
    assert forall z :: Usage(s.used, z) == Usage(used, z) by {
      SampleInBatch(used, limit, zones, reading.valve, reading, stop);
    }
    assert |s.wrote| <= 1 && forall i :: 0 <= i < |s.wrote| ==> !Kept(s.wrote[i].stop);
    FailedWriteUnseenIff(codec, data, s.wrote);
  }

  /** At most one append, and that one failed. */
  lemma {:induction false} FailedWriteUnseenIff(
      codec: Codec<ReadingRecord>, data: Bytes, wrote: seq<Write<ReadingRecord>>)
    requires AllLines(codec, wrote) && Terminated(data) && ReadBack(codec, data).Ok?
    requires |wrote| <= 1 && forall i :: 0 <= i < |wrote| ==> !Kept(wrote[i].stop)
    ensures ReadBack(codec, Grown(codec, data, wrote)) == ReadBack(codec, data) <==> NoTear(codec, wrote)
  {
    if wrote == [] {
    } else {
      assert wrote == [wrote[0]];
      GrownOne(codec, data, wrote[0]);
      FailedAppendUnseenIff(codec, data, wrote[0].record, wrote[0].stop);
    }
  }

  /** The rows a batch writes for its first `n` readings. */
  function BatchRows(zone: string, valve: string, readings: seq<Reading>, n: nat): seq<ReadingRecord>
    requires n <= |readings|
  {
    if n == 0 then []
    else BatchRows(zone, valve, readings, n - 1)
         + [RowOf(Reading(zone, valve, readings[n - 1].mpa, readings[n - 1].flow, readings[n - 1].at))]
  }

  lemma {:induction false} BatchRowsFromHead(zone: string, valve: string, readings: seq<Reading>, n: nat)
    requires 0 < n <= |readings|
    ensures BatchRows(zone, valve, readings, n)
            == BatchRows(zone, valve, readings, 1) + BatchRows(zone, valve, readings[1..], n - 1)
  {
    assert BatchRows(zone, valve, readings, 0) == [];
    if n > 1 { BatchRowsFromHead(zone, valve, readings, n - 1); }
  }

  /** The readings of a batch that are accepted: those before the first failed append or exhausted quota. */
  function Accepted(usage: int, limit: int, zone: string, stops: seq<Stop>): (n: nat)
    ensures n <= |stops|
    decreases |stops|
  {
    if stops == [] || zone == "" || usage + 1 > limit || !Kept(stops[0]) then 0
    else 1 + Accepted(usage + 1, limit, zone, stops[1..])
  }

  /** Successful appends, then at most one failed one. */
  predicate FailsLast(wrote: seq<Write<ReadingRecord>>, n: nat) {
    n <= |wrote| <= n + 1 && (forall i :: 0 <= i < n ==> Kept(wrote[i].stop)) && (|wrote| > n ==> !Kept(wrote[n].stop))
  }

  /** One append before some others. */
  lemma {:induction false} RecordsFromHead(w: Write<ReadingRecord>, wrote: seq<Write<ReadingRecord>>, n: nat)
    requires Kept(w.stop)
    ensures Records([w] + wrote) == [w.record] + Records(wrote)
    ensures FailsLast(wrote, n) ==> FailsLast([w] + wrote, n + 1)
  {
    RecordsConcat([w], wrote);
    assert [w][..0] == [];
  }

  /** `n` readings are recorded in order and counted once each, and at most one append after them failed. */
  ghost predicate KeepsPrefix(
      used: map<string, int>, zone: string, valve: string, readings: seq<Reading>, n: nat, s: Sampled<()>)
    requires n <= |readings|
  {
    && (s.result.Ok? <==> n == |readings|)
    && Records(s.wrote) == BatchRows(zone, valve, readings, n) && FailsLast(s.wrote, n)
    && (forall z :: Usage(s.used, z) == Usage(used, z) + if z == zone then n else 0)
  }

  lemma {:induction false} KeepsOneMore(
      used: map<string, int>, after: map<string, int>, zone: string, valve: string, readings: seq<Reading>, stop: Stop,
      n: nat, rest: Sampled<()>)
    requires readings != [] && Kept(stop) && n < |readings| && KeepsPrefix(after, zone, valve, readings[1..], n, rest)
    requires forall z :: Usage(after, z) == Usage(used, z) + if z == zone then 1 else 0
    ensures var w := Write(RowOf(Reading(zone, valve, readings[0].mpa, readings[0].flow, readings[0].at)), stop);
            KeepsPrefix(used, zone, valve, readings, n + 1, Following([w], rest))
  {
    var w := Write(RowOf(Reading(zone, valve, readings[0].mpa, readings[0].flow, readings[0].at)), stop);
    RecordsFromHead(w, rest.wrote, n);
    BatchRowsFromHead(zone, valve, readings, n + 1);
    assert BatchRows(zone, valve, readings, 0) == [];
    assert forall z :: Usage(after, z) == Usage(used, z) + if z == zone then 1 else 0;
  }

  lemma {:induction false} KeepsNone(
      used: map<string, int>, zone: string, valve: string, readings: seq<Reading>, s: Sampled<Reading>)
    requires readings != [] && s.result.Err? && Records(s.wrote) == [] && FailsLast(s.wrote, 0)
    requires forall z :: Usage(s.used, z) == Usage(used, z)
    ensures KeepsPrefix(used, zone, valve, readings, 0, Sampled(s.used, s.wrote, Err(s.result.error)))
  {
    assert forall z :: Usage(s.used, z) == Usage(used, z);
  }

  /**
   * A batch keeps exactly the rows before its first failure, each counted once, and tears at most one row after them.
   */
  lemma {:induction false} BatchKeepsPrefix(
      used: map<string, int>, limit: int, zones: map<string, string>, valve: string, readings: seq<Reading>,
      stops: seq<Stop>)
    requires |stops| == |readings| && forall z :: Usage(used, z) >= 0
    ensures var zone := if valve in zones then zones[valve] else "";
            KeepsPrefix(used, zone, valve, readings, Accepted(Usage(used, zone), limit, zone, stops),
                        SamplingAll(used, limit, zones, valve, readings, stops))
    decreases |readings|
  {
    var zone := if valve in zones then zones[valve] else "";
    assert BatchRows(zone, valve, readings, 0) == [];
    if readings != [] {
      SampleInBatch(used, limit, zones, valve, readings[0], stops[0]);
      var s := Sampling(used, limit, zones, valve, readings[0].mpa, readings[0].flow, readings[0].at, stops[0]);
      if s.result.Ok? {
        BatchKeepsPrefix(s.used, limit, zones, valve, readings[1..], stops[1..]);
        var rest := SamplingAll(s.used, limit, zones, valve, readings[1..], stops[1..]);
        KeepsOneMore(used, s.used, zone, valve, readings, stops[0],
                     Accepted(Usage(s.used, zone), limit, zone, stops[1..]), rest);
        assert SamplingAll(used, limit, zones, valve, readings, stops) == Following(s.wrote, rest);
      } else {
        KeepsNone(used, zone, valve, readings, s);
      }
    }
  }

  /** What one sample of a batch does to usage and log. */
  lemma {:induction false} SampleInBatch(
      used: map<string, int>, limit: int, zones: map<string, string>, valve: string, reading: Reading, stop: Stop)
    requires forall z :: Usage(used, z) >= 0
    ensures var zone := if valve in zones then zones[valve] else "";
            var s := Sampling(used, limit, zones, valve, reading.mpa, reading.flow, reading.at, stop);
            && (forall z :: Usage(s.used, z) == Usage(used, z) + if s.result.Ok? && z == zone then 1 else 0)
            && (s.result.Ok? <==> zone != "" && Usage(used, zone) + 1 <= limit && Kept(stop))
            && (s.result.Ok? ==> s.wrote == [Write(RowOf(Reading(zone, valve, reading.mpa, reading.flow, reading.at)),
                                                   stop)])
            && (s.result.Err? ==> Records(s.wrote) == [] && FailsLast(s.wrote, 0))
  {
    assert forall z :: Usage(used, z) >= 0;
  }

  /**
   * Readers find exactly the accepted rows of a batch after what was there if and only if its failed append left no
   * byte.
   */
  lemma {:induction false} BatchReadsBackIff(
      used: map<string, int>, limit: int, zones: map<string, string>, valve: string, readings: seq<Reading>,
      stops: seq<Stop>,
      codec: Codec<ReadingRecord>, data: Bytes)
    requires |stops| == |readings| && forall z :: Usage(used, z) >= 0
    requires AllLoggable(codec, SamplingAll(used, limit, zones, valve, readings, stops).wrote)
    requires Terminated(data) && ReadBack(codec, data).Ok?
    ensures var zone := if valve in zones then zones[valve] else "";
            var n := Accepted(Usage(used, zone), limit, zone, stops);
            var wrote := SamplingAll(used, limit, zones, valve, readings, stops).wrote;
            ReadBack(codec, Grown(codec, data, wrote)) == Ok(ReadBack(codec, data).value
                                                             + BatchRows(zone, valve, readings, n))
            <==> NoTear(codec, wrote)
  {
    BatchKeepsPrefix(used, limit, zones, valve, readings, stops);
    ReadsRecordsIff(codec, data, SamplingAll(used, limit, zones, valve, readings, stops).wrote);
  }

  // A log grown by samplers.

  /** What the console asks of the sampler, and new quota windows. */
  datatype Call =
    | OneSample(valve: string, mpa: real, flow: real, at: int, stop: Stop)
    | OneBatch(valve: string, readings: seq<Reading>, stops: seq<Stop>)
    | NewWindow

  /** Usage and all appends after some calls. */
  function Calling(limit: int, zones: map<string, string>, calls: seq<Call>)
    : (map<string, int>, seq<Write<ReadingRecord>>)
    requires forall c :: c in calls && c.OneBatch? ==> |c.stops| == |c.readings|
  {
    if calls == [] then (map[], [])
    else
      var last := calls[|calls| - 1];
      var (used, wrote) := Calling(limit, zones, calls[..|calls| - 1]);
      match last
      case OneSample(valve, mpa, flow, at, stop) =>
        var s := Sampling(used, limit, zones, valve, mpa, flow, at, stop);
        (s.used, wrote + s.wrote)
      case OneBatch(valve, readings, stops) =>
        assert last in calls;
        var s := SamplingAll(used, limit, zones, valve, readings, stops);
        (s.used, wrote + s.wrote)
      case NewWindow => (map[], wrote)
  }

  /** Every append carries its row's own minute. */
  predicate AllWellSlotted(wrote: seq<Write<ReadingRecord>>) {
    forall i :: 0 <= i < |wrote| ==> WellSlotted(wrote[i].record)
  }

  lemma {:induction false} SampleRowSlotted(
      row: ReadingRecord, zones: map<string, string>, valve: string, mpa: real, flow: real, at: int)
    requires SampleRow(row, zones, valve, mpa, flow, at)
    ensures WellSlotted(row)
  {
  }

  lemma {:induction false} CallsWriteWellSlotted(limit: int, zones: map<string, string>, calls: seq<Call>)
    requires forall c :: c in calls && c.OneBatch? ==> |c.stops| == |c.readings|
    ensures var (used, wrote) := Calling(limit, zones, calls);
            (forall z :: Usage(used, z) >= 0) && AllWellSlotted(wrote)
  {
    if calls != [] {
      var last := calls[|calls| - 1];
      assert last in calls;
      CallsWriteWellSlotted(limit, zones, calls[..|calls| - 1]);
      var used := Calling(limit, zones, calls[..|calls| - 1]).0;
      match last
      case OneSample(valve, mpa, flow, at, stop) => SampleLaw(used, limit, zones, valve, mpa, flow, at, stop);
      case OneBatch(valve, readings, stops) =>
        BatchRowsLaw(used, limit, zones, valve, readings, stops);
        BatchKeepsPrefix(used, limit, zones, valve, readings, stops);
      case NewWindow =>
    }
  }

  lemma {:induction false} RecordsWellSlotted(wrote: seq<Write<ReadingRecord>>)
    requires AllWellSlotted(wrote)
    ensures forall r :: r in Records(wrote) ==> WellSlotted(r)
  {
    if wrote != [] { RecordsWellSlotted(wrote[..|wrote| - 1]); }
  }

  /**
   * On a log that only sampler calls grew, and that no failed append tore, the bytes read back as the recorded rows,
   * and slot peak, window peak over that minute, and count agree for every zone and minute.
   */
  lemma {:induction false} SamplerLogAgrees(
      limit: int, zones: map<string, string>, calls: seq<Call>, codec: Codec<ReadingRecord>,
      zone: string, slot: int, a: Result<real>, b: Result<real>)
    requires forall c :: c in calls && c.OneBatch? ==> |c.stops| == |c.readings|
    requires AllLoggable(codec, Calling(limit, zones, calls).1) && NoTear(codec, Calling(limit, zones, calls).1)
    ensures var wrote := Calling(limit, zones, calls).1;
            var loaded := ReadBack(codec, Grown(codec, [], wrote));
            var minute := Window(zone, slot * 60_000_000_000, (slot + 1) * 60_000_000_000);
            && loaded == Ok(Records(wrote))
            && |SlotRows(loaded.value, zone, slot)| == |WindowRows(loaded.value, zone, minute)|
            && (PeakAnswer(SlotRows(loaded.value, zone, slot), a, NotFound)
                && PeakAnswer(WindowRows(loaded.value, zone, minute), b, NoReadings)
                ==> a.Ok? == b.Ok? && (a.Ok? ==> a == b))
  {
    var wrote := Calling(limit, zones, calls).1;
    CallsWriteWellSlotted(limit, zones, calls);
    RecordsWellSlotted(wrote);
    EmptyLogHasNoLines();
    ReadsRecordsIff(codec, [], wrote);
    assert [] + Records(wrote) == Records(wrote);
    SlottedRowsAgree(Records(wrote), zone, slot);
    if PeakAnswer(SlotRows(Records(wrote), zone, slot), a, NotFound)
       && PeakAnswer(WindowRows(Records(wrote), zone, MinuteWindow(zone, slot)), b, NoReadings) {
      PeaksAgree(Records(wrote), zone, slot, a, b);
    }
  }

  // Samplers running at once: each reserves, then appends, then gives the reservation back if the append failed.

  datatype Phase = Idle | Reserved | Failed | Recorded | Rejected

  /** `wrote` are the appends since the last rollover, `earlier` those before it. */
  datatype World = World(
    used: map<string, int>, earlier: seq<Write<ReadingRecord>>, wrote: seq<Write<ReadingRecord>>, phases: seq<Phase>)

  datatype Event = Reserve(sampler: nat) | Append(sampler: nat, stop: Stop) | GiveBack(sampler: nat) | Roll

  predicate Enabled(w: World, event: Event) {
    match event
    case Reserve(t) => t < |w.phases| && w.phases[t] == Idle
    case Append(t, _) => t < |w.phases| && w.phases[t] == Reserved
    case GiveBack(t) => t < |w.phases| && w.phases[t] == Failed
    case Roll => true
  }

  /** One atomic step; sampler `t` samples `rows[t]` for that row's zone. */
  function Next(w: World, limit: int, rows: seq<ReadingRecord>, event: Event): World
    requires |w.phases| == |rows| && Enabled(w, event)
  {
    match event
    case Reserve(t) =>
      var (used, outcome) := Reserving(w.used, limit, rows[t].zone, 1);
      w.(used := used, phases := w.phases[t := if outcome.Ok? then Reserved else Rejected])
    case Append(t, stop) =>
      w.(wrote := w.wrote + [Write(rows[t], stop)], phases := w.phases[t := if Kept(stop) then Recorded else Failed])
    case GiveBack(t) => w.(used := Returning(w.used, rows[t].zone, 1), phases := w.phases[t := Rejected])
    case Roll => w.(used := map[], earlier := w.earlier + w.wrote, wrote := [])
  }

  function Start(rows: seq<ReadingRecord>): World {
    World(map[], [], [], seq(|rows|, _ => Idle))
  }

  /** The world after these events, if each was enabled in turn. */
  function Run(limit: int, rows: seq<ReadingRecord>, events: seq<Event>): (w: Option<World>)
    ensures w.Some? ==> |w.value.phases| == |rows|
  {
    if events == [] then Some(Start(rows))
    else
      var before := Run(limit, rows, events[..|events| - 1]);
      var event := events[|events| - 1];
      if before.None? || !Enabled(before.value, event) then None
      else Some(Next(before.value, limit, rows, event))
  }

  /** One sampler alone, from reservation to its end. */
  function Alone(w: World, limit: int, rows: seq<ReadingRecord>, t: nat, stop: Stop): World
    requires |w.phases| == |rows| && Enabled(w, Reserve(t))
  {
    var a := Next(w, limit, rows, Reserve(t));
    if !Enabled(a, Append(t, stop)) then a
    else
      var b := Next(a, limit, rows, Append(t, stop));
      if Enabled(b, GiveBack(t)) then Next(b, limit, rows, GiveBack(t)) else b
  }

  /** Run alone through the steps, a sampler does what `Sample` does. */
  lemma {:induction false} AloneIsSample(
      w: World, limit: int, rows: seq<ReadingRecord>, t: nat, zones: map<string, string>, reading: Reading, stop: Stop)
    requires |w.phases| == |rows| && Enabled(w, Reserve(t)) && rows[t] == RowOf(reading) && reading.zone != ""
    requires reading.valve in zones && zones[reading.valve] == reading.zone
    ensures var end := Alone(w, limit, rows, t, stop);
            var s := Sampling(w.used, limit, zones, reading.valve, reading.mpa, reading.flow, reading.at, stop);
            && end.used == s.used && end.wrote == w.wrote + s.wrote
            && end.phases[t] == if s.result.Ok? then Recorded else Rejected
  {
    assert w.wrote + [] == w.wrote;
  }

  /** Sampler rows of a zone whose append succeeded. */
  function Rows(wrote: seq<Write<ReadingRecord>>, zone: string): nat {
    if wrote == [] then 0
    else
      var last := wrote[|wrote| - 1];
      Rows(wrote[..|wrote| - 1], zone) + if Kept(last.stop) && last.record.zone == zone then 1 else 0
  }

  lemma {:induction false} RowsMore(wrote: seq<Write<ReadingRecord>>, w: Write<ReadingRecord>, zone: string)
    ensures Rows(wrote + [w], zone) == Rows(wrote, zone) + if Kept(w.stop) && w.record.zone == zone then 1 else 0
  {
    assert (wrote + [w])[..|wrote|] == wrote;
  }

  predicate Holding(phase: Phase) {
    phase == Reserved || phase == Failed
  }

  /** Reservations of a zone whose sample is neither recorded nor given back. */
  function InFlight(phases: seq<Phase>, rows: seq<ReadingRecord>, zone: string): nat
    requires |phases| == |rows|
  {
    if phases == [] then 0
    else
      var n := |phases| - 1;
      InFlight(phases[..n], rows[..n], zone) + if rows[n].zone == zone && Holding(phases[n]) then 1 else 0
  }

  lemma {:induction false} InFlightStep(
      phases: seq<Phase>, rows: seq<ReadingRecord>, t: nat, phase: Phase, zone: string)
    requires |phases| == |rows| && t < |phases|
    ensures InFlight(phases[t := phase], rows, zone)
            == InFlight(phases, rows, zone)
               + (if rows[t].zone == zone && Holding(phase) then 1 else 0)
               - (if rows[t].zone == zone && Holding(phases[t]) then 1 else 0)
  {
    var n := |phases| - 1;
    if t < n {
      assert phases[t := phase][..n] == phases[..n][t := phase];
      InFlightStep(phases[..n], rows[..n], t, phase, zone);
    } else {
      assert phases[t := phase][..n] == phases[..n];
    }
  }

  lemma {:induction false} IdleHoldsNone(phases: seq<Phase>, rows: seq<ReadingRecord>, zone: string)
    requires |phases| == |rows| && forall t :: 0 <= t < |phases| ==> !Holding(phases[t])
    ensures InFlight(phases, rows, zone) == 0
  {
    if phases != [] {
      var n := |phases| - 1;
      assert forall t :: 0 <= t < n ==> phases[..n][t] == phases[t];
      IdleHoldsNone(phases[..n], rows[..n], zone);
    }
  }

  lemma {:induction false} HoldingCounts(phases: seq<Phase>, rows: seq<ReadingRecord>, t: nat)
    requires |phases| == |rows| && t < |phases| && Holding(phases[t])
    ensures InFlight(phases, rows, rows[t].zone) > 0
  {
    var n := |phases| - 1;
    if t < n { HoldingCounts(phases[..n], rows[..n], t); }
  }

  // What a rollover in flight costs.

  /** Reservations of a zone that were in flight at the last rollover. */
  function Carried(limit: int, rows: seq<ReadingRecord>, events: seq<Event>, zone: string): nat
    requires Run(limit, rows, events).Some?
  {
    if events == [] then 0
    else
      var before := events[..|events| - 1];
      if events[|events| - 1].Roll? then InFlight(Run(limit, rows, before).value.phases, rows, zone)
      else Carried(limit, rows, before, zone)
  }

  /** Reservations of a zone given back since then that found no usage left to take back. */
  function Floored(limit: int, rows: seq<ReadingRecord>, events: seq<Event>, zone: string): nat
    requires Run(limit, rows, events).Some?
  {
    if events == [] then 0
    else
      var before, e := events[..|events| - 1], events[|events| - 1];
      var w := Run(limit, rows, before).value;
      if e.Roll? then 0
      else
        Floored(limit, rows, before, zone)
        + if e.GiveBack? && rows[e.sampler].zone == zone && Usage(w.used, zone) == 0 then 1 else 0
  }

  lemma {:induction false} UsageNotNegative(limit: int, rows: seq<ReadingRecord>, events: seq<Event>, zone: string)
    requires Run(limit, rows, events).Some?
    ensures Usage(Run(limit, rows, events).value.used, zone) >= 0
  {
    if events != [] { UsageNotNegative(limit, rows, events[..|events| - 1], zone); }
  }

  /** One step other than a rollover keeps the balance of a zone, but for a reservation given back to no usage. */
  lemma {:induction false} StepBalances(w: World, limit: int, rows: seq<ReadingRecord>, e: Event, zone: string)
    requires |w.phases| == |rows| && Enabled(w, e) && !e.Roll? && Usage(w.used, zone) >= 0
    ensures var n := Next(w, limit, rows, e);
            Rows(n.wrote, zone) + InFlight(n.phases, rows, zone) - Usage(n.used, zone)
            == Rows(w.wrote, zone) + InFlight(w.phases, rows, zone) - Usage(w.used, zone)
               - if e.GiveBack? && rows[e.sampler].zone == zone && Usage(w.used, zone) == 0 then 1 else 0
  {
    var n := Next(w, limit, rows, e);
    InFlightStep(w.phases, rows, e.sampler, n.phases[e.sampler], zone);
    if e.Append? { RowsMore(w.wrote, Write(rows[e.sampler], e.stop), zone); }
  }

  /**
   * In every run, rollovers anywhere: a zone's usage plus what was in flight at the last rollover is its rows since
   * then plus what is in flight now plus what was given back in vain.
   */
  lemma {:induction false} UsageAccounted(limit: int, rows: seq<ReadingRecord>, events: seq<Event>, zone: string)
    requires Run(limit, rows, events).Some?
    ensures var w := Run(limit, rows, events).value;
            Usage(w.used, zone) + Carried(limit, rows, events, zone)
            == Rows(w.wrote, zone) + InFlight(w.phases, rows, zone) + Floored(limit, rows, events, zone)
  {
    if events == [] {
      IdleHoldsNone(Start(rows).phases, rows, zone);
    } else {
      var before, e := events[..|events| - 1], events[|events| - 1];
      UsageAccounted(limit, rows, before, zone);
      UsageNotNegative(limit, rows, before, zone);
      if !e.Roll? { StepBalances(Run(limit, rows, before).value, limit, rows, e, zone); }
    }
  }

  /** In every run, with rollovers anywhere, usage stays between zero and the limit. */
  lemma {:induction false} UsageWithinLimit(limit: nat, rows: seq<ReadingRecord>, events: seq<Event>, zone: string)
    requires Run(limit, rows, events).Some?
    ensures 0 <= Usage(Run(limit, rows, events).value.used, zone) <= limit
  {
    if events != [] { UsageWithinLimit(limit, rows, events[..|events| - 1], zone); }
  }

  /**
   * In every run a window gets at most the limit plus what was in flight at its rollover, and it gets that many
   * exactly when the quota is used up, nothing is in flight and nothing was given back in vain.
   */
  lemma {:induction false} RowsBoundedByCarried(limit: nat, rows: seq<ReadingRecord>, events: seq<Event>, zone: string)
    requires Run(limit, rows, events).Some?
    ensures var w := Run(limit, rows, events).value; var bound := limit + Carried(limit, rows, events, zone);
            && Rows(w.wrote, zone) + InFlight(w.phases, rows, zone) <= bound
            && (Rows(w.wrote, zone) == bound
                <==> Usage(w.used, zone) == limit && InFlight(w.phases, rows, zone) == 0
                     && Floored(limit, rows, events, zone) == 0)
  {
    UsageAccounted(limit, rows, events, zone);
    UsageWithinLimit(limit, rows, events, zone);
  }

  // Rollovers with nothing in flight.

  ghost predicate Conserved(w: World, rows: seq<ReadingRecord>)
    requires |w.phases| == |rows|
  {
    forall zone :: Usage(w.used, zone) == Rows(w.wrote, zone) + InFlight(w.phases, rows, zone)
  }

  predicate Quiet(w: World) {
    forall t :: 0 <= t < |w.phases| ==> !Holding(w.phases[t])
  }

  /** No rollover happens while a reservation is in flight. */
  predicate RollsQuietly(limit: int, rows: seq<ReadingRecord>, events: seq<Event>) {
    events == [] ||
    (RollsQuietly(limit, rows, events[..|events| - 1]) &&
     var before := Run(limit, rows, events[..|events| - 1]);
     before.Some? && events[|events| - 1].Roll? ==> Quiet(before.value))
  }

  /** From a conserved state a rollover keeps conservation exactly when no reservation is in flight. */
  lemma {:induction false} RollConservesIff(w: World, limit: int, rows: seq<ReadingRecord>)
    requires |w.phases| == |rows| && Conserved(w, rows)
    ensures Conserved(Next(w, limit, rows, Roll), rows) <==> Quiet(w)
  {
    var rolled := Next(w, limit, rows, Roll);
    if Quiet(w) {
      forall zone ensures Usage(rolled.used, zone) == Rows(rolled.wrote, zone) + InFlight(rolled.phases, rows, zone) {
        IdleHoldsNone(w.phases, rows, zone);
      }
    } else {
      var t :| 0 <= t < |w.phases| && Holding(w.phases[t]);
      HoldingCounts(w.phases, rows, t);
      assert Usage(rolled.used, rows[t].zone) == 0;
    }
  }

  lemma {:induction false} QuietRollsCarryNothing(
      limit: int, rows: seq<ReadingRecord>, events: seq<Event>, zone: string)
    requires Run(limit, rows, events).Some? && RollsQuietly(limit, rows, events)
    ensures Carried(limit, rows, events, zone) == 0 && Floored(limit, rows, events, zone) == 0
  {
    if events != [] {
      var before, e := events[..|events| - 1], events[|events| - 1];
      var w := Run(limit, rows, before).value;
      QuietRollsCarryNothing(limit, rows, before, zone);
      UsageAccounted(limit, rows, before, zone);
      if e.Roll? { IdleHoldsNone(w.phases, rows, zone); }
      if e.GiveBack? { HoldingCounts(w.phases, rows, e.sampler); }
    }
  }

  /** In every such run usage is the rows of the current window plus the reservations in flight. */
  lemma {:induction false} UsageConserved(limit: int, rows: seq<ReadingRecord>, events: seq<Event>)
    requires Run(limit, rows, events).Some? && RollsQuietly(limit, rows, events)
    ensures Conserved(Run(limit, rows, events).value, rows)
  {
    var w := Run(limit, rows, events).value;
    forall zone ensures Usage(w.used, zone) == Rows(w.wrote, zone) + InFlight(w.phases, rows, zone) {
      UsageAccounted(limit, rows, events, zone);
      QuietRollsCarryNothing(limit, rows, events, zone);
    }
  }

  /** Hence the window never gets more rows of a zone than the limit. */
  lemma {:induction false} RowsWithinLimit(limit: nat, rows: seq<ReadingRecord>, events: seq<Event>, zone: string)
    requires Run(limit, rows, events).Some? && RollsQuietly(limit, rows, events)
    ensures Rows(Run(limit, rows, events).value.wrote, zone) <= limit
  {
    RowsBoundedByCarried(limit, rows, events, zone);
    QuietRollsCarryNothing(limit, rows, events, zone);
  }

  /** The rows of a zone among rows read back. */
  function InZone(rows: seq<ReadingRecord>, zone: string): nat {
    if rows == [] then 0 else InZone(rows[..|rows| - 1], zone) + if rows[|rows| - 1].zone == zone then 1 else 0
  }

  lemma {:induction false} RowsAreRecords(wrote: seq<Write<ReadingRecord>>, zone: string)
    ensures Rows(wrote, zone) == InZone(Records(wrote), zone)
  {
    if wrote != [] {
      var before, last := wrote[..|wrote| - 1], wrote[|wrote| - 1];
      RowsAreRecords(before, zone);
      if Kept(last.stop) {
        assert (Records(before) + [last.record])[..|Records(before)|] == Records(before);
      } else {
        assert Records(before) + [] == Records(before);
      }
    }
  }

  /** The appends of samplers in a log that closure rows share. */
  function SamplerWrites(writes: seq<Write<ReadingRecord>>): seq<Write<ReadingRecord>> {
    if writes == [] then []
    else
      var last := writes[|writes| - 1];
      SamplerWrites(writes[..|writes| - 1]) + if last.record.valve != CLOSURE then [last] else []
  }

  /** The rows of samplers among rows read back. */
  function SamplerRows(rows: seq<ReadingRecord>): seq<ReadingRecord> {
    if rows == [] then []
    else
      var last := rows[|rows| - 1];
      SamplerRows(rows[..|rows| - 1]) + if last.valve != CLOSURE then [last] else []
  }

  lemma {:induction false} SamplerRowsMore(rows: seq<ReadingRecord>, more: seq<ReadingRecord>)
    requires |more| <= 1
    ensures SamplerRows(rows + more)
            == SamplerRows(rows) + if more != [] && more[0].valve != CLOSURE then more else []
  {
    if more == [] {
      assert rows + more == rows && SamplerRows(rows) + [] == SamplerRows(rows);
    } else {
      assert more == [more[0]] && (rows + more)[..|rows|] == rows;
    }
  }

  lemma {:induction false} SamplerRowsAreRecords(writes: seq<Write<ReadingRecord>>)
    ensures SamplerRows(Records(writes)) == Records(SamplerWrites(writes))
  {
    if writes != [] {
      var before, last := writes[..|writes| - 1], writes[|writes| - 1];
      SamplerRowsAreRecords(before);
      SamplerRowsMore(Records(before), if Kept(last.stop) then [last.record] else []);
      if last.record.valve != CLOSURE {
        RecordsMore(SamplerWrites(before), last);
      } else {
        assert SamplerWrites(before) + [] == SamplerWrites(before);
        assert SamplerRows(Records(before)) + [] == SamplerRows(Records(before));
      }
    }
  }

  /**
   * Usage always counts the sampler rows recorded in the current window. Closure rows may lie anywhere between them
   * in the log; the log reads back as exactly what was recorded, sampler rows in order, if and only if no failed
   * append of either kind left a byte in it.
   */
  lemma {:induction false} UsageIsReadableRowsIff(
      limit: int, rows: seq<ReadingRecord>, events: seq<Event>,
      codec: Codec<ReadingRecord>, data: Bytes, writes: seq<Write<ReadingRecord>>)
    requires Run(limit, rows, events).Some? && RollsQuietly(limit, rows, events)
    requires var w := Run(limit, rows, events).value; SamplerWrites(writes) == w.earlier + w.wrote
    requires AllLoggable(codec, writes) && Terminated(data) && ReadBack(codec, data).Ok?
    ensures var w := Run(limit, rows, events).value;
            && (forall zone :: Usage(w.used, zone) == InZone(Records(w.wrote), zone) + InFlight(w.phases, rows, zone))
            && SamplerRows(Records(writes)) == Records(w.earlier) + Records(w.wrote)
            && (ReadBack(codec, Grown(codec, data, writes)) == Ok(ReadBack(codec, data).value + Records(writes))
                <==> NoTear(codec, writes))
  {
    var w := Run(limit, rows, events).value;
    UsageConserved(limit, rows, events);
    forall zone ensures Usage(w.used, zone) == InZone(Records(w.wrote), zone) + InFlight(w.phases, rows, zone) {
      RowsAreRecords(w.wrote, zone);
    }
    SamplerRowsAreRecords(writes);
    RecordsConcat(w.earlier, w.wrote);
    ReadsRecordsIff(codec, data, writes);
  }

  /** A rollover between reservation and append lets a window exceed the limit, by as much as it can. */
  lemma {:induction false} RollInFlightExceedsLimit(row: ReadingRecord)
    ensures var rows := [row, row];
            var events := [Reserve(0), Roll, Reserve(1), Append(0, Completes), Append(1, Completes)];
            var end := Run(1, rows, events);
            end.Some? && Carried(1, rows, events, row.zone) == 1 && Rows(end.value.wrote, row.zone) == 2
  {
    var rows, z, done := [row, row], row.zone, Write(row, Completes);
    var none: seq<Write<ReadingRecord>> := [];
    var p0, p1, p2, p3 := [Idle, Idle], [Reserved, Idle], [Reserved, Reserved], [Recorded, Reserved];
    assert Start(rows).phases == p0 && p0[0 := Reserved] == p1 && p1[1 := Reserved] == p2 && p2[0 := Recorded] == p3;
    assert none + none == none && none + [done] == [done];
    RunMore(1, rows, [], Reserve(0), Start(rows));
    var e1 := [] + [Reserve(0)];
    var w1 := World(map[z := 1], none, none, p1);
    RunMore(1, rows, e1, Roll, w1);
    var e2 := e1 + [Roll];
    RunMore(1, rows, e2, Reserve(1), World(map[], none, none, p1));
    var e3 := e2 + [Reserve(1)];
    RunMore(1, rows, e3, Append(0, Completes), World(map[z := 1], none, none, p2));
    var e4 := e3 + [Append(0, Completes)];
    RunMore(1, rows, e4, Append(1, Completes), World(map[z := 1], none, [done], p3));
    assert e4 + [Append(1, Completes)] == [Reserve(0), Roll, Reserve(1), Append(0, Completes), Append(1, Completes)];
    RowsMore(none, done, z);
    RowsMore([done], done, z);
    OneInFlight(row);
  }

  lemma {:induction false} RunMore(limit: int, rows: seq<ReadingRecord>, events: seq<Event>, e: Event, w: World)
    requires Run(limit, rows, events) == Some(w) && Enabled(w, e)
    ensures Run(limit, rows, events + [e]) == Some(Next(w, limit, rows, e))
    ensures forall zone :: Carried(limit, rows, events + [e], zone)
                           == if e.Roll? then InFlight(w.phases, rows, zone) else Carried(limit, rows, events, zone)
  {
    assert (events + [e])[..|events|] == events;
  }

  lemma {:induction false} OneInFlight(row: ReadingRecord)
    ensures InFlight([Reserved, Idle], [row, row], row.zone) == 1
  {
    var p: seq<Phase> := [Reserved, Idle];
    assert p[..1] == [Reserved] && [row, row][..1] == [row] && [row][..0] == [];
    assert InFlight(p[..1], [row], row.zone) == 1;
  }
}
