/** Pressure rows in the readings log, and the two ways of summarising them: by minute slot and by time window. */
module Readings {
  import opened Results
  import opened Files
  import opened Logs

  /** `slot` is the minute written into the row; `at` is None when the row's timestamp cannot be parsed. */
  datatype ReadingRecord = ReadingRecord(
    zone: string, slot: int, valve: string, mpa: real, flow: real, at: Option<int>)

  /** What a closure row carries in place of a valve id. */
  const CLOSURE := "closure-peak"

  const SECOND := 1_000_000_000
  const MINUTE := 60 * SECOND

  /** The minute a timestamp in nanoseconds falls into. */
  function SlotOf(at: int): int {
    at / MINUTE
  }

  /** The half-open time range [start, end). */
  datatype Window = Window(zone: string, start: int, end: int) {
    predicate Contains(at: int) {
      !(at < start) && at < end
    }

    function Slot(): int {
      SlotOf(start)
    }
  }

  function MinuteWindow(zone: string, slot: int): Window {
    Window(zone, slot * MINUTE, (slot + 1) * MINUTE)
  }

  predicate InSlot(r: ReadingRecord, zone: string, slot: int) {
    r.zone == zone && r.slot == slot
  }

  predicate InWindow(r: ReadingRecord, zone: string, window: Window) {
    r.at.Some? && r.zone == zone && window.Contains(r.at.value)
  }

  function SlotRows(rows: seq<ReadingRecord>, zone: string, slot: int): seq<ReadingRecord> {
    if rows == [] then []
    else
      var last := rows[|rows| - 1];
      SlotRows(rows[..|rows| - 1], zone, slot) + if InSlot(last, zone, slot) then [last] else []
  }

  function WindowRows(rows: seq<ReadingRecord>, zone: string, window: Window): seq<ReadingRecord> {
    if rows == [] then []
    else
      var last := rows[|rows| - 1];
      WindowRows(rows[..|rows| - 1], zone, window) + if InWindow(last, zone, window) then [last] else []
  }

  /** Exactly a row of the zone and slot is selected. */
  lemma {:induction false} SlotRowLaw(r: ReadingRecord, zone: string, slot: int)
    ensures SlotRows([r], zone, slot) == if r.zone == zone && r.slot == slot then [r] else []
  {
    assert [r][..0] == [];
  }

  /** Selection goes row by row, so each row is selected as often, and in the order, as it stands in the log. */
  lemma {:induction false} SlotRowsLaw(a: seq<ReadingRecord>, b: seq<ReadingRecord>, zone: string, slot: int)
    ensures SlotRows(a + b, zone, slot) == SlotRows(a, zone, slot) + SlotRows(b, zone, slot)
    decreases |b|
  {
    if b == [] {
      assert a + b == a && SlotRows(a, zone, slot) + [] == SlotRows(a, zone, slot);
    } else {
      var n := |b| - 1;
      assert (a + b)[..|a| + n] == a + b[..n] && (a + b)[|a| + n] == b[n];
      SlotRowsLaw(a, b[..n], zone, slot);
      Associates(SlotRows(a, zone, slot), SlotRows(b[..n], zone, slot),
                 if InSlot(b[n], zone, slot) then [b[n]] else []);
    }
  }

  /** A window is half-open in time; a row without a readable time is never selected. */
  lemma {:induction false} WindowRowLaw(r: ReadingRecord, zone: string, window: Window)
    ensures WindowRows([r], zone, window)
            == if r.zone == zone && r.at.Some? && window.start <= r.at.value < window.end then [r] else []
  {
    assert [r][..0] == [];
  }

  lemma {:induction false} WindowRowsLaw(a: seq<ReadingRecord>, b: seq<ReadingRecord>, zone: string, window: Window)
    ensures WindowRows(a + b, zone, window) == WindowRows(a, zone, window) + WindowRows(b, zone, window)
    decreases |b|
  {
    if b == [] {
      assert a + b == a && WindowRows(a, zone, window) + [] == WindowRows(a, zone, window);
    } else {
      var n := |b| - 1;
      assert (a + b)[..|a| + n] == a + b[..n] && (a + b)[|a| + n] == b[n];
      WindowRowsLaw(a, b[..n], zone, window);
      Associates(WindowRows(a, zone, window), WindowRows(b[..n], zone, window),
                 if InWindow(b[n], zone, window) then [b[n]] else []);
    }
  }

  /** Some row has this pressure and no row has a higher one. */
  predicate IsPeak(rows: seq<ReadingRecord>, peak: real) {
    (exists r :: r in rows && r.mpa == peak) && forall r :: r in rows ==> r.mpa <= peak
  }

  lemma {:induction false} PeakUnique(rows: seq<ReadingRecord>, a: real, b: real)
    requires IsPeak(rows, a) && IsPeak(rows, b)
    ensures a == b
  {
  }

  predicate PeakAnswer(rows: seq<ReadingRecord>, r: Result<real>, missing: Error) {
    if rows == [] then r == Err(missing) else r.Ok? && IsPeak(rows, r.value)
  }

  /** How a running peak follows one more row. */
  lemma {:induction false} PeakExtends(rows: seq<ReadingRecord>, row: ReadingRecord, peak: real)
    requires rows == [] || IsPeak(rows, peak)
    ensures IsPeak(rows + [row], if rows == [] || row.mpa > peak then row.mpa else peak)
  {
    assert row in rows + [row] && forall r :: r in rows + [row] <==> r in rows || r == row;
  }

  lemma {:induction false} SlotRowsExtend(rows: seq<ReadingRecord>, i: nat, zone: string)
    requires i < |rows|
    ensures forall slot :: SlotRows(rows[..i + 1], zone, slot)
                           == SlotRows(rows[..i], zone, slot) + if InSlot(rows[i], zone, slot) then [rows[i]] else []
  {
    assert rows[..i + 1][..i] == rows[..i];
  }

  /** Position of the first row of a zone in a slot, or the number of rows. */
  function FirstAt(rows: seq<ReadingRecord>, zone: string, slot: int): (k: nat)
    ensures k <= |rows|
    ensures k < |rows| ==> InSlot(rows[k], zone, slot)
    ensures forall j :: 0 <= j < k ==> !InSlot(rows[j], zone, slot)
  {
    if rows == [] then 0
    else
      var n := |rows| - 1;
      var k := FirstAt(rows[..n], zone, slot);
      if k < n then k else if InSlot(rows[n], zone, slot) then n else n + 1
  }

  /** Exactly the slots in which the zone has a row, each once, by their first rows. */
  predicate FirstSeenOrder(rows: seq<ReadingRecord>, zone: string, slots: seq<int>) {
    && (forall r :: r in rows && r.zone == zone ==> r.slot in slots)
    && (forall slot :: slot in slots ==> FirstAt(rows, zone, slot) < |rows|)
    && (forall i, j :: 0 <= i < j < |slots| ==> FirstAt(rows, zone, slots[i]) < FirstAt(rows, zone, slots[j]))
  }

  lemma {:induction false} FirstAtMore(rows: seq<ReadingRecord>, row: ReadingRecord, zone: string, slot: int)
    ensures var k := FirstAt(rows, zone, slot);
            FirstAt(rows + [row], zone, slot)
            == if k < |rows| then k else if InSlot(row, zone, slot) then |rows| else |rows| + 1
  {
    assert (rows + [row])[..|rows|] == rows;
  }

  /** The slots after one more row. */
  function SlotsAfter(slots: seq<int>, row: ReadingRecord, zone: string): seq<int> {
    if row.zone == zone && row.slot !in slots then slots + [row.slot] else slots
  }

  lemma {:induction false} SeenSlotListed(rows: seq<ReadingRecord>, zone: string, slots: seq<int>, slot: int)
    requires FirstSeenOrder(rows, zone, slots)
    ensures FirstAt(rows, zone, slot) < |rows| <==> slot in slots
  {
    var k := FirstAt(rows, zone, slot);
    if k < |rows| { assert rows[k] in rows; }
  }

  lemma {:induction false} SlotSeen(rows: seq<ReadingRecord>, row: ReadingRecord, zone: string, slots: seq<int>)
    requires FirstSeenOrder(rows, zone, slots)
    ensures FirstSeenOrder(rows + [row], zone, SlotsAfter(slots, row, zone))
  {
    var all, more := rows + [row], SlotsAfter(slots, row, zone);
    forall r | r in all && r.zone == zone ensures r.slot in more {
      assert r in rows || r == row;
    }
    forall slot | slot in more ensures FirstAt(all, zone, slot) < |all| {
      FirstAtMore(rows, row, zone, slot);
    }
    forall i, j | 0 <= i < j < |more| ensures FirstAt(all, zone, more[i]) < FirstAt(all, zone, more[j]) {
      assert more[i] == slots[i] && slots[i] in slots;
      FirstAtMore(rows, row, zone, more[i]);
      FirstAtMore(rows, row, zone, more[j]);
      SeenSlotListed(rows, zone, slots, more[j]);
    }
  }

  class WindowAggregator {
    const log: RecordLog<ReadingRecord>

    constructor (log: RecordLog<ReadingRecord>)
      ensures this.log == log
    {
      this.log := log;
    }

    method Append(record: ReadingRecord, stop: Stop) returns (r: Outcome)
      modifies log.store
      ensures log.Data() == Grown(log.codec, old(log.Data()), [Write(record, stop)])
      ensures r == if Kept(stop) then Done else Err(StoreFailed)
      ensures OnlyChanged(old(log.store.files), log.store.files, log.path)
    {
      r := log.Append(record, stop);
    }

    /** The highest pressure of a zone in one slot; an unreadable log is an error. */
    method Peak(zone: string, slot: int) returns (r: Result<real>)
      ensures var loaded := ReadBack(log.codec, log.Data());
              if loaded.Err? then r == Err(loaded.error)
              else PeakAnswer(SlotRows(loaded.value, zone, slot), r, NotFound)
    {
      var loaded := log.Load();
      if loaded.Err? { return Err(loaded.error); }
      var rows := loaded.value;
      var peak, found := 0.0, false;
      for i := 0 to |rows|
        invariant found <==> SlotRows(rows[..i], zone, slot) != []
        invariant found ==> IsPeak(SlotRows(rows[..i], zone, slot), peak)
      {
        SlotRowsExtend(rows, i, zone);
        if rows[i].zone != zone || rows[i].slot != slot { continue; }
        PeakExtends(SlotRows(rows[..i], zone, slot), rows[i], peak);
        if !found || rows[i].mpa > peak {
          peak, found := rows[i].mpa, true;
        }
      }
      assert rows[..|rows|] == rows;
      if !found { return Err(NotFound); }
      r := Ok(peak);
    }

    /** How many rows of a zone a slot has. */
    method Count(zone: string, slot: int) returns (r: Result<nat>)
      ensures var loaded := ReadBack(log.codec, log.Data());
              r == if loaded.Err? then Err(loaded.error) else Ok(|SlotRows(loaded.value, zone, slot)|)
    {
      var loaded := log.Load();
      if loaded.Err? { return Err(loaded.error); }
      var rows := loaded.value;
      var count := 0;
      for i := 0 to |rows|
        invariant count == |SlotRows(rows[..i], zone, slot)|
      {
        assert rows[..i + 1][..i] == rows[..i];
        if rows[i].zone == zone && rows[i].slot == slot { count := count + 1; }
      }
      assert rows[..|rows|] == rows;
      r := Ok(count);
    }

    /** Each slot of a zone once, in the order first seen. */
    method ZoneSlots(zone: string) returns (r: Result<seq<int>>)
      ensures var loaded := ReadBack(log.codec, log.Data());
              if loaded.Err? then r == Err(loaded.error) else r.Ok? && FirstSeenOrder(loaded.value, zone, r.value)
    {
      var loaded := log.Load();
      if loaded.Err? { return Err(loaded.error); }
      var rows := loaded.value;
      var slots: seq<int> := [];
      var seen: set<int> := {};
      for i := 0 to |rows|
        invariant forall slot :: slot in slots <==> slot in seen
        invariant FirstSeenOrder(rows[..i], zone, slots)
      {
        assert rows[..i + 1] == rows[..i] + [rows[i]];
        SlotSeen(rows[..i], rows[i], zone, slots);
        ghost var after := SlotsAfter(slots, rows[i], zone);
        if rows[i].zone != zone || rows[i].slot in seen {
          assert after == slots;
          continue;
        }
        assert after == slots + [rows[i].slot];
        seen := seen + {rows[i].slot};
        slots := slots + [rows[i].slot];
      }
      assert rows[..|rows|] == rows;
      r := Ok(slots);
    }
  }

  /** The highest pressure of some rows. */
  method Highest(rows: seq<ReadingRecord>) returns (peak: real)
    requires rows != []
    ensures IsPeak(rows, peak)
  {
    peak := rows[0].mpa;
    PeakExtends([], rows[0], peak);
    assert rows[..1] == [] + [rows[0]];
    for i := 1 to |rows|
      invariant IsPeak(rows[..i], peak)
    {
      assert rows[..i + 1] == rows[..i] + [rows[i]];
      PeakExtends(rows[..i], rows[i], peak);
      if rows[i].mpa > peak { peak := rows[i].mpa; }
    }
    assert rows[..|rows|] == rows;
  }

  class WindowStore {
    const agg: WindowAggregator

    constructor (agg: WindowAggregator)
      ensures this.agg == agg
    {
      this.agg := agg;
    }

    /** The rows of a zone inside a window; rows without a readable timestamp are skipped. */
    method Readings(zone: string, window: Window) returns (r: Result<seq<ReadingRecord>>)
      ensures var loaded := ReadBack(agg.log.codec, agg.log.Data());
              r == if loaded.Err? then Err(loaded.error) else Ok(WindowRows(loaded.value, zone, window))
    {
      var loaded := agg.log.Load();
      if loaded.Err? { return Err(loaded.error); }
      var rows := loaded.value;
      var found: seq<ReadingRecord> := [];
      for i := 0 to |rows|
        invariant found == WindowRows(rows[..i], zone, window)
      {
        assert rows[..i + 1][..i] == rows[..i];
        if rows[i].at.None? { continue; }
        if rows[i].zone == zone && window.Contains(rows[i].at.value) { found := found + [rows[i]]; }
      }
      assert rows[..|rows|] == rows;
      r := Ok(found);
    }

    /** The highest pressure inside a window. */
    method Peak(zone: string, window: Window) returns (r: Result<real>)
      ensures var loaded := ReadBack(agg.log.codec, agg.log.Data());
              if loaded.Err? then r == Err(loaded.error)
              else PeakAnswer(WindowRows(loaded.value, zone, window), r, NoReadings)
    {
      var found := Readings(zone, window);
      if found.Err? { return Err(found.error); }
      if |found.value| == 0 { return Err(NoReadings); }
      var peak := Highest(found.value);
      r := Ok(peak);
    }

    method Record(record: ReadingRecord, stop: Stop) returns (r: Outcome)
      modifies agg.log.store
      ensures agg.log.Data() == Grown(agg.log.codec, old(agg.log.Data()), [Write(record, stop)])
      ensures r == if Kept(stop) then Done else Err(StoreFailed)
      ensures OnlyChanged(old(agg.log.store.files), agg.log.store.files, agg.log.path)
    {
      r := agg.Append(record, stop);
    }
  }

  // The two summaries agree.

  /** The row's slot is the minute of its own timestamp, as the sampler writes it. */
  predicate WellSlotted(r: ReadingRecord) {
    r.at.Some? && r.slot == SlotOf(r.at.value)
  }

  lemma {:induction false} MinuteHoldsSlot(zone: string, slot: int, at: int)
    ensures MinuteWindow(zone, slot).Contains(at) <==> SlotOf(at) == slot
  {
  }

  lemma {:induction false} RowsSelected(rows: seq<ReadingRecord>, zone: string, slot: int, window: Window)
    ensures forall r :: r in SlotRows(rows, zone, slot) <==> r in rows && InSlot(r, zone, slot)
    ensures forall r :: r in WindowRows(rows, zone, window) <==> r in rows && InWindow(r, zone, window)
  {
    if rows != [] {
      var n := |rows| - 1;
      RowsSelected(rows[..n], zone, slot, window);
      assert rows == rows[..n] + [rows[n]];
    }
  }

  lemma {:induction false} SlottedRowsAgree(rows: seq<ReadingRecord>, zone: string, slot: int)
    requires forall r :: r in rows ==> WellSlotted(r)
    ensures SlotRows(rows, zone, slot) == WindowRows(rows, zone, MinuteWindow(zone, slot))
  {
    if rows != [] {
      var n := |rows| - 1;
      assert rows[n] in rows;
      SlottedRowsAgree(rows[..n], zone, slot);
      MinuteHoldsSlot(zone, slot, rows[n].at.value);
    }
  }

  /**
   * Slot and minute window select the same rows, for every zone and minute, exactly when every row
   * carries the minute of its own timestamp.
   */
  lemma {:induction false} SlotAgreesWithWindowIff(rows: seq<ReadingRecord>)
    ensures (forall zone, slot :: SlotRows(rows, zone, slot) == WindowRows(rows, zone, MinuteWindow(zone, slot)))
            <==> (forall r :: r in rows ==> WellSlotted(r))
  {
    if forall r :: r in rows ==> WellSlotted(r) {
      forall zone, slot ensures SlotRows(rows, zone, slot) == WindowRows(rows, zone, MinuteWindow(zone, slot)) {
        SlottedRowsAgree(rows, zone, slot);
      }
    } else if forall zone, slot :: SlotRows(rows, zone, slot) == WindowRows(rows, zone, MinuteWindow(zone, slot)) {
      forall r | r in rows ensures WellSlotted(r) {
        var window := MinuteWindow(r.zone, r.slot);
        RowsSelected(rows, r.zone, r.slot, window);
        assert r in SlotRows(rows, r.zone, r.slot);
        assert r in WindowRows(rows, r.zone, window);
        MinuteHoldsSlot(r.zone, r.slot, r.at.value);
      }
    }
  }

  /** On sampler-written rows the slot peak is the peak of that minute, and the count is what the window returns. */
  lemma {:induction false} PeaksAgree(
      rows: seq<ReadingRecord>, zone: string, slot: int, a: Result<real>, b: Result<real>)
    requires forall r :: r in rows ==> WellSlotted(r)
    requires PeakAnswer(SlotRows(rows, zone, slot), a, NotFound)
    requires PeakAnswer(WindowRows(rows, zone, MinuteWindow(zone, slot)), b, NoReadings)
    ensures a.Ok? == b.Ok? && (a.Ok? ==> a == b)
    ensures |SlotRows(rows, zone, slot)| == |WindowRows(rows, zone, MinuteWindow(zone, slot))|
  {
    SlottedRowsAgree(rows, zone, slot);
    if a.Ok? { PeakUnique(SlotRows(rows, zone, slot), a.value, b.value); }
  }
}
