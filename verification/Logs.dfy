/** Typed append-only logs: one encoded record per line of a file, and what is read back when appends are torn. */
module Logs {
  import opened Results
  import opened Sequences
  import opened Lines
  import opened Files
  import opened Snapshots

  /** Decodes every line; one bad line makes the whole log unreadable. */
  function DecodeAll<T>(codec: Codec<T>, lines: seq<Bytes>): Result<seq<T>> {
    if lines == [] then Ok([])
    else
      var init := DecodeAll(codec, lines[..|lines| - 1]);
      var last := codec.decode(lines[|lines| - 1]);
      if init.Err? || last.None? then Err(DecodeFailed) else Ok(init.value + [last.value])
  }

  /** What reading a log of these bytes returns. */
  function ReadBack<T>(codec: Codec<T>, data: Bytes): Result<seq<T>> {
    DecodeAll(codec, LinesOf(data))
  }

  /** An append succeeds when the whole line was written and the write reported no error. */
  predicate Kept(stop: Stop) {
    stop.Completes? || stop.done > 0
  }

  /** The bytes of a line that an append leaves in the file. */
  function Taken(line: Bytes, stop: Stop): Bytes {
    if Kept(stop) then LineBytes(line) else if stop.Within? then Prefix(LineBytes(line), stop.bytes) else []
  }

  /** One append, whether or not it succeeded. */
  datatype Write<T> = Write(record: T, stop: Stop)

  /** The bytes of a log after some appends, one after the other. */
  function Grown<T>(codec: Codec<T>, data: Bytes, writes: seq<Write<T>>): Bytes {
    if writes == [] then data
    else
      var last := writes[|writes| - 1];
      Grown(codec, data, writes[..|writes| - 1]) + Taken(codec.encode(last.record), last.stop)
  }

  /** The records whose append succeeded. */
  function Records<T>(writes: seq<Write<T>>): seq<T> {
    if writes == [] then []
    else
      var last := writes[|writes| - 1];
      Records(writes[..|writes| - 1]) + if Kept(last.stop) then [last.record] else []
  }

  lemma {:induction false} GrownOne<T>(codec: Codec<T>, data: Bytes, w: Write<T>)
    ensures Grown(codec, data, [w]) == data + Taken(codec.encode(w.record), w.stop)
  {
    assert [w][..0] == [];
  }

  lemma {:induction false} RecordsMore<T>(writes: seq<Write<T>>, w: Write<T>)
    ensures Records(writes + [w]) == Records(writes) + if Kept(w.stop) then [w.record] else []
  {
    assert (writes + [w])[..|writes|] == writes;
  }

  lemma {:induction false} Associates<T>(a: seq<T>, b: seq<T>, c: seq<T>)
    ensures a + b + c == a + (b + c)
  {
  }

  lemma {:induction false} GrownConcat<T>(codec: Codec<T>, data: Bytes, a: seq<Write<T>>, b: seq<Write<T>>)
    ensures Grown(codec, data, a + b) == Grown(codec, Grown(codec, data, a), b)
    decreases |b|
  {
    if b == [] {
      assert a + b == a;
    } else {
      var n := |b| - 1;
      assert (a + b)[..|a| + n] == a + b[..n] && (a + b)[|a| + n] == b[n];
      GrownConcat(codec, data, a, b[..n]);
    }
  }

  lemma {:induction false} RecordsConcat<T>(a: seq<Write<T>>, b: seq<Write<T>>)
    ensures Records(a + b) == Records(a) + Records(b)
    decreases |b|
  {
    if b == [] {
      assert a + b == a && Records(a) + [] == Records(a);
    } else {
      var n := |b| - 1;
      assert (a + b)[..|a| + n] == a + b[..n] && (a + b)[|a| + n] == b[n];
      RecordsConcat(a, b[..n]);
      Associates(Records(a), Records(b[..n]), if Kept(b[n].stop) then [b[n].record] else []);
    }
  }

  /** The bytes of a file; a missing one has none. */
  function BytesAt(disk: Disk, path: Path): Bytes {
    if path in disk then disk[path] else []
  }

  /** What happens to one file leaves every other one as it was. */
  lemma {:induction false} OtherFileKept(before: Disk, after: Disk, path: Path, other: Path)
    requires OnlyChanged(before, after, path) && other != path
    ensures BytesAt(after, other) == BytesAt(before, other)
  {
    assert Content(after, other) == Content(before, other);
  }

  class RecordLog<T> {
    const store: FileStore
    const path: Path
    const codec: Codec<T>

    constructor (store: FileStore, path: Path, codec: Codec<T>)
      ensures this.store == store && this.path == path && this.codec == codec
    {
      this.store, this.path, this.codec := store, path, codec;
    }

    function Data(): Bytes
      reads store
    {
      BytesAt(store.files, path)
    }

    /** `stop` says where an I/O error or a crash ends the write. */
    method Append(record: T, stop: Stop) returns (r: Outcome)
      modifies store
      ensures Data() == Grown(codec, old(Data()), [Write(record, stop)])
      ensures r == if Kept(stop) then Done else Err(StoreFailed)
      ensures OnlyChanged(old(store.files), store.files, path)
    {
      var line := codec.encode(record);
      AppendEffect(store.files, path, line, stop);
      GrownOne(codec, Data(), Write(record, stop));
      r := store.AppendLine(path, line, stop);
    }

    method Load() returns (r: Result<seq<T>>)
      ensures r == ReadBack(codec, Data())
    {
      EmptyLogHasNoLines();
      var lines := store.ReadLines(path);
      r := DecodeLines(codec, lines);
    }
  }

  method DecodeLines<T>(codec: Codec<T>, lines: seq<Bytes>) returns (r: Result<seq<T>>)
    ensures r == DecodeAll(codec, lines)
  {
    var records: seq<T> := [];
    for i := 0 to |lines|
      invariant DecodeAll(codec, lines[..i]) == Ok(records)
    {
      assert lines[..i + 1][..i] == lines[..i];
      var record := codec.decode(lines[i]);
      if record.None? {
        BadPrefix(codec, lines, i + 1);
        return Err(DecodeFailed);
      }
      records := records + [record.value];
    }
    assert lines[..|lines|] == lines;
    r := Ok(records);
  }

  /** What one append does to the disk. */
  lemma {:induction false} AppendEffect(disk: Disk, path: Path, line: Bytes, stop: Stop)
    ensures var effects := [Extend(path, LineBytes(line))]; var end := After(disk, effects, stop);
            && (Reaches(effects, stop) <==> Kept(stop))
            && OnlyChanged(disk, end, path)
            && BytesAt(end, path) == BytesAt(disk, path) + Taken(line, stop)
  {
    var effects := [Extend(path, LineBytes(line))];
    assert effects[..0] == [] && PerformAll(disk, []) == disk;
  }

  lemma {:induction false} EmptyLogHasNoLines()
    ensures LinesOf([]) == []
  {
    assert Split([]) == [[]];
    assert NonBlank([[]]) == NonBlank([]);
  }

  lemma {:induction false} BadPrefix<T>(codec: Codec<T>, lines: seq<Bytes>, n: nat)
    requires n <= |lines| && DecodeAll(codec, lines[..n]).Err?
    ensures DecodeAll(codec, lines) == Err(DecodeFailed)
    decreases |lines|
  {
    if n < |lines| {
      assert lines[..|lines| - 1][..n] == lines[..n];
      BadPrefix(codec, lines[..|lines| - 1], n);
    } else {
      assert lines[..n] == lines;
    }
  }

  lemma {:induction false} DecodeConcat<T>(codec: Codec<T>, a: seq<Bytes>, b: seq<Bytes>)
    ensures DecodeAll(codec, a + b)
            == if DecodeAll(codec, a).Err? || DecodeAll(codec, b).Err? then Err(DecodeFailed)
               else Ok(DecodeAll(codec, a).value + DecodeAll(codec, b).value)
    decreases |b|
  {
    if b == [] {
      assert a + b == a && a[..|a|] == a;
      if DecodeAll(codec, a).Err? {
        BadPrefix(codec, a, |a|);
      } else {
        assert DecodeAll(codec, a).value + [] == DecodeAll(codec, a).value;
      }
    } else {
      var n := |b| - 1;
      assert (a + b)[..|a| + n] == a + b[..n] && (a + b)[|a| + n] == b[n];
      DecodeConcat(codec, a, b[..n]);
      var u, v, w := DecodeAll(codec, a), DecodeAll(codec, b[..n]), codec.decode(b[n]);
      if u.Ok? && v.Ok? && w.Some? { assert u.value + v.value + [w.value] == u.value + (v.value + [w.value]); }
    }
  }

  lemma {:induction false} DecodeCounts<T>(codec: Codec<T>, lines: seq<Bytes>)
    ensures DecodeAll(codec, lines).Ok? ==> |DecodeAll(codec, lines).value| == |lines|
  {
    if lines != [] { DecodeCounts(codec, lines[..|lines| - 1]); }
  }

  lemma {:induction false} DecodeOne<T>(codec: Codec<T>, line: Bytes)
    ensures DecodeAll(codec, [line])
            == if codec.decode(line).None? then Err(DecodeFailed) else Ok([codec.decode(line).value])
  {
    assert [line][..0] == [];
    var last := codec.decode(line);
    if last.Some? { assert [] + [last.value] == [last.value]; }
  }

  // What is read back.

  /** This record survives encoding, and its encoding is one line that begins with a visible byte. */
  predicate OnePerLine<T(==)>(codec: Codec<T>, record: T) {
    var line := codec.encode(record);
    Survives(codec, record) && NEWLINE !in line && line != [] && !IsSpace(line[0])
  }

  /** This record with visible bytes glued before it is not read as itself. */
  ghost predicate Unmistakable<T>(codec: Codec<T>, record: T) {
    forall p :: p != [] && !IsSpace(p[0]) ==> codec.decode(p + codec.encode(record)) != Some(record)
  }

  /** Every appended record is one line. */
  predicate AllLines<T(==)>(codec: Codec<T>, writes: seq<Write<T>>) {
    forall i :: 0 <= i < |writes| ==> OnePerLine(codec, writes[i].record)
  }

  /** What these appends ask of the encoding. */
  ghost predicate AllLoggable<T>(codec: Codec<T>, writes: seq<Write<T>>) {
    forall i :: 0 <= i < |writes| ==> OnePerLine(codec, writes[i].record) && Unmistakable(codec, writes[i].record)
  }

  /** The log plus one line more. */
  function Extended<T>(before: Result<seq<T>>, last: Option<T>): Result<seq<T>> {
    if before.Err? || last.None? then Err(DecodeFailed) else Ok(before.value + [last.value])
  }

  lemma {:induction false} ExtendedDiffers<T>(before: Result<seq<T>>, last: Option<T>)
    requires before.Ok?
    ensures Extended(before, last) != before
  {
    if last.Some? { assert |before.value + [last.value]| != |before.value|; }
  }

  /**
   * One append on a log of whole lines, cut anywhere: the log still consists of whole lines exactly when nothing or
   * everything with its newline was written, and a reader sees nothing, the record, or what the cut line decodes to.
   */
  lemma {:induction false} ReadAfterAppend<T>(codec: Codec<T>, data: Bytes, record: T, stop: Stop)
    requires OnePerLine(codec, record) && Terminated(data)
    ensures var line := codec.encode(record); var taken := Taken(line, stop); var before := ReadBack(codec, data);
            && (Terminated(data + taken) <==> taken == [] || |taken| > |line|)
            && ReadBack(codec, data + taken)
               == (if taken == [] then before
                   else if |taken| >= |line| then Extended(before, Some(record))
                   else Extended(before, codec.decode(line[..|taken|])))
  {
    var line := codec.encode(record);
    var taken := Taken(line, stop);
    assert LineBytes(line) == line + [NEWLINE];
    assert taken == (line + [NEWLINE])[..|taken|];
    TornAppend(data, line, |taken|);
    if taken == [] {
      assert data + taken == data;
    } else {
      var seen := if |taken| <= |line| then line[..|taken|] else line;
      assert |taken| == |line| ==> seen == line;
      DecodeOne(codec, seen);
      DecodeConcat(codec, LinesOf(data), [seen]);
    }
  }

  /** A failed append goes unnoticed by readers exactly when it left no byte. */
  lemma {:induction false} FailedAppendUnseenIff<T>(codec: Codec<T>, data: Bytes, record: T, stop: Stop)
    requires OnePerLine(codec, record) && Terminated(data) && ReadBack(codec, data).Ok? && !Kept(stop)
    ensures var taken := Taken(codec.encode(record), stop);
            ReadBack(codec, data + taken) == ReadBack(codec, data) <==> taken == []
  {
    ReadAfterAppend(codec, data, record, stop);
    var line := codec.encode(record);
    var taken := Taken(line, stop);
    if taken != [] {
      ExtendedDiffers(ReadBack(codec, data), if |taken| >= |line| then Some(record) else codec.decode(line[..|taken|]));
    }
  }

  // Any number of appends, each cut anywhere.

  predicate EndsLine<T>(codec: Codec<T>, w: Write<T>) {
    |Taken(codec.encode(w.record), w.stop)| > |codec.encode(w.record)|
  }

  /** The bytes after the last newline the appends wrote. */
  function Rest<T>(codec: Codec<T>, writes: seq<Write<T>>): Bytes {
    if writes == [] then []
    else
      var last := writes[|writes| - 1];
      if EndsLine(codec, last) then []
      else Rest(codec, writes[..|writes| - 1]) + Taken(codec.encode(last.record), last.stop)
  }

  /** The lines the appends ended; a torn line runs into the next. */
  function Ended<T>(codec: Codec<T>, writes: seq<Write<T>>): seq<Bytes> {
    if writes == [] then []
    else
      var before, last := writes[..|writes| - 1], writes[|writes| - 1];
      Ended(codec, before) + if EndsLine(codec, last) then [Rest(codec, before) + codec.encode(last.record)] else []
  }

  /** The bytes up to the last newline; before the appends there were only whole lines. */
  function Head<T>(codec: Codec<T>, data: Bytes, writes: seq<Write<T>>): Bytes {
    if writes == [] then data
    else if EndsLine(codec, writes[|writes| - 1]) then Grown(codec, data, writes)
    else Head(codec, data, writes[..|writes| - 1])
  }

  /** A line that ends after some bytes without a newline. */
  lemma {:induction false} ReadEndedLine(whole: Bytes, rest: Bytes, line: Bytes)
    requires Terminated(whole) && NEWLINE !in rest && (rest != [] ==> !IsSpace(rest[0]))
    requires NEWLINE !in line && line != [] && !IsSpace(line[0])
    ensures var all := whole + rest + (line + [NEWLINE]);
            Terminated(all) && LinesOf(all) == LinesOf(whole) + [rest + line]
  {
    assert whole + rest + (line + [NEWLINE]) == whole + (rest + line + [NEWLINE]);
    assert rest != [] ==> (rest + line)[0] == rest[0];
    assert rest == [] ==> rest + line == line;
    ReadWholeLine(whole, rest + line);
  }

  /** A line of visible start, added to whole lines. */
  lemma {:induction false} ReadWholeLine(data: Bytes, line: Bytes)
    requires Terminated(data) && NEWLINE !in line && line != [] && !IsSpace(line[0])
    ensures Terminated(data + (line + [NEWLINE])) && LinesOf(data + (line + [NEWLINE])) == LinesOf(data) + [line]
    ensures LinesOf(data + line) == LinesOf(data) + [line]
  {
    PrefixNotBlank(line, |line|);
    assert line[..|line|] == line;
    ReadApart(data, line + [NEWLINE]);
    ReadApart(data, line);
    ReadLine(line);
  }

  lemma {:induction false} TakenShape<T>(codec: Codec<T>, w: Write<T>)
    requires OnePerLine(codec, w.record)
    ensures var line := codec.encode(w.record); var taken := Taken(line, w.stop);
            && (EndsLine(codec, w) ==> taken == line + [NEWLINE])
            && (!EndsLine(codec, w) ==> NEWLINE !in taken && (taken != [] ==> !IsSpace(taken[0])))
            && (Kept(w.stop) ==> EndsLine(codec, w))
  {
    var line := codec.encode(w.record);
    assert LineBytes(line) == line + [NEWLINE];
    var taken := Taken(line, w.stop);
    assert taken == (line + [NEWLINE])[..|taken|];
    assert !EndsLine(codec, w) ==> taken == line[..|taken|];
  }

  /** The shape of a log after one more line ended. */
  lemma {:induction false} ShapeEnds(lines: seq<Bytes>, whole: Bytes, rest: Bytes, ended: seq<Bytes>, line: Bytes)
    requires Terminated(whole) && LinesOf(whole) == lines + ended
    requires NEWLINE !in rest && (rest != [] ==> !IsSpace(rest[0]))
    requires NEWLINE !in line && line != [] && !IsSpace(line[0])
    ensures var all := whole + rest + (line + [NEWLINE]);
            all + [] == all && Terminated(all) && LinesOf(all) == lines + (ended + [rest + line])
  {
    ReadEndedLine(whole, rest, line);
    Associates(lines, ended, [rest + line]);
  }

  lemma {:induction false} WritesShape<T>(codec: Codec<T>, data: Bytes, writes: seq<Write<T>>)
    requires AllLines(codec, writes) && Terminated(data)
    ensures var rest := Rest(codec, writes); var whole := Head(codec, data, writes);
            && Grown(codec, data, writes) == whole + rest
            && NEWLINE !in rest && (rest != [] ==> !IsSpace(rest[0]))
            && Terminated(whole) && LinesOf(whole) == LinesOf(data) + Ended(codec, writes)
  {
    if writes == [] {
      assert data + [] == data && LinesOf(data) + [] == LinesOf(data);
    } else {
      var before, last := writes[..|writes| - 1], writes[|writes| - 1];
      var taken := Taken(codec.encode(last.record), last.stop);
      WritesShape(codec, data, before);
      TakenShape(codec, last);
      if EndsLine(codec, last) {
        ShapeEnds(LinesOf(data), Head(codec, data, before), Rest(codec, before), Ended(codec, before),
                  codec.encode(last.record));
      } else {
        Associates(Head(codec, data, before), Rest(codec, before), taken);
        assert Ended(codec, before) + [] == Ended(codec, before);
      }
    }
  }

  /** Every append that failed left no byte. */
  predicate NoTear<T>(codec: Codec<T>, writes: seq<Write<T>>) {
    forall i :: 0 <= i < |writes| && !Kept(writes[i].stop) ==>
        Taken(codec.encode(writes[i].record), writes[i].stop) == []
  }

  lemma {:induction false} NoTearMore<T>(codec: Codec<T>, writes: seq<Write<T>>, w: Write<T>)
    ensures NoTear(codec, writes + [w])
            <==> NoTear(codec, writes) && (!Kept(w.stop) ==> Taken(codec.encode(w.record), w.stop) == [])
  {
    assert (writes + [w])[|writes|] == w;
    assert forall i :: 0 <= i < |writes| ==> (writes + [w])[i] == writes[i];
  }

  /** Ending one more line, with or without success, where `rest` was left before it. */
  lemma {:induction false} EndedLineIsRecordIff<T>(
      codec: Codec<T>, ended: seq<Bytes>, records: seq<T>, rest: Bytes, record: T, kept: bool)
    requires Survives(codec, record) && Unmistakable(codec, record)
    requires |ended| >= |records| && (rest != [] ==> !IsSpace(rest[0]))
    ensures DecodeAll(codec, ended + [rest + codec.encode(record)]) == Ok(records + if kept then [record] else [])
            <==> kept && rest == [] && DecodeAll(codec, ended) == Ok(records)
  {
    var line := rest + codec.encode(record);
    var all := ended + [line];
    assert all[..|ended|] == ended;
    DecodeCounts(codec, all);
    if kept {
      assert rest == [] ==> line == codec.encode(record);
      if DecodeAll(codec, all) == Ok(records + [record]) {
        var init, last := DecodeAll(codec, ended), codec.decode(line);
        SameSnoc(init.value, last.value, records, record);
      }
    } else {
      assert records + [] == records;
    }
  }

  lemma {:induction false} SameSnoc<T>(a: seq<T>, x: T, b: seq<T>, y: T)
    requires a + [x] == b + [y]
    ensures a == b && x == y
  {
    assert a == (a + [x])[..|a|] && b == (b + [y])[..|b|] && |a + [x]| == |b + [y]|;
    assert x == (a + [x])[|a|] && y == (b + [y])[|b|];
  }

  lemma {:induction false} EndedLinesAreRecordsIff<T>(codec: Codec<T>, writes: seq<Write<T>>)
    requires AllLoggable(codec, writes)
    ensures |Ended(codec, writes)| >= |Records(writes)|
    ensures NoTear(codec, writes)
            <==> Rest(codec, writes) == [] && DecodeAll(codec, Ended(codec, writes)) == Ok(Records(writes))
  {
    if writes != [] {
      var before, last := writes[..|writes| - 1], writes[|writes| - 1];
      assert writes == before + [last];
      EndedLinesAreRecordsIff(codec, before);
      NoTearMore(codec, before, last);
      TakenShape(codec, last);
      if EndsLine(codec, last) {
        WritesShape(codec, [], before);
        EndedLineIsRecordIff(codec, Ended(codec, before), Records(before), Rest(codec, before), last.record,
                             Kept(last.stop));
      } else {
        assert Ended(codec, before) + [] == Ended(codec, before) && Records(before) + [] == Records(before);
      }
    }
  }

  /** A log reads back as exactly the records whose append succeeded if and only if no failed append left a byte. */
  lemma {:induction false} ReadsRecordsIff<T>(codec: Codec<T>, data: Bytes, writes: seq<Write<T>>)
    requires AllLoggable(codec, writes) && Terminated(data) && ReadBack(codec, data).Ok?
    ensures ReadBack(codec, Grown(codec, data, writes)) == Ok(ReadBack(codec, data).value + Records(writes))
            <==> NoTear(codec, writes)
  {
    var rows, rest, ended := ReadBack(codec, data).value, Rest(codec, writes), Ended(codec, writes);
    WritesShape(codec, data, writes);
    EndedLinesAreRecordsIff(codec, writes);
    DecodeConcat(codec, LinesOf(data), ended);
    DecodeCounts(codec, LinesOf(data));
    DecodeCounts(codec, ended);
    if rest == [] {
      assert Head(codec, data, writes) + rest == Head(codec, data, writes);
      if ReadBack(codec, Grown(codec, data, writes)) == Ok(rows + Records(writes)) {
        assert (rows + DecodeAll(codec, ended).value)[|rows|..] == (rows + Records(writes))[|rows|..];
      }
    } else {
      ReadWholeLine(Head(codec, data, writes), rest);
      DecodeCounts(codec, LinesOf(data) + ended + [rest]);
    }
  }

  // Such encodings exist for any finite list of records, whatever values they hold.

  /** A line of `n` letters. */
  function Letters(n: nat): (line: Bytes)
    ensures |line| == n && forall i :: 0 <= i < n ==> line[i] == 65
  {
    seq(n, _ => 65)
  }

  /** Reads a line of letters as the record that first stands at that place. */
  function AtPlace<T(==)>(records: seq<T>, line: Bytes): Option<T> {
    var k := |line| - 1;
    if 0 <= k < |records| && line == Letters(|line|) && Lookup(records, records[k]) == k then Some(records[k]) else None
  }

  /** An encoding by place in a list. */
  function PlaceCodec<T(==)>(records: seq<T>): Codec<T> {
    Codec(record => Letters(Lookup(records, record) + 1), line => AtPlace(records, line))
  }

  lemma {:induction false} PlaceCodecLogs<T>(records: seq<T>, record: T)
    requires record in records
    ensures OnePerLine(PlaceCodec(records), record) && Unmistakable(PlaceCodec(records), record)
  {
    var codec := PlaceCodec(records);
    var k := Lookup(records, record);
    assert k < |records| by {
      var i :| 0 <= i < |records| && records[i] == record;
    }
    assert codec.decode(codec.encode(record)) == Some(record);
    forall p | p != [] && !IsSpace(p[0]) ensures codec.decode(p + codec.encode(record)) != Some(record) {
      var longer := |p + codec.encode(record)| - 1;
      assert longer > k;
    }
  }

  /** The conditions on an encoding can be met: any appends have an encoding that meets them. */
  lemma {:induction false} LoggableCodecExists<T>(writes: seq<Write<T>>)
    ensures exists codec :: AllLoggable(codec, writes)
  {
    var records := seq(|writes|, i requires 0 <= i < |writes| => writes[i].record);
    forall i | 0 <= i < |writes|
      ensures OnePerLine(PlaceCodec(records), writes[i].record) && Unmistakable(PlaceCodec(records), writes[i].record)
    {
      assert records[i] in records;
      PlaceCodecLogs(records, writes[i].record);
    }
    assert AllLoggable(PlaceCodec(records), writes);
  }
}
