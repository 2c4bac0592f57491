/** The live snapshot, its rotation into archives, and what a recovery reads back. */
module Snapshots {
  import opened Results
  import opened Lines
  import opened Files
  import Strings

  /** Encoding of a state as bytes; decoding may fail on foreign or truncated bytes. */
  datatype Codec<!S> = Codec(encode: S -> Bytes, decode: Bytes -> Option<S>)

  /** This value survives encoding. */
  predicate Survives<S(==)>(codec: Codec<S>, s: S) {
    codec.decode(codec.encode(s)) == Some(s)
  }

  const ROOT := ""
  const ARCHIVES := "snapshots"
  const LIVE := Path(ROOT, "state.json")

  function Archive(name: string): Path {
    Path(ARCHIVES, name)
  }

  /** Copy the live file into an archive, then remove it; nothing when there is no live file. */
  function RotateEffects(disk: Disk, name: string): seq<Effect> {
    if LIVE in disk then WriteEffects(Archive(name), disk[LIVE]) + [Delete(LIVE)] else []
  }

  predicate Readable<S>(disk: Disk, codec: Codec<S>, name: string) {
    Archive(name) in disk && codec.decode(disk[Archive(name)]).Some?
  }

  ghost predicate IsNewest<S>(disk: Disk, codec: Codec<S>, name: string) {
    Readable(disk, codec, name) && forall other :: Readable(disk, codec, other) ==> Strings.AtMost(other, name)
  }

  lemma {:induction false} NewestUnique<S>(disk: Disk, codec: Codec<S>, a: string, b: string)
    requires IsNewest(disk, codec, a) && IsNewest(disk, codec, b)
    ensures a == b
  {
    Strings.AtMostAntisymmetric(a, b);
  }

  /** The newest readable archive, else the live file, else nothing. */
  ghost function LatestOf<S>(disk: Disk, codec: Codec<S>): Result<Option<S>> {
    if exists name :: IsNewest(disk, codec, name) then
      var name :| IsNewest(disk, codec, name);
      Ok(codec.decode(disk[Archive(name)]))
    else if LIVE in disk then
      if codec.decode(disk[LIVE]).None? then Err(DecodeFailed) else Ok(codec.decode(disk[LIVE]))
    else Ok(None)
  }

  lemma {:induction false} LatestIsNewest<S>(disk: Disk, codec: Codec<S>, name: string)
    requires IsNewest(disk, codec, name)
    ensures LatestOf(disk, codec) == Ok(codec.decode(disk[Archive(name)]))
  {
    var chosen :| IsNewest(disk, codec, chosen) && LatestOf(disk, codec) == Ok(codec.decode(disk[Archive(chosen)]));
    NewestUnique(disk, codec, chosen, name);
  }

  /** Without a readable archive: the live file, an error if it cannot be read, nothing if there is none. */
  lemma {:induction false} LatestWithoutArchive<S>(disk: Disk, codec: Codec<S>)
    requires forall name :: !Readable(disk, codec, name)
    ensures LIVE !in disk ==> LatestOf(disk, codec) == Ok(None)
    ensures LIVE in disk ==>
              var state := codec.decode(disk[LIVE]);
              if state.Some? then LatestOf(disk, codec) == Ok(state) else LatestOf(disk, codec) == Err(DecodeFailed)
  {
    forall name ensures !IsNewest(disk, codec, name) {
      assert !Readable(disk, codec, name);
    }
  }

  class SnapshotService<S(==)> {
    const store: FileStore
    const codec: Codec<S>

    constructor (store: FileStore, codec: Codec<S>)
      ensures this.store == store && this.codec == codec
    {
      this.store, this.codec := store, codec;
    }

    method Write(state: S, stop: Stop) returns (r: Outcome)
      modifies store
      ensures store.files == After(old(store.files), WriteEffects(LIVE, codec.encode(state)), stop)
      ensures r == if Reaches(WriteEffects(LIVE, codec.encode(state)), stop) then Done else Err(StoreFailed)
    {
      r := store.WriteBytes(LIVE, codec.encode(state), stop);
    }

    /** `name` is the archive name made from the clock. */
    method Rotate(name: string, stop: Stop) returns (r: Outcome)
      modifies store
      ensures store.files == After(old(store.files), RotateEffects(old(store.files), name), stop)
      ensures r == if Reaches(RotateEffects(old(store.files), name), stop) then Done else Err(StoreFailed)
    {
      var live := store.Exists(LIVE);
      if !live { return Done; }
      var data := store.ReadBytes(LIVE);
      RotateSteps(store.files, name, stop);
      r := store.WriteBytes(Archive(name), data.value, stop);
      if r.Err? { return; }
      if !stop.Completes? && stop.done == 2 { return Err(StoreFailed); }
      store.Remove(LIVE);
    }

    /** Archives from the greatest name down, then the live file. */
    method Latest() returns (r: Result<Option<S>>)
      ensures r == LatestOf(store.files, codec)
    {
      ghost var disk := store.files;
      var names := store.ListNames(ARCHIVES);
      var i := |names|;
      while i > 0
        invariant 0 <= i <= |names|
        invariant forall j :: i <= j < |names| ==> !Readable(disk, codec, names[j])
      {
        i := i - 1;
        assert names[i] in names;
        var data := store.ReadBytes(Archive(names[i]));
        var state := codec.decode(data.value);
        if state.Some? {
          NewestFromSorted(disk, codec, names, i);
          LatestIsNewest(disk, codec, names[i]);
          return Ok(state);
        }
      }
      forall name ensures !Readable(disk, codec, name) {
        if Archive(name) in disk { assert name in names; }
      }
      var live := store.Exists(LIVE);
      if !live { return Ok(None); }
      var data := store.ReadBytes(LIVE);
      var state := codec.decode(data.value);
      r := if state.None? then Err(DecodeFailed) else Ok(state);
    }
  }

  lemma {:induction false} NewestFromSorted<S>(disk: Disk, codec: Codec<S>, names: seq<string>, i: nat)
    requires Strings.Sorted(names) && i < |names| && Readable(disk, codec, names[i])
    requires forall name :: Archive(name) in disk ==> name in names
    requires forall j :: i < j < |names| ==> !Readable(disk, codec, names[j])
    ensures IsNewest(disk, codec, names[i])
  {
    forall other | Readable(disk, codec, other) ensures Strings.AtMost(other, names[i]) {
      var j :| 0 <= j < |names| && names[j] == other;
      if j == i { Strings.AtMostTotal(other, other); }
    }
  }

  lemma {:induction false} RotateSteps(disk: Disk, name: string, stop: Stop)
    requires LIVE in disk
    ensures var effects := RotateEffects(disk, name); var write := WriteEffects(Archive(name), disk[LIVE]);
            && |effects| == 3
            && PerformAll(disk, effects) == Perform(PerformAll(disk, write), Delete(LIVE))
            && (!Reaches(effects, stop) && stop.done == 2 ==> After(disk, effects, stop) == PerformAll(disk, write))
            && (!Reaches(write, stop) ==> After(disk, effects, stop) == After(disk, write, stop))
  {
    var effects, write := RotateEffects(disk, name), WriteEffects(Archive(name), disk[LIVE]);
    assert effects[..2] == write;
    if !Reaches(write, stop) { assert effects[..stop.done] == write[..stop.done]; }
  }

  /** At every point of a rotation the old snapshot is whole, live or archived; other archives stay. */
  lemma {:induction false} RotateNeverLoses(disk: Disk, name: string, stop: Stop)
    requires LIVE in disk
    ensures var end := After(disk, RotateEffects(disk, name), stop);
            && (if Reaches(RotateEffects(disk, name), stop)
                then LIVE !in end && Content(end, Archive(name)) == Some(disk[LIVE])
                     && Temporary(Archive(name)) !in end
                else Content(end, LIVE) == Some(disk[LIVE]))
            && (forall other :: other != name && other != name + ".tmp" ==>
                  Content(end, Archive(other)) == Content(disk, Archive(other)))
  {
    var write := WriteEffects(Archive(name), disk[LIVE]);
    RotateSteps(disk, name, stop);
    WriteIsAtomic(disk, Archive(name), disk[LIVE], stop);
    WriteIsAtomic(disk, Archive(name), disk[LIVE], Completes);
    WriteStates(disk, Archive(name), disk[LIVE], Completes);
    TemporaryDiffers(Archive(name));
  }

  // Every run of saves and rotations, each cut short anywhere, from an empty directory.

  datatype Task<S> = Save(state: S, stop: Stop) | Rotate(name: string, stop: Stop)

  function Step<S>(disk: Disk, codec: Codec<S>, task: Task<S>): Disk {
    match task
    case Save(state, stop) => After(disk, WriteEffects(LIVE, codec.encode(state)), stop)
    case Rotate(name, stop) => After(disk, RotateEffects(disk, name), stop)
  }

  function DiskAfter<S>(codec: Codec<S>, tasks: seq<Task<S>>): Disk {
    if tasks == [] then map[] else Step(DiskAfter(codec, tasks[..|tasks| - 1]), codec, tasks[|tasks| - 1])
  }

  /** The state of the last save that reached its rename. */
  function LastSaved<S>(tasks: seq<Task<S>>): Option<S> {
    if tasks == [] then None
    else
      var last := tasks[|tasks| - 1];
      if last.Save? && (last.stop.Completes? || last.stop.done >= 2) then Some(last.state)
      else LastSaved(tasks[..|tasks| - 1])
  }

  /** The clock does not run back: no archive is above the new name, but for leftovers of that very name. */
  ghost predicate NameIsNewest(disk: Disk, name: string) {
    forall other :: Archive(other) in disk ==> Strings.AtMost(other, name) || other == name + ".tmp"
  }

  ghost predicate NamesAdvance<S>(codec: Codec<S>, tasks: seq<Task<S>>) {
    tasks == [] ||
    (NamesAdvance(codec, tasks[..|tasks| - 1]) &&
     var last := tasks[|tasks| - 1];
     last.Rotate? ==> NameIsNewest(DiskAfter(codec, tasks[..|tasks| - 1]), last.name))
  }

  ghost predicate HeldByNewest(disk: Disk, data: Bytes, name: string) {
    Content(disk, Archive(name)) == Some(data) && forall other :: Archive(other) in disk ==> Strings.AtMost(other, name)
  }

  /** The last saved state is the live file or, without a live file, the archive of greatest name. */
  ghost predicate Holds<S>(disk: Disk, codec: Codec<S>, last: Option<S>) {
    match last
    case None => LIVE !in disk && forall name :: Archive(name) !in disk
    case Some(s) =>
      if LIVE in disk then disk[LIVE] == codec.encode(s)
      else exists name :: HeldByNewest(disk, codec.encode(s), name)
  }

  lemma {:induction false} SaveHolds<S>(disk: Disk, codec: Codec<S>, last: Option<S>, state: S, stop: Stop)
    requires Holds(disk, codec, last)
    ensures var write := WriteEffects(LIVE, codec.encode(state));
            Holds(After(disk, write, stop), codec, if Reaches(write, stop) then Some(state) else last)
  {
    var write := WriteEffects(LIVE, codec.encode(state));
    var end := After(disk, write, stop);
    WriteIsAtomic(disk, LIVE, codec.encode(state), stop);
    assert Temporary(LIVE).dir == ROOT && ROOT != ARCHIVES by { assert |ROOT| != |ARCHIVES|; }
    assert forall name :: Content(end, Archive(name)) == Content(disk, Archive(name));
    if !Reaches(write, stop) && last.Some? && LIVE !in disk {
      var name :| HeldByNewest(disk, codec.encode(last.value), name);
      assert HeldByNewest(end, codec.encode(last.value), name) by {
        forall other | Archive(other) in end ensures Strings.AtMost(other, name) {
          assert Content(end, Archive(other)) == Content(disk, Archive(other));
        }
      }
    }
  }

  lemma {:induction false} RotateHolds<S>(disk: Disk, codec: Codec<S>, last: Option<S>, name: string, stop: Stop)
    requires Holds(disk, codec, last) && NameIsNewest(disk, name)
    ensures Holds(After(disk, RotateEffects(disk, name), stop), codec, last)
  {
    var end := After(disk, RotateEffects(disk, name), stop);
    if LIVE in disk {
      RotateNeverLoses(disk, name, stop);
      if Reaches(RotateEffects(disk, name), stop) {
        assert HeldByNewest(end, disk[LIVE], name) by {
          forall other | Archive(other) in end ensures Strings.AtMost(other, name) {
            Strings.AtMostTotal(name, name);
            assert Archive(other) == Temporary(Archive(name)) <==> other == name + ".tmp";
            if other != name { assert Content(end, Archive(other)) == Content(disk, Archive(other)); }
          }
        }
      }
    } else {
      assert end == disk;
    }
  }

  /** Over every run, wherever each save and rotation is cut short, the last saved state is held in full. */
  lemma {:induction false} RunKeepsLast<S>(codec: Codec<S>, tasks: seq<Task<S>>)
    requires NamesAdvance(codec, tasks)
    ensures Holds(DiskAfter(codec, tasks), codec, LastSaved(tasks))
  {
    if tasks != [] {
      var before := tasks[..|tasks| - 1];
      RunKeepsLast(codec, before);
      match tasks[|tasks| - 1]
      case Save(state, stop) => SaveHolds(DiskAfter(codec, before), codec, LastSaved(before), state, stop);
      case Rotate(name, stop) => RotateHolds(DiskAfter(codec, before), codec, LastSaved(before), name, stop);
    }
  }

  /** After a rotation that completes, a recovery returns the state last saved. */
  lemma {:induction false} LatestAfterRotate<S>(codec: Codec<S>, tasks: seq<Task<S>>, name: string)
    requires NamesAdvance(codec, tasks + [Rotate(name, Completes)])
    requires LastSaved(tasks).Some? ==> Survives(codec, LastSaved(tasks).value)
    ensures LatestOf(DiskAfter(codec, tasks + [Rotate(name, Completes)]), codec) == Ok(LastSaved(tasks))
  {
    var all := tasks + [Rotate(name, Completes)];
    assert all[..|all| - 1] == tasks;
    RunKeepsLast(codec, all);
    var disk, end := DiskAfter(codec, tasks), DiskAfter(codec, all);
    if LIVE in disk { RotateNeverLoses(disk, name, Completes); }
    HeldIsLatest(end, codec, LastSaved(all));
  }

  lemma {:induction false} HeldIsLatest<S>(disk: Disk, codec: Codec<S>, last: Option<S>)
    requires (last.Some? ==> Survives(codec, last.value)) && LIVE !in disk && Holds(disk, codec, last)
    ensures LatestOf(disk, codec) == Ok(last)
  {
    if last.Some? {
      var name :| HeldByNewest(disk, codec.encode(last.value), name);
      assert IsNewest(disk, codec, name);
      LatestIsNewest(disk, codec, name);
    }
  }

  /** What `Latest` returns on a disk that holds a saved state. */
  lemma {:induction false} HeldLatestIff<S>(disk: Disk, codec: Codec<S>, last: S)
    requires Survives(codec, last) && Holds(disk, codec, Some(last))
    ensures LatestOf(disk, codec) == Ok(Some(last))
            <==> (LIVE !in disk
                  || (forall name :: !IsNewest(disk, codec, name))
                  || (exists name :: IsNewest(disk, codec, name)
                                     && codec.decode(disk[Archive(name)]) == codec.decode(disk[LIVE])))
  {
    if LIVE !in disk {
      HeldIsLatest(disk, codec, Some(last));
    } else if name :| IsNewest(disk, codec, name) {
      LatestIsNewest(disk, codec, name);
      forall other | IsNewest(disk, codec, other) ensures other == name { NewestUnique(disk, codec, other, name); }
    }
  }

  /**
   * Whenever a state was saved, recovery returns the last one exactly when there is no live file, or no archive
   * can be read, or the newest readable archive holds the same state as the live file.
   */
  lemma {:induction false} LatestIsLastIff<S>(codec: Codec<S>, tasks: seq<Task<S>>)
    requires NamesAdvance(codec, tasks) && LastSaved(tasks).Some? && Survives(codec, LastSaved(tasks).value)
    ensures var disk := DiskAfter(codec, tasks);
            LatestOf(disk, codec) == Ok(LastSaved(tasks))
            <==> (LIVE !in disk
                  || (forall name :: !IsNewest(disk, codec, name))
                  || (exists name :: IsNewest(disk, codec, name)
                                     && codec.decode(disk[Archive(name)]) == codec.decode(disk[LIVE])))
  {
    RunKeepsLast(codec, tasks);
    HeldLatestIff(DiskAfter(codec, tasks), codec, LastSaved(tasks).value);
  }

  lemma {:induction false} HeldLiveFirst<S>(disk: Disk, codec: Codec<S>, last: Option<S>)
    requires (last.Some? ==> Survives(codec, last.value)) && Holds(disk, codec, last)
    ensures (if LIVE in disk then Ok(codec.decode(disk[LIVE])) else LatestOf(disk, codec)) == Ok(last)
  {
    if LIVE !in disk { HeldIsLatest(disk, codec, last); }
  }

  /** Reading the live file first would always return the last saved state. */
  lemma {:induction false} LiveFirstIsLast<S>(codec: Codec<S>, tasks: seq<Task<S>>)
    requires NamesAdvance(codec, tasks) && (LastSaved(tasks).Some? ==> Survives(codec, LastSaved(tasks).value))
    ensures var disk := DiskAfter(codec, tasks);
            (if LIVE in disk then Ok(codec.decode(disk[LIVE])) else LatestOf(disk, codec)) == Ok(LastSaved(tasks))
  {
    RunKeepsLast(codec, tasks);
    HeldLiveFirst(DiskAfter(codec, tasks), codec, LastSaved(tasks));
  }

  /** Save, rotate, save again: recovery returns the first state, not the one last saved. */
  lemma {:induction false} LatestMayBeStale<S>(codec: Codec<S>, older: S, newer: S, name: string)
    requires Survives(codec, older) && older != newer
    ensures var tasks := [Save(older, Completes), Rotate(name, Completes), Save(newer, Completes)];
            && LastSaved(tasks) == Some(newer)
            && LatestOf(DiskAfter(codec, tasks), codec) == Ok(Some(older))
  {
    var none: seq<Task<S>> := [];
    var first := none + [Save(older, Completes)];
    var second := first + [Rotate(name, Completes)];
    var tasks := second + [Save(newer, Completes)];
    assert tasks == [Save(older, Completes), Rotate(name, Completes), Save(newer, Completes)];
    assert first[..0] == none && second[..1] == first && tasks[..2] == second;
    WriteIsAtomic(DiskAfter(codec, none), LIVE, codec.encode(older), Completes);
    var disk := DiskAfter(codec, first);
    assert Temporary(LIVE).dir == ROOT && ROOT != ARCHIVES by { assert |ROOT| != |ARCHIVES|; }
    assert Content(disk, LIVE) == Some(codec.encode(older));
    assert NameIsNewest(disk, name) by {
      forall n ensures Archive(n) !in disk {
        assert Content(disk, Archive(n)) == Content(DiskAfter(codec, none), Archive(n));
      }
    }
    assert NamesAdvance(codec, first) && NamesAdvance(codec, second);
    RunKeepsLast(codec, second);
    RotateNeverLoses(disk, name, Completes);
    var end := DiskAfter(codec, tasks);
    WriteIsAtomic(DiskAfter(codec, second), LIVE, codec.encode(newer), Completes);
    var held :| HeldByNewest(DiskAfter(codec, second), codec.encode(older), held);
    assert forall n :: Content(end, Archive(n)) == Content(DiskAfter(codec, second), Archive(n));
    assert IsNewest(end, codec, held) by {
      forall other | Readable(end, codec, other) ensures Strings.AtMost(other, held) {
        assert Content(end, Archive(other)).Some?;
      }
    }
    LatestIsNewest(end, codec, held);
  }
}
