/** The data directory: files by path, changed by small effects that a crash or an I/O error can cut short. */
module Files {
  import opened Results
  import opened Lines
  import Strings

  datatype Path = Path(dir: string, name: string)

  type Disk = map<Path, Bytes>

  datatype Effect =
    | Put(path: Path, data: Bytes)
    | Extend(path: Path, data: Bytes)
    | Rename(from: Path, to: Path)
    | Delete(path: Path)

  /** How far a list of effects gets: all of it, only the first `done`, or part of the next one as well. */
  datatype Stop = Completes | Before(done: nat) | Within(done: nat, bytes: nat)

  function Content(disk: Disk, path: Path): Option<Bytes> {
    if path in disk then Some(disk[path]) else None
  }

  /** No other file changed. */
  ghost predicate OnlyChanged(before: Disk, after: Disk, path: Path) {
    forall other :: other != path ==> Content(after, other) == Content(before, other)
  }

  function Prefix(data: Bytes, n: nat): Bytes {
    if n <= |data| then data[..n] else data
  }

  function Perform(disk: Disk, effect: Effect): Disk {
    match effect
    case Put(path, data) => disk[path := data]
    case Extend(path, data) => disk[path := (if path in disk then disk[path] else []) + data]
    case Rename(from, to) => if from in disk then disk[to := disk[from]] - {from} else disk
    case Delete(path) => disk - {path}
  }

  /** Writing may stop after some bytes; renaming and deleting happen whole or not at all. */
  function PerformPart(disk: Disk, effect: Effect, bytes: nat): Disk {
    match effect
    case Put(path, data) => disk[path := Prefix(data, bytes)]
    case Extend(path, data) => disk[path := (if path in disk then disk[path] else []) + Prefix(data, bytes)]
    case _ => disk
  }

  function PerformAll(disk: Disk, effects: seq<Effect>): Disk {
    if effects == [] then disk else Perform(PerformAll(disk, effects[..|effects| - 1]), effects[|effects| - 1])
  }

  /** Whether the whole list was performed. */
  predicate Reaches(effects: seq<Effect>, stop: Stop) {
    stop.Completes? || stop.done >= |effects|
  }

  function After(disk: Disk, effects: seq<Effect>, stop: Stop): Disk {
    if Reaches(effects, stop) then PerformAll(disk, effects)
    else
      var disk' := PerformAll(disk, effects[..stop.done]);
      if stop.Within? then PerformPart(disk', effects[stop.done], stop.bytes) else disk'
  }

  function Temporary(path: Path): Path {
    path.(name := path.name + ".tmp")
  }

  lemma {:induction false} TemporaryDiffers(path: Path)
    ensures Temporary(path) != path
  {
    assert |Temporary(path).name| == |path.name| + 4;
  }

  function WriteEffects(path: Path, data: Bytes): seq<Effect> {
    [Put(Temporary(path), data), Rename(Temporary(path), path)]
  }

  lemma {:induction false} WriteSteps(disk: Disk, path: Path, data: Bytes)
    ensures var effects := WriteEffects(path, data); var tmp := Temporary(path);
            && PerformAll(disk, effects[..0]) == disk
            && PerformAll(disk, effects[..1]) == disk[tmp := data]
            && PerformAll(disk, effects) == disk[tmp := data][path := data] - {tmp}
  {
    var effects := WriteEffects(path, data);
    assert effects[..0] == [] && effects[..1] == [effects[0]] && effects[..1][..0] == [];
  }

  /** The disk while or after a file is written, spelled out. */
  lemma {:induction false} WriteStates(disk: Disk, path: Path, data: Bytes, stop: Stop)
    ensures var end := After(disk, WriteEffects(path, data), stop);
            if Reaches(WriteEffects(path, data), stop) then end == disk[path := data] - {Temporary(path)}
            else end - {Temporary(path)} == disk - {Temporary(path)}
  {
    var tmp := Temporary(path);
    TemporaryDiffers(path);
    WriteSteps(disk, path, data);
  }

  /** At every point of a write the file holds its old or its new content in full, and no other file changes. */
  lemma {:induction false} WriteIsAtomic(disk: Disk, path: Path, data: Bytes, stop: Stop)
    ensures var end := After(disk, WriteEffects(path, data), stop);
            && Content(end, path)
               == (if Reaches(WriteEffects(path, data), stop) then Some(data) else Content(disk, path))
            && (forall other :: other != path && other != Temporary(path) ==>
                Content(end, other) == Content(disk, other))
  {
    WriteStates(disk, path, data, stop);
    TemporaryDiffers(path);
    var end := After(disk, WriteEffects(path, data), stop);
    if !Reaches(WriteEffects(path, data), stop) {
      var tmp := Temporary(path);
      forall p | p != tmp ensures Content(end, p) == Content(disk, p) {
        assert p in end <==> p in end - {tmp};
        assert p in disk <==> p in disk - {tmp};
        if p in end { assert end[p] == (end - {tmp})[p] && disk[p] == (disk - {tmp})[p]; }
      }
    }
  }

  class FileStore {
    var files: Disk

    constructor ()
      ensures files == map[]
    {
      files := map[];
    }

    /** Temporary file, then rename; `stop` says where an I/O error or a crash ends it. */
    method WriteBytes(path: Path, data: Bytes, stop: Stop) returns (r: Outcome)
      modifies this
      ensures files == After(old(files), WriteEffects(path, data), stop)
      ensures r == if Reaches(WriteEffects(path, data), stop) then Done else Err(StoreFailed)
    {
      WriteSteps(files, path, data);
      var tmp := Temporary(path);
      if stop == Before(0) { return Err(StoreFailed); }
      if stop.Within? && stop.done == 0 {
        files := files[tmp := Prefix(data, stop.bytes)];
        return Err(StoreFailed);
      }
      files := files[tmp := data];
      if !stop.Completes? && stop.done == 1 { return Err(StoreFailed); }
      files := files[path := files[tmp]] - {tmp};
      r := Done;
    }

    method ReadBytes(path: Path) returns (r: Result<Bytes>)
      ensures r == if path in files then Ok(files[path]) else Err(NotFound)
    {
      if path !in files { return Err(NotFound); }
      r := Ok(files[path]);
    }

    method Exists(path: Path) returns (found: bool)
      ensures found == (path in files)
    {
      found := path in files;
    }

    /** Appends one line in place; unlike `WriteBytes` this is not atomic. */
    method AppendLine(path: Path, line: Bytes, stop: Stop) returns (r: Outcome)
      modifies this
      ensures files == After(old(files), [Extend(path, LineBytes(line))], stop)
      ensures r == if Reaches([Extend(path, LineBytes(line))], stop) then Done else Err(StoreFailed)
    {
      ghost var effects := [Extend(path, LineBytes(line))];
      assert effects[..0] == [] && PerformAll(files, []) == files;
      if stop == Before(0) { return Err(StoreFailed); }
      var content := if path in files then files[path] else [];
      var row := if |line| == 0 || line[|line| - 1] != NEWLINE then line + [NEWLINE] else line;
      if stop.Within? && stop.done == 0 {
        files := files[path := content + Prefix(row, stop.bytes)];
        return Err(StoreFailed);
      }
      files := files[path := content + row];
      r := Done;
    }

    /** The non-blank lines of a log; a missing log has none. */
    method ReadLines(path: Path) returns (lines: seq<Bytes>)
      ensures lines == if path in files then LinesOf(files[path]) else []
    {
      if path !in files { return []; }
      var pieces := Split(files[path]);
      lines := [];
      for i := 0 to |pieces|
        invariant lines + NonBlank(pieces[i..]) == NonBlank(pieces)
      {
        assert pieces[i..][1..] == pieces[i + 1..];
        if !Blank(pieces[i]) { lines := lines + [pieces[i]]; }
      }
    }

    /** The sorted names of the files in a directory. */
    method ListNames(dir: string) returns (names: seq<string>)
      ensures Strings.Sorted(names)
      ensures forall name :: name in names <==> Path(dir, name) in files
    {
      var paths := files.Keys;
      names := [];
      while paths != {}
        invariant paths <= files.Keys
        invariant forall name :: name in names <==> Path(dir, name) in files.Keys - paths
      {
        var path :| path in paths;
        paths := paths - {path};
        if path.dir == dir { names := names + [path.name]; }
      }
      Strings.SortKeepsMembers(names);
      names := Strings.Sort(names);
    }

    method Remove(path: Path)
      modifies this
      ensures files == Perform(old(files), Delete(path))
    {
      files := files - {path};
    }
  }
}
