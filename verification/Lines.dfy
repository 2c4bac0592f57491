/** An append-only log as bytes: lines written one at a time and read back by splitting. */
module Lines {

  newtype byte = x: int | 0 <= x < 256

  type Bytes = seq<byte>

  const NEWLINE: byte := 10

  predicate IsSpace(b: byte) {
    9 <= b <= 13 || b == 32
  }

  predicate Blank(line: Bytes) {
    forall i :: 0 <= i < |line| ==> IsSpace(line[i])
  }

  /** The bytes an append adds: the line, ended by a newline unless it already is. */
  function LineBytes(line: Bytes): Bytes {
    if line == [] || line[|line| - 1] != NEWLINE then line + [NEWLINE] else line
  }

  /** The pieces between newlines; there is always a last piece, possibly empty. */
  function Split(data: Bytes): (pieces: seq<Bytes>)
    ensures pieces != []
  {
    if data == [] then [[]]
    else Extend(data[0], Split(data[1..]))
  }

  function NonBlank(pieces: seq<Bytes>): seq<Bytes> {
    if pieces == [] then []
    else (if Blank(pieces[0]) then [] else [pieces[0]]) + NonBlank(pieces[1..])
  }

  function Extend(b: byte, pieces: seq<Bytes>): seq<Bytes>
    requires pieces != []
  {
    if b == NEWLINE then [[]] + pieces else [[b] + pieces[0]] + pieces[1..]
  }

  lemma {:induction false} ExtendConcat(b: byte, a: seq<Bytes>, c: seq<Bytes>)
    requires a != []
    ensures Extend(b, a + c) == Extend(b, a) + c
  {
    assert (a + c)[1..] == a[1..] + c;
  }

  /** What reading a log returns: its non-blank lines. */
  function LinesOf(data: Bytes): seq<Bytes> {
    NonBlank(Split(data))
  }

  /** An empty log or one whose last line is complete. */
  predicate Terminated(data: Bytes) {
    data == [] || data[|data| - 1] == NEWLINE
  }

  lemma {:induction false} SplitAtNewline(a: Bytes, b: Bytes)
    ensures Split(a + [NEWLINE] + b) == Split(a) + Split(b)
  {
    var all := a + [NEWLINE] + b;
    if a == [] {
      assert all[1..] == b;
    } else {
      SplitAtNewline(a[1..], b);
      assert all[1..] == a[1..] + [NEWLINE] + b;
      ExtendConcat(a[0], Split(a[1..]), Split(b));
    }
  }

  lemma {:induction false} SplitWhole(line: Bytes)
    requires NEWLINE !in line
    ensures Split(line) == [line]
  {
    if line != [] {
      SplitWhole(line[1..]);
      assert [line[0]] + line[1..] == line;
    }
  }

  lemma {:induction false} PiecesHaveNoNewline(data: Bytes)
    ensures forall piece :: piece in Split(data) ==> NEWLINE !in piece
  {
    if data != [] { PiecesHaveNoNewline(data[1..]); }
  }

  lemma {:induction false} NonBlankConcat(a: seq<Bytes>, b: seq<Bytes>)
    ensures NonBlank(a + b) == NonBlank(a) + NonBlank(b)
  {
    if a == [] {
      assert a + b == b;
    } else {
      NonBlankConcat(a[1..], b);
      assert (a + b)[1..] == a[1..] + b && (a + b)[0] == a[0];
      var first := if Blank(a[0]) then [] else [a[0]];
      assert first + (NonBlank(a[1..]) + NonBlank(b)) == first + NonBlank(a[1..]) + NonBlank(b);
    }
  }

  lemma {:induction false} NonBlankKeeps(pieces: seq<Bytes>)
    ensures forall line :: line in NonBlank(pieces) <==> line in pieces && !Blank(line)
  {
    if pieces != [] {
      NonBlankKeeps(pieces[1..]);
      assert pieces == [pieces[0]] + pieces[1..];
    }
  }

  /** Reading a complete log followed by more bytes is reading the two apart. */
  lemma {:induction false} ReadApart(data: Bytes, more: Bytes)
    requires Terminated(data)
    ensures LinesOf(data + more) == LinesOf(data) + LinesOf(more)
  {
    if data == [] {
      assert data + more == more;
      assert Split([]) == [[]] && NonBlank([[]]) == NonBlank([]);
    } else {
      var body := data[..|data| - 1];
      assert data == body + [NEWLINE] + [];
      assert data + more == body + [NEWLINE] + more;
      SplitAtNewline(body, []);
      SplitAtNewline(body, more);
      NonBlankConcat(Split(body), [[]]);
      NonBlankConcat(Split(body), Split(more));
    }
  }

  lemma {:induction false} ReadLine(line: Bytes)
    requires NEWLINE !in line && !Blank(line)
    ensures LinesOf(line) == [line] && LinesOf(line + [NEWLINE]) == [line]
  {
    SplitWhole(line);
    assert line + [NEWLINE] == line + [NEWLINE] + [];
    SplitAtNewline(line, []);
    assert NonBlank([line, []]) == [line] + NonBlank([[]]);
  }

  /** An appended line is read back, after all earlier lines, exactly when it holds no newline and is not blank. */
  lemma {:induction false} AppendReadsBackIff(data: Bytes, line: Bytes)
    requires Terminated(data)
    ensures Terminated(data + LineBytes(line))
    ensures LinesOf(data + LineBytes(line)) == LinesOf(data) + [line] <==> NEWLINE !in line && !Blank(line)
  {
    var added := LineBytes(line);
    ReadApart(data, added);
    if NEWLINE !in line && !Blank(line) {
      ReadLine(line);
    } else if LinesOf(data + added) == LinesOf(data) + [line] {
      assert LinesOf(added) == (LinesOf(data) + LinesOf(added))[|LinesOf(data)|..];
      assert LinesOf(added) == [line];
      assert line in LinesOf(added);
      NonBlankKeeps(Split(added));
      PiecesHaveNoNewline(added);
    }
  }

  // A crash inside an append: only the first `cut` bytes of the line reach the file.

  lemma {:induction false} PrefixNotBlank(line: Bytes, cut: nat)
    requires line != [] && !IsSpace(line[0]) && 0 < cut <= |line|
    ensures !Blank(line[..cut])
  {
    assert line[..cut][0] == line[0];
  }

  /**
   * A torn append shows as no line or as the whole line exactly when nothing or all of the line was written;
   * any other cut leaves a half-written line behind.
   */
  lemma {:induction false} TornAppend(data: Bytes, line: Bytes, cut: nat)
    requires Terminated(data) && NEWLINE !in line && line != [] && !IsSpace(line[0]) && cut <= |line| + 1
    ensures var read := LinesOf(data + (line + [NEWLINE])[..cut]);
            && read == LinesOf(data) + (if cut == 0 then [] else if cut <= |line| then [line[..cut]] else [line])
            && (read == LinesOf(data) || read == LinesOf(data) + [line] <==> cut == 0 || cut >= |line|)
  {
    var part := (line + [NEWLINE])[..cut];
    ReadApart(data, part);
    if cut == 0 {
      assert part == [] && Split([]) == [[]];
      assert NonBlank([[]]) == NonBlank([]);
    } else if cut <= |line| {
      assert part == line[..cut];
      PrefixNotBlank(line, cut);
      ReadLine(part);
      if LinesOf(data) + [part] == LinesOf(data) + [line] {
        assert (LinesOf(data) + [part])[|LinesOf(data)|] == line;
      }
    } else {
      assert part == line + [NEWLINE];
      PrefixNotBlank(line, |line|);
      assert line[..|line|] == line;
      ReadLine(line);
    }
  }

  lemma {:induction false} GluedLine(line: Bytes, cut: nat, next: Bytes)
    requires NEWLINE !in line && line != [] && !IsSpace(line[0]) && 0 < cut <= |line| && NEWLINE !in next
    ensures LinesOf(line[..cut] + LineBytes(next)) == [line[..cut] + next]
  {
    var glued := line[..cut] + next;
    assert glued[0] == line[0];
    assert line[..cut] + LineBytes(next) == glued + [NEWLINE];
    ReadLine(glued);
  }

  /**
   * After a torn append the next line is glued to the remains, unless nothing or everything including the newline was
   * written.
   */
  lemma {:induction false} AppendAfterTear(data: Bytes, line: Bytes, cut: nat, next: Bytes)
    requires Terminated(data) && NEWLINE !in line && line != [] && !IsSpace(line[0]) && cut <= |line| + 1
    requires NEWLINE !in next && !Blank(next)
    ensures var read := LinesOf(data + (line + [NEWLINE])[..cut] + LineBytes(next));
            read == LinesOf(data) + (if cut == 0 then [next]
                                     else if cut <= |line| then [line[..cut] + next]
                                     else [line, next])
  {
    var part := (line + [NEWLINE])[..cut];
    ReadLine(next);
    assert data + part + LineBytes(next) == data + (part + LineBytes(next));
    ReadApart(data, part + LineBytes(next));
    if cut == 0 {
      assert part + LineBytes(next) == LineBytes(next);
    } else if cut <= |line| {
      assert part == line[..cut];
      GluedLine(line, cut, next);
    } else {
      assert part == line + [NEWLINE];
      assert !Blank(line);
      ReadApart(part, LineBytes(next));
      ReadLine(line);
      assert [line] + [next] == [line, next];
    }
  }
}
