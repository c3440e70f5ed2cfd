/** Scanning the complete lines of a growing file. */
module LineScan {
  import opened Basics
  import Seqs
  import opened Framing

  // The lines completed in what was read so far, and how many bytes they take.
  function Lines(data: Bytes): seq<Bytes> {
    SplitLines(data).segments
  }

  function Consumed(data: Bytes): (n: nat)
    ensures n <= |data|
  {
    SplitLinesIsSplit(data);
    |Joined(Lines(data))|
  }

  lemma ConsumedIsPrefix(data: Bytes)
    ensures data[Consumed(data)..] == SplitLines(data).tail
    ensures Consumed(data) == 0 <==> Lines(data) == []
  {
    SplitLinesIsSplit(data);
    var sp := SplitLines(data);
    assert data == Joined(sp.segments) + sp.tail;
  }

  // Growth, at any byte: the lines of the whole are those seen before, then those of the
  // bytes that had not been consumed.
  lemma LinesGrow(old_: Bytes, more: Bytes)
    ensures Lines(old_ + more) == Lines(old_) + Lines(old_[Consumed(old_)..] + more)
    ensures Consumed(old_ + more) == Consumed(old_) + Consumed(old_[Consumed(old_)..] + more)
  {
    SplitLinesIsSplit(old_);
    ConsumedIsPrefix(old_);
    var sp := SplitLines(old_);
    var rest := sp.tail + more;
    SplitLinesIsSplit(rest);
    var sp' := SplitLines(rest);
    JoinedConcat(sp.segments, sp'.segments);
    Seqs.Assoc(Joined(sp.segments), sp.tail, more);
    Seqs.Assoc(Joined(sp.segments), Joined(sp'.segments), sp'.tail);
    SplitUnique(old_ + more, Split(sp.segments + sp'.segments, sp'.tail));
  }

  // One more line off the front of the unread bytes.
  lemma NextLine(data: Bytes, idx: nat)
    requires idx < |data| && data[idx] == NEWLINE && NEWLINE !in data[..idx]
    ensures Lines(data) == [data[..idx]] + Lines(data[idx + 1..])
    ensures Consumed(data) == idx + 1 + Consumed(data[idx + 1..])
  {
    var line := data[..idx + 1];
    assert line == data[..idx] + [NEWLINE];
    SplitExtend([], data[..idx]);
    assert [] + data[..idx] == data[..idx];
    assert [] + data[..idx] + [NEWLINE] == line;
    assert Lines(line) == [data[..idx]];
    JoinedSnoc([], data[..idx]);
    assert Joined([]) == [] && [] + [data[..idx]] == [data[..idx]];
    assert Joined([data[..idx]]) == line;
    LinesGrow(line, data[idx + 1..]);
    assert data == line + data[idx + 1..];
    assert line[Consumed(line)..] + data[idx + 1..] == data[idx + 1..];
  }

  // `done` and the `taken` bytes are what has been read of `data`; `rest` is still to come.
  ghost predicate Left(data: Bytes, done: seq<Bytes>, taken: nat, rest: Bytes) {
    Lines(data) == done + Lines(rest) && Consumed(data) == taken + Consumed(rest)
  }

  lemma LeftNext(data: Bytes, done: seq<Bytes>, taken: nat, rest: Bytes, idx: nat)
    requires Left(data, done, taken, rest)
    requires idx < |rest| && rest[idx] == NEWLINE && NEWLINE !in rest[..idx]
    ensures Left(data, done + [rest[..idx]], taken + idx + 1, rest[idx + 1..])
  {
    NextLine(rest, idx);
    assert done + ([rest[..idx]] + Lines(rest[idx + 1..])) == (done + [rest[..idx]]) + Lines(rest[idx + 1..]);
  }

  lemma LeftNothing(data: Bytes, done: seq<Bytes>, taken: nat, rest: Bytes)
    requires Left(data, done, taken, rest) && NEWLINE !in rest
    ensures Lines(data) == done && Consumed(data) == taken
  {
    NoMoreLines(rest);
    assert done + [] == done;
  }

  lemma LeftAll(data: Bytes)
    ensures Left(data, [], 0, data)
  {
    assert [] + Lines(data) == Lines(data);
  }

  lemma NoMoreLines(data: Bytes)
    requires NEWLINE !in data
    ensures Lines(data) == [] && Consumed(data) == 0
  {
    SplitExtend([], data);
    assert [] + data == data;
  }

  lemma LoneLine(line: Bytes)
    requires NEWLINE !in line
    ensures Lines(line + [NEWLINE]) == [line] && Consumed(line + [NEWLINE]) == |line| + 1
    ensures (line + [NEWLINE])[0..] == line + [NEWLINE]
  {
    var data := line + [NEWLINE];
    Seqs.Snoc(line, NEWLINE);
    NextLine(data, |line|);
    NoMoreLines([]);
    assert data[|line| + 1..] == [];
    Seqs.Nothing([line]);
  }

  // An append-only history: each version of the file extends the one before.
  ghost predicate Grows(files: seq<Bytes>) {
    forall i :: 0 < i < |files| ==> files[i - 1] <= files[i]
  }

  lemma GrowsOn(files: seq<Bytes>)
    requires |files| > 1 && Grows(files)
    ensures Grows(files[1..]) && files[0] <= files[1] && files[1..] != []
    ensures files[1..][0] == files[1] && files[1..][|files[1..]| - 1] == files[|files| - 1]
  {
    assert forall i :: 0 < i < |files[1..]| ==> files[1..][i - 1] == files[i] && files[1..][i] == files[i + 1];
  }

  lemma {:induction false} GrowsToLast(files: seq<Bytes>)
    requires files != [] && Grows(files)
    ensures files[0] <= files[|files| - 1]
    decreases |files|
  {
    if |files| > 1 {
      GrowsOn(files);
      GrowsToLast(files[1..]);
    }
  }

  // Lines and bytes of a grown file from a cursor on: those of the file as it was, then those from
  // where its scan stopped.
  lemma CutLines(file: Bytes, grown: Bytes, offset: nat, next: nat)
    requires offset <= |file| && file <= grown && next == offset + Consumed(file[offset..])
    ensures next <= |file|
    ensures Lines(grown[offset..]) == Lines(file[offset..]) + Lines(grown[next..])
    ensures Consumed(grown[offset..]) == Consumed(file[offset..]) + Consumed(grown[next..])
  {
    var data, added := file[offset..], grown[|file|..];
    GrownRest(file, grown, offset);
    assert grown[next..] == data[Consumed(data)..] + added;
    LinesGrow(data, added);
  }

  // The part of a grown file that a stored cursor leaves to be read.
  lemma GrownRest(file: Bytes, grown: Bytes, offset: nat)
    requires offset <= |file| && file <= grown
    ensures grown[offset..] == file[offset..] + grown[|file|..]
    ensures var n := Consumed(file[offset..]);
            offset + n <= |file| && grown[offset + n..] == file[offset..][n..] + grown[|file|..]
  {
  }
}
