/** Transcripts with more message keys than a cursor stores: a resumed scan bills a turn twice. */
module ClaudeForgets {
  import opened Basics
  import opened Framing
  import Seqs
  import opened LineScan
  import opened ClaudeScan

  function KeyList(decode: Decoder, lines: seq<Bytes>): seq<string> {
    seq(|lines|, i requires 0 <= i < |lines| => KeyOf(decode, lines[i]))
  }

  // Every line is billed under a key of its own.
  ghost predicate AllDifferent(decode: Decoder, lines: seq<Bytes>) {
    && Distinct(KeyList(decode, lines)) && "" !in KeyList(decode, lines)
    && forall line :: line in lines ==> NEWLINE !in line
  }

  // The part of a key list that a cursor stores.
  function Kept(keys: seq<string>): seq<string> {
    if |keys| <= MAX_SEEN_KEYS then keys else keys[|keys| - MAX_SEEN_KEYS..]
  }

  lemma KeptSnoc(keys: seq<string>, key: string)
    requires key != "" && key !in keys
    ensures AppendSeen(Kept(keys), key) == Kept(keys + [key])
  {
  }

  lemma FrontDifferent(decode: Decoder, lines: seq<Bytes>)
    requires lines != [] && AllDifferent(decode, lines)
    ensures var n := |lines| - 1;
            && AllDifferent(decode, lines[..n])
            && KeyList(decode, lines) == KeyList(decode, lines[..n]) + [KeyOf(decode, lines[n])]
            && KeyOf(decode, lines[n]) != "" && KeyOf(decode, lines[n]) !in KeyList(decode, lines[..n])
  {
    var keys, n := KeyList(decode, lines), |lines| - 1;
    assert keys[..n] == KeyList(decode, lines[..n]);
    assert keys[n] in keys && forall k :: k in keys[..n] ==> k in keys;
    assert forall line :: line in lines[..n] ==> line in lines;
  }

  // Such a transcript bills every line, and its last 1024 keys are stored.
  lemma {:induction false} StoresLastKeys(decode: Decoder, lines: seq<Bytes>)
    requires AllDifferent(decode, lines)
    ensures var (st, turns) := Fold(decode, Restored(FRESH), lines);
            && st.keys == Kept(KeyList(decode, lines))
            && st.seen == KeySet(KeyList(decode, lines))
            && |turns| == |lines|
  {
    if lines != [] {
      var n := |lines| - 1;
      var front := KeyList(decode, lines[..n]);
      FrontDifferent(decode, lines);
      StoresLastKeys(decode, lines[..n]);
      KeptSnoc(front, KeyOf(decode, lines[n]));
      assert KeySet(KeyList(decode, lines)) == KeySet(front) + {KeyOf(decode, lines[n])};
    } else {
      assert KeySet(KeyList(decode, lines)) == {};
    }
  }

  lemma WholeLines(lines: seq<Bytes>)
    requires forall line :: line in lines ==> NEWLINE !in line
    ensures Lines(Joined(lines)) == lines && Consumed(Joined(lines)) == |Joined(lines)|
  {
    Seqs.Nothing(Joined(lines));
    SplitUnique(Joined(lines), Split(lines, []));
  }

  // When the first line's message is written once more after the scan, its turn is billed again;
  // one scan of the same file bills it once. When the last line's count is negative, the whole file
  // is billed again instead.
  lemma FirstTurnBilledAgain(decode: Decoder, lines: seq<Bytes>)
    requires AllDifferent(decode, lines) && |lines| > MAX_SEEN_KEYS
    ensures var file, grown := Joined(lines), Joined(lines + [lines[0]]);
            var (turns, mid) := ScanFile(decode, file, FRESH);
            var more := ScanFile(decode, grown, ReadBack(mid)).0;
            && |ScanFile(decode, grown, FRESH).0| == |lines|
            && |turns + more| == if mid.priorEffectiveIn >= 0 then |lines| + 1 else 2 * |lines|
  {
    OneScan(decode, lines);
    WholeLines(lines);
    assert Joined(lines)[0..] == Joined(lines);
    StoresLastKeys(decode, lines);
    SecondScan(decode, lines);
  }

  // The second scan, from the cursor of the first.
  lemma SecondScan(decode: Decoder, lines: seq<Bytes>)
    requires AllDifferent(decode, lines) && |lines| > MAX_SEEN_KEYS
    ensures |ScanFile(decode, Joined(lines + [lines[0]]), ScanFile(decode, Joined(lines), FRESH).1).0| == 1
  {
    var file, grown, first := Joined(lines), Joined(lines + [lines[0]]), lines[0];
    assert first in lines;
    WholeLines(lines);
    assert file[0..] == file;
    StoresLastKeys(decode, lines);
    var st := Fold(decode, Restored(FRESH), lines).0;
    LoadStored(decode, lines);
    var mid := ScanFile(decode, file, FRESH).1;
    assert mid == Cursor(|file|, st.running, st.keys);
    LastLine(lines, first);
    assert Lines(grown[mid.offset..]) == [first];
    FirstForgotten(decode, lines);
    FoldOne(decode, Restored(mid), first);
    StepBillsOnce(decode, Restored(mid), first);
  }

  lemma OneScan(decode: Decoder, lines: seq<Bytes>)
    requires AllDifferent(decode, lines) && lines != []
    ensures |ScanFile(decode, Joined(lines + [lines[0]]), FRESH).0| == |lines|
  {
    var all := lines + [lines[0]];
    assert lines[0] in lines && KeyList(decode, lines)[0] in KeyList(decode, lines);
    WholeLines(all);
    assert Joined(all)[0..] == Joined(all);
    RepeatIsFree(decode, Restored(FRESH), lines, lines[0]);
    StoresLastKeys(decode, lines);
  }

  lemma LastLine(lines: seq<Bytes>, line: Bytes)
    requires NEWLINE !in line
    ensures Lines(Joined(lines + [line])[|Joined(lines)|..]) == [line]
  {
    JoinedSnoc(lines, line);
    Seqs.Assoc(Joined(lines), line, [NEWLINE]);
    Seqs.Prefix(Joined(lines), line + [NEWLINE]);
    JoinedOne(line);
    WholeLines([line]);
  }

  lemma JoinedOne(line: Bytes)
    ensures Joined([line]) == line + [NEWLINE]
  {
    JoinedSnoc([], line);
    Seqs.Nothing([line]);
    Seqs.Nothing(line);
  }

  lemma FoldOne(decode: Decoder, st: State, line: Bytes)
    ensures Fold(decode, st, [line]) == Step(decode, st, line)
  {
    assert [line][..0] == [];
    Seqs.Nothing(Step(decode, st, line).1);
  }

  lemma LoadStored(decode: Decoder, lines: seq<Bytes>)
    requires AllDifferent(decode, lines)
    ensures var st := Fold(decode, Restored(FRESH), lines).0;
            Restored(Cursor(|Joined(lines)|, st.running, st.keys)).seen == KeySet(Kept(KeyList(decode, lines)))
  {
    StoresLastKeys(decode, lines);
    LoadKept(Kept(KeyList(decode, lines)));
  }

  lemma FirstForgotten(decode: Decoder, lines: seq<Bytes>)
    requires AllDifferent(decode, lines) && |lines| > MAX_SEEN_KEYS
    ensures KeyOf(decode, lines[0]) !in Kept(KeyList(decode, lines)) && Billable(decode, lines[0]).Some?
  {
    var keys := KeyList(decode, lines);
    assert keys[0] in keys;
    forall i | |keys| - MAX_SEEN_KEYS <= i < |keys| ensures keys[i] != keys[0] {
    }
  }

  // ----- a transcript of that kind -----

  function Marks(n: nat): string {
    seq(n + 1, _ => 'x')
  }

  // A decoder for which the n-th line below is message "x...x" of n + 1 marks.
  function Demo(line: Bytes): Option<Entry> {
    Some(Entry("assistant", "", Marks(|line|), "m", Some(Usage(1, 0, 0, 1))))
  }

  function Transcript(n: nat): seq<Bytes> {
    seq(n, i requires 0 <= i < n => seq(i, _ => 120 as byte))
  }

  lemma MarksDiffer(i: nat, j: nat)
    requires i != j
    ensures "message:" + Marks(i) != "message:" + Marks(j)
  {
    assert |"message:" + Marks(i)| != |"message:" + Marks(j)|;
  }

  lemma TranscriptDiffers(n: nat)
    ensures AllDifferent(Demo, Transcript(n))
  {
    var lines := Transcript(n);
    var keys := KeyList(Demo, lines);
    assert forall i :: 0 <= i < n ==> keys[i] == "message:" + Marks(i);
    forall i, j | 0 <= i < j < n ensures keys[i] != keys[j] {
      MarksDiffer(i, j);
    }
  }

  // 1025 messages, then the first of them again: 1025 turns in one scan, 1026 in two.
  lemma TurnBilledTwice()
    ensures var lines := Transcript(MAX_SEEN_KEYS + 1);
            var file, grown := Joined(lines), Joined(lines + [lines[0]]);
            && |ScanFile(Demo, grown, FRESH).0| == 1025
            && |Invocations(Demo, [file, grown], FRESH).0| == 1026
  {
    var lines := Transcript(MAX_SEEN_KEYS + 1);
    TranscriptDiffers(MAX_SEEN_KEYS + 1);
    FirstTurnBilledAgain(Demo, lines);
    var file, grown := Joined(lines), Joined(lines + [lines[0]]);
    DeltasBounded(Demo, Restored(FRESH), Lines(file));
    assert file[0..] == file;
    TwoInvocations(Demo, file, grown);
  }

  lemma TwoInvocations(decode: Decoder, file: Bytes, grown: Bytes)
    ensures var (turns, mid) := ScanFile(decode, file, FRESH);
            Invocations(decode, [file, grown], FRESH).0 == turns + ScanFile(decode, grown, ReadBack(mid)).0
  {
    var (turns, mid) := ScanFile(decode, file, FRESH);
    var stored := Persisted(FRESH, mid);
    IdleScan(decode, file, FRESH);
    assert [file, grown][1..] == [grown];
    OneInvocation(decode, grown, stored);
  }

  lemma OneInvocation(decode: Decoder, file: Bytes, stored: Cursor)
    ensures Invocations(decode, [file], stored).0 == ScanFile(decode, file, ReadBack(stored)).0
  {
    assert [file][1..] == [];
    Seqs.Nothing(ScanFile(decode, file, ReadBack(stored)).0);
  }

  // ----- a negative count -----

  lemma LoneScan(decode: Decoder, line: Bytes)
    requires NEWLINE !in line
    ensures var (st, turns) := Step(decode, Restored(FRESH), line);
            var (out, end) := ScanFile(decode, line + [NEWLINE], FRESH);
            out == turns && end.priorEffectiveIn == st.running
  {
    LoneLine(line);
    FoldOne(decode, Restored(FRESH), line);
  }

  // A line with a negative count, and the hook invoked twice on it: one scan bills one turn, the
  // invocations bill two.
  lemma NegativeCountBilledTwice(decode: Decoder, line: Bytes)
    requires NEWLINE !in line && Billable(decode, line).Some?
    requires Billable(decode, line).value.usage.value.EffectiveIn() < 0
    ensures var file := line + [NEWLINE];
            |ScanFile(decode, file, FRESH).0| == 1 && |Invocations(decode, [file, file], FRESH).0| == 2
  {
    LoneScan(decode, line);
    StepBillsOnce(decode, Restored(FRESH), line);
    TwoInvocations(decode, line + [NEWLINE], line + [NEWLINE]);
  }

  // Such a line: the empty one, for a decoder that finds five input tokens less than none in it.
  lemma NegativeCountOccurs()
    ensures var decode: Decoder := (_: Bytes) => Some(Entry("assistant", "", "", "m", Some(Usage(-5, 0, 0, 0))));
            |ScanFile(decode, [NEWLINE], FRESH).0| == 1 && |Invocations(decode, [[NEWLINE], [NEWLINE]], FRESH).0| == 2
  {
    var decode: Decoder := (_: Bytes) => Some(Entry("assistant", "", "", "m", Some(Usage(-5, 0, 0, 0))));
    Seqs.Nothing([NEWLINE]);
    NegativeCountBilledTwice(decode, []);
  }
}
