/** When the scans of a growing transcript, one per invocation, bill what a single scan bills. */
module ClaudeCuts {
  import opened Basics
  import opened Framing
  import opened LineScan
  import opened ClaudeScan
  import Seqs

  // ----- how many turns a scan bills -----

  function Keyless(decode: Decoder, lines: seq<Bytes>): nat {
    if lines == [] then 0
    else
      var n := |lines| - 1;
      Keyless(decode, lines[..n]) + if Billable(decode, lines[n]).Some? && KeyOf(decode, lines[n]) == "" then 1 else 0
  }

  lemma {:induction false} KeylessConcat(decode: Decoder, a: seq<Bytes>, b: seq<Bytes>)
    ensures Keyless(decode, a + b) == Keyless(decode, a) + Keyless(decode, b)
  {
    if b == [] {
      Seqs.Nothing(a);
    } else {
      var n := |b| - 1;
      KeylessConcat(decode, a, b[..n]);
      assert (a + b)[..|a + b| - 1] == a + b[..n];
    }
  }

  // One turn for every key that is new, and one for every line without a key.
  lemma {:induction false} TurnsCounted(decode: Decoder, st: State, lines: seq<Bytes>)
    ensures |Fold(decode, st, lines).1| == |KeysOf(decode, lines) - st.seen| + Keyless(decode, lines)
  {
    if lines == [] {
      assert KeysOf(decode, lines) - st.seen == {};
    } else {
      var n := |lines| - 1;
      TurnsCounted(decode, st, lines[..n]);
      SeenAfter(decode, st, lines[..n]);
      StepBillsOnce(decode, Fold(decode, st, lines[..n]).0, lines[n]);
      KeysSnoc(decode, lines, st.seen);
    }
  }

  lemma KeysSnoc(decode: Decoder, lines: seq<Bytes>, seen: set<string>)
    requires lines != []
    ensures var n, key := |lines| - 1, KeyOf(decode, lines[|lines| - 1]);
            var one := if key != "" && key !in seen + KeysOf(decode, lines[..n]) then 1 else 0;
            |KeysOf(decode, lines) - seen| == |KeysOf(decode, lines[..n]) - seen| + one
  {
    var n, key := |lines| - 1, KeyOf(decode, lines[|lines| - 1]);
    KeysOfSnoc(decode, lines);
    if key != "" {
      OneMore(KeysOf(decode, lines[..n]), key, seen);
    } else {
      assert KeysOf(decode, lines[..n]) + {} == KeysOf(decode, lines[..n]);
    }
  }

  lemma OneMore<T>(a: set<T>, x: T, seen: set<T>)
    ensures |a + {x} - seen| == |a - seen| + if x in seen + a then 0 else 1
  {
    assert a + {x} - seen == if x in seen + a then a - seen else (a - seen) + {x};
  }

  // A scan that bills nothing leaves the baseline.
  lemma {:induction false} QuietKeepsBaseline(decode: Decoder, st: State, lines: seq<Bytes>)
    requires Fold(decode, st, lines).1 == []
    ensures Fold(decode, st, lines).0.running == st.running
  {
    if lines != [] {
      QuietKeepsBaseline(decode, st, lines[..|lines| - 1]);
    }
  }

  // ----- starting over -----

  // Lines billed once and then all of them again, with what stood before and what comes after: more
  // turns than going on from where the first scan stopped.
  lemma StartingOverBillsMore(decode: Decoder, st: State, before: seq<Bytes>, first: seq<Bytes>, rest: seq<Bytes>)
    requires Fold(decode, st, first).1 != []
    ensures |Fold(decode, Restored(FRESH), before + first + rest).1| > |Fold(decode, Fold(decode, st, first).0, rest).1|
  {
    var mid, all := Fold(decode, st, first).0, before + first + rest;
    TurnsCounted(decode, st, first);
    TurnsCounted(decode, mid, rest);
    TurnsCounted(decode, Restored(FRESH), all);
    SeenAfter(decode, st, first);
    KeylessConcat(decode, before + first, rest);
    KeylessConcat(decode, before, first);
    KeysConcat(decode, before + first, rest);
    KeysConcat(decode, before, first);
    OldKeyOrKeyless(KeysOf(decode, all), KeysOf(decode, first), KeysOf(decode, rest), st.seen, mid.seen,
                    Keyless(decode, first));
    assert KeysOf(decode, all) - Restored(FRESH).seen == KeysOf(decode, all);
  }

  // The counting: a key or a line without one that the first scan billed is not billed by what
  // goes on from there.
  lemma OldKeyOrKeyless(all: set<string>, first: set<string>, rest: set<string>, seen: set<string>, mid: set<string>,
                        keyless: nat)
    requires first <= all && rest <= all && mid == seen + first && |first - seen| + keyless > 0
    ensures |rest - mid| < |all| + keyless
  {
    Subset(rest - mid, all);
    if keyless == 0 {
      var key :| key in first - seen;
      Subset(rest - mid, all - {key});
    }
  }

  // ----- one cut -----

  // The cursor stands at the start of a line, as every cursor that a scan leaves does.
  ghost predicate AtLineStart(file: Bytes, c: Cursor) {
    c.offset <= |file| && Consumed(file[..c.offset]) == c.offset
  }

  // Stopping at the end of `file` and going on in `grown` is harmless: the stored baseline is one
  // that is read back, and no line that comes repeats a key that was billed and not stored.
  ghost predicate IsHarmless(decode: Decoder, file: Bytes, grown: Bytes, c: Cursor)
    requires c.offset <= |file|
  {
    var mid := ScanFile(decode, file, c).1;
    && mid.priorEffectiveIn >= 0
    && (mid.offset <= |grown| ==>
          NoForgottenRepeat(decode, Fold(decode, Restored(c), Lines(file[c.offset..])).0, Lines(grown[mid.offset..])))
  }

  // Lines that end where `head` ends are lines of what follows it.
  lemma LinesAfter(head: Bytes, data: Bytes)
    requires Consumed(head) == |head|
    ensures Lines(head + data) == Lines(head) + Lines(data) && Consumed(head + data) == |head| + Consumed(data)
  {
    LinesGrow(head, data);
    assert head[|head|..] == [];
    Seqs.Nothing(data);
  }

  lemma WholeFile(file: Bytes, grown: Bytes, c: Cursor)
    requires AtLineStart(file, c) && file <= grown
    ensures var next := c.offset + Consumed(file[c.offset..]);
            && next <= |file|
            && Lines(grown) == Lines(file[..c.offset]) + Lines(file[c.offset..]) + Lines(grown[next..])
  {
    CutLines(file, grown, c.offset, c.offset + Consumed(file[c.offset..]));
    LinesAfter(file[..c.offset], grown[c.offset..]);
    Seqs.Halves(grown, c.offset);
    assert grown[..c.offset] == file[..c.offset];
    Seqs.Assoc(Lines(file[..c.offset]), Lines(file[c.offset..]), Lines(grown[c.offset + Consumed(file[c.offset..])..]));
  }

  // The whole lines of some bytes are whole lines on their own.
  lemma TakenIsWhole(data: Bytes)
    ensures Consumed(data[..Consumed(data)]) == Consumed(data)
  {
    SplitLinesIsSplit(data);
    var taken := Joined(Lines(data));
    assert data[..Consumed(data)] == taken;
    Seqs.Nothing(taken);
    SplitUnique(taken, Split(Lines(data), []));
  }

  // The next scan starts at the start of a line too.
  lemma StopsAtLineStart(decode: Decoder, file: Bytes, grown: Bytes, c: Cursor)
    requires AtLineStart(file, c) && file <= grown
    ensures AtLineStart(grown, ReadBack(ScanFile(decode, file, c).1))
  {
    WhereScanEnds(decode, file, c);
    NextAtLineStart(file, grown, c.offset);
    assert grown[..0] == [];
  }

  lemma NextAtLineStart(file: Bytes, grown: Bytes, offset: nat)
    requires offset <= |file| && Consumed(file[..offset]) == offset && file <= grown
    ensures var next := offset + Consumed(file[offset..]);
            next <= |grown| && Consumed(grown[..next]) == next
  {
    var head, data := file[..offset], file[offset..];
    TakenIsWhole(data);
    LinesAfter(head, data[..Consumed(data)]);
    assert grown[..offset + Consumed(data)] == head + data[..Consumed(data)];
  }

  // Starting over after a negative baseline bills again what has been billed.
  lemma NegativeBaselineBillsAgain(decode: Decoder, file: Bytes, grown: Bytes, c: Cursor)
    requires AtLineStart(file, c) && file <= grown && c.priorEffectiveIn >= 0
    requires ScanFile(decode, file, c).1.priorEffectiveIn < 0
    ensures |ScanFile(decode, grown, c).0| < |ScanFile(decode, file, c).0| + |ScanFile(decode, grown, FRESH).0|
  {
    var data := file[c.offset..];
    TwoScans(decode, file, grown, c);
    WholeFile(file, grown, c);
    assert grown[0..] == grown;
    if Fold(decode, Restored(c), Lines(data)).1 == [] {
      QuietKeepsBaseline(decode, Restored(c), Lines(data));
    }
    StartingOverBillsMore(decode, Restored(c), Lines(file[..c.offset]), Lines(data),
                          Lines(grown[c.offset + Consumed(data)..]));
  }

  // Going on from what is read back, in memory.
  lemma StateBillsNoLess(decode: Decoder, st: State, rest: seq<Bytes>, offset: nat)
    requires KeepsKeys(st)
    ensures var full, short := Fold(decode, st, rest).1,
                               Fold(decode, Restored(Cursor(offset, st.running, st.keys)), rest).1;
            |full| <= |short| && (full == short <==> NoForgottenRepeat(decode, st, rest))
            && (|full| == |short| ==> full == short)
  {
    var short := Restored(Cursor(offset, st.running, st.keys));
    StateResumesExactlyWhen(decode, st, rest, offset);
    LoadKept(st.keys);
    ForgettingBillsMore(decode, st, short, rest);
    if !NoForgottenRepeat(decode, st, rest) {
      var line :| line in rest && KeyOf(decode, line) in st.seen && KeyOf(decode, line) !in st.keys;
      assert KeyOf(decode, line) in KeysOf(decode, rest) * (st.seen - short.seen);
    }
  }

  // Going on from what is read back.
  lemma CursorBillsNoLess(decode: Decoder, file: Bytes, grown: Bytes, c: Cursor)
    requires WellFormed(c) && c.offset <= |file| && file <= grown && ScanFile(decode, file, c).1.priorEffectiveIn >= 0
    ensures var one, two := ScanFile(decode, grown, c).0,
                            ScanFile(decode, file, c).0 + ScanFile(decode, grown, ScanFile(decode, file, c).1).0;
            |one| <= |two| && (one == two <==> IsHarmless(decode, file, grown, c)) && (|one| == |two| ==> one == two)
  {
    var (turns, mid) := ScanFile(decode, file, c);
    var st, rest := Fold(decode, Restored(c), Lines(file[c.offset..])).0, Lines(grown[mid.offset..]);
    CutInTwo(decode, file, grown, c);
    StateBillsNoLess(decode, st, rest, mid.offset);
    SamePrefix(turns, Fold(decode, st, rest).1, Fold(decode, Restored(mid), rest).1);
  }

  lemma CutInTwo(decode: Decoder, file: Bytes, grown: Bytes, c: Cursor)
    requires WellFormed(c) && c.offset <= |file| && file <= grown
    ensures var (turns, mid) := ScanFile(decode, file, c);
            var st := Fold(decode, Restored(c), Lines(file[c.offset..])).0;
            && KeepsKeys(st) && mid == Cursor(mid.offset, st.running, st.keys) && mid.offset <= |file|
            && ScanFile(decode, grown, c).0 == turns + Fold(decode, st, Lines(grown[mid.offset..])).1
            && ScanFile(decode, grown, mid).0 == Fold(decode, Restored(mid), Lines(grown[mid.offset..])).1
  {
    WhereScanEnds(decode, file, c);
    TwoScans(decode, file, grown, c);
    LoadKept(c.seenKeys);
    FoldKeepsKeys(decode, Restored(c), Lines(file[c.offset..]));
  }

  // Two invocations never bill less than one scan; they bill the same exactly when the cut is
  // harmless, and otherwise more turns.
  lemma ResumeExactlyWhen(decode: Decoder, file: Bytes, grown: Bytes, c: Cursor)
    requires WellFormed(c) && AtLineStart(file, c) && file <= grown && c.priorEffectiveIn >= 0
    ensures var (turns, mid) := ScanFile(decode, file, c);
            var one, two := ScanFile(decode, grown, c).0, turns + ScanFile(decode, grown, ReadBack(mid)).0;
            |one| <= |two| && (one == two <==> IsHarmless(decode, file, grown, c)) && (|one| == |two| ==> one == two)
  {
    if ScanFile(decode, file, c).1.priorEffectiveIn >= 0 {
      CursorBillsNoLess(decode, file, grown, c);
    } else {
      NegativeBaselineBillsAgain(decode, file, grown, c);
    }
  }

  // ----- whole histories -----

  // Every cut of the history is harmless, looking ahead to the last version of the file.
  ghost predicate AllHarmless(decode: Decoder, files: seq<Bytes>, c: Cursor)
    decreases |files|
  {
    |files| > 1 && c.offset <= |files[0]| ==>
      && IsHarmless(decode, files[0], files[|files| - 1], c)
      && AllHarmless(decode, files[1..], ReadBack(ScanFile(decode, files[0], c).1))
  }

  // Invocations depend on what is read back only.
  lemma ReadBackDecides(decode: Decoder, files: seq<Bytes>, a: Cursor, b: Cursor)
    requires ReadBack(a) == ReadBack(b) && files != []
    ensures Invocations(decode, files, a).0 == Invocations(decode, files, b).0
    decreases |files|
  {
    var end := ScanFile(decode, files[0], ReadBack(a)).1;
    if |files| > 1 {
      ReadBackDecides(decode, files[1..], Persisted(a, end), Persisted(b, end));
    }
  }

  // Over any append-only history, with any counts and any number of keys, the invocations never
  // bill less than one scan of the final file, and bill exactly the same turns if and only if every
  // cut is harmless.
  lemma {:induction false} HistoryExactlyWhen(decode: Decoder, files: seq<Bytes>, stored: Cursor)
    requires files != [] && Grows(files) && WellFormed(ReadBack(stored)) && AtLineStart(files[0], ReadBack(stored))
    ensures var one, many := ScanFile(decode, files[|files| - 1], ReadBack(stored)).0,
                             Invocations(decode, files, stored).0;
            && |one| <= |many| && (one == many <==> AllHarmless(decode, files, ReadBack(stored)))
            && (|one| == |many| ==> one == many)
    decreases |files|
  {
    var c := ReadBack(stored);
    var (turns, end) := ScanFile(decode, files[0], c);
    if |files| == 1 {
      Seqs.Nothing(turns);
    } else {
      GrowsToLast(files);
      GrowsOn(files);
      IdleScan(decode, files[0], stored);
      StoredWell(decode, files[0], c);
      StopsAtLineStart(decode, files[0], files[1], c);
      HistoryExactlyWhen(decode, files[1..], Persisted(stored, end));
      ResumeExactlyWhen(decode, files[0], files[|files| - 1], c);
      CutsJoin(turns, ScanFile(decode, files[|files| - 1], c).0, ScanFile(decode, files[|files| - 1], ReadBack(end)).0,
               Invocations(decode, files[1..], Persisted(stored, end)).0);
    }
  }

  lemma CutsJoin<T>(turns: seq<T>, one: seq<T>, two: seq<T>, many: seq<T>)
    requires |one| <= |turns + two| && |two| <= |many|
    requires (|one| == |turns + two| ==> one == turns + two) && (|two| == |many| ==> two == many)
    ensures |one| <= |turns + many|
    ensures one == turns + many <==> one == turns + two && two == many
    ensures |one| == |turns + many| ==> one == turns + many
  {
  }

  lemma StoredWell(decode: Decoder, file: Bytes, c: Cursor)
    requires WellFormed(c) && c.offset <= |file|
    ensures WellFormed(ReadBack(ScanFile(decode, file, c).1))
  {
    LoadKept(c.seenKeys);
    FoldKeepsKeys(decode, Restored(c), Lines(file[c.offset..]));
    WhereScanEnds(decode, file, c);
  }
}
