/** Which lines of a transcript are billed, and that each turn says what its line says. */
module ClaudeTurns {
  import opened Basics
  import opened LineScan
  import Seqs
  import opened ClaudeScan

  // A line that reports the usage of a model.
  predicate Reports(decode: Decoder, line: Bytes) {
    var e := decode(line);
    e.Some? && e.value.type_ == "assistant" && e.value.model != "" && e.value.usage.Some?
  }

  // What tells a message from another: its id, or else the id of its request.
  predicate IsNamed(e: Entry) {
    e.messageId != "" || e.requestId != ""
  }

  predicate SameMessage(a: Entry, b: Entry) {
    if a.messageId != "" then b.messageId == a.messageId
    else b.messageId == "" && a.requestId != "" && b.requestId == a.requestId
  }

  // Keys stand for messages: a line has one exactly when it is named, and two lines have the same
  // exactly when they are of one message.
  lemma KeysTellMessages(a: Entry, b: Entry)
    ensures MessageKey(a.messageId, a.requestId) != "" <==> IsNamed(a)
    ensures IsNamed(a) ==> (MessageKey(a.messageId, a.requestId) == MessageKey(b.messageId, b.requestId)
                            <==> SameMessage(a, b))
  {
    var x, y := "message:", "request:";
    assert x[0] == 'm' && y[0] == 'r';
    if a.messageId != "" && b.messageId != "" && x + a.messageId == x + b.messageId {
      Seqs.Prefix(x, a.messageId);
      Seqs.Prefix(x, b.messageId);
    }
    if a.requestId != "" && b.requestId != "" && y + a.requestId == y + b.requestId {
      Seqs.Prefix(y, a.requestId);
      Seqs.Prefix(y, b.requestId);
    }
    if a.messageId != "" && b.messageId == "" && b.requestId != "" {
      assert (x + a.messageId)[0] == 'm' && (y + b.requestId)[0] == 'r';
    }
    if b.messageId != "" && a.messageId == "" && a.requestId != "" {
      assert (x + b.messageId)[0] == 'm' && (y + a.requestId)[0] == 'r';
    }
  }

  // A reporting line is billed unless it is of a message seen before, by the cursor or on an earlier
  // reporting line.
  ghost predicate IsBilled(decode: Decoder, seen: set<string>, lines: seq<Bytes>, i: nat)
    requires i < |lines|
  {
    Reports(decode, lines[i])
    && (IsNamed(decode(lines[i]).value) ==>
          && KeyOf(decode, lines[i]) !in seen
          && forall j :: 0 <= j < i && Reports(decode, lines[j]) ==>
                           !SameMessage(decode(lines[i]).value, decode(lines[j]).value))
  }

  // The turn says what the line says, field by field.
  predicate Tells(decode: Decoder, line: Bytes, turn: Turn) {
    Reports(decode, line)
    && var e := decode(line).value;
    var u := e.usage.value;
    && turn.model == e.model && turn.outputTokens == u.output && turn.curInput == u.input
    && turn.curCacheCreation == u.cacheCreation && turn.curCacheRead == u.cacheRead
  }

  // What is charged for input is the growth over the turn before, or everything when it shrank.
  predicate Charges(before: int, turn: Turn) {
    var now := turn.curInput + turn.curCacheCreation + turn.curCacheRead;
    turn.tokensInDelta == if now >= before then now - before else now
  }

  // `at` are the lines the turns were made of, in order.
  ghost predicate Placed(decode: Decoder, lines: seq<Bytes>, turns: seq<Turn>, at: seq<nat>) {
    && |at| == |turns|
    && (forall k :: 0 <= k < |at| ==> at[k] < |lines| && Tells(decode, lines[at[k]], turns[k]))
    && (forall j, k :: 0 <= j < k < |at| ==> at[j] < at[k])
  }

  // The input of the turn before the k-th.
  function Preceding(running: int, turns: seq<Turn>, k: nat): int
    requires k <= |turns|
  {
    if k == 0 then running else turns[k - 1].CurEffective()
  }

  ghost predicate Charged(running: int, turns: seq<Turn>) {
    forall k: nat :: k < |turns| ==> Charges(Preceding(running, turns, k), turns[k])
  }

  ghost predicate Bills(decode: Decoder, st: State, lines: seq<Bytes>, turns: seq<Turn>, at: seq<nat>) {
    && Placed(decode, lines, turns, at)
    && (forall i :: 0 <= i < |lines| ==> (i in at <==> IsBilled(decode, st.seen, lines, i)))
    && Charged(st.running, turns)
  }

  // What the scan knows after some lines: the keys it has seen, and the last turn's input.
  ghost predicate Knows(decode: Decoder, st: State, lines: seq<Bytes>, turns: seq<Turn>, end: State) {
    && (forall key :: key in end.seen <==> key in st.seen || IsKeyOf(decode, lines, key))
    && end.running == Preceding(st.running, turns, |turns|)
  }

  ghost predicate IsKeyOf(decode: Decoder, lines: seq<Bytes>, key: string) {
    key != "" && exists j :: 0 <= j < |lines| && KeyOf(decode, lines[j]) == key
  }

  // A step decides as it should.
  lemma BilledNow(decode: Decoder, st: State, lines: seq<Bytes>, line: Bytes, turns: seq<Turn>, before: State)
    requires Knows(decode, st, lines, turns, before)
    ensures IsBilled(decode, st.seen, lines + [line], |lines|) <==> Step(decode, before, line).1 != []
  {
    var all := lines + [line];
    Seqs.Snoc(lines, line);
    if Reports(decode, line) {
      var e := decode(line).value;
      KeysTellMessages(e, e);
      forall j | 0 <= j < |lines| && Reports(decode, lines[j])
        ensures IsNamed(e) ==>
                  (KeyOf(decode, lines[j]) == KeyOf(decode, line) <==> SameMessage(e, decode(lines[j]).value))
      {
        KeysTellMessages(e, decode(lines[j]).value);
      }
      assert forall j :: 0 <= j < |lines| ==> all[j] == lines[j];
      assert forall j :: 0 <= j < |lines| && KeyOf(decode, lines[j]) != "" ==> Reports(decode, lines[j]);
    }
  }

  lemma BilledBefore(decode: Decoder, seen: set<string>, lines: seq<Bytes>, line: Bytes, i: nat)
    requires i < |lines|
    ensures IsBilled(decode, seen, lines + [line], i) <==> IsBilled(decode, seen, lines, i)
  {
    assert forall j :: 0 <= j < |lines| ==> (lines + [line])[j] == lines[j];
  }

  lemma KnowsMore(decode: Decoder, st: State, lines: seq<Bytes>, line: Bytes, turns: seq<Turn>, before: State)
    requires Knows(decode, st, lines, turns, before)
    ensures Knows(decode, st, lines + [line], turns + Step(decode, before, line).1, Step(decode, before, line).0)
  {
    var all, end := lines + [line], Step(decode, before, line).0;
    assert forall j :: 0 <= j < |lines| ==> all[j] == lines[j];
    assert all[|lines|] == line;
    forall key ensures key in end.seen <==> key in st.seen || IsKeyOf(decode, all, key)
    {
      if key in before.seen && key !in st.seen {
        var j :| 0 <= j < |lines| && KeyOf(decode, lines[j]) == key;
        assert KeyOf(decode, all[j]) == key;
      }
      if key != "" && key == KeyOf(decode, line) {
        assert KeyOf(decode, all[|lines|]) == key;
      }
    }
  }

  lemma StepTells(decode: Decoder, before: State, line: Bytes)
    ensures var turns := Step(decode, before, line).1;
            turns != [] ==> |turns| == 1 && Tells(decode, line, turns[0]) && Charges(before.running, turns[0])
  {
  }

  lemma LinesBilled(decode: Decoder, seen: set<string>, lines: seq<Bytes>, line: Bytes, at: seq<nat>, billed: bool)
    requires forall k :: 0 <= k < |at| ==> at[k] < |lines|
    requires forall i :: 0 <= i < |lines| ==> (i in at <==> IsBilled(decode, seen, lines, i))
    requires IsBilled(decode, seen, lines + [line], |lines|) <==> billed
    ensures var at' := at + if billed then [|lines|] else [];
            forall i :: 0 <= i < |lines + [line]| ==> (i in at' <==> IsBilled(decode, seen, lines + [line], i))
  {
    forall i | 0 <= i < |lines| ensures IsBilled(decode, seen, lines + [line], i)
                                   <==> IsBilled(decode, seen, lines, i) {
      BilledBefore(decode, seen, lines, line, i);
    }
    assert |lines| !in at;
  }

  lemma PlacedOn(decode: Decoder, lines: seq<Bytes>, line: Bytes, turns: seq<Turn>, at: seq<nat>)
    requires Placed(decode, lines, turns, at)
    ensures Placed(decode, lines + [line], turns, at)
  {
    assert forall j :: 0 <= j < |lines| ==> (lines + [line])[j] == lines[j];
  }

  lemma PlacedMore(decode: Decoder, lines: seq<Bytes>, line: Bytes, turns: seq<Turn>, turn: Turn, at: seq<nat>)
    requires Placed(decode, lines, turns, at) && Tells(decode, line, turn)
    ensures Placed(decode, lines + [line], turns + [turn], at + [|lines|])
  {
    assert forall j :: 0 <= j < |lines| ==> (lines + [line])[j] == lines[j];
  }

  lemma PrecedingOn(running: int, turns: seq<Turn>, turn: Turn, k: nat)
    requires k <= |turns|
    ensures Preceding(running, turns + [turn], k) == Preceding(running, turns, k)
  {
  }

  lemma ChargedMore(running: int, turns: seq<Turn>, turn: Turn)
    requires Charged(running, turns)
    requires Charges(Preceding(running, turns, |turns|), turn)
    ensures Charged(running, turns + [turn])
  {
    var all := turns + [turn];
    forall k: nat | k < |all| ensures Charges(Preceding(running, all, k), all[k]) {
      PrecedingOn(running, turns, turn, k);
      if k < |turns| {
        assert all[k] == turns[k];
      }
    }
  }

  lemma BillsMore(decode: Decoder, st: State, lines: seq<Bytes>, line: Bytes, turns: seq<Turn>, before: State,
                  at: seq<nat>)
    returns (at': seq<nat>)
    requires Bills(decode, st, lines, turns, at) && Knows(decode, st, lines, turns, before)
    ensures Bills(decode, st, lines + [line], turns + Step(decode, before, line).1, at')
  {
    var more := Step(decode, before, line).1;
    at' := at + if more != [] then [|lines|] else [];
    BilledNow(decode, st, lines, line, turns, before);
    LinesBilled(decode, st.seen, lines, line, at, more != []);
    if more == [] {
      Seqs.Nothing(turns);
      Seqs.Nothing(at);
      PlacedOn(decode, lines, line, turns, at);
    } else {
      StepTells(decode, before, line);
      assert more == [more[0]];
      PlacedMore(decode, lines, line, turns, more[0], at);
      ChargedMore(st.running, turns, more[0]);
    }
  }

  // The turns of a scan are those of its billed lines, in order: one each, saying what the line says,
  // and charged against the turn before.
  lemma {:induction false} TurnsAreBilledLines(decode: Decoder, st: State, lines: seq<Bytes>) returns (at: seq<nat>)
    ensures Bills(decode, st, lines, Fold(decode, st, lines).1, at)
    ensures Knows(decode, st, lines, Fold(decode, st, lines).1, Fold(decode, st, lines).0)
  {
    if lines == [] {
      at := [];
    } else {
      var front, line := lines[..|lines| - 1], lines[|lines| - 1];
      var mid := Fold(decode, st, front);
      Seqs.FrontLast(lines);
      var before := TurnsAreBilledLines(decode, st, front);
      at := BillsMore(decode, st, front, line, mid.1, mid.0, before);
      KnowsMore(decode, st, front, line, mid.1, mid.0);
    }
  }

  // So a scan of a whole file from nothing bills each named message once and every reporting line
  // without a name.
  lemma FreshScanBills(decode: Decoder, file: Bytes) returns (at: seq<nat>)
    ensures Bills(decode, State(0, {}, []), Lines(file), ScanFile(decode, file, FRESH).0, at)
  {
    assert file[0..] == file;
    at := TurnsAreBilledLines(decode, Restored(FRESH), Lines(file));
  }
}
