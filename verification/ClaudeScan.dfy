/** The billing scan of a Claude transcript, resumed from a persisted cursor. */
module ClaudeScan {
  import opened Basics
  import opened Framing
  import opened LineScan
  import Seqs

  datatype Usage = Usage(input: int, cacheCreation: int, cacheRead: int, output: int)
  {
    function EffectiveIn(): int {
      input + cacheCreation + cacheRead
    }
  }

  // The decoded fields of one line; `usage` is absent when the line carries none or null.
  datatype Entry = Entry(type_: string, requestId: string, messageId: string, model: string, usage: Option<Usage>)

  // JSON decoding of a trimmed line; None for blank and undecodable lines.
  type Decoder = Bytes -> Option<Entry>

  datatype Turn = Turn(model: string, tokensInDelta: int, outputTokens: int, curInput: int, curCacheCreation: int,
                       curCacheRead: int)
  {
    function CurEffective(): int {
      curInput + curCacheCreation + curCacheRead
    }
  }

  datatype Cursor = Cursor(offset: nat, priorEffectiveIn: int, seenKeys: seq<string>)

  const FRESH := Cursor(0, 0, [])

  const MAX_SEEN_KEYS := 1024

  function MessageKey(messageId: string, requestId: string): string {
    if messageId != "" then "message:" + messageId
    else if requestId != "" then "request:" + requestId
    else ""
  }

  // The part of a line that is billed, if any.
  function Billable(decode: Decoder, line: Bytes): Option<Entry> {
    match decode(line)
    case None => None
    case Some(e) => if e.type_ != "assistant" || e.model == "" || e.usage.None? then None else Some(e)
  }

  function KeyOf(decode: Decoder, line: Bytes): string {
    match Billable(decode, line)
    case None => ""
    case Some(e) => MessageKey(e.messageId, e.requestId)
  }

  // `seen` is the in-memory set, `keys` the bounded list that is persisted.
  datatype State = State(running: int, seen: set<string>, keys: seq<string>)

  ghost function KeySet(keys: seq<string>): set<string> {
    set k | k in keys
  }

  function AppendSeen(keys: seq<string>, key: string): seq<string> {
    if key == "" || key in keys then keys
    else
      var all := keys + [key];
      if |all| > MAX_SEEN_KEYS then all[|all| - MAX_SEEN_KEYS..] else all
  }

  function Delta(running: int, effIn: int): int {
    if effIn > running then effIn - running else if effIn == running then 0 else effIn
  }

  function Step(decode: Decoder, st: State, line: Bytes): (State, seq<Turn>) {
    match Billable(decode, line)
    case None => (st, [])
    case Some(e) =>
      var u, key := e.usage.value, MessageKey(e.messageId, e.requestId);
      if key != "" && key in st.seen then (st, [])
      else
        (State(u.EffectiveIn(), if key == "" then st.seen else st.seen + {key}, AppendSeen(st.keys, key)),
         [Turn(e.model, Delta(st.running, u.EffectiveIn()), u.output, u.input, u.cacheCreation, u.cacheRead)])
  }

  // Process lines in order, collecting the turns.
  function Fold(decode: Decoder, st: State, lines: seq<Bytes>): (State, seq<Turn>) {
    if lines == [] then (st, [])
    else
      var before := Fold(decode, st, lines[..|lines| - 1]);
      var after := Step(decode, before.0, lines[|lines| - 1]);
      (after.0, before.1 + after.1)
  }

  lemma FoldSnoc(decode: Decoder, st: State, lines: seq<Bytes>, line: Bytes)
    ensures Fold(decode, st, lines + [line]) ==
            var before := Fold(decode, st, lines);
            var after := Step(decode, before.0, line);
            (after.0, before.1 + after.1)
  {
    assert (lines + [line])[..|lines|] == lines;
  }

  lemma {:induction false} FoldConcat(decode: Decoder, st: State, a: seq<Bytes>, b: seq<Bytes>)
    ensures Fold(decode, st, a + b) ==
            var mid := Fold(decode, st, a);
            var end := Fold(decode, mid.0, b);
            (end.0, mid.1 + end.1)
  {
    var out := Fold(decode, st, a);
    if b == [] {
      Seqs.Nothing(a);
      Seqs.Nothing(out.1);
    } else {
      var front, last := b[..|b| - 1], b[|b| - 1];
      FoldConcat(decode, st, a, front);
      Seqs.FrontLast(b);
      Seqs.Assoc(a, front, [last]);
      FoldSnoc(decode, st, a + front, last);
      var end := Fold(decode, out.0, front);
      Seqs.Assoc(out.1, end.1, Step(decode, end.0, last).1);
    }
  }

  // The state a scan starts from: the cursor's non-empty keys, once each.
  function Loaded(keys: seq<string>): State {
    if keys == [] then State(0, {}, [])
    else
      var before, key := Loaded(keys[..|keys| - 1]), keys[|keys| - 1];
      if key == "" then before else State(0, before.seen + {key}, AppendSeen(before.keys, key))
  }

  function Restored(c: Cursor): State {
    Loaded(c.seenKeys).(running := c.priorEffectiveIn)
  }

  // A scan of the bytes from `offset` on: the turns, and the cursor after the last complete line.
  function ScanData(decode: Decoder, st: State, offset: nat, data: Bytes): (seq<Turn>, Cursor) {
    var end := Fold(decode, st, Lines(data));
    (end.1, Cursor(offset + Consumed(data), end.0.running, end.0.keys))
  }

  // One invocation over the whole file. A cursor beyond the end means the file was replaced,
  // and the scan starts over.
  function ScanFile(decode: Decoder, file: Bytes, start: Cursor): (seq<Turn>, Cursor) {
    if start.offset > |file| then ScanData(decode, Restored(FRESH), 0, file)
    else ScanData(decode, Restored(start), start.offset, file[start.offset..])
  }

  // What a hook reads back of a stored cursor: one with a negative baseline is taken for damaged,
  // and the next scan starts over.
  function ReadBack(stored: Cursor): Cursor {
    if stored.priorEffectiveIn >= 0 then stored else FRESH
  }

  // What a hook stores: the new cursor when the offset advanced or the baseline changed.
  function Persisted(stored: Cursor, end: Cursor): Cursor {
    var start := ReadBack(stored);
    if end.offset > start.offset || end.priorEffectiveIn != start.priorEffectiveIn then end else stored
  }

  // ----- the scanning loop -----

  // What adding a key makes of a list: a new key goes to the end, and when that makes the list too
  // long it is cut to its last part.
  ghost predicate Appended(keys: seq<string>, key: string, r: seq<string>) {
    && (Bounded(keys) ==> Bounded(r))
    && (key == "" || key in keys ==> r == keys)
    && (key != "" ==> key in r)
    && (key != "" && key !in keys ==>
          && |r| == (if |keys| < MAX_SEEN_KEYS then |keys| + 1 else MAX_SEEN_KEYS)
          && r == (keys + [key])[|keys| + 1 - |r|..])
  }

  method AppendSeenKey(keys: seq<string>, key: string) returns (r: seq<string>)
    ensures r == AppendSeen(keys, key)
  {
    if key == "" {
      return keys;
    }
    for i := 0 to |keys|
      invariant key !in keys[..i]
    {
      if keys[i] == key {
        return keys;
      }
      assert keys[..i + 1] == keys[..i] + [keys[i]];
    }
    assert keys[..|keys|] == keys;
    r := keys + [key];
    if |r| > MAX_SEEN_KEYS {
      r := r[|r| - MAX_SEEN_KEYS..];
    }
  }

  // A key list as it may be stored: no key twice, none empty, no more than are kept.
  ghost predicate Bounded(keys: seq<string>) {
    Distinct(keys) && "" !in keys && |keys| <= MAX_SEEN_KEYS
  }

  lemma AppendKeepsLast(keys: seq<string>, key: string)
    ensures Appended(keys, key, AppendSeen(keys, key))
  {
    var r := AppendSeen(keys, key);
    if key != "" && key !in keys {
      assert r[|r| - 1] == key;
    }
    AppendBounded(keys, key);
  }

  // Appending keeps the list so, and makes up no key.
  lemma AppendBounded(keys: seq<string>, key: string)
    ensures Bounded(keys) ==> Bounded(AppendSeen(keys, key))
    ensures forall k :: k in AppendSeen(keys, key) ==> k in keys || (k == key && key != "")
  {
    if key != "" && key !in keys && Distinct(keys) {
      assert Distinct(keys + [key]);
    }
  }

  method LoadKeys(keys: seq<string>) returns (seen: set<string>, kept: seq<string>)
    ensures State(0, seen, kept) == Loaded(keys)
  {
    seen, kept := {}, [];
    for i := 0 to |keys|
      invariant State(0, seen, kept) == Loaded(keys[..i])
    {
      assert keys[..i + 1][..i] == keys[..i];
      if keys[i] != "" {
        seen := seen + {keys[i]};
        kept := AppendSeenKey(kept, keys[i]);
      }
    }
    assert keys[..|keys|] == keys;
  }

  // The body of the scanning loop, for one complete line.
  method TakeLine(decode: Decoder, line: Bytes, running: int, seen: set<string>, keys: seq<string>)
    returns (running': int, seen': set<string>, keys': seq<string>, turn: Option<Turn>)
    ensures (State(running', seen', keys'), if turn.Some? then [turn.value] else []) ==
            Step(decode, State(running, seen, keys), line)
    ensures turn.Some? ==>
              var e := decode(line).value;
              var u := e.usage.value;
              && turn.value.model == e.model && turn.value.outputTokens == u.output && turn.value.curInput == u.input
              && turn.value.curCacheCreation == u.cacheCreation && turn.value.curCacheRead == u.cacheRead
  {
    running', seen', keys', turn := running, seen, keys, None;
    var decoded := decode(line);
    if decoded.None? {
      return;
    }
    var e := decoded.value;
    if e.type_ != "assistant" || e.model == "" || e.usage.None? {
      return;
    }
    var u := e.usage.value;
    var effIn := u.EffectiveIn();
    var key := MessageKey(e.messageId, e.requestId);
    if key != "" && key in seen {
      return;
    }
    var delta;
    if effIn > running {
      delta := effIn - running;
    } else if effIn == running {
      delta := 0;
    } else {
      delta := effIn;
    }
    running' := effIn;
    if key != "" {
      seen' := seen + {key};
      keys' := AppendSeenKey(keys, key);
    }
    turn := Some(Turn(e.model, delta, u.output, u.input, u.cacheCreation, u.cacheRead));
  }

  method ReadNewAssistantUsageLines(decode: Decoder, file: Bytes, start: Cursor) returns (out: seq<Turn>, end: Cursor)
    ensures (out, end) == ScanFile(decode, file, start)
  {
    if start.offset > |file| {
      assert file[0..] == file;
      out, end := ReadLines(decode, FRESH, file);
    } else {
      out, end := ReadLines(decode, start, file[start.offset..]);
    }
  }

  method ReadLines(decode: Decoder, from: Cursor, data: Bytes) returns (out: seq<Turn>, end: Cursor)
    ensures (out, end) == ScanData(decode, Restored(from), from.offset, data)
  {
    var rest := data;
    var offset, running := from.offset, from.priorEffectiveIn;
    var seen, keys := LoadKeys(from.seenKeys);
    out := [];
    ghost var done: seq<Bytes> := [];
    LeftAll(data);
    while true
      invariant offset >= from.offset && Left(data, done, offset - from.offset, rest)
      invariant (State(running, seen, keys), out) == Fold(decode, Restored(from), done)
      decreases |rest|
    {
      var idx := IndexNewline(rest);
      if idx.None? {
        LeftNothing(data, done, offset - from.offset, rest);
        end := Cursor(offset, running, keys);
        return;
      }
      LeftNext(data, done, offset - from.offset, rest, idx.value);
      var line := rest[..idx.value];
      FoldSnoc(decode, Restored(from), done, line);
      offset := offset + idx.value + 1;
      rest := rest[idx.value + 1..];
      done := done + [line];
      var turn;
      running, seen, keys, turn := TakeLine(decode, line, running, seen, keys);
      out := out + if turn.Some? then [turn.value] else [];
    }
  }

  // ----- resuming -----

  // Nothing has been forgotten: the persisted keys are exactly the keys seen.
  ghost predicate Remembers(st: State) {
    Distinct(st.keys) && "" !in st.keys && st.seen == KeySet(st.keys)
  }

  ghost function KeysOf(decode: Decoder, lines: seq<Bytes>): set<string> {
    set line | line in lines && KeyOf(decode, line) != "" :: KeyOf(decode, line)
  }

  lemma {:induction false} DistinctCount(keys: seq<string>)
    requires Distinct(keys)
    ensures |KeySet(keys)| == |keys|
  {
    if keys != [] {
      var front, last := keys[..|keys| - 1], keys[|keys| - 1];
      DistinctCount(front);
      assert KeySet(keys) == KeySet(front) + {last};
    } else {
      assert KeySet(keys) == {};
    }
  }

  lemma AppendRemembers(st: State, key: string)
    requires Remembers(st) && |st.seen + {key}| <= MAX_SEEN_KEYS && key != ""
    ensures Remembers(State(st.running, st.seen + {key}, AppendSeen(st.keys, key)))
  {
    if key !in st.keys {
      var all := st.keys + [key];
      DistinctCount(all);
      assert st.seen + {key} == KeySet(all);
    } else {
      assert st.seen + {key} == st.seen;
    }
  }

  lemma StepRemembers(decode: Decoder, st: State, line: Bytes)
    requires Remembers(st) && |st.seen + KeysOf(decode, [line])| <= MAX_SEEN_KEYS
    ensures var st' := Step(decode, st, line).0;
            Remembers(st') && st'.seen <= st.seen + KeysOf(decode, [line])
  {
    var key := KeyOf(decode, line);
    if Billable(decode, line).Some? && key != "" && key !in st.seen {
      assert line in [line];
      assert key in KeysOf(decode, [line]);
      Subset(st.seen + {key}, st.seen + KeysOf(decode, [line]));
      AppendRemembers(st, key);
    }
  }

  lemma Subset<T>(a: set<T>, b: set<T>)
    requires a <= b
    ensures |a| <= |b|
  {
    assert b == a + (b - a);
  }

  lemma {:induction false} FoldRemembers(decode: Decoder, st: State, lines: seq<Bytes>)
    requires Remembers(st) && |st.seen + KeysOf(decode, lines)| <= MAX_SEEN_KEYS
    ensures var st' := Fold(decode, st, lines).0;
            Remembers(st') && st'.seen <= st.seen + KeysOf(decode, lines)
  {
    if lines != [] {
      var front, last := lines[..|lines| - 1], lines[|lines| - 1];
      assert lines == front + [last];
      assert KeysOf(decode, lines) == KeysOf(decode, front) + KeysOf(decode, [last]);
      Subset(st.seen + KeysOf(decode, front), st.seen + KeysOf(decode, lines));
      FoldRemembers(decode, st, front);
      var mid := Fold(decode, st, front).0;
      Subset(mid.seen + KeysOf(decode, [last]), st.seen + KeysOf(decode, lines));
      StepRemembers(decode, mid, last);
    }
  }

  // What was persisted is what is loaded.
  lemma {:induction false} LoadKept(keys: seq<string>)
    requires Bounded(keys)
    ensures Loaded(keys) == State(0, KeySet(keys), keys)
  {
    if keys != [] {
      var front, last := keys[..|keys| - 1], keys[|keys| - 1];
      LoadKept(front);
      Seqs.FrontLast(keys);
      SetSnoc(front, last);
    } else {
      assert KeySet(keys) == {};
    }
  }

  lemma SetSnoc(front: seq<string>, last: string)
    ensures KeySet(front + [last]) == KeySet(front) + {last}
  {
  }

  lemma RestoreRemembered(st: State, offset: nat)
    requires Remembers(st) && |st.seen| <= MAX_SEEN_KEYS
    ensures Restored(Cursor(offset, st.running, st.keys)) == st
  {
    DistinctCount(st.keys);
    LoadKept(st.keys);
  }

  // A cursor that a scan may have stored: its keys are distinct and no more than are kept.
  ghost predicate WellFormed(c: Cursor) {
    Bounded(c.seenKeys)
  }

  // The keys a scan from this cursor has to keep apart.
  ghost function KeysInPlay(decode: Decoder, file: Bytes, c: Cursor): set<string> {
    KeySet(c.seenKeys) + if c.offset <= |file| then KeysOf(decode, Lines(file[c.offset..])) else {}
  }

  lemma KeysOfSnoc(decode: Decoder, lines: seq<Bytes>)
    requires lines != []
    ensures var n, key := |lines| - 1, KeyOf(decode, lines[|lines| - 1]);
            KeysOf(decode, lines) == KeysOf(decode, lines[..n]) + if key == "" then {} else {key}
  {
    var n := |lines| - 1;
    assert forall line :: line in lines <==> line in lines[..n] || line == lines[n];
  }

  lemma KeysConcat(decode: Decoder, a: seq<Bytes>, b: seq<Bytes>)
    ensures KeysOf(decode, a + b) == KeysOf(decode, a) + KeysOf(decode, b)
  {
  }

  // After a scan the memory is complete, and what it stores restores it.
  lemma ScanRemembers(decode: Decoder, c: Cursor, data: Bytes)
    requires WellFormed(c) && |KeySet(c.seenKeys) + KeysOf(decode, Lines(data))| <= MAX_SEEN_KEYS
    ensures var mid := ScanData(decode, Restored(c), c.offset, data).1;
            && WellFormed(mid)
            && KeySet(mid.seenKeys) <= KeySet(c.seenKeys) + KeysOf(decode, Lines(data))
            && Restored(mid) == Fold(decode, Restored(c), Lines(data)).0
  {
    LoadKept(c.seenKeys);
    var st, lines := Restored(c), Lines(data);
    FoldRemembers(decode, st, lines);
    var st' := Fold(decode, st, lines).0;
    Subset(st'.seen, st.seen + KeysOf(decode, lines));
    RestoreRemembered(st', c.offset + Consumed(data));
    DistinctCount(st'.keys);
  }

  lemma ResumeKeys(decode: Decoder, file: Bytes, grown: Bytes, c: Cursor)
    requires WellFormed(c) && c.offset <= |file| && file <= grown
    requires |KeysInPlay(decode, grown, c)| <= MAX_SEEN_KEYS
    ensures var mid := ScanFile(decode, file, c).1;
            && WellFormed(mid) && mid.offset == c.offset + Consumed(file[c.offset..]) <= |file|
            && Restored(mid) == Fold(decode, Restored(c), Lines(file[c.offset..])).0
            && KeysInPlay(decode, grown, mid) <= KeysInPlay(decode, grown, c)
  {
    KeysGrow(decode, file, grown, c, c.offset + Consumed(file[c.offset..]));
    Subset(KeysInPlay(decode, file, c), KeysInPlay(decode, grown, c));
    ScanRemembers(decode, c, file[c.offset..]);
    ScanFileFrom(decode, file, c);
    KeysCarried(decode, file, grown, c, ScanFile(decode, file, c).1);
  }

  lemma ScanFileFrom(decode: Decoder, file: Bytes, c: Cursor)
    requires c.offset <= |file|
    ensures ScanFile(decode, file, c) == ScanData(decode, Restored(c), c.offset, file[c.offset..])
  {
  }

  lemma KeysCarried(decode: Decoder, file: Bytes, grown: Bytes, c: Cursor, mid: Cursor)
    requires c.offset <= |file| && file <= grown && mid.offset == c.offset + Consumed(file[c.offset..])
    requires KeySet(mid.seenKeys) <= KeysInPlay(decode, file, c)
    ensures KeysInPlay(decode, grown, mid) <= KeysInPlay(decode, grown, c)
  {
    KeysGrow(decode, file, grown, c, mid.offset);
    MoreKeys(KeySet(mid.seenKeys), KeysInPlay(decode, file, c), KeysOf(decode, Lines(grown[mid.offset..])));
  }

  lemma MoreKeys(a: set<string>, b: set<string>, more: set<string>)
    requires a <= b
    ensures a + more <= b + more
  {
  }

  lemma KeysGrow(decode: Decoder, file: Bytes, grown: Bytes, c: Cursor, next: nat)
    requires c.offset <= |file| && file <= grown && next == c.offset + Consumed(file[c.offset..])
    ensures next <= |file|
    ensures KeysInPlay(decode, grown, c) == KeysInPlay(decode, file, c) + KeysOf(decode, Lines(grown[next..]))
  {
    CutLines(file, grown, c.offset, next);
    KeysConcat(decode, Lines(file[c.offset..]), Lines(grown[next..]));
  }

  // One resumed scan after growth at any byte, mid-line included, from a baseline that is not
  // negative.
  lemma ResumeOnce(decode: Decoder, file: Bytes, grown: Bytes, c: Cursor)
    requires WellFormed(c) && c.offset <= |file| && file <= grown
    requires |KeysInPlay(decode, grown, c)| <= MAX_SEEN_KEYS
    requires ScanFile(decode, file, c).1.priorEffectiveIn >= 0
    ensures var first := ScanFile(decode, file, c);
            var second := ScanFile(decode, grown, ReadBack(first.1));
            ScanFile(decode, grown, c) == (first.0 + second.0, second.1)
  {
    ResumeKeys(decode, file, grown, c);
    ScanFileContinues(decode, file, grown, c);
  }

  lemma ScanFileContinues(decode: Decoder, file: Bytes, grown: Bytes, c: Cursor)
    requires c.offset <= |file| && file <= grown
    requires Restored(ScanFile(decode, file, c).1) == Fold(decode, Restored(c), Lines(file[c.offset..])).0
    ensures var first := ScanFile(decode, file, c);
            var second := ScanFile(decode, grown, first.1);
            ScanFile(decode, grown, c) == (first.0 + second.0, second.1)
  {
    var mid := ScanFile(decode, file, c).1;
    WhereScanEnds(decode, file, c);
    CutLines(file, grown, c.offset, mid.offset);
    FoldConcat(decode, Restored(c), Lines(file[c.offset..]), Lines(grown[mid.offset..]));
    ScanFileIs(decode, grown, c);
    ScanFileIs(decode, grown, mid);
    ScanFileIs(decode, file, c);
  }

  lemma ScanFileIs(decode: Decoder, file: Bytes, c: Cursor)
    requires c.offset <= |file|
    ensures var (st, turns) := Fold(decode, Restored(c), Lines(file[c.offset..]));
            ScanFile(decode, file, c) == (turns, Cursor(c.offset + Consumed(file[c.offset..]), st.running, st.keys))
  {
  }

  // A scan that consumes nothing stores nothing new.
  lemma IdleScan(decode: Decoder, file: Bytes, stored: Cursor)
    requires WellFormed(ReadBack(stored)) && ReadBack(stored).offset <= |file|
    ensures var end := ScanFile(decode, file, ReadBack(stored)).1; ReadBack(Persisted(stored, end)) == ReadBack(end)
    ensures var end := ScanFile(decode, file, ReadBack(stored)).1;
            stored.priorEffectiveIn >= 0 ==> Persisted(stored, end) == end
  {
    var c := ReadBack(stored);
    LoadKept(c.seenKeys);
    ConsumedIsPrefix(file[c.offset..]);
  }

  // Successive hook invocations, one per version of the file: all turns, and the last cursor.
  function Invocations(decode: Decoder, files: seq<Bytes>, stored: Cursor): (seq<Turn>, Cursor) {
    if files == [] then ([], stored)
    else
      var (turns, end) := ScanFile(decode, files[0], ReadBack(stored));
      var (more, last) := Invocations(decode, files[1..], Persisted(stored, end));
      (turns + more, last)
  }

  // Token counts in the transcript are not negative.
  ghost predicate NonNegative(decode: Decoder, lines: seq<Bytes>) {
    forall line :: line in lines && Billable(decode, line).Some? ==>
                     var u := Billable(decode, line).value.usage.value;
                     u.input >= 0 && u.cacheCreation >= 0 && u.cacheRead >= 0
  }

  ghost predicate NonNegativeFrom(decode: Decoder, file: Bytes, offset: nat) {
    offset <= |file| ==> NonNegative(decode, Lines(file[offset..]))
  }

  // With such counts the baseline a scan stops with is not negative, and the rest of the file has
  // such counts too.
  lemma BaselineKept(decode: Decoder, file: Bytes, grown: Bytes, c: Cursor)
    requires c.offset <= |file| && file <= grown && c.priorEffectiveIn >= 0
    requires NonNegativeFrom(decode, grown, c.offset)
    ensures var mid := ScanFile(decode, file, c).1;
            mid.priorEffectiveIn >= 0 && mid.offset <= |file| && NonNegativeFrom(decode, grown, mid.offset)
  {
    var data, mid := file[c.offset..], ScanFile(decode, file, c).1;
    WhereScanEnds(decode, file, c);
    CutLines(file, grown, c.offset, mid.offset);
    NonNegativeParts(decode, Lines(data), Lines(grown[mid.offset..]));
    DeltasBounded(decode, Restored(c), Lines(data));
  }

  lemma NonNegativeParts(decode: Decoder, a: seq<Bytes>, b: seq<Bytes>)
    ensures NonNegative(decode, a + b) ==> NonNegative(decode, a) && NonNegative(decode, b)
  {
    assert forall line :: line in a || line in b ==> line in a + b;
  }

  // Resuming equals scanning once: over any append-only history, wherever each version stops,
  // with token counts that are not negative and at most 1024 distinct message keys in play, the
  // invocations together report exactly the turns of a single scan of the final file, and leave
  // the same cursor.
  lemma {:induction false} ResumingEqualsScanningOnce(decode: Decoder, files: seq<Bytes>, c: Cursor)
    requires files != [] && Grows(files) && WellFormed(c) && c.offset <= |files[0]| && c.priorEffectiveIn >= 0
    requires NonNegativeFrom(decode, files[|files| - 1], c.offset)
    requires |KeysInPlay(decode, files[|files| - 1], c)| <= MAX_SEEN_KEYS
    ensures Invocations(decode, files, c) == ScanFile(decode, files[|files| - 1], c)
    decreases |files|
  {
    GrowsToLast(files);
    var final := files[|files| - 1];
    BaselineKept(decode, files[0], final, c);
    ResumeOnce(decode, files[0], final, c);
    ResumeKeys(decode, files[0], final, c);
    var (turns, mid) := ScanFile(decode, files[0], c);
    IdleScan(decode, files[0], c);
    if |files| == 1 {
      assert Invocations(decode, files[1..], mid) == ([], mid);
      Seqs.Nothing(turns);
    } else {
      GrowsOn(files);
      Subset(KeysInPlay(decode, final, mid), KeysInPlay(decode, final, c));
      ResumingEqualsScanningOnce(decode, files[1..], mid);
    }
  }

  // ----- beyond 1024 keys -----

  // Whether every later line whose key was already billed is still remembered.
  ghost predicate NoForgottenRepeat(decode: Decoder, st: State, lines: seq<Bytes>) {
    forall line :: line in lines && KeyOf(decode, line) in st.seen ==> KeyOf(decode, line) in st.keys
  }

  // `short` is `full` after some keys were forgotten.
  ghost predicate Forgot(full: State, short: State) {
    full.running == short.running && short.seen <= full.seen
  }

  // After a scan every key it met is seen, billed or not.
  lemma {:induction false} SeenAfter(decode: Decoder, st: State, lines: seq<Bytes>)
    ensures Fold(decode, st, lines).0.seen == st.seen + KeysOf(decode, lines)
  {
    if lines != [] {
      var front, last := lines[..|lines| - 1], lines[|lines| - 1];
      SeenAfter(decode, st, front);
      KeysOfSnoc(decode, lines);
    }
  }

  // A memory that forgot some keys bills at least as many turns, and more when one of those
  // keys comes up again.
  lemma {:induction false} ForgettingBillsMore(decode: Decoder, full: State, short: State, lines: seq<Bytes>)
    requires short.seen <= full.seen && "" !in full.seen
    ensures var (f, s) := (Fold(decode, full, lines).1, Fold(decode, short, lines).1);
            |f| <= |s| && (KeysOf(decode, lines) * (full.seen - short.seen) != {} ==> |f| < |s|)
  {
    if lines != [] {
      var front, last := lines[..|lines| - 1], lines[|lines| - 1];
      ForgettingBillsMore(decode, full, short, front);
      SeenAfter(decode, full, front);
      SeenAfter(decode, short, front);
      KeysOfSnoc(decode, lines);
      StepBillsOnce(decode, Fold(decode, full, front).0, last);
      StepBillsOnce(decode, Fold(decode, short, front).0, last);
    }
  }

  lemma StepBillsOnce(decode: Decoder, st: State, line: Bytes)
    ensures |Step(decode, st, line).1| ==
            if Billable(decode, line).Some?
               && (KeyOf(decode, line) == "" || KeyOf(decode, line) !in st.seen) then 1 else 0
  {
  }

  lemma {:induction false} RememberingBillsSame(decode: Decoder, full: State, short: State, lines: seq<Bytes>)
    requires Forgot(full, short) && "" !in full.seen
    requires forall line :: line in lines ==> KeyOf(decode, line) !in full.seen - short.seen
    ensures var (f, s) := (Fold(decode, full, lines), Fold(decode, short, lines));
            f.1 == s.1 && Forgot(f.0, s.0) && f.0.seen - s.0.seen <= full.seen - short.seen
  {
    if lines != [] {
      var front, last := lines[..|lines| - 1], lines[|lines| - 1];
      assert lines == front + [last];
      RememberingBillsSame(decode, full, short, front);
      assert last in lines;
    }
  }

  // What every scan keeps, with any number of keys: the stored list is bounded and part of the
  // memory.
  ghost predicate KeepsKeys(st: State) {
    Bounded(st.keys) && "" !in st.seen && forall k :: k in st.keys ==> k in st.seen
  }

  lemma {:induction false} FoldKeepsKeys(decode: Decoder, st: State, lines: seq<Bytes>)
    requires KeepsKeys(st)
    ensures KeepsKeys(Fold(decode, st, lines).0)
  {
    if lines != [] {
      var front, last := lines[..|lines| - 1], lines[|lines| - 1];
      FoldKeepsKeys(decode, st, front);
      AppendBounded(Fold(decode, st, front).0.keys, KeyOf(decode, last));
    }
  }

  // Going on from what is stored bills the same turns as going on from memory exactly when no
  // later line repeats a key that fell off the stored list.
  lemma StateResumesExactlyWhen(decode: Decoder, st: State, lines: seq<Bytes>, offset: nat)
    requires KeepsKeys(st)
    ensures Fold(decode, Restored(Cursor(offset, st.running, st.keys)), lines).1 == Fold(decode, st, lines).1
       <==> NoForgottenRepeat(decode, st, lines)
  {
    LoadKept(st.keys);
    var short := Restored(Cursor(offset, st.running, st.keys));
    if NoForgottenRepeat(decode, st, lines) {
      RememberingBillsSame(decode, st, short, lines);
    } else {
      ForgettingBillsMore(decode, st, short, lines);
      var line :| line in lines && KeyOf(decode, line) in st.seen && KeyOf(decode, line) !in st.keys;
      assert KeyOf(decode, line) in KeysOf(decode, lines) * (st.seen - short.seen);
    }
  }

  lemma SamePrefix<T>(a: seq<T>, x: seq<T>, y: seq<T>)
    ensures a + x == a + y <==> x == y
  {
    assert (a + x)[|a|..] == x && (a + y)[|a|..] == y;
  }

  lemma WhereScanEnds(decode: Decoder, file: Bytes, c: Cursor)
    requires c.offset <= |file|
    ensures var data := file[c.offset..];
            var st := Fold(decode, Restored(c), Lines(data)).0;
            ScanFile(decode, file, c).1 == Cursor(c.offset + Consumed(data), st.running, st.keys)
  {
  }

  // What one scan bills in place of two.
  lemma TwoScans(decode: Decoder, file: Bytes, grown: Bytes, c: Cursor)
    requires c.offset <= |file| && file <= grown
    ensures var data := file[c.offset..];
            var st, next := Fold(decode, Restored(c), Lines(data)).0, c.offset + Consumed(data);
            next <= |file|
            && ScanFile(decode, grown, c).0 == ScanFile(decode, file, c).0 + Fold(decode, st, Lines(grown[next..])).1
  {
    CutLines(file, grown, c.offset, c.offset + Consumed(file[c.offset..]));
    FoldConcat(decode, Restored(c), Lines(file[c.offset..]), Lines(grown[c.offset + Consumed(file[c.offset..])..]));
  }

  // With any number of keys: going on from the cursor of a first scan bills what one scan bills
  // exactly when no line left to read repeats a key that the first scan billed and did not store.
  lemma CursorResumesExactlyWhen(decode: Decoder, file: Bytes, grown: Bytes, c: Cursor)
    requires WellFormed(c) && c.offset <= |file| && file <= grown
    ensures var (turns, mid) := ScanFile(decode, file, c);
            mid.offset <= |file|
            && (ScanFile(decode, grown, c).0 == turns + ScanFile(decode, grown, mid).0
                <==> NoForgottenRepeat(decode, Fold(decode, Restored(c), Lines(file[c.offset..])).0,
                                       Lines(grown[mid.offset..])))
  {
    var (turns, mid) := ScanFile(decode, file, c);
    var st := Fold(decode, Restored(c), Lines(file[c.offset..])).0;
    WhereScanEnds(decode, file, c);
    TwoScans(decode, file, grown, c);
    var rest := Lines(grown[mid.offset..]);
    LoadKept(c.seenKeys);
    FoldKeepsKeys(decode, Restored(c), Lines(file[c.offset..]));
    StateResumesExactlyWhen(decode, st, rest, mid.offset);
    SamePrefix(turns, Fold(decode, st, rest).1, Fold(decode, Restored(mid), rest).1);
  }

  // ----- what the deltas add up to -----

  function SumDeltas(turns: seq<Turn>): int {
    if turns == [] then 0 else SumDeltas(turns[..|turns| - 1]) + turns[|turns| - 1].tokensInDelta
  }

  lemma {:induction false} SumDeltasConcat(a: seq<Turn>, b: seq<Turn>)
    ensures SumDeltas(a + b) == SumDeltas(a) + SumDeltas(b)
  {
    if b == [] {
      assert a + b == a;
    } else {
      assert (a + b)[..|a + b| - 1] == a + b[..|b| - 1];
      SumDeltasConcat(a, b[..|b| - 1]);
    }
  }

  // The baseline one line gives up.
  function Reset(decode: Decoder, st: State, line: Bytes): int {
    var (st', turns) := Step(decode, st, line);
    if turns != [] && st'.running < st.running then st.running else 0
  }

  // The running baselines given up at context resets, over a scan.
  function Discarded(decode: Decoder, st: State, lines: seq<Bytes>): int {
    if lines == [] then 0
    else
      var front, last := lines[..|lines| - 1], lines[|lines| - 1];
      Discarded(decode, st, front) + Reset(decode, Fold(decode, st, front).0, last)
  }

  lemma StepTelescopes(decode: Decoder, st: State, line: Bytes)
    ensures var (st', turns) := Step(decode, st, line);
            SumDeltas(turns) == st'.running - st.running + Reset(decode, st, line)
  {
    var turns := Step(decode, st, line).1;
    assert turns != [] ==> turns[..0] == [] && SumDeltas(turns) == turns[0].tokensInDelta;
  }

  // The billed deltas telescope: final baseline, less the starting one, plus what resets gave up.
  lemma {:induction false} DeltasTelescope(decode: Decoder, st: State, lines: seq<Bytes>)
    ensures var (end, turns) := Fold(decode, st, lines);
            SumDeltas(turns) == end.running - st.running + Discarded(decode, st, lines)
  {
    if lines != [] {
      var front, last := lines[..|lines| - 1], lines[|lines| - 1];
      DeltasTelescope(decode, st, front);
      var (before, turns) := Fold(decode, st, front);
      StepTelescopes(decode, before, last);
      SumDeltasConcat(turns, Step(decode, before, last).1);
    }
  }

  // Each turn bills between nothing and its own effective input.
  lemma {:induction false} DeltasBounded(decode: Decoder, st: State, lines: seq<Bytes>)
    requires st.running >= 0 && NonNegative(decode, lines)
    ensures var (end, turns) := Fold(decode, st, lines);
            end.running >= 0 && forall t :: t in turns ==> 0 <= t.tokensInDelta <= t.CurEffective()
  {
    if lines != [] {
      var front, last := lines[..|lines| - 1], lines[|lines| - 1];
      assert last in lines && forall line :: line in front ==> line in lines;
      DeltasBounded(decode, st, front);
    }
  }

  // A line whose key appeared on an earlier billed line changes nothing, wherever it stands.
  lemma RepeatIsFree(decode: Decoder, st: State, lines: seq<Bytes>, again: Bytes)
    requires KeyOf(decode, again) != ""
    requires exists line :: line in lines && KeyOf(decode, line) == KeyOf(decode, again)
    ensures Fold(decode, st, lines + [again]) == Fold(decode, st, lines)
  {
    SeenAfter(decode, st, lines);
    assert KeyOf(decode, again) in KeysOf(decode, lines);
    FoldSnoc(decode, st, lines, again);
    var turns := Fold(decode, st, lines).1;
    assert turns + [] == turns;
  }

  // A file that has shrunk below the cursor is scanned from the start, as if there were no cursor.
  lemma ShrunkStartsOver(decode: Decoder, file: Bytes, start: Cursor)
    requires start.offset > |file|
    ensures ScanFile(decode, file, start) == ScanFile(decode, file, FRESH)
  {
    assert file[0..] == file;
  }

  // An invocation that finds no complete line beyond a valid cursor reports nothing and leaves the
  // stored cursor as it is.
  lemma NothingNewStoresNothing(decode: Decoder, file: Bytes, stored: Cursor)
    requires stored.priorEffectiveIn >= 0 && stored.offset <= |file| && Lines(file[stored.offset..]) == []
    ensures var (out, end) := ScanFile(decode, file, stored); out == [] && Persisted(stored, end) == stored
  {
    ConsumedIsPrefix(file[stored.offset..]);
  }
}
