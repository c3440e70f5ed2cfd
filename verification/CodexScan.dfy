/** The tool-call scan of a Codex session, resumed from a persisted cursor. */
module CodexScan {
  import opened Basics
  import opened Framing
  import opened LineScan
  import opened Lexicographic
  import Seqs

  datatype PendingCall = PendingCall(name: string, args: Bytes, callId: string, startedAt: int)

  // What a line means to the tool scan: a call, an output, or nothing.
  datatype Item =
    | FunctionCall(call: PendingCall)
    | FunctionCallOutput(callId: string, output: Bytes, endedAt: int)
    | Other

  // JSON decoding of a line.
  type Decoder = Bytes -> Item

  datatype ToolEvent = ToolEvent(call: PendingCall, output: Bytes, endedAt: int)

  datatype Cursor = Cursor(offset: nat, pending: seq<PendingCall>)

  type Calls = map<string, PendingCall>

  // What JSON encoding makes of raw arguments when a cursor is written: white space goes, and some
  // characters are escaped. Encoding again changes nothing.
  type Encoder = Bytes -> Bytes

  ghost predicate Settles(encode: Encoder) {
    forall b: Bytes :: encode(encode(b)) == encode(b)
  }

  function EncodedCall(encode: Encoder, call: PendingCall): PendingCall {
    call.(args := encode(call.args))
  }

  function EncodedCalls(encode: Encoder, pending: Calls): Calls {
    map id | id in pending :: EncodedCall(encode, pending[id])
  }

  function EncodedSlice(encode: Encoder, slice: seq<PendingCall>): seq<PendingCall> {
    seq(|slice|, i requires 0 <= i < |slice| => EncodedCall(encode, slice[i]))
  }

  function EncodedEvent(encode: Encoder, ev: ToolEvent): ToolEvent {
    ev.(call := EncodedCall(encode, ev.call))
  }

  // A call is remembered under its id; an output takes the call it answers.
  function Step(decode: Decoder, pending: Calls, line: Bytes): (Calls, seq<ToolEvent>) {
    match decode(line)
    case FunctionCall(call) =>
      if call.callId == "" || call.name == "" then (pending, []) else (pending[call.callId := call], [])
    case FunctionCallOutput(id, output, endedAt) =>
      if id !in pending then (pending, []) else (pending - {id}, [ToolEvent(pending[id], output, endedAt)])
    case Other => (pending, [])
  }

  function Fold(decode: Decoder, pending: Calls, lines: seq<Bytes>): (Calls, seq<ToolEvent>) {
    if lines == [] then (pending, [])
    else
      var before := Fold(decode, pending, lines[..|lines| - 1]);
      var after := Step(decode, before.0, lines[|lines| - 1]);
      (after.0, before.1 + after.1)
  }

  lemma FoldSnoc(decode: Decoder, pending: Calls, lines: seq<Bytes>, line: Bytes)
    ensures Fold(decode, pending, lines + [line]) ==
            var before := Fold(decode, pending, lines);
            var after := Step(decode, before.0, line);
            (after.0, before.1 + after.1)
  {
    assert (lines + [line])[..|lines|] == lines;
  }

  lemma {:induction false} FoldConcat(decode: Decoder, pending: Calls, a: seq<Bytes>, b: seq<Bytes>)
    ensures Fold(decode, pending, a + b) ==
            var mid := Fold(decode, pending, a);
            var end := Fold(decode, mid.0, b);
            (end.0, mid.1 + end.1)
  {
    var mid := Fold(decode, pending, a);
    if b == [] {
      assert a + b == a;
      assert mid.1 + [] == mid.1;
    } else {
      var front, last := b[..|b| - 1], b[|b| - 1];
      FoldConcat(decode, pending, a, front);
      assert a + b == (a + front) + [last];
      FoldSnoc(decode, pending, a + front, last);
      var end := Fold(decode, mid.0, front);
      assert mid.1 + end.1 + Step(decode, end.0, last).1 == mid.1 + (end.1 + Step(decode, end.0, last).1);
    }
  }

  // The map a cursor is loaded into; later entries win.
  function Loaded(slice: seq<PendingCall>): Calls {
    if slice == [] then map[]
    else
      var before, call := Loaded(slice[..|slice| - 1]), slice[|slice| - 1];
      if call.callId == "" then before else before[call.callId := call]
  }

  // Every call is filed under its own, non-empty id.
  ghost predicate Keyed(pending: Calls) {
    "" !in pending && forall id :: id in pending ==> pending[id].callId == id
  }

  // A list of the pending calls in the order of their ids.
  ghost predicate IsSlice(pending: Calls, slice: seq<PendingCall>) {
    && (forall i, j :: 0 <= i < j < |slice| ==> Less(slice[i].callId, slice[j].callId))
    && (forall call :: call in slice <==> call.callId in pending && pending[call.callId] == call)
  }

  // ----- the loops -----

  method Insert(slice: seq<PendingCall>, call: PendingCall) returns (r: seq<PendingCall>)
    requires forall i, j :: 0 <= i < j < |slice| ==> Less(slice[i].callId, slice[j].callId)
    requires forall c :: c in slice ==> c.callId != call.callId
    ensures forall i, j :: 0 <= i < j < |r| ==> Less(r[i].callId, r[j].callId)
    ensures forall c :: c in r <==> c in slice || c == call
  {
    if slice == [] {
      return [call];
    }
    var front, last := slice[..|slice| - 1], slice[|slice| - 1];
    assert slice == front + [last];
    assert last in slice;
    Trichotomy(last.callId, call.callId);
    if Less(last.callId, call.callId) {
      forall i | 0 <= i < |slice| ensures Less(slice[i].callId, call.callId) {
        if i < |slice| - 1 {
          Transitive(slice[i].callId, last.callId, call.callId);
        }
      }
      return slice + [call];
    }
    assert forall c :: c in front ==> Less(c.callId, last.callId);
    r := Insert(front, call);
    assert forall i :: 0 <= i < |r| ==> r[i] in r && Less(r[i].callId, last.callId);
    r := r + [last];
  }

  method PendingCallsSlice(pending: Calls) returns (slice: seq<PendingCall>)
    requires Keyed(pending)
    ensures IsSlice(pending, slice)
  {
    slice := [];
    var todo := pending.Keys;
    while todo != {}
      invariant todo <= pending.Keys
      invariant forall i, j :: 0 <= i < j < |slice| ==> Less(slice[i].callId, slice[j].callId)
      invariant forall c :: c in slice <==> c.callId in pending && c.callId !in todo && pending[c.callId] == c
      decreases |todo|
    {
      var id :| id in todo;
      slice := Insert(slice, pending[id]);
      todo := todo - {id};
    }
  }

  method LoadPending(slice: seq<PendingCall>) returns (pending: Calls)
    ensures pending == Loaded(slice) && Keyed(pending)
  {
    pending := map[];
    for i := 0 to |slice|
      invariant pending == Loaded(slice[..i]) && Keyed(pending)
    {
      assert slice[..i + 1][..i] == slice[..i];
      if slice[i].callId != "" {
        pending := pending[slice[i].callId := slice[i]];
      }
    }
    assert slice[..|slice|] == slice;
  }

  method HandleLine(decode: Decoder, line: Bytes, pending: Calls) returns (pending': Calls, ev: Option<ToolEvent>)
    ensures (pending', if ev.Some? then [ev.value] else []) == Step(decode, pending, line)
  {
    pending', ev := pending, None;
    match decode(line)
    case FunctionCall(call) =>
      if call.callId != "" && call.name != "" {
        pending' := pending[call.callId := call];
      }
    case FunctionCallOutput(id, output, endedAt) =>
      if id in pending {
        ev := Some(ToolEvent(pending[id], output, endedAt));
        pending' := pending - {id};
      }
    case Other =>
  }

  // The scan of a file from a cursor; one beyond the end starts over.
  function From(file: Bytes, start: Cursor): Cursor {
    if start.offset > |file| then Cursor(0, []) else start
  }

  ghost predicate IsScan(decode: Decoder, from: Cursor, data: Bytes, out: seq<ToolEvent>, end: Cursor) {
    var st := Fold(decode, Loaded(from.pending), Lines(data));
    out == st.1 && end.offset == from.offset + Consumed(data) && IsSlice(st.0, end.pending)
  }

  method ReadNewSessionEvents(decode: Decoder, file: Bytes, start: Cursor) returns (out: seq<ToolEvent>, end: Cursor)
    ensures IsScan(decode, From(file, start), file[From(file, start).offset..], out, end)
  {
    var from := From(file, start);
    ghost var data := file[from.offset..];
    var rest := file[from.offset..];
    var offset := from.offset;
    var pending := LoadPending(from.pending);
    out := [];
    ghost var done: seq<Bytes> := [];
    LeftAll(data);
    while true
      invariant offset >= from.offset && Left(data, done, offset - from.offset, rest)
      invariant (pending, out) == Fold(decode, Loaded(from.pending), done) && Keyed(pending)
      decreases |rest|
    {
      var idx := IndexNewline(rest);
      if idx.None? {
        LeftNothing(data, done, offset - from.offset, rest);
        var slice := PendingCallsSlice(pending);
        end := Cursor(offset, slice);
        return;
      }
      LeftNext(data, done, offset - from.offset, rest, idx.value);
      var line := rest[..idx.value];
      FoldSnoc(decode, Loaded(from.pending), done, line);
      offset := offset + idx.value + 1;
      rest := rest[idx.value + 1..];
      done := done + [line];
      var ev;
      pending, ev := HandleLine(decode, line, pending);
      out := out + if ev.Some? then [ev.value] else [];
    }
  }

  // ----- resuming -----

  // What a cursor file holds of the pending calls is loaded as the map it was made from, with the
  // arguments as they were encoded.
  lemma SliceRebuilds(encode: Encoder, pending: Calls, slice: seq<PendingCall>)
    requires Keyed(pending) && IsSlice(pending, slice)
    ensures Loaded(EncodedSlice(encode, slice)) == EncodedCalls(encode, pending)
  {
    var stored := EncodedSlice(encode, slice);
    LoadedIs(stored);
    forall id | id in pending ensures id in Loaded(stored) && Loaded(stored)[id] == EncodedCall(encode, pending[id]) {
      assert pending[id] in slice;
      var i :| 0 <= i < |slice| && slice[i] == pending[id];
      assert stored[i] in stored;
    }
    forall id | id in Loaded(stored) ensures id in pending {
      var i :| 0 <= i < |stored| && stored[i] == Loaded(stored)[id];
      assert slice[i] in slice;
    }
  }

  lemma {:induction false} LoadedIs(slice: seq<PendingCall>)
    requires forall i, j :: 0 <= i < j < |slice| ==> Less(slice[i].callId, slice[j].callId)
    ensures forall call :: call in slice && call.callId != "" ==>
                             call.callId in Loaded(slice) && Loaded(slice)[call.callId] == call
    ensures forall id :: id in Loaded(slice) ==> Loaded(slice)[id] in slice && Loaded(slice)[id].callId == id
  {
    if slice != [] {
      var front, last := slice[..|slice| - 1], slice[|slice| - 1];
      assert slice == front + [last];
      LoadedIs(front);
      Trichotomy(last.callId, last.callId);
      assert forall i :: 0 <= i < |front| ==> Less(front[i].callId, last.callId);
      assert forall call :: call in front ==> call.callId != last.callId;
    }
  }

  lemma {:induction false} FoldKeyed(decode: Decoder, pending: Calls, lines: seq<Bytes>)
    requires Keyed(pending)
    ensures Keyed(Fold(decode, pending, lines).0)
  {
    if lines != [] {
      FoldKeyed(decode, pending, lines[..|lines| - 1]);
    }
  }

  lemma {:induction false} LoadedKeyed(slice: seq<PendingCall>)
    ensures Keyed(Loaded(slice))
  {
    if slice != [] {
      LoadedKeyed(slice[..|slice| - 1]);
    }
  }

  // One hook invocation: it reports a scan, and stores its end if the offset advanced.
  ghost predicate IsInvocation(decode: Decoder, encode: Encoder, file: Bytes, stored: Cursor, out: seq<ToolEvent>,
                               stored': Cursor) {
    exists end ::
      && IsScan(decode, From(file, stored), file[From(file, stored).offset..], out, end)
      && stored' == if end.offset > stored.offset then end.(pending := EncodedSlice(encode, end.pending)) else stored
  }

  ghost predicate IsHistory(decode: Decoder, encode: Encoder, files: seq<Bytes>, stored: Cursor,
                            outs: seq<seq<ToolEvent>>)
    decreases |files|
  {
    && |outs| == |files|
    && (files != [] ==>
          exists stored' ::
            IsInvocation(decode, encode, files[0], stored, outs[0], stored')
            && IsHistory(decode, encode, files[1..], stored', outs[1..]))
  }

  function Flatten(outs: seq<seq<ToolEvent>>): seq<ToolEvent> {
    if outs == [] then [] else outs[0] + Flatten(outs[1..])
  }

  // A cursor as it is read from its file: encoding changes nothing in it.
  ghost predicate IsEncoded(encode: Encoder, pending: Calls) {
    EncodedCalls(encode, pending) == pending
  }

  // What an invocation leaves to be read loads the state it ended in, encoded.
  lemma InvocationLeaves(decode: Decoder, encode: Encoder, file: Bytes, c: Cursor, out: seq<ToolEvent>, c': Cursor)
    requires c.offset <= |file| && IsInvocation(decode, encode, file, c, out, c')
             && IsEncoded(encode, Loaded(c.pending))
    ensures var data := file[c.offset..];
            && out == Fold(decode, Loaded(c.pending), Lines(data)).1
            && c'.offset == c.offset + Consumed(data) <= |file|
            && Loaded(c'.pending) == EncodedCalls(encode, Fold(decode, Loaded(c.pending), Lines(data)).0)
  {
    var data := file[c.offset..];
    var end :| IsScan(decode, c, data, out, end)
               && c' == if end.offset > c.offset then end.(pending := EncodedSlice(encode, end.pending)) else c;
    ConsumedIsPrefix(data);
    LoadedKeyed(c.pending);
    FoldKeyed(decode, Loaded(c.pending), Lines(data));
    SliceRebuilds(encode, Fold(decode, Loaded(c.pending), Lines(data)).0, end.pending);
  }

  // A scan of a grown file: what the shorter file gives, then what is left.
  lemma ScanSplits(decode: Decoder, file: Bytes, grown: Bytes, c: Cursor)
    requires c.offset <= |file| && file <= grown
    ensures var data := file[c.offset..];
            var next := c.offset + Consumed(data);
            var mid := Fold(decode, Loaded(c.pending), Lines(data));
            next <= |grown| &&
            Fold(decode, Loaded(c.pending), Lines(grown[c.offset..])).1 ==
            mid.1 + Fold(decode, mid.0, Lines(grown[next..])).1
  {
    var data := file[c.offset..];
    CutLines(file, grown, c.offset, c.offset + Consumed(data));
    FoldConcat(decode, Loaded(c.pending), Lines(data), Lines(grown[c.offset + Consumed(data)..]));
  }

  // ----- what encoding the pending calls changes -----

  // The id whose pending call a line replaces or takes.
  function Touches(decode: Decoder, line: Bytes): string {
    match decode(line)
    case FunctionCall(call) => if call.name == "" then "" else call.callId
    case FunctionCallOutput(id, _, _) => id
    case Other => ""
  }

  ghost predicate Untouched(decode: Decoder, lines: seq<Bytes>, id: string) {
    forall line :: line in lines ==> Touches(decode, line) != id
  }

  // The first line about the id is an output, which takes the call that was pending before.
  ghost predicate Answered(decode: Decoder, lines: seq<Bytes>, id: string) {
    exists k: nat :: k < |lines| && AnsweredAt(decode, lines, id, k)
  }

  ghost predicate AnsweredAt(decode: Decoder, lines: seq<Bytes>, id: string, k: nat)
    requires k < |lines|
  {
    decode(lines[k]).FunctionCallOutput? && Touches(decode, lines[k]) == id && Untouched(decode, lines[..k], id)
  }

  // Two states of the scan, one of them with its calls encoded: a call that was there at the start
  // and was not touched since is as it was in each, all others are the same in both.
  ghost predicate Shadows(decode: Decoder, encode: Encoder, pending: Calls, lines: seq<Bytes>, a: Calls, b: Calls) {
    && a.Keys == b.Keys && Keyed(a)
    && (forall id :: id in pending && Untouched(decode, lines, id) ==> id in a)
    && forall id :: id in a ==>
                      if Untouched(decode, lines, id) then
                        id in pending && a[id] == pending[id] && b[id] == EncodedCall(encode, pending[id])
                      else b[id] == a[id]
  }

  lemma UntouchedSnoc(decode: Decoder, lines: seq<Bytes>, id: string)
    requires lines != []
    ensures var n := |lines| - 1;
            Untouched(decode, lines, id) <==> Untouched(decode, lines[..n], id) && Touches(decode, lines[n]) != id
  {
    var n := |lines| - 1;
    assert lines == lines[..n] + [lines[n]];
  }

  lemma {:induction false} FoldShadows(decode: Decoder, encode: Encoder, pending: Calls, lines: seq<Bytes>)
    requires Keyed(pending)
    ensures Shadows(decode, encode, pending, lines, Fold(decode, pending, lines).0,
                    Fold(decode, EncodedCalls(encode, pending), lines).0)
    ensures |Fold(decode, pending, lines).1| == |Fold(decode, EncodedCalls(encode, pending), lines).1|
  {
    if lines != [] {
      var n := |lines| - 1;
      FoldShadows(decode, encode, pending, lines[..n]);
      StepShadows(decode, encode, pending, lines, Fold(decode, pending, lines[..n]).0,
                  Fold(decode, EncodedCalls(encode, pending), lines[..n]).0);
    }
  }

  lemma StepShadows(decode: Decoder, encode: Encoder, pending: Calls, lines: seq<Bytes>, a: Calls, b: Calls)
    requires lines != [] && Shadows(decode, encode, pending, lines[..|lines| - 1], a, b)
    ensures var (a', ea) := Step(decode, a, lines[|lines| - 1]);
            var (b', eb) := Step(decode, b, lines[|lines| - 1]);
            Shadows(decode, encode, pending, lines, a', b') && |ea| == |eb|
  {
    forall id ensures Untouched(decode, lines, id) <==>
                      Untouched(decode, lines[..|lines| - 1], id) && Touches(decode, lines[|lines| - 1]) != id
    {
      UntouchedSnoc(decode, lines, id);
    }
  }

  // The calls that are still to be answered have arguments that encoding leaves alone.
  ghost predicate AnsweredAsStored(decode: Decoder, encode: Encoder, pending: Calls, lines: seq<Bytes>) {
    forall id :: id in pending && Answered(decode, lines, id) ==> encode(pending[id].args) == pending[id].args
  }

  // The last line adds at most the answer it is.
  ghost predicate LastAsStored(decode: Decoder, encode: Encoder, pending: Calls, lines: seq<Bytes>)
    requires lines != []
  {
    var n := |lines| - 1;
    forall id :: id in pending && AnsweredAt(decode, lines, id, n) ==> encode(pending[id].args) == pending[id].args
  }

  lemma AnsweredSnoc(decode: Decoder, lines: seq<Bytes>, id: string)
    requires lines != []
    ensures var n := |lines| - 1;
            Answered(decode, lines, id) <==> Answered(decode, lines[..n], id) || AnsweredAt(decode, lines, id, n)
  {
    var n := |lines| - 1;
    forall k: nat | k < n ensures AnsweredAt(decode, lines, id, k) <==> AnsweredAt(decode, lines[..n], id, k) {
      assert lines[..n][..k] == lines[..k];
    }
  }

  lemma AsStoredSnoc(decode: Decoder, encode: Encoder, pending: Calls, lines: seq<Bytes>)
    requires lines != []
    ensures AnsweredAsStored(decode, encode, pending, lines) <==>
            AnsweredAsStored(decode, encode, pending, lines[..|lines| - 1])
            && LastAsStored(decode, encode, pending, lines)
  {
    forall id ensures Answered(decode, lines, id) <==>
                      Answered(decode, lines[..|lines| - 1], id) || AnsweredAt(decode, lines, id, |lines| - 1)
    {
      AnsweredSnoc(decode, lines, id);
    }
  }

  lemma LastPair(decode: Decoder, encode: Encoder, pending: Calls, lines: seq<Bytes>, a: Calls, b: Calls)
    requires lines != [] && Shadows(decode, encode, pending, lines[..|lines| - 1], a, b)
    ensures Step(decode, b, lines[|lines| - 1]).1 == Step(decode, a, lines[|lines| - 1]).1 <==>
            LastAsStored(decode, encode, pending, lines)
  {
  }

  lemma SameConcat<T>(a: seq<T>, b: seq<T>, x: seq<T>, y: seq<T>)
    requires |a| == |b|
    ensures a + x == b + y <==> a == b && x == y
  {
    assert (a + x)[..|a|] == a && (a + x)[|a|..] == x;
    assert (b + y)[..|b|] == b && (b + y)[|b|..] == y;
  }

  // Encoding the pending calls changes no pair exactly when no call that is answered has arguments
  // that encoding changes.
  lemma {:induction false} EncodingUnseenExactlyWhen(decode: Decoder, encode: Encoder, pending: Calls,
                                                     lines: seq<Bytes>)
    requires Keyed(pending)
    ensures Fold(decode, EncodedCalls(encode, pending), lines).1 == Fold(decode, pending, lines).1 <==>
            AnsweredAsStored(decode, encode, pending, lines)
  {
    if lines != [] {
      var n := |lines| - 1;
      EncodingUnseenExactlyWhen(decode, encode, pending, lines[..n]);
      FoldShadows(decode, encode, pending, lines[..n]);
      AsStoredSnoc(decode, encode, pending, lines);
      var (a, ea) := Fold(decode, pending, lines[..n]);
      var (b, eb) := Fold(decode, EncodedCalls(encode, pending), lines[..n]);
      LastPair(decode, encode, pending, lines, a, b);
      SameConcat(eb, ea, Step(decode, b, lines[n]).1, Step(decode, a, lines[n]).1);
    }
  }

  // The same pairs, some of them perhaps with encoded arguments.
  ghost predicate Near(encode: Encoder, a: seq<ToolEvent>, b: seq<ToolEvent>) {
    |a| == |b| && forall j :: 0 <= j < |a| ==> a[j] == b[j] || a[j] == EncodedEvent(encode, b[j])
  }

  lemma {:induction false} FoldNear(decode: Decoder, encode: Encoder, pending: Calls, lines: seq<Bytes>)
    requires Keyed(pending)
    ensures Near(encode, Fold(decode, EncodedCalls(encode, pending), lines).1, Fold(decode, pending, lines).1)
  {
    if lines != [] {
      var n := |lines| - 1;
      FoldNear(decode, encode, pending, lines[..n]);
      FoldShadows(decode, encode, pending, lines[..n]);
      StepNear(decode, encode, pending, lines, Fold(decode, pending, lines[..n]).0,
               Fold(decode, EncodedCalls(encode, pending), lines[..n]).0);
      NearConcat(encode, Fold(decode, EncodedCalls(encode, pending), lines[..n]).1, Fold(decode, pending, lines[..n]).1,
                 Step(decode, Fold(decode, EncodedCalls(encode, pending), lines[..n]).0, lines[n]).1,
                 Step(decode, Fold(decode, pending, lines[..n]).0, lines[n]).1);
    }
  }

  lemma StepNear(decode: Decoder, encode: Encoder, pending: Calls, lines: seq<Bytes>, a: Calls, b: Calls)
    requires lines != [] && Shadows(decode, encode, pending, lines[..|lines| - 1], a, b)
    ensures Near(encode, Step(decode, b, lines[|lines| - 1]).1, Step(decode, a, lines[|lines| - 1]).1)
  {
  }

  lemma NearConcat(encode: Encoder, a: seq<ToolEvent>, b: seq<ToolEvent>, x: seq<ToolEvent>, y: seq<ToolEvent>)
    requires Near(encode, a, b) && Near(encode, x, y)
    ensures Near(encode, a + x, b + y)
  {
  }

  lemma NearChains(encode: Encoder, a: seq<ToolEvent>, b: seq<ToolEvent>, c: seq<ToolEvent>)
    requires Settles(encode) && Near(encode, a, b) && Near(encode, b, c)
    ensures Near(encode, a, c) && (a == c ==> b == c)
  {
    forall j | 0 <= j < |a| ensures (a[j] == c[j] || a[j] == EncodedEvent(encode, c[j]))
                                    && (a[j] == c[j] ==> b[j] == c[j]) {
      assert EncodedEvent(encode, EncodedEvent(encode, c[j])) == EncodedEvent(encode, c[j]);
    }
  }

  // ----- whole histories -----

  // Wherever a scan stops before the last version of the file, the calls that wait there and are
  // answered later have arguments that encoding leaves alone.
  ghost predicate NothingRewritten(decode: Decoder, encode: Encoder, files: seq<Bytes>, offset: nat, pending: Calls)
    decreases |files|
  {
    |files| > 1 && offset <= |files[0]| ==>
      var data := files[0][offset..];
      var st, next, final := Fold(decode, pending, Lines(data)).0, offset + Consumed(data), files[|files| - 1];
      && (next <= |final| ==> AnsweredAsStored(decode, encode, st, Lines(final[next..])))
      && NothingRewritten(decode, encode, files[1..], next, EncodedCalls(encode, st))
  }

  // The pairs of one scan of a file from a cursor, the calls it leaves pending, and where it stops.
  ghost function PairsOf(decode: Decoder, file: Bytes, c: Cursor): seq<ToolEvent>
    requires c.offset <= |file|
  {
    Fold(decode, Loaded(c.pending), Lines(file[c.offset..])).1
  }

  ghost function LeftBy(decode: Decoder, file: Bytes, c: Cursor): Calls
    requires c.offset <= |file|
  {
    Fold(decode, Loaded(c.pending), Lines(file[c.offset..])).0
  }

  function StopOf(file: Bytes, offset: nat): nat
    requires offset <= |file|
  {
    offset + Consumed(file[offset..])
  }

  // What the invocation reports and leaves.
  lemma CutLeaves(decode: Decoder, encode: Encoder, file: Bytes, c: Cursor, out: seq<ToolEvent>, c': Cursor)
    requires Settles(encode) && c.offset <= |file| && IsEncoded(encode, Loaded(c.pending))
    requires IsInvocation(decode, encode, file, c, out, c')
    ensures out == PairsOf(decode, file, c) && c'.offset == StopOf(file, c.offset) <= |file|
    ensures Keyed(LeftBy(decode, file, c)) && Loaded(c'.pending) == EncodedCalls(encode, LeftBy(decode, file, c))
    ensures IsEncoded(encode, Loaded(c'.pending))
  {
    InvocationLeaves(decode, encode, file, c, out, c');
    LoadedKeyed(c.pending);
    FoldKeyed(decode, Loaded(c.pending), Lines(file[c.offset..]));
    EncodedTwice(encode, LeftBy(decode, file, c));
  }

  // What one scan has in place of two.
  lemma CutPairs(decode: Decoder, encode: Encoder, st: Calls, rest: seq<Bytes>)
    requires Keyed(st)
    ensures var stored, kept := Fold(decode, EncodedCalls(encode, st), rest).1, Fold(decode, st, rest).1;
            Near(encode, stored, kept) && (stored == kept <==> AnsweredAsStored(decode, encode, st, rest))
  {
    FoldNear(decode, encode, st, rest);
    EncodingUnseenExactlyWhen(decode, encode, st, rest);
  }

  lemma EncodedTwice(encode: Encoder, pending: Calls)
    requires Settles(encode)
    ensures IsEncoded(encode, EncodedCalls(encode, pending))
  {
  }

  // Over any append-only history, however it is cut, the invocations together report the
  // call/output pairs of one scan of the final file, in order, up to the encoding of arguments; and
  // exactly those pairs if and only if no waiting call is rewritten before it is answered.
  lemma {:induction false} ResumingEqualsScanningOnce(decode: Decoder, encode: Encoder, files: seq<Bytes>, c: Cursor,
                                                      outs: seq<seq<ToolEvent>>)
    requires files != [] && Grows(files) && c.offset <= |files[0]|
    requires Settles(encode) && IsEncoded(encode, Loaded(c.pending)) && IsHistory(decode, encode, files, c, outs)
    ensures c.offset <= |files[|files| - 1]|
    ensures Near(encode, Flatten(outs), PairsOf(decode, files[|files| - 1], c))
    ensures Flatten(outs) == PairsOf(decode, files[|files| - 1], c) <==>
            NothingRewritten(decode, encode, files, c.offset, Loaded(c.pending))
    decreases |files|
  {
    GrowsToLast(files);
    var c' :| IsInvocation(decode, encode, files[0], c, outs[0], c')
              && IsHistory(decode, encode, files[1..], c', outs[1..]);
    CutLeaves(decode, encode, files[0], c, outs[0], c');
    if |files| == 1 {
      assert Flatten(outs[1..]) == [];
      Seqs.Nothing(outs[0]);
    } else {
      GrowsOn(files);
      ResumingEqualsScanningOnce(decode, encode, files[1..], c', outs[1..]);
      CutJoins(decode, encode, files[0], files[|files| - 1], c, c', outs[0], Flatten(outs[1..]));
      CutRewrites(decode, encode, files, c, c');
    }
  }

  // The condition, one cut at a time.
  lemma CutRewrites(decode: Decoder, encode: Encoder, files: seq<Bytes>, c: Cursor, c': Cursor)
    requires |files| > 1 && c.offset <= |files[0]| && c'.offset == StopOf(files[0], c.offset) <= |files[|files| - 1]|
    requires Loaded(c'.pending) == EncodedCalls(encode, LeftBy(decode, files[0], c))
    ensures NothingRewritten(decode, encode, files, c.offset, Loaded(c.pending)) <==>
            AnsweredAsStored(decode, encode, LeftBy(decode, files[0], c), Lines(files[|files| - 1][c'.offset..]))
            && NothingRewritten(decode, encode, files[1..], c'.offset, Loaded(c'.pending))
  {
  }

  // One cut: the pairs before it, and those of the invocations after it.
  lemma CutJoins(decode: Decoder, encode: Encoder, file: Bytes, grown: Bytes, c: Cursor, c': Cursor,
                 out: seq<ToolEvent>, later: seq<ToolEvent>)
    requires Settles(encode) && c.offset <= |file| && file <= grown && out == PairsOf(decode, file, c)
    requires c'.offset == StopOf(file, c.offset) <= |file| && Keyed(LeftBy(decode, file, c))
    requires Loaded(c'.pending) == EncodedCalls(encode, LeftBy(decode, file, c))
    requires Near(encode, later, PairsOf(decode, grown, c'))
    ensures Near(encode, out + later, PairsOf(decode, grown, c))
    ensures out + later == PairsOf(decode, grown, c) <==>
            AnsweredAsStored(decode, encode, LeftBy(decode, file, c), Lines(grown[c'.offset..]))
            && later == PairsOf(decode, grown, c')
  {
    var kept := Fold(decode, LeftBy(decode, file, c), Lines(grown[c'.offset..])).1;
    ScanSplits(decode, file, grown, c);
    CutPairs(decode, encode, LeftBy(decode, file, c), Lines(grown[c'.offset..]));
    NearChains(encode, later, PairsOf(decode, grown, c'), kept);
    NearConcat(encode, out, out, later, kept);
    SameConcat(out, out, later, kept);
  }

  // A hook invoked once the call is written, and again once its output is.
  function CallThenOutput(asked: Bytes, answered: Bytes): seq<Bytes> {
    [asked + [NEWLINE], asked + [NEWLINE] + (answered + [NEWLINE])]
  }

  lemma CallScanned(decode: Decoder, encode: Encoder, call: PendingCall, asked: Bytes)
    requires NEWLINE !in asked && call.callId != "" && call.name != "" && decode(asked) == FunctionCall(call)
    ensures IsInvocation(decode, encode, asked + [NEWLINE], Cursor(0, []), [],
                         Cursor(|asked| + 1, EncodedSlice(encode, [call])))
  {
    var file, end := asked + [NEWLINE], Cursor(|asked| + 1, [call]);
    LoneLine(asked);
    FoldOne(decode, map[], asked);
    assert file[0..] == file;
    assert IsSlice(map[call.callId := call], [call]);
    assert IsScan(decode, Cursor(0, []), file[0..], [], end);
  }

  lemma LoadedOne(call: PendingCall)
    requires call.callId != ""
    ensures Loaded([call]) == map[call.callId := call]
  {
    assert [call][..0] == [];
  }

  lemma AnswerFolds(decode: Decoder, call: PendingCall, output: Bytes, endedAt: int, answered: Bytes)
    requires decode(answered) == FunctionCallOutput(call.callId, output, endedAt)
    ensures Fold(decode, map[call.callId := call], [answered]) == (map[], [ToolEvent(call, output, endedAt)])
  {
    FoldOne(decode, map[call.callId := call], answered);
    assert map[call.callId := call] - {call.callId} == map[];
  }

  lemma OutputScanned(decode: Decoder, encode: Encoder, call: PendingCall, output: Bytes, endedAt: int, asked: Bytes,
                      answered: Bytes)
    requires NEWLINE !in answered && call.callId != ""
    requires decode(answered) == FunctionCallOutput(call.callId, output, endedAt)
    ensures var file := CallThenOutput(asked, answered)[1];
            IsInvocation(decode, encode, file, Cursor(|asked| + 1, EncodedSlice(encode, [call])),
                         [ToolEvent(EncodedCall(encode, call), output, endedAt)], Cursor(|file|, []))
  {
    var file, waiting := CallThenOutput(asked, answered)[1], EncodedCall(encode, call);
    var from, end := Cursor(|asked| + 1, EncodedSlice(encode, [call])), Cursor(|file|, []);
    assert EncodedSlice(encode, [call]) == [waiting];
    LoadedOne(waiting);
    Seqs.Prefix(asked + [NEWLINE], answered + [NEWLINE]);
    LoneLine(answered);
    AnswerFolds(decode, waiting, output, endedAt, answered);
    assert IsScan(decode, from, file[|asked| + 1..], [ToolEvent(waiting, output, endedAt)], end);
  }

  lemma OneScanPairs(decode: Decoder, call: PendingCall, output: Bytes, endedAt: int, asked: Bytes, answered: Bytes)
    requires NEWLINE !in asked && NEWLINE !in answered && call.callId != "" && call.name != ""
    requires decode(asked) == FunctionCall(call) && decode(answered) == FunctionCallOutput(call.callId, output, endedAt)
    ensures PairsOf(decode, CallThenOutput(asked, answered)[1], Cursor(0, [])) == [ToolEvent(call, output, endedAt)]
  {
    var file := CallThenOutput(asked, answered)[1];
    LoneLine(asked);
    LoneLine(answered);
    LinesGrow(asked + [NEWLINE], answered + [NEWLINE]);
    assert file[0..] == file;
    assert (asked + [NEWLINE])[|asked| + 1..] + (answered + [NEWLINE]) == answered + [NEWLINE];
    FoldOne(decode, map[], asked);
    assert map[][call.callId := call] == map[call.callId := call];
    FoldSnoc(decode, map[], [asked], answered);
  }

  // A call whose arguments encoding changes, and a hook that runs between the call and its output:
  // its two invocations report other arguments than one scan of the file.
  lemma CutBetweenCallAndOutput(decode: Decoder, encode: Encoder, call: PendingCall, output: Bytes, endedAt: int,
                                asked: Bytes, answered: Bytes)
    requires Settles(encode) && NEWLINE !in asked && NEWLINE !in answered
    requires call.callId != "" && call.name != "" && encode(call.args) != call.args
    requires decode(asked) == FunctionCall(call) && decode(answered) == FunctionCallOutput(call.callId, output, endedAt)
    ensures var files := CallThenOutput(asked, answered);
            var outs := [[], [ToolEvent(EncodedCall(encode, call), output, endedAt)]];
            && Grows(files) && IsHistory(decode, encode, files, Cursor(0, []), outs)
            && PairsOf(decode, files[1], Cursor(0, [])) == [ToolEvent(call, output, endedAt)] != Flatten(outs)
  {
    CutIsHistory(decode, encode, call, output, endedAt, asked, answered);
    OneScanPairs(decode, call, output, endedAt, asked, answered);
    var told, right := [ToolEvent(EncodedCall(encode, call), output, endedAt)], [ToolEvent(call, output, endedAt)];
    FlattenTwo([], told);
    Seqs.Nothing(told);
    assert told[0].call.args != right[0].call.args;
    CallThenOutputGrows(asked, answered);
  }

  lemma CallThenOutputGrows(asked: Bytes, answered: Bytes)
    ensures Grows(CallThenOutput(asked, answered))
  {
    Seqs.Prefix(asked + [NEWLINE], answered + [NEWLINE]);
  }

  lemma CutIsHistory(decode: Decoder, encode: Encoder, call: PendingCall, output: Bytes, endedAt: int, asked: Bytes,
                     answered: Bytes)
    requires NEWLINE !in asked && NEWLINE !in answered && call.callId != "" && call.name != ""
    requires decode(asked) == FunctionCall(call) && decode(answered) == FunctionCallOutput(call.callId, output, endedAt)
    ensures IsHistory(decode, encode, CallThenOutput(asked, answered), Cursor(0, []),
                      [[], [ToolEvent(EncodedCall(encode, call), output, endedAt)]])
  {
    var files := CallThenOutput(asked, answered);
    CallScanned(decode, encode, call, asked);
    OutputScanned(decode, encode, call, output, endedAt, asked, answered);
    TwoInvocations(decode, encode, files[0], files[1], Cursor(0, []), [],
                   [ToolEvent(EncodedCall(encode, call), output, endedAt)],
                   Cursor(|asked| + 1, EncodedSlice(encode, [call])), Cursor(|files[1]|, []));
  }

  lemma TwoInvocations(decode: Decoder, encode: Encoder, one: Bytes, other: Bytes, c: Cursor, first: seq<ToolEvent>,
                       second: seq<ToolEvent>, c': Cursor, c'': Cursor)
    requires IsInvocation(decode, encode, one, c, first, c') && IsInvocation(decode, encode, other, c', second, c'')
    ensures IsHistory(decode, encode, [one, other], c, [first, second])
  {
    var files, outs := [one, other], [first, second];
    assert files[1..] == [other] && outs[1..] == [second] && [other][1..] == [] && [second][1..] == [];
    assert IsHistory(decode, encode, [], c'', []);
    assert IsHistory(decode, encode, [other], c', [second]);
  }

  lemma FlattenTwo(first: seq<ToolEvent>, second: seq<ToolEvent>)
    ensures Flatten([first, second]) == first + second
  {
    var outs, last := [first, second], [second];
    assert outs[1..] == last && last[1..] == [];
    assert Flatten(last) == second + [] == second;
  }

  // Such a call and output: two lines, for an encoding that drops the arguments.
  lemma CutOccurs() returns (decode: Decoder, encode: Encoder, outs: seq<seq<ToolEvent>>)
    ensures Settles(encode) && IsHistory(decode, encode, CallThenOutput([], [0]), Cursor(0, []), outs)
    ensures Flatten(outs) != PairsOf(decode, CallThenOutput([], [0])[1], Cursor(0, []))
  {
    var call := PendingCall("tool", [0], "id", 0);
    decode := (l: Bytes) => if l == [] then FunctionCall(call) else FunctionCallOutput("id", [], 0);
    encode := (_: Bytes) => [];
    outs := [[], [ToolEvent(EncodedCall(encode, call), [], 0)]];
    CutBetweenCallAndOutput(decode, encode, call, [], 0, [], [0]);
  }

  lemma FoldOne(decode: Decoder, pending: Calls, line: Bytes)
    ensures Fold(decode, pending, [line]) == Step(decode, pending, line)
  {
    assert [line][..0] == [];
    Seqs.Nothing(Step(decode, pending, line).1);
  }

  // ----- pairing -----

  function CallsOf(decode: Decoder, lines: seq<Bytes>, id: string): nat {
    if lines == [] then 0
    else
      var item := decode(lines[|lines| - 1]);
      CallsOf(decode, lines[..|lines| - 1], id)
      + if item.FunctionCall? && item.call.callId == id && id != "" && item.call.name != "" then 1 else 0
  }

  function EventsOf(events: seq<ToolEvent>, id: string): nat {
    if events == [] then 0
    else EventsOf(events[..|events| - 1], id) + if events[|events| - 1].call.callId == id then 1 else 0
  }

  // An output consumes the call it reports: for every id there are at most as many events, and
  // calls still waiting, as there were calls. Every event joins an output to a call of its id.
  lemma {:induction false} OutputsConsumeCalls(decode: Decoder, pending: Calls, lines: seq<Bytes>, id: string)
    requires Keyed(pending)
    ensures var end := Fold(decode, pending, lines);
            EventsOf(end.1, id) + (if id in end.0 then 1 else 0) <=
            CallsOf(decode, lines, id) + if id in pending then 1 else 0
  {
    if lines != [] {
      var front, last := lines[..|lines| - 1], lines[|lines| - 1];
      OutputsConsumeCalls(decode, pending, front, id);
      FoldKeyed(decode, pending, front);
      var mid := Fold(decode, pending, front);
      EventsOfConcat(mid.1, Step(decode, mid.0, last).1, id);
    }
  }

  lemma EventsOfConcat(events: seq<ToolEvent>, out: seq<ToolEvent>, id: string)
    requires |out| <= 1
    ensures EventsOf(events + out, id) == EventsOf(events, id) + if out != [] && out[0].call.callId == id then 1 else 0
  {
    if out != [] {
      assert out == [out[0]];
      Seqs.Snoc(events, out[0]);
    } else {
      Seqs.Nothing(events);
    }
  }
}
