/** Which lines of a session become tool events, and that each event joins an output to its call. */
module CodexPairs {
  import opened Basics
  import Seqs
  import opened CodexScan

  // A line that makes the call wait for its output.
  predicate Asks(decode: Decoder, line: Bytes, call: PendingCall) {
    decode(line) == FunctionCall(call) && call.callId != "" && call.name != ""
  }

  // A line after which no earlier call of that id waits any more: another call, or an output.
  predicate Closes(decode: Decoder, line: Bytes, id: string) {
    match decode(line)
    case FunctionCall(call) => call.callId == id && id != "" && call.name != ""
    case FunctionCallOutput(other, _, _) => other == id
    case Other => false
  }

  // The call waits when the i-th line is reached: it came before, or was waiting from the start, and
  // nothing has settled it since.
  ghost predicate Waits(decode: Decoder, pending: Calls, lines: seq<Bytes>, i: nat, id: string, call: PendingCall)
    requires i <= |lines|
  {
    || (id in pending && pending[id] == call && forall j :: 0 <= j < i ==> !Closes(decode, lines[j], id))
    || exists k :: 0 <= k < i && Asks(decode, lines[k], call) && call.callId == id
                   && forall j :: k < j < i ==> !Closes(decode, lines[j], id)
  }

  // The event joins the output on the line to the call that waits for it.
  ghost predicate Joins(decode: Decoder, pending: Calls, lines: seq<Bytes>, i: nat, ev: ToolEvent)
    requires i < |lines|
  {
    var item := decode(lines[i]);
    && item.FunctionCallOutput? && ev.output == item.output && ev.endedAt == item.endedAt
    && Waits(decode, pending, lines, i, item.callId, ev.call)
  }

  // An output that some call waits for.
  ghost predicate IsAnswer(decode: Decoder, pending: Calls, lines: seq<Bytes>, i: nat)
    requires i < |lines|
  {
    var item := decode(lines[i]);
    item.FunctionCallOutput? && exists call :: Waits(decode, pending, lines, i, item.callId, call)
  }

  // `at` are the lines that the events were made on, in order.
  ghost predicate Placed(decode: Decoder, pending: Calls, lines: seq<Bytes>, events: seq<ToolEvent>, at: seq<nat>) {
    && |at| == |events|
    && (forall k :: 0 <= k < |at| ==> at[k] < |lines| && Joins(decode, pending, lines, at[k], events[k]))
    && (forall j, k :: 0 <= j < k < |at| ==> at[j] < at[k])
  }

  ghost predicate AllAnswers(decode: Decoder, pending: Calls, lines: seq<Bytes>, at: seq<nat>) {
    forall i :: 0 <= i < |lines| ==> (i in at <==> IsAnswer(decode, pending, lines, i))
  }

  // What waits is what a scan has in its map.
  ghost predicate Keeps(decode: Decoder, pending: Calls, lines: seq<Bytes>, end: Calls) {
    forall id, call :: Waits(decode, pending, lines, |lines|, id, call) <==> id in end && end[id] == call
  }

  // Lines further on do not matter.
  lemma WaitsBefore(decode: Decoder, pending: Calls, lines: seq<Bytes>, line: Bytes, i: nat, id: string,
                    call: PendingCall)
    requires i <= |lines|
    ensures Waits(decode, pending, lines + [line], i, id, call) <==> Waits(decode, pending, lines, i, id, call)
  {
    assert forall j :: 0 <= j < |lines| ==> (lines + [line])[j] == lines[j];
  }

  // One line more.
  lemma WaitsAfter(decode: Decoder, pending: Calls, lines: seq<Bytes>, line: Bytes, id: string, call: PendingCall)
    ensures Waits(decode, pending, lines + [line], |lines| + 1, id, call)
       <==> if Closes(decode, line, id) then Asks(decode, line, call) && call.callId == id
            else Waits(decode, pending, lines, |lines|, id, call)
  {
    var all := lines + [line];
    Seqs.Snoc(lines, line);
    assert forall j :: 0 <= j < |lines| ==> all[j] == lines[j];
    if Waits(decode, pending, all, |all|, id, call) && !Closes(decode, line, id) {
      AskedBefore(decode, pending, lines, line, id, call);
    }
  }

  lemma AskedBefore(decode: Decoder, pending: Calls, lines: seq<Bytes>, line: Bytes, id: string, call: PendingCall)
    requires Waits(decode, pending, lines + [line], |lines| + 1, id, call) && !Closes(decode, line, id)
    ensures Waits(decode, pending, lines, |lines|, id, call)
  {
    var all := lines + [line];
    Seqs.Snoc(lines, line);
    assert forall j :: 0 <= j < |lines| ==> all[j] == lines[j];
  }

  lemma KeepsMore(decode: Decoder, pending: Calls, lines: seq<Bytes>, line: Bytes, before: Calls)
    requires Keeps(decode, pending, lines, before)
    ensures Keeps(decode, pending, lines + [line], Step(decode, before, line).0)
  {
    var end := Step(decode, before, line).0;
    forall id, call
      ensures Waits(decode, pending, lines + [line], |lines + [line]|, id, call) <==> id in end && end[id] == call
    {
      WaitsAfter(decode, pending, lines, line, id, call);
    }
  }

  lemma JoinsOn(decode: Decoder, pending: Calls, lines: seq<Bytes>, line: Bytes, i: nat, ev: ToolEvent)
    requires i < |lines|
    ensures Joins(decode, pending, lines + [line], i, ev) <==> Joins(decode, pending, lines, i, ev)
  {
    assert (lines + [line])[i] == lines[i];
    WaitsBefore(decode, pending, lines, line, i, if decode(lines[i]).FunctionCallOutput? then decode(lines[i]).callId
                else "", ev.call);
  }

  lemma AnswersOn(decode: Decoder, pending: Calls, lines: seq<Bytes>, line: Bytes, i: nat)
    requires i < |lines|
    ensures IsAnswer(decode, pending, lines + [line], i) <==> IsAnswer(decode, pending, lines, i)
  {
    assert (lines + [line])[i] == lines[i];
    var item := decode(lines[i]);
    if item.FunctionCallOutput? {
      forall call
        ensures Waits(decode, pending, lines + [line], i, item.callId, call)
           <==> Waits(decode, pending, lines, i, item.callId, call)
      {
        WaitsBefore(decode, pending, lines, line, i, item.callId, call);
      }
    }
  }

  lemma PlacedOn(decode: Decoder, pending: Calls, lines: seq<Bytes>, line: Bytes, events: seq<ToolEvent>, at: seq<nat>)
    requires Placed(decode, pending, lines, events, at)
    ensures Placed(decode, pending, lines + [line], events, at)
  {
    forall k | 0 <= k < |at| ensures at[k] < |lines| && Joins(decode, pending, lines + [line], at[k], events[k]) {
      JoinsOn(decode, pending, lines, line, at[k], events[k]);
    }
  }

  lemma PlacedMore(decode: Decoder, pending: Calls, lines: seq<Bytes>, events: seq<ToolEvent>, ev: ToolEvent,
                   at: seq<nat>, i: nat)
    requires Placed(decode, pending, lines, events, at) && (forall k :: 0 <= k < |at| ==> at[k] < i)
    requires i < |lines| && Joins(decode, pending, lines, i, ev)
    ensures Placed(decode, pending, lines, events + [ev], at + [i])
  {
  }

  lemma AnswersMore(decode: Decoder, pending: Calls, lines: seq<Bytes>, line: Bytes, at: seq<nat>, answered: bool)
    requires AllAnswers(decode, pending, lines, at) && forall k :: 0 <= k < |at| ==> at[k] < |lines|
    requires IsAnswer(decode, pending, lines + [line], |lines|) <==> answered
    ensures AllAnswers(decode, pending, lines + [line], at + if answered then [|lines|] else [])
  {
    forall i | 0 <= i < |lines|
      ensures IsAnswer(decode, pending, lines + [line], i) <==> IsAnswer(decode, pending, lines, i)
    {
      AnswersOn(decode, pending, lines, line, i);
    }
    assert |lines| !in at;
  }

  // What a scan makes of the line.
  lemma AnswersNow(decode: Decoder, pending: Calls, lines: seq<Bytes>, line: Bytes, before: Calls)
    requires Keeps(decode, pending, lines, before)
    ensures var events := Step(decode, before, line).1;
            && (IsAnswer(decode, pending, lines + [line], |lines|) <==> events != [])
            && (events != [] ==> |events| == 1 && Joins(decode, pending, lines + [line], |lines|, events[0]))
  {
    Seqs.Snoc(lines, line);
    var item := decode(line);
    if item.FunctionCallOutput? {
      forall call
        ensures Waits(decode, pending, lines + [line], |lines|, item.callId, call)
           <==> item.callId in before && before[item.callId] == call
      {
        WaitsBefore(decode, pending, lines, line, |lines|, item.callId, call);
      }
      if item.callId in before {
        assert Waits(decode, pending, lines + [line], |lines|, item.callId, before[item.callId]);
      }
    }
  }

  // The events of a scan are those of its answers, in order: one for every output that a call waits
  // for, with that call and that output. And what is left waiting is what the scan keeps.
  lemma {:induction false} EventsAreAnswers(decode: Decoder, pending: Calls, lines: seq<Bytes>) returns (at: seq<nat>)
    ensures var end := Fold(decode, pending, lines);
            && Placed(decode, pending, lines, end.1, at) && AllAnswers(decode, pending, lines, at)
            && Keeps(decode, pending, lines, end.0)
  {
    if lines == [] {
      at := [];
    } else {
      var front, line := lines[..|lines| - 1], lines[|lines| - 1];
      var mid := Fold(decode, pending, front);
      var more := Step(decode, mid.0, line).1;
      Seqs.FrontLast(lines);
      var before := EventsAreAnswers(decode, pending, front);
      KeepsMore(decode, pending, front, line, mid.0);
      AnswersNow(decode, pending, front, line, mid.0);
      AnswersMore(decode, pending, front, line, before, more != []);
      PlacedOn(decode, pending, front, line, mid.1, before);
      at := before + if more != [] then [|front|] else [];
      if more == [] {
        Seqs.Nothing(mid.1);
        Seqs.Nothing(before);
      } else {
        assert more == [more[0]];
        PlacedMore(decode, pending, lines, mid.1, more[0], before, |front|);
      }
    }
  }
}
