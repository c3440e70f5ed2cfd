/** The byte tee: forward what was read, then account for the frames it completed. */
module Tee {
  import opened Basics
  import opened Framing

  datatype ReadEnd = More | Eof | ReadFailed

  // One call of Read: the bytes it returned and how it ended.
  datatype Read = Read(data: Bytes, end: ReadEnd)

  // What the destination did with a write, and the capture channel with a frame.
  datatype WriteOutcome = Written | WriteFailed(accepted: nat)
  datatype SinkOutcome = Taken | Full | Panicked

  datatype RunResult = Done | ReadError | WriteError

  // What the outside sees, in order.
  datatype Event = Wrote(chunk: Bytes) | Published(frame: Bytes)

  function WrittenBy(log: seq<Event>): Bytes {
    if log == [] then []
    else
      var before := WrittenBy(log[..|log| - 1]);
      match log[|log| - 1]
      case Wrote(chunk) => before + chunk
      case Published(_) => before
  }

  function PublishedBy(log: seq<Event>): seq<Bytes> {
    if log == [] then []
    else
      var before := PublishedBy(log[..|log| - 1]);
      match log[|log| - 1]
      case Wrote(_) => before
      case Published(frame) => before + [frame]
  }

  // At every moment the frames published so far are complete, fitting frames of the bytes
  // already written.
  ghost predicate ForwardFirst(log: seq<Event>, max: nat) {
    forall i :: 0 <= i <= |log| ==> PublishedBy(log[..i]) <= Fitting(SplitLines(WrittenBy(log[..i])).segments, max)
  }

  // What the tee has in hand and has let go of.
  datatype Capture = Capture(frame: Bytes, skipping: bool, published: seq<Bytes>, oversize: nat)

  // The capture state a byte stream leads to, whatever reads it came in: complete segments
  // within the limit are published, longer ones counted, the unterminated tail is kept, or
  // counted once when it is already too long.
  function CaptureOf(s: Bytes, max: nat): Capture {
    var sp := SplitLines(s);
    var long := |sp.tail| > max;
    Capture(if long then [] else sp.tail, long, Fitting(sp.segments, max),
            Oversize(sp.segments, max) + if long then 1 else 0)
  }

  // The step taken for bytes without a newline ...
  lemma CaptureRun(s: Bytes, run: Bytes, max: nat)
    requires NEWLINE !in run
    ensures var st := CaptureOf(s, max);
            CaptureOf(s + run, max) ==
            if st.skipping then st
            else if |st.frame| + |run| > max then Capture([], true, st.published, st.oversize + 1)
            else st.(frame := st.frame + run)
  {
    SplitExtend(s, run);
  }

  // ... and for bytes that complete a frame.
  lemma CaptureLine(s: Bytes, run: Bytes, max: nat)
    requires NEWLINE !in run
    ensures var st := CaptureOf(s, max);
            var fits := !st.skipping && |st.frame| + |run| <= max;
            CaptureOf(s + run + [NEWLINE], max) ==
            Capture([], false, st.published + (if fits then [st.frame + run] else []),
                    st.oversize + if st.skipping || fits then 0 else 1)
  {
    SplitExtend(s, run);
    FittingSnoc(SplitLines(s).segments, SplitLines(s).tail + run, max);
  }

  // A line taken off the front of what is left.
  lemma LineOff(done: Bytes, data: Bytes, idx: nat, whole: Bytes)
    requires done + data == whole && idx < |data| && data[idx] == NEWLINE
    ensures data == data[..idx] + [NEWLINE] + data[idx + 1..]
    ensures done + data[..idx] + [NEWLINE] + data[idx + 1..] == whole
  {
  }

  class TeeStats {
    var forwarded: nat
    var capturedSent: nat
    var captureDrops: nat
    var oversizeFrames: nat
    var writeErrors: nat

    constructor ()
      ensures forwarded == capturedSent == captureDrops == oversizeFrames == writeErrors == 0
    {
      forwarded, capturedSent, captureDrops, oversizeFrames, writeErrors := 0, 0, 0, 0, 0;
    }
  }

  function EffectiveMax(maxFrame: int): nat {
    if maxFrame <= 0 then DEFAULT_MAX_FRAME_BYTES else maxFrame
  }

  // The bytes of the reads up to and including the one that ends the stream.
  function Stream(input: seq<Read>): Bytes {
    if input == [] then []
    else if input[0].end != More then input[0].data
    else input[0].data + Stream(input[1..])
  }

  class Tee {
    const maxFrame: int
    const hasSink: bool
    const stats: TeeStats
    var dst: Bytes
    var captured: seq<Bytes>
    ghost var log: seq<Event>

    constructor (maxFrame: int, hasSink: bool)
      ensures this.maxFrame == maxFrame && this.hasSink == hasSink
      ensures dst == [] && captured == [] && log == []
      ensures fresh(stats)
      ensures stats.forwarded == stats.capturedSent == stats.captureDrops == stats.oversizeFrames ==
              stats.writeErrors == 0
    {
      this.maxFrame, this.hasSink := maxFrame, hasSink;
      dst, captured, log := [], [], [];
      stats := new TeeStats();
    }

    // The counters agree with the log.
    ghost predicate Counted()
      reads this, stats
    {
      && stats.forwarded == |PublishedBy(log)|
      && |captured| == stats.capturedSent
      && (if hasSink then stats.capturedSent + stats.captureDrops == stats.forwarded
          else stats.capturedSent == stats.captureDrops == 0)
    }

    // Hand a copy of the frame to the capture channel; never waits, never fails.
    method Publish(frame: Bytes, outcome: SinkOutcome)
      requires stats.forwarded == |PublishedBy(log)| + 1
      requires |captured| == stats.capturedSent
      requires if hasSink then stats.capturedSent + stats.captureDrops + 1 == stats.forwarded
               else stats.capturedSent == stats.captureDrops == 0
      modifies this`captured, this`log, stats`capturedSent, stats`captureDrops
      ensures log == old(log) + [Published(frame)] && Counted()
      ensures captured == old(captured) + if hasSink && outcome == Taken then [frame] else []
    {
      log := log + [Published(frame)];
      assert log[..|log| - 1] == old(log);
      if !hasSink {
        return;
      }
      if outcome == Taken {
        captured := captured + [frame];
        stats.capturedSent := stats.capturedSent + 1;
      } else {
        stats.captureDrops := stats.captureDrops + 1;
      }
    }

    // Account for bytes that have just been written: split on newlines, publish what fits,
    // count what does not.
    method Walk(chunk: Bytes, frame0: Bytes, skipping0: bool, max: nat, sink: nat -> SinkOutcome, ghost before: Bytes)
      returns (frame: Bytes, skipping: bool)
      requires Counted() && ForwardFirst(log, max)
      requires WrittenBy(log) == before + chunk
      requires Capture(frame0, skipping0, PublishedBy(log), stats.oversizeFrames) == CaptureOf(before, max)
      modifies this`captured, this`log, stats`forwarded, stats`capturedSent, stats`captureDrops, stats`oversizeFrames
      ensures Counted() && ForwardFirst(log, max)
      ensures WrittenBy(log) == before + chunk
      ensures Capture(frame, skipping, PublishedBy(log), stats.oversizeFrames) == CaptureOf(before + chunk, max)
    {
      frame, skipping := frame0, skipping0;
      var data := chunk;
      ghost var done := before;
      while data != []
        invariant done + data == before + chunk
        invariant Counted() && ForwardFirst(log, max) && WrittenBy(log) == before + chunk
        invariant Capture(frame, skipping, PublishedBy(log), stats.oversizeFrames) == CaptureOf(done, max)
        decreases |data|
      {
        var idx := IndexNewline(data);
        if idx.None? {
          CaptureRun(done, data, max);
          if !skipping {
            if |frame| + |data| > max {
              stats.oversizeFrames := stats.oversizeFrames + 1;
              skipping := true;
              frame := [];
            } else {
              frame := frame + data;
            }
          }
          done, data := done + data, [];
          break;
        }
        var run := data[..idx.value];
        CaptureLine(done, run, max);
        ghost var next := done + run + [NEWLINE];
        LineOff(done, data, idx.value, before + chunk);
        if !skipping {
          if |frame| + |run| > max {
            stats.oversizeFrames := stats.oversizeFrames + 1;
          } else {
            frame := frame + run;
            stats.forwarded := stats.forwarded + 1;
            PublishKeepsOrder(log, frame, max, next, data[idx.value + 1..]);
            Publish(frame, sink(stats.forwarded));
          }
        }
        frame := [];
        skipping := false;
        done := next;
        data := data[idx.value + 1..];
      }
      assert done == before + chunk;
    }

    // Everything written so far is in the log, and the locals of Run are what the bytes demand.
    ghost predicate Tracks(frame: Bytes, skipping: bool, max: nat)
      reads this, stats
    {
      && Counted() && ForwardFirst(log, max) && WrittenBy(log) == dst
      && Capture(frame, skipping, PublishedBy(log), stats.oversizeFrames) == CaptureOf(dst, max)
    }

    // Forward one chunk, then account for it.
    method Pump(chunk: Bytes, outcome: WriteOutcome, frame0: Bytes, skipping0: bool, max: nat, sink: nat -> SinkOutcome)
      returns (ok: bool, frame: Bytes, skipping: bool)
      requires Tracks(frame0, skipping0, max)
      modifies this, stats
      ensures Counted() && ForwardFirst(log, max)
      ensures ok == outcome.Written?
      ensures ok ==> dst == old(dst) + chunk && Tracks(frame, skipping, max)
      ensures !ok ==> old(dst) <= dst <= old(dst) + chunk
      ensures stats.writeErrors == old(stats.writeErrors) + if ok then 0 else 1
    {
      if outcome.WriteFailed? {
        stats.writeErrors := stats.writeErrors + 1;
        dst := dst + chunk[..if outcome.accepted <= |chunk| then outcome.accepted else |chunk|];
        return false, frame0, skipping0;
      }
      WroteKeepsOrder(log, chunk, max);
      ghost var before := dst;
      dst := dst + chunk;
      log := log + [Wrote(chunk)];
      frame, skipping := Walk(chunk, frame0, skipping0, max, sink, before);
      ok := true;
    }

    // Copy until the input ends or a write fails. The destination receives exactly the bytes
    // read; the frames published and the oversize count depend on those bytes alone, not on how
    // they were cut into reads; and nothing is published before it is written.
    method Run(input: seq<Read>, write: nat -> WriteOutcome, sink: nat -> SinkOutcome) returns (r: RunResult)
      requires dst == [] && captured == [] && log == []
      requires stats.forwarded == stats.capturedSent == stats.captureDrops == stats.oversizeFrames ==
               stats.writeErrors == 0
      modifies this, stats
      ensures Counted() && ForwardFirst(log, EffectiveMax(maxFrame))
      ensures r == WriteError ==> dst <= Stream(input) && stats.writeErrors == 1
      ensures r != WriteError ==>
                && stats.writeErrors == 0
                && dst == Stream(input)
                && PublishedBy(log) == CaptureOf(Stream(input), EffectiveMax(maxFrame)).published
                && stats.oversizeFrames == CaptureOf(Stream(input), EffectiveMax(maxFrame)).oversize
                && (r == ReadError <==> EndsBadly(input))
    {
      var max := EffectiveMax(maxFrame);
      var frame: Bytes, skipping := [], false;
      var i := 0;
      var end := More;
      while i < |input| && end == More
        invariant i <= |input|
        invariant Stream(input) == dst + Remaining(input, i, end)
        invariant EndsBadly(input) == if end == More then EndsBadly(input[i..]) else end == ReadFailed
        invariant stats.writeErrors == 0 && Tracks(frame, skipping, max)
      {
        StreamStep(dst, input, i);
        if input[i].data == [] {
          assert dst + input[i].data == dst;
        } else {
          var ok;
          ok, frame, skipping := Pump(input[i].data, write(i), frame, skipping, max, sink);
          if !ok {
            return WriteError;
          }
        }
        end := input[i].end;
        i := i + 1;
      }
      return if end == ReadFailed then ReadError else Done;
    }
  }

  // The first read that ends the input reports a failure.
  predicate EndsBadly(input: seq<Read>) {
    if input == [] then false
    else if input[0].end != More then input[0].end == ReadFailed
    else EndsBadly(input[1..])
  }

  // What is left of the input after one more read.
  function Remaining(input: seq<Read>, i: nat, end: ReadEnd): Bytes
    requires i <= |input|
  {
    if end == More then Stream(input[i..]) else []
  }

  lemma StreamStep(done: Bytes, input: seq<Read>, i: nat)
    requires i < |input|
    ensures done + Stream(input[i..]) == done + input[i].data + Remaining(input, i + 1, input[i].end)
    ensures EndsBadly(input[i..]) == if input[i].end != More then input[i].end == ReadFailed
                                     else EndsBadly(input[i + 1..])
  {
    assert input[i..][1..] == input[i + 1..];
  }

  lemma LogSnoc(log: seq<Event>, e: Event)
    ensures WrittenBy(log + [e]) == WrittenBy(log) + if e.Wrote? then e.chunk else []
    ensures PublishedBy(log + [e]) == PublishedBy(log) + if e.Published? then [e.frame] else []
  {
    assert (log + [e])[..|log|] == log;
  }

  // More bytes only add segments.
  lemma {:induction false} FittingGrows(s: Bytes, more: Bytes, max: nat)
    ensures Fitting(SplitLines(s).segments, max) <= Fitting(SplitLines(s + more).segments, max)
    decreases |more|
  {
    if more == [] {
      assert s + more == s;
    } else {
      var front, last := more[..|more| - 1], more[|more| - 1];
      FittingGrows(s, front, max);
      assert s + more == s + front + [last];
      SplitSnoc(s + front, last);
      FittingSnoc(SplitLines(s + front).segments, SplitLines(s + front).tail, max);
    }
  }

  lemma SplitSnoc(s: Bytes, b: byte)
    ensures SplitLines(s + [b]) ==
            var sp := SplitLines(s);
            if b == NEWLINE then Split(sp.segments + [sp.tail], []) else Split(sp.segments, sp.tail + [b])
  {
    assert (s + [b])[..|s|] == s;
  }

  lemma ForwardFirstSnoc(log: seq<Event>, e: Event, max: nat)
    requires ForwardFirst(log, max)
    requires PublishedBy(log + [e]) <= Fitting(SplitLines(WrittenBy(log + [e])).segments, max)
    ensures ForwardFirst(log + [e], max)
  {
    forall i | 0 <= i <= |log| + 1
      ensures PublishedBy((log + [e])[..i]) <= Fitting(SplitLines(WrittenBy((log + [e])[..i])).segments, max)
    {
      if i <= |log| {
        assert (log + [e])[..i] == log[..i];
      } else {
        assert (log + [e])[..i] == log + [e];
      }
    }
  }

  lemma WroteKeepsOrder(log: seq<Event>, chunk: Bytes, max: nat)
    requires ForwardFirst(log, max)
    ensures ForwardFirst(log + [Wrote(chunk)], max)
    ensures WrittenBy(log + [Wrote(chunk)]) == WrittenBy(log) + chunk
    ensures PublishedBy(log + [Wrote(chunk)]) == PublishedBy(log)
  {
    LogSnoc(log, Wrote(chunk));
    FittingGrows(WrittenBy(log), chunk, max);
    assert log[..|log|] == log;
    ForwardFirstSnoc(log, Wrote(chunk), max);
  }

  // Publishing the next fitting frame of bytes that have all been written.
  lemma PublishKeepsOrder(log: seq<Event>, frame: Bytes, max: nat, done: Bytes, rest: Bytes)
    requires ForwardFirst(log, max) && WrittenBy(log) == done + rest
    requires PublishedBy(log) + [frame] == CaptureOf(done, max).published
    ensures ForwardFirst(log + [Published(frame)], max)
    ensures WrittenBy(log + [Published(frame)]) == WrittenBy(log)
    ensures PublishedBy(log + [Published(frame)]) == PublishedBy(log) + [frame]
  {
    LogSnoc(log, Published(frame));
    FittingGrows(done, rest, max);
    ForwardFirstSnoc(log, Published(frame), max);
  }
}
