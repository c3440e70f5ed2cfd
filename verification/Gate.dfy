/** The frame-based forwarder that can refuse frames, and the halt gate it consults. */
module Gate {
  import opened Basics
  import Seqs
  import opened Framing

  // ----- the frame scanner -----

  datatype ScanError = FrameTooLarge | TruncatedFrame

  // One step of the split: a token, more data needed, or a frame cut off at the end of input.
  datatype SplitStep = Token(advance: nat, frame: Bytes) | NeedMore | Cut

  method SplitFrames(data: Bytes, atEof: bool) returns (r: SplitStep)
    ensures r == SplitSpec(data, atEof)
  {
    var idx := IndexNewline(data);
    if idx.Some? {
      FirstNewlineUnique(data, idx.value);
      return Token(idx.value + 1, data[..idx.value]);
    }
    if atEof && |data| > 0 {
      return Cut;
    }
    return NeedMore;
  }

  function SplitSpec(data: Bytes, atEof: bool): SplitStep {
    if NEWLINE in data then Token(FirstNewline(data) + 1, data[..FirstNewline(data)])
    else if atEof && |data| > 0 then Cut
    else NeedMore
  }

  function FirstNewline(data: Bytes): (i: nat)
    requires NEWLINE in data
    ensures i < |data| && data[i] == NEWLINE && NEWLINE !in data[..i]
  {
    if data[0] == NEWLINE then 0
    else
      var rest := FirstNewline(data[1..]);
      assert data[..rest + 1] == [data[0]] + data[1..][..rest];
      rest + 1
  }

  lemma FirstNewlineUnique(data: Bytes, i: nat)
    requires i < |data| && data[i] == NEWLINE && NEWLINE !in data[..i]
    ensures FirstNewline(data) == i
  {
    var j := FirstNewline(data);
    assert forall k :: 0 <= k < i ==> data[..i][k] != NEWLINE;
    assert forall k :: 0 <= k < j ==> data[..j][k] != NEWLINE;
  }

  // A scanner over what is left of the input. It buffers at most `max` bytes: a newline among
  // them ends a frame, a full buffer without one is an error.
  class FrameScanner {
    const max: nat
    var rest: Bytes
    var frame: Bytes
    var err: Option<ScanError>

    constructor (input: Bytes, maxFrameBytes: int)
      ensures rest == input && err == None && max == ScanLimit(maxFrameBytes)
    {
      max := ScanLimit(maxFrameBytes);
      rest, frame, err := input, [], None;
    }

    method Scan() returns (ok: bool)
      requires err == None && max > 0
      modifies this
      ensures ok ==> err == None && |frame| < max && NEWLINE !in frame && old(rest) == frame + [NEWLINE] + rest
      ensures !ok ==> rest == old(rest) && err == EndOf(rest, max) && (NEWLINE in rest ==> FirstNewline(rest) >= max)
    {
      var window := rest[..if |rest| < max then |rest| else max];
      assert NEWLINE in rest && FirstNewline(rest) < |window| ==> window[FirstNewline(rest)] == NEWLINE;
      var step := SplitFrames(window, |rest| < max);
      match step
      case Token(advance, token) =>
        assert rest == token + [NEWLINE] + rest[advance..];
        frame, rest := token, rest[advance..];
        ok := true;
      case Cut =>
        err := Some(TruncatedFrame);
        ok := false;
      case NeedMore =>
        if |rest| >= max {
          err := Some(FrameTooLarge);
        }
        ok := false;
    }
  }

  function ScanLimit(maxFrameBytes: int): nat {
    if maxFrameBytes <= 0 then DEFAULT_MAX_FRAME_BYTES else maxFrameBytes
  }

  // How a scan ends when no frame fits what is left.
  function EndOf(rest: Bytes, max: nat): Option<ScanError> {
    if |rest| >= max then Some(FrameTooLarge) else if rest == [] then None else Some(TruncatedFrame)
  }

  // The frames a scan yields: the leading segments shorter than the limit.
  function Leading(segments: seq<Bytes>, max: nat): seq<Bytes> {
    if segments == [] || |segments[0]| >= max then [] else [segments[0]] + Leading(segments[1..], max)
  }

  // Why it stops.
  function ScanEnd(sp: Split, max: nat): Option<ScanError> {
    if Leading(sp.segments, max) != sp.segments || |sp.tail| >= max then Some(FrameTooLarge)
    else if sp.tail == [] then None
    else Some(TruncatedFrame)
  }

  // A frame taken off the front is the first segment.
  lemma SplitFront(s: Bytes, frame: Bytes, rest: Bytes)
    requires NEWLINE !in frame && s == frame + [NEWLINE] + rest
    ensures SplitLines(s) == Split([frame] + SplitLines(rest).segments, SplitLines(rest).tail)
  {
    SplitLinesIsSplit(rest);
    var sp := SplitLines(rest);
    JoinedFront(frame, sp.segments);
    SplitUnique(s, Split([frame] + sp.segments, sp.tail));
  }

  lemma JoinedFront(frame: Bytes, segments: seq<Bytes>)
    ensures Joined([frame] + segments) == frame + [NEWLINE] + Joined(segments)
  {
    JoinedConcat([frame], segments);
    JoinedSnoc([], frame);
    Seqs.Nothing([frame]);
    Seqs.Nothing(frame);
  }

  // Where no further frame fits, the scan of the split ends as the scanner says.
  lemma ScanStops(rest: Bytes, max: nat)
    requires max > 0 && (NEWLINE in rest ==> FirstNewline(rest) >= max)
    ensures Leading(SplitLines(rest).segments, max) == []
    ensures ScanEnd(SplitLines(rest), max) == EndOf(rest, max)
  {
    if NEWLINE in rest {
      var i := FirstNewline(rest);
      assert rest == rest[..i] + [NEWLINE] + rest[i + 1..];
      SplitFront(rest, rest[..i], rest[i + 1..]);
    } else {
      SplitExtend([], rest);
      assert [] + rest == rest;
    }
  }

  // ----- decisions -----

  datatype Decision = Decision(forward: bool, reply: Bytes, capture: bool)

  const ALLOW := Decision(true, [], true)

  function Block(reply: Bytes): Decision {
    Decision(false, reply, true)
  }

  // The gate's answer for the i-th frame; None when inspecting it panicked.
  type Inspector = (nat, Bytes) -> Option<Decision>

  function DecisionFor(gate: Option<Inspector>, i: nat, frame: Bytes): Decision {
    if gate.None? then ALLOW else match gate.value(i, frame) case Some(d) => d case None => ALLOW
  }

  // The three streams the frames are sorted into.
  function Upstream(frames: seq<Bytes>, gate: Option<Inspector>): Bytes {
    if frames == [] then []
    else
      var n := |frames| - 1;
      Upstream(frames[..n], gate) + if DecisionFor(gate, n, frames[n]).forward then frames[n] + [NEWLINE] else []
  }

  function Replies(frames: seq<Bytes>, gate: Option<Inspector>): Bytes {
    if frames == [] then []
    else
      var n := |frames| - 1;
      var d := DecisionFor(gate, n, frames[n]);
      Replies(frames[..n], gate) + if !d.forward && d.reply != [] then d.reply + [NEWLINE] else []
  }

  function CapturedFrames(frames: seq<Bytes>, gate: Option<Inspector>): seq<Bytes> {
    if frames == [] then []
    else
      var n := |frames| - 1;
      CapturedFrames(frames[..n], gate) + if DecisionFor(gate, n, frames[n]).capture then [frames[n]] else []
  }

  function Forwards(frames: seq<Bytes>, gate: Option<Inspector>): nat {
    if frames == [] then 0
    else
      var n := |frames| - 1;
      Forwards(frames[..n], gate) + if DecisionFor(gate, n, frames[n]).forward then 1 else 0
  }

  class GatedForwarder {
    const maxFrame: int
    const gate: Option<Inspector>
    const hasHostBack: bool
    var upstream: Bytes
    var hostBack: Bytes
    var published: seq<Bytes>
    var forwarded: nat
    var writeErrors: nat

    constructor (maxFrame: int, gate: Option<Inspector>, hasHostBack: bool)
      ensures this.maxFrame == maxFrame && this.gate == gate && this.hasHostBack == hasHostBack
      ensures upstream == [] && hostBack == [] && published == [] && forwarded == writeErrors == 0
    {
      this.maxFrame, this.gate, this.hasHostBack := maxFrame, gate, hasHostBack;
      upstream, hostBack, published, forwarded, writeErrors := [], [], [], 0, 0;
    }

    // The outputs are what the gate's decisions on `frames` demand; `published` holds the frames
    // offered to the capture channel.
    ghost predicate Sorted(frames: seq<Bytes>)
      reads this
    {
      && upstream == Upstream(frames, gate)
      && hostBack == (if hasHostBack then Replies(frames, gate) else [])
      && published == CapturedFrames(frames, gate)
      && forwarded == Forwards(frames, gate)
    }

    // Forward or refuse one frame, then capture it. The write of frame i may fail.
    method Handle(frame: Bytes, i: nat, writeOk: bool, ghost frames: seq<Bytes>) returns (ok: bool)
      requires |frames| == i && Sorted(frames)
      modifies this
      ensures ok ==> Sorted(frames + [frame]) && writeErrors == old(writeErrors)
      ensures !ok ==> Sorted(frames) && !writeOk && writeErrors == old(writeErrors) + 1
      ensures writeOk ==> ok
    {
      assert (frames + [frame])[..i] == frames;
      var dec := ALLOW;
      if gate.Some? {
        var inspected := gate.value(i, frame);
        if inspected.Some? {
          dec := inspected.value;
        }
      }
      if dec.forward {
        if !writeOk {
          writeErrors := writeErrors + 1;
          return false;
        }
        upstream := upstream + frame + [NEWLINE];
        forwarded := forwarded + 1;
      } else if dec.reply != [] && hasHostBack {
        if !writeOk {
          writeErrors := writeErrors + 1;
          return false;
        }
        hostBack := hostBack + dec.reply + [NEWLINE];
      }
      if dec.capture {
        published := published + [frame];
      }
      ok := true;
    }

    // Every frame the scanner yields goes to exactly one side, in order; the run ends with the
    // scanner's verdict, or with the first failing write.
    method Run(input: Bytes, writeOk: nat -> bool) returns (r: RunEnd, ghost handled: seq<Bytes>)
      requires upstream == [] && hostBack == [] && published == [] && forwarded == writeErrors == 0
      modifies this
      ensures Sorted(handled)
      ensures r.Scanned? ==>
                && handled == Leading(SplitLines(input).segments, ScanLimit(maxFrame))
                && r.err == ScanEnd(SplitLines(input), ScanLimit(maxFrame))
                && writeErrors == 0
      ensures r.WriteFailed? ==>
                && handled < Leading(SplitLines(input).segments, ScanLimit(maxFrame))
                && writeErrors == 1 && !writeOk(|handled|)
    {
      var sc := new FrameScanner(input, maxFrame);
      handled := [];
      var i := 0;
      while true
        invariant fresh(sc) && sc.max == ScanLimit(maxFrame) && sc.err == None
        invariant |handled| == i && Sorted(handled) && writeErrors == 0
        invariant Remains(input, handled, sc.rest, sc.max)
        decreases |sc.rest|
      {
        var more := sc.Scan();
        if !more {
          ScanStops(sc.rest, sc.max);
          return Scanned(sc.err), handled;
        }
        RemainsNext(input, handled, sc.frame, sc.rest, sc.max);
        var ok := Handle(sc.frame, i, writeOk(i), handled);
        if !ok {
          return WriteFailed, handled;
        }
        handled := handled + [sc.frame];
        i := i + 1;
      }
    }
  }

  // How a run ended: the scanner stopped (cleanly when it reports nothing), or a write failed.
  datatype RunEnd = Scanned(err: Option<ScanError>) | WriteFailed

  // After `handled`, the frames and the verdict still to come are those of `rest`.
  ghost predicate Remains(input: Bytes, handled: seq<Bytes>, rest: Bytes, max: nat) {
    && Leading(SplitLines(input).segments, max) == handled + Leading(SplitLines(rest).segments, max)
    && ScanEnd(SplitLines(input), max) == ScanEnd(SplitLines(rest), max)
  }

  lemma RemainsNext(input: Bytes, handled: seq<Bytes>, frame: Bytes, rest: Bytes, max: nat)
    requires NEWLINE !in frame && |frame| < max
    requires Remains(input, handled, frame + [NEWLINE] + rest, max)
    ensures Remains(input, handled + [frame], rest, max)
    ensures handled < Leading(SplitLines(input).segments, max)
  {
    ScanFront(frame, rest, max);
    Seqs.Assoc(handled, [frame], Leading(SplitLines(rest).segments, max));
  }

  lemma ScanFront(frame: Bytes, rest: Bytes, max: nat)
    requires NEWLINE !in frame && |frame| < max
    ensures var s := frame + [NEWLINE] + rest;
            && Leading(SplitLines(s).segments, max) == [frame] + Leading(SplitLines(rest).segments, max)
            && ScanEnd(SplitLines(s), max) == ScanEnd(SplitLines(rest), max)
  {
    var s := frame + [NEWLINE] + rest;
    SplitFront(s, frame, rest);
    assert SplitLines(s).segments[1..] == SplitLines(rest).segments;
  }
}
