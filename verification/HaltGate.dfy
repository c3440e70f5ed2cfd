/** The halt gate, and what a forwarder run behind a gate lets through. */
module HaltGate {
  import opened Basics
  import opened Framing
  import Seqs
  import opened Gate
  import Tee

  // The parts of a JSON-RPC message the gate looks at; `id` is its raw text, empty when absent.
  datatype Message = Message(method_: string, id: Bytes)
  {
    predicate IsRequest() {
      method_ != "" && id != []
    }

    predicate IsToolsCall() {
      IsRequest() && method_ == "tools/call"
    }
  }

  datatype HaltState = HaltState(halted: bool, reason: string, manualClearRequired: bool)

  // JSON parsing and the rendering of the refusal are parameters; `cache` is what the gate's
  // own cache holds for the agent when the i-th frame is inspected.
  datatype Config = Config(
    parse: Bytes -> Option<Message>,
    render: (Bytes, string, bool) -> Bytes,
    agentId: string,
    cache: Option<nat -> HaltState>)
  {
    function Decide(i: nat, frame: Bytes): Decision {
      if cache.None? || agentId == "" then ALLOW
      else
        match parse(frame)
        case None => ALLOW
        case Some(msg) =>
          if !msg.IsRequest() || msg.method_ != "tools/call" then ALLOW
          else
            var st := cache.value(i);
            if !st.halted then ALLOW
            else Block(render(msg.id, if st.reason == "" then DEFAULT_REASON else st.reason, st.manualClearRequired))
    }

    function Inspect(): Inspector {
      (i: nat, frame: Bytes) => Some(Decide(i, frame))
    }

    // The gate is configured, its cache says halted, and the frame is a tools/call request.
    predicate MustRefuse(i: nat, frame: Bytes) {
      cache.Some? && agentId != "" && cache.value(i).halted
      && parse(frame).Some? && parse(frame).value.IsToolsCall()
    }
  }

  const DEFAULT_REASON := "WebhookScout cost gate halt"

  // The frames one side gets, as a subsequence of what was handled.
  function Passed(frames: seq<Bytes>, gate: Option<Inspector>): seq<Bytes> {
    if frames == [] then []
    else
      var n := |frames| - 1;
      Passed(frames[..n], gate) + if DecisionFor(gate, n, frames[n]).forward then [frames[n]] else []
  }

  // Upstream can split what it received back into exactly the forwarded frames.
  lemma {:induction false} UpstreamSplits(frames: seq<Bytes>, gate: Option<Inspector>)
    requires forall f :: f in frames ==> NEWLINE !in f
    ensures SplitLines(Upstream(frames, gate)) == Split(Passed(frames, gate), [])
  {
    if frames != [] {
      var n := |frames| - 1;
      assert frames[n] in frames && forall f :: f in frames[..n] ==> f in frames;
      UpstreamSplits(frames[..n], gate);
      if DecisionFor(gate, n, frames[n]).forward {
        FrameNext(Upstream(frames[..n], gate), frames[n]);
      } else {
        Seqs.Nothing(Upstream(frames[..n], gate));
        Seqs.Nothing(Passed(frames[..n], gate));
      }
    }
  }

  // One frame more on a stream of whole frames.
  lemma FrameNext(before: Bytes, frame: Bytes)
    requires SplitLines(before).tail == [] && NEWLINE !in frame
    ensures SplitLines(before + (frame + [NEWLINE])) == Split(SplitLines(before).segments + [frame], [])
  {
    SplitExtend(before, frame);
    Seqs.Assoc(before, frame, [NEWLINE]);
    Seqs.Nothing(frame);
  }

  // Nothing is dropped: with no gate upstream gets every frame that was scanned.
  lemma {:induction false} UngatedPassesAll(frames: seq<Bytes>)
    ensures Upstream(frames, None) == Joined(frames)
  {
    if frames != [] {
      var n := |frames| - 1;
      UngatedPassesAll(frames[..n]);
    }
  }

  // A gate that allows everything behaves like no gate.
  lemma {:induction false} AllowingGate(frames: seq<Bytes>, gate: Option<Inspector>)
    requires forall i: nat, f :: DecisionFor(gate, i, f) == ALLOW
    ensures Upstream(frames, gate) == Upstream(frames, None) && Replies(frames, gate) == []
            && CapturedFrames(frames, gate) == frames
  {
    if frames != [] {
      var n := |frames| - 1;
      AllowingGate(frames[..n], gate);
      assert frames == frames[..n] + [frames[n]];
    }
  }

  // Forwarding frame by frame is as transparent as the tee (which always delivers the whole
  // stream) for exactly those streams that end in a newline and whose frames are all shorter
  // than the limit.
  lemma TransparentExactlyWhen(s: Bytes, max: nat)
    requires max > 0
    ensures var sp := SplitLines(s);
            Upstream(Leading(sp.segments, max), None) == s
            <==> sp.tail == [] && forall seg :: seg in sp.segments ==> |seg| < max
  {
    var sp := SplitLines(s);
    SplitLinesIsSplit(s);
    var frames := Leading(sp.segments, max);
    UngatedPassesAll(frames);
    LeadingIsPrefix(sp.segments, max);
    if sp.tail == [] && forall seg :: seg in sp.segments ==> |seg| < max {
      LeadingAll(sp.segments, max);
      assert Joined(sp.segments) + [] == Joined(sp.segments);
    }
    if Joined(frames) == s {
      assert forall f :: f in frames ==> NEWLINE !in f;
      assert Joined(frames) + [] == s;
      SplitUnique(s, Split(frames, []));
      assert frames == sp.segments;
      LeadingShort(sp.segments, max);
    }
  }

  lemma {:induction false} LeadingIsPrefix(segments: seq<Bytes>, max: nat)
    ensures Leading(segments, max) <= segments
  {
    if segments != [] && |segments[0]| < max {
      LeadingIsPrefix(segments[1..], max);
    }
  }

  lemma {:induction false} LeadingAll(segments: seq<Bytes>, max: nat)
    requires forall seg :: seg in segments ==> |seg| < max
    ensures Leading(segments, max) == segments
  {
    if segments != [] {
      LeadingAll(segments[1..], max);
    }
  }

  lemma {:induction false} LeadingShort(segments: seq<Bytes>, max: nat)
    ensures forall seg :: seg in Leading(segments, max) ==> |seg| < max
  {
    if segments != [] && |segments[0]| < max {
      LeadingShort(segments[1..], max);
    }
  }

  // The gate refuses exactly the tools/call requests made while its cache says halted, and always
  // with the reply that names the request, the cache's own reason if it has one, and whether the
  // halt must be cleared by hand.
  lemma RefusesExactly(c: Config, i: nat, frame: Bytes)
    ensures !c.Decide(i, frame).forward <==> c.MustRefuse(i, frame)
    ensures c.Decide(i, frame).capture
    ensures c.MustRefuse(i, frame) ==>
              var st := c.cache.value(i);
              && (st.reason != "" ==>
                    c.Decide(i, frame).reply == c.render(c.parse(frame).value.id, st.reason, st.manualClearRequired))
              && (st.reason == "" ==>
                    c.Decide(i, frame).reply ==
                    c.render(c.parse(frame).value.id, "WebhookScout cost gate halt", st.manualClearRequired))
  {
  }

  // Whatever the cache says from one frame to the next, upstream can read back exactly the frames
  // that are not tools/call requests made while it says halted, in order.
  lemma UpstreamGetsExactly(c: Config, frames: seq<Bytes>)
    requires forall f :: f in frames ==> NEWLINE !in f
    ensures SplitLines(Upstream(frames, Some(c.Inspect()))) == Split(NotRefused(c, frames), [])
  {
    UpstreamSplits(frames, Some(c.Inspect()));
    PassedAreNotRefused(c, frames);
  }

  function NotRefused(c: Config, frames: seq<Bytes>): seq<Bytes> {
    if frames == [] then []
    else
      var n := |frames| - 1;
      NotRefused(c, frames[..n]) + if c.MustRefuse(n, frames[n]) then [] else [frames[n]]
  }

  lemma {:induction false} PassedAreNotRefused(c: Config, frames: seq<Bytes>)
    ensures Passed(frames, Some(c.Inspect())) == NotRefused(c, frames)
  {
    if frames != [] {
      var n := |frames| - 1;
      PassedAreNotRefused(c, frames[..n]);
      RefusesExactly(c, n, frames[n]);
    }
  }

  // What the host is told: one reply for each frame that is refused.
  function Refusals(c: Config, frames: seq<Bytes>): seq<Bytes> {
    if frames == [] then []
    else
      var n := |frames| - 1;
      Refusals(c, frames[..n]) + if c.MustRefuse(n, frames[n]) then [c.Decide(n, frames[n]).reply] else []
  }

  // The rendering of a refusal is one line and not empty.
  ghost predicate RendersLines(c: Config) {
    forall id, reason, clear :: NEWLINE !in c.render(id, reason, clear) && c.render(id, reason, clear) != []
  }

  // The host can split what it is sent into exactly those replies, in the order of the requests;
  // frames forwarded and replies together account for every frame.
  lemma {:induction false} HostGetsExactly(c: Config, frames: seq<Bytes>)
    requires RendersLines(c)
    ensures SplitLines(Replies(frames, Some(c.Inspect()))) == Split(Refusals(c, frames), [])
    ensures |Refusals(c, frames)| + |NotRefused(c, frames)| == |frames|
  {
    if frames != [] {
      var n := |frames| - 1;
      HostGetsExactly(c, frames[..n]);
      ReplyNext(c, n, frames[n], Replies(frames[..n], Some(c.Inspect())));
    }
  }

  // One frame more: the reply that goes out, if any.
  lemma ReplyNext(c: Config, n: nat, frame: Bytes, before: Bytes)
    requires RendersLines(c) && SplitLines(before).tail == []
    ensures var d := DecisionFor(Some(c.Inspect()), n, frame);
            SplitLines(before + if !d.forward && d.reply != [] then d.reply + [NEWLINE] else []) ==
            Split(SplitLines(before).segments + (if c.MustRefuse(n, frame) then [c.Decide(n, frame).reply] else []), [])
  {
    RefusesExactly(c, n, frame);
    var reply := c.Decide(n, frame).reply;
    if c.MustRefuse(n, frame) {
      FrameNext(before, reply);
    } else {
      Seqs.Nothing(before);
    }
  }

  // Whatever is refused, capture is offered every frame, and the counter counts those forwarded.
  lemma {:induction false} AllAreCaptured(c: Config, frames: seq<Bytes>)
    ensures CapturedFrames(frames, Some(c.Inspect())) == frames
    ensures Forwards(frames, Some(c.Inspect())) == |NotRefused(c, frames)|
  {
    if frames != [] {
      var n := |frames| - 1;
      AllAreCaptured(c, frames[..n]);
      RefusesExactly(c, n, frames[n]);
      Seqs.FrontLast(frames);
    }
  }

  // A frame that is forwarded is not answered, whatever reply its verdict carries.
  lemma {:induction false} ForwardedAreNotAnswered(frames: seq<Bytes>, gate: Option<Inspector>)
    requires forall i: nat, f :: DecisionFor(gate, i, f).forward
    ensures Replies(frames, gate) == [] && Forwards(frames, gate) == |frames|
    ensures Upstream(frames, gate) == Upstream(frames, None)
  {
    if frames != [] {
      ForwardedAreNotAnswered(frames[..|frames| - 1], gate);
    }
  }

  // A gate that gives no verdict is no gate.
  lemma SilentGate(frames: seq<Bytes>, inspect: Inspector)
    requires forall i: nat, f :: inspect(i, f) == None
    ensures Upstream(frames, Some(inspect)) == Upstream(frames, None) && Replies(frames, Some(inspect)) == []
            && CapturedFrames(frames, Some(inspect)) == frames
  {
    forall i: nat, f ensures DecisionFor(Some(inspect), i, f) == ALLOW {
    }
    AllowingGate(frames, Some(inspect));
  }

  // In particular, while the cache says halted throughout, no frame that upstream can read back
  // is a tools/call request; everything else still gets through, in order.
  lemma HaltedPassesNoToolsCall(c: Config, frames: seq<Bytes>)
    requires c.cache.Some? && c.agentId != "" && forall i: nat :: c.cache.value(i).halted
    requires forall f :: f in frames ==> NEWLINE !in f
    ensures var sp := SplitLines(Upstream(frames, Some(c.Inspect())));
            && sp.tail == []
            && (forall seg :: seg in sp.segments ==> c.parse(seg).None? || !c.parse(seg).value.IsToolsCall())
            && sp.segments == Others(c, frames)
  {
    UpstreamGetsExactly(c, frames);
    HaltedRefusesAll(c, frames);
  }

  lemma {:induction false} HaltedRefusesAll(c: Config, frames: seq<Bytes>)
    requires c.cache.Some? && c.agentId != "" && forall i: nat :: c.cache.value(i).halted
    ensures NotRefused(c, frames) == Others(c, frames)
    ensures forall seg :: seg in Others(c, frames) ==> c.parse(seg).None? || !c.parse(seg).value.IsToolsCall()
  {
    if frames != [] {
      HaltedRefusesAll(c, frames[..|frames| - 1]);
    }
  }

  // The frames that are not tools/call requests.
  function Others(c: Config, frames: seq<Bytes>): seq<Bytes> {
    if frames == [] then []
    else
      var n := |frames| - 1;
      var msg := c.parse(frames[n]);
      Others(c, frames[..n]) + if msg.None? || !msg.value.IsToolsCall() then [frames[n]] else []
  }

  // The tee and the forwarder take the same limit from their configuration; left unset, it is sixteen
  // mebibytes.
  lemma LimitsAgree(limit: int)
    ensures ScanLimit(limit) == Tee.EffectiveMax(limit) == if limit <= 0 then 16_777_216 else limit
  {
  }
}
