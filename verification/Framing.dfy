/** Newline framing, independent of how a stream was read. */
module Framing {
  import opened Basics
  import Seqs

  const NEWLINE: byte := 10

  const DEFAULT_MAX_FRAME_BYTES := 16 * 1024 * 1024

  // A stream as its newline-terminated segments and what follows the last newline.
  datatype Split = Split(segments: seq<Bytes>, tail: Bytes)

  function SplitLines(s: Bytes): Split {
    if s == [] then Split([], [])
    else
      var before := SplitLines(s[..|s| - 1]);
      var last := s[|s| - 1];
      if last == NEWLINE then Split(before.segments + [before.tail], [])
      else Split(before.segments, before.tail + [last])
  }

  // Each segment with its newline restored.
  function Joined(segments: seq<Bytes>): Bytes {
    if segments == [] then []
    else Joined(segments[..|segments| - 1]) + segments[|segments| - 1] + [NEWLINE]
  }

  ghost predicate IsSplit(s: Bytes, sp: Split) {
    && s == Joined(sp.segments) + sp.tail
    && NEWLINE !in sp.tail
    && forall seg :: seg in sp.segments ==> NEWLINE !in seg
  }

  // The segments a limit lets through, in order, and how many it does not.
  function Fitting(segments: seq<Bytes>, max: nat): seq<Bytes> {
    if segments == [] then []
    else
      var front, last := Fitting(segments[..|segments| - 1], max), segments[|segments| - 1];
      if |last| <= max then front + [last] else front
  }

  function Oversize(segments: seq<Bytes>, max: nat): nat {
    if segments == [] then 0
    else Oversize(segments[..|segments| - 1], max) + if |segments[|segments| - 1]| > max then 1 else 0
  }

  lemma FittingSnoc(segments: seq<Bytes>, seg: Bytes, max: nat)
    ensures Fitting(segments + [seg], max) == Fitting(segments, max) + if |seg| <= max then [seg] else []
    ensures Oversize(segments + [seg], max) == Oversize(segments, max) + if |seg| > max then 1 else 0
  {
    assert (segments + [seg])[..|segments|] == segments;
  }

  lemma JoinedSnoc(segments: seq<Bytes>, seg: Bytes)
    ensures Joined(segments + [seg]) == Joined(segments) + seg + [NEWLINE]
  {
    assert (segments + [seg])[..|segments|] == segments;
  }

  lemma {:induction false} JoinedConcat(a: seq<Bytes>, b: seq<Bytes>)
    ensures Joined(a + b) == Joined(a) + Joined(b)
  {
    if b == [] {
      Seqs.Nothing(a);
      Seqs.Nothing(Joined(a));
    } else {
      var front, last := b[..|b| - 1], b[|b| - 1];
      JoinedConcat(a, front);
      Seqs.FrontLast(b);
      Seqs.Assoc(a, front, [last]);
      JoinedSnoc(a + front, last);
      JoinedSnoc(front, last);
      Seqs.Assoc(Joined(a), Joined(front), last);
      Seqs.Assoc(Joined(a), Joined(front) + last, [NEWLINE]);
    }
  }

  // Every kept frame is a segment, every segment is kept or counted.
  lemma {:induction false} FittingPartition(segments: seq<Bytes>, max: nat)
    ensures |Fitting(segments, max)| + Oversize(segments, max) == |segments|
    ensures forall f :: f in Fitting(segments, max) <==> f in segments && |f| <= max
  {
    if segments != [] {
      FittingPartition(segments[..|segments| - 1], max);
      assert segments == segments[..|segments| - 1] + [segments[|segments| - 1]];
    }
  }

  // SplitLines is the split on newlines ...
  lemma {:induction false} SplitLinesIsSplit(s: Bytes)
    ensures IsSplit(s, SplitLines(s))
  {
    if s != [] {
      var front, last := s[..|s| - 1], s[|s| - 1];
      assert s == front + [last];
      SplitLinesIsSplit(front);
      var before := SplitLines(front);
      if last == NEWLINE {
        JoinedSnoc(before.segments, before.tail);
      }
    }
  }

  // ... and the only one.
  lemma {:induction false} SplitUnique(s: Bytes, sp: Split)
    requires IsSplit(s, sp)
    ensures sp == SplitLines(s)
    decreases |s|
  {
    assert sp.segments != [] ==> |Joined(sp.segments)| > 0;
    if s != [] {
      var front, last := s[..|s| - 1], s[|s| - 1];
      if sp.tail != [] {
        var tail := sp.tail[..|sp.tail| - 1];
        assert sp.tail == tail + [last];
        assert front == Joined(sp.segments) + tail;
        SplitUnique(front, Split(sp.segments, tail));
      } else {
        assert sp.segments != [];
        var segs, seg := sp.segments[..|sp.segments| - 1], sp.segments[|sp.segments| - 1];
        assert seg in sp.segments && sp.segments == segs + [seg];
        assert s == Joined(segs) + seg + [NEWLINE];
        assert front == Joined(segs) + seg;
        SplitUnique(front, Split(segs, seg));
      }
    }
  }

  // Extending a stream by a run of bytes without a newline, and by one that ends in one.
  lemma SplitExtend(s: Bytes, run: Bytes)
    requires NEWLINE !in run
    ensures SplitLines(s + run) == Split(SplitLines(s).segments, SplitLines(s).tail + run)
    ensures SplitLines(s + run + [NEWLINE]) == Split(SplitLines(s).segments + [SplitLines(s).tail + run], [])
  {
    SplitLinesIsSplit(s);
    var sp := SplitLines(s);
    Seqs.Assoc(Joined(sp.segments), sp.tail, run);
    SplitUnique(s + run, Split(sp.segments, sp.tail + run));
    Seqs.Snoc(s + run, NEWLINE);
  }

  // The index of the first newline, if any.
  method IndexNewline(data: Bytes) returns (r: Option<nat>)
    ensures r.Some? ==> r.value < |data| && data[r.value] == NEWLINE && NEWLINE !in data[..r.value]
    ensures r.None? ==> NEWLINE !in data
  {
    for i := 0 to |data|
      invariant NEWLINE !in data[..i]
    {
      if data[i] == NEWLINE {
        return Some(i);
      }
      assert data[..i + 1] == data[..i] + [data[i]];
    }
    assert data[..|data|] == data;
    return None;
  }
}
