/**
 Editing a list of lines by position: overwrite the last line of one kind, and replace the last
 line of another kind together with the lines up to the next stop. The kinds are arbitrary.
 */
module LineSplice {
  import Seqs

  type Kind = string -> bool

  // The last line of a kind among lines lo to hi, or -1.
  function LastAt(p: Kind, lines: seq<string>, lo: nat, hi: nat): (k: int)
    requires lo <= hi <= |lines|
    ensures k == -1 || (lo <= k < hi && p(lines[k]))
    ensures forall j :: lo <= j < hi && j > k ==> !p(lines[j])
    decreases hi
  {
    if lo == hi then -1 else if p(lines[hi - 1]) then hi - 1 else LastAt(p, lines, lo, hi - 1)
  }

  function FirstAt(s: Kind, lines: seq<string>, from: nat, hi: nat): (k: nat)
    requires from <= hi <= |lines|
    ensures from <= k <= hi && (k < hi ==> s(lines[k]))
    ensures forall j :: from <= j < k ==> !s(lines[j])
    decreases hi - from
  {
    if from == hi || s(lines[from]) then from else FirstAt(s, lines, from + 1, hi)
  }

  lemma LastIs(p: Kind, lines: seq<string>, k: nat)
    requires k < |lines| && p(lines[k]) && forall j :: k < j < |lines| ==> !p(lines[j])
    ensures LastAt(p, lines, 0, |lines|) == k
  {
  }

  lemma LastNext(p: Kind, lines: seq<string>, lo: nat, j: nat)
    requires lo <= j < |lines|
    ensures LastAt(p, lines, lo, j + 1) == if p(lines[j]) then j else LastAt(p, lines, lo, j)
  {
  }

  lemma FirstIs(s: Kind, lines: seq<string>, from: nat, k: nat)
    requires from <= k <= |lines| && (k == |lines| || s(lines[k])) && forall j :: from <= j < k ==> !s(lines[j])
    ensures FirstAt(s, lines, from, |lines|) == k
  {
  }

  // Searching a stretch of lines is searching them on their own.
  lemma LastWithin(p: Kind, lines: seq<string>, lo: nat, hi: nat)
    requires lo <= hi <= |lines|
    ensures var k := LastAt(p, lines[lo..hi], 0, hi - lo);
            LastAt(p, lines, lo, hi) == if k < 0 then -1 else lo + k
  {
    var part := lines[lo..hi];
    assert forall j :: lo <= j < hi ==> lines[j] == part[j - lo];
    var k := LastAt(p, part, 0, hi - lo);
    if k >= 0 {
      assert p(lines[lo + k]);
    }
  }

  lemma FirstWithin(s: Kind, lines: seq<string>, lo: nat, from: nat, hi: nat)
    requires lo <= from <= hi <= |lines|
    ensures FirstAt(s, lines, from, hi) == lo + FirstAt(s, lines[lo..hi], from - lo, hi - lo)
  {
    var part := lines[lo..hi];
    assert forall j :: lo <= j < hi ==> lines[j] == part[j - lo];
    var k := FirstAt(s, part, from - lo, hi - lo);
    if k < hi - lo {
      assert s(lines[lo + k]);
    }
  }

  // ----- the edit -----

  // c: the line to overwrite; a: the line to replace, with all lines before e.
  datatype Edit = Edit(c: int, a: int, e: int)

  function EditOf(q: Kind, p: Kind, s: Kind, body: seq<string>): (x: Edit)
    ensures -1 <= x.c < |body| && -1 <= x.a < |body|
    ensures x.a >= 0 ==> x.a < x.e <= |body|
  {
    var c, a := LastAt(q, body, 0, |body|), LastAt(p, body, 0, |body|);
    Edit(c, a, if a < 0 then -1 else FirstAt(s, body, a + 1, |body|))
  }

  function Applied(x: Edit, body: seq<string>, line: string, block: seq<string>): seq<string>
    requires -1 <= x.c < |body| && -1 <= x.a < |body| && (x.a >= 0 ==> x.a < x.e <= |body|)
  {
    Replaced(Overwritten(body, x.c, line), x.a, x.e, block)
  }

  function Overwritten(lines: seq<string>, c: int, line: string): (r: seq<string>)
    requires c < |lines|
    ensures |r| == |lines|
  {
    if c < 0 then lines else lines[c := line]
  }

  function Replaced(lines: seq<string>, a: int, e: int, block: seq<string>): seq<string>
    requires a < 0 || a <= e <= |lines|
  {
    if a < 0 then lines else lines[..a] + block + lines[e..]
  }

  // ----- a body around its last line of the second kind -----

  // What precedes a block, the block (a line of the second kind and what was written under it),
  // and what follows.
  datatype Parts = Parts(pre: seq<string>, block: seq<string>, tail: seq<string>)
  {
    function Whole(): seq<string> {
      pre + block + tail
    }
  }

  ghost predicate IsBlock(q: Kind, p: Kind, s: Kind, block: seq<string>) {
    && block != [] && p(block[0]) && !q(block[0])
    && forall i :: 1 <= i < |block| ==> !p(block[i]) && !q(block[i]) && !s(block[i])
  }

  ghost predicate AreParts(q: Kind, p: Kind, s: Kind, x: Parts) {
    IsBlock(q, p, s, x.block) && forall j :: 0 <= j < |x.tail| ==> !p(x.tail[j])
  }

  // The last line of the first kind on either side of the block, or -1.
  function InPre(q: Kind, x: Parts): (k: int)
    ensures -1 <= k < |x.pre|
  {
    LastAt(q, x.pre, 0, |x.pre|)
  }

  function InTail(q: Kind, x: Parts): (k: int)
    ensures -1 <= k < |x.tail|
  {
    LastAt(q, x.tail, 0, |x.tail|)
  }

  // How much of what follows is replaced together with the block.
  function Taken(s: Kind, x: Parts): (t: nat)
    ensures t <= |x.tail|
  {
    FirstAt(s, x.tail, 0, |x.tail|)
  }

  function PartsOf(p: Kind, body: seq<string>): (x: Parts)
    requires LastAt(p, body, 0, |body|) >= 0
    ensures x.Whole() == body
  {
    var a := LastAt(p, body, 0, |body|);
    Parts(body[..a], [body[a]], body[a + 1..])
  }

  lemma PartsOfAre(q: Kind, p: Kind, s: Kind, body: seq<string>)
    requires LastAt(p, body, 0, |body|) >= 0 && !q(body[LastAt(p, body, 0, |body|)])
    ensures AreParts(q, p, s, PartsOf(p, body))
  {
    var a, tail := LastAt(p, body, 0, |body|), PartsOf(p, body).tail;
    assert forall j :: 0 <= j < |tail| ==> tail[j] == body[a + 1 + j];
  }

  // Where the edit of a body in parts is.
  function Sought(q: Kind, s: Kind, x: Parts): Edit {
    var a, b := |x.pre|, |x.pre| + |x.block|;
    Edit(if InTail(q, x) >= 0 then b + InTail(q, x) else InPre(q, x), a, b + Taken(s, x))
  }

  lemma WholeAt(x: Parts, j: nat)
    requires j < |x.Whole()|
    ensures |x.Whole()| == |x.pre| + |x.block| + |x.tail|
    ensures x.Whole()[j] == if j < |x.pre| then x.pre[j]
                            else if j < |x.pre| + |x.block| then x.block[j - |x.pre|]
                            else x.tail[j - |x.pre| - |x.block|]
  {
  }

  lemma SoughtBlock(q: Kind, p: Kind, s: Kind, x: Parts)
    requires AreParts(q, p, s, x)
    ensures LastAt(p, x.Whole(), 0, |x.Whole()|) == |x.pre|
    ensures FirstAt(s, x.Whole(), |x.pre| + 1, |x.Whole()|) == |x.pre| + |x.block| + Taken(s, x)
  {
    var w := x.Whole();
    forall j: nat | |x.pre| < j < |w| ensures !p(w[j]) {
      WholeAt(x, j);
    }
    WholeAt(x, |x.pre|);
    LastIs(p, w, |x.pre|);
    var e := |x.pre| + |x.block| + Taken(s, x);
    forall j: nat | |x.pre| + 1 <= j < e ensures !s(w[j]) {
      WholeAt(x, j);
    }
    if e < |w| {
      WholeAt(x, e);
    }
    FirstIs(s, w, |x.pre| + 1, e);
  }

  lemma SoughtLine(q: Kind, p: Kind, s: Kind, x: Parts)
    requires AreParts(q, p, s, x)
    ensures LastAt(q, x.Whole(), 0, |x.Whole()|) == Sought(q, s, x).c
  {
    var w, c := x.Whole(), Sought(q, s, x).c;
    forall j: nat | c < j < |w| ensures !q(w[j]) {
      WholeAt(x, j);
    }
    if c >= 0 {
      WholeAt(x, c);
      LastIs(q, w, c);
    }
  }

  lemma EditOfParts(q: Kind, p: Kind, s: Kind, x: Parts)
    requires AreParts(q, p, s, x)
    ensures EditOf(q, p, s, x.Whole()) == Sought(q, s, x)
  {
    SoughtBlock(q, p, s, x);
    SoughtLine(q, p, s, x);
  }

  lemma SoughtAt(q: Kind, s: Kind, x: Parts)
    requires Sought(q, s, x).c >= 0
    ensures Sought(q, s, x).c < |x.Whole()|
    ensures x.Whole()[Sought(q, s, x).c] == if InTail(q, x) >= 0 then x.tail[InTail(q, x)] else x.pre[InPre(q, x)]
  {
  }

  // The parts of an edited body.
  function Stepped(q: Kind, s: Kind, x: Parts, line: string, block: seq<string>): Parts {
    if InTail(q, x) >= 0 then Parts(x.pre, block, Overwritten(x.tail, InTail(q, x), line)[Taken(s, x)..])
    else Parts(Overwritten(x.pre, InPre(q, x), line), block, x.tail[Taken(s, x)..])
  }

  lemma OverwrittenFirst(a: seq<string>, b: seq<string>, c: int, line: string)
    requires c < |a|
    ensures Overwritten(a + b, c, line) == Overwritten(a, c, line) + b
  {
  }

  lemma OverwrittenSecond(a: seq<string>, b: seq<string>, c: nat, line: string)
    requires c < |b|
    ensures Overwritten(a + b, |a| + c, line) == a + Overwritten(b, c, line)
  {
  }

  lemma ReplacedMiddle(a: seq<string>, b: seq<string>, c: seq<string>, t: nat, block: seq<string>)
    requires t <= |c|
    ensures Replaced(a + b + c, |a|, |a| + |b| + t, block) == a + block + c[t..]
  {
    Seqs.Assoc(a, b, c);
    Seqs.Prefix(a, b + c);
    assert (a + b + c)[|a| + |b| + t..] == c[t..];
  }

  lemma EditTail(pre: seq<string>, b: seq<string>, tail: seq<string>, c: nat, t: nat, line: string,
                 block: seq<string>)
    requires b != [] && c < |tail| && t <= |tail|
    ensures var a := |pre|;
            Applied(Edit(a + |b| + c, a, a + |b| + t), pre + b + tail, line, block) ==
            pre + block + Overwritten(tail, c, line)[t..]
  {
    OverwrittenSecond(pre + b, tail, c, line);
    ReplacedMiddle(pre, b, Overwritten(tail, c, line), t, block);
  }

  lemma EditPre(pre: seq<string>, b: seq<string>, tail: seq<string>, c: int, t: nat, line: string,
                block: seq<string>)
    requires b != [] && -1 <= c < |pre| && t <= |tail|
    ensures var a := |pre|;
            Applied(Edit(c, a, a + |b| + t), pre + b + tail, line, block) ==
            Overwritten(pre, c, line) + block + tail[t..]
  {
    var over := Overwritten(pre, c, line);
    Seqs.Assoc(pre, b, tail);
    OverwrittenFirst(pre, b + tail, c, line);
    Seqs.Assoc(over, b, tail);
    ReplacedMiddle(over, b, tail, t, block);
  }

  lemma EditParts(x: Parts, y: Edit, inPre: int, inTail: int, t: nat, line: string, block: seq<string>)
    requires x.block != [] && -1 <= inPre < |x.pre| && -1 <= inTail < |x.tail| && t <= |x.tail|
    requires var a, b := |x.pre|, |x.pre| + |x.block|;
             y == Edit(if inTail >= 0 then b + inTail else inPre, a, b + t)
    ensures Applied(y, x.Whole(), line, block) ==
            if inTail >= 0 then x.pre + block + Overwritten(x.tail, inTail, line)[t..]
            else Overwritten(x.pre, inPre, line) + block + x.tail[t..]
  {
    if inTail >= 0 {
      EditTail(x.pre, x.block, x.tail, inTail, t, line, block);
    } else {
      EditPre(x.pre, x.block, x.tail, inPre, t, line, block);
    }
  }

  lemma AppliedParts(q: Kind, p: Kind, s: Kind, x: Parts, line: string, block: seq<string>)
    requires AreParts(q, p, s, x)
    ensures Applied(EditOf(q, p, s, x.Whole()), x.Whole(), line, block) == Stepped(q, s, x, line, block).Whole()
  {
    EditOfParts(q, p, s, x);
    EditParts(x, EditOf(q, p, s, x.Whole()), InPre(q, x), InTail(q, x), Taken(s, x), line, block);
  }

  // What may be written over a line of the first kind.
  predicate IsLine(q: Kind, p: Kind, s: Kind, line: string) {
    q(line) && !p(line) && !s(line)
  }

  lemma SteppedIsParts(q: Kind, p: Kind, s: Kind, x: Parts, line: string, block: seq<string>)
    requires AreParts(q, p, s, x) && IsBlock(q, p, s, block) && (InTail(q, x) >= 0 ==> IsLine(q, p, s, line))
    ensures AreParts(q, p, s, Stepped(q, s, x, line, block))
  {
  }

  // Before the block, the line to overwrite stays where it is.
  lemma SteppedPre(q: Kind, s: Kind, x: Parts, line: string, block: seq<string>)
    requires InPre(q, x) >= 0 ==> q(line)
    ensures InPre(q, Stepped(q, s, x, line, block)) == InPre(q, x)
  {
    var y := Stepped(q, s, x, line, block);
    if InPre(q, x) >= 0 {
      LastIs(q, y.pre, InPre(q, x));
    }
  }

  // After the block it stays unless it was replaced ...
  lemma SteppedTail(q: Kind, p: Kind, s: Kind, x: Parts, line: string, block: seq<string>)
    requires InTail(q, x) >= 0 ==> IsLine(q, p, s, line)
    ensures var y, c, t := Stepped(q, s, x, line, block), InTail(q, x), Taken(s, x);
            InTail(q, y) == (if c >= t then c - t else -1) && (c >= t ==> y.tail[c - t] == line)
  {
    var y, c, t := Stepped(q, s, x, line, block), InTail(q, x), Taken(s, x);
    if c >= t {
      LastIs(q, y.tail, c - t);
    }
  }

  // ... and a second edit replaces none of what follows, unless the line that ended the first
  // has been overwritten.
  lemma SteppedTaken(q: Kind, p: Kind, s: Kind, x: Parts, line: string, block: seq<string>)
    requires InTail(q, x) >= 0 ==> IsLine(q, p, s, line)
    ensures var y, c, t := Stepped(q, s, x, line, block), InTail(q, x), Taken(s, x);
            Taken(s, y) == if c == t then FirstAt(s, x.tail, t + 1, |x.tail|) - t else 0
  {
    var y, c, t := Stepped(q, s, x, line, block), InTail(q, x), Taken(s, x);
    if c == t {
      var e := FirstAt(s, x.tail, t + 1, |x.tail|);
      assert forall j :: 1 <= j < |y.tail| ==> y.tail[j] == x.tail[t + j];
      FirstIs(s, y.tail, 0, e - t);
    } else {
      assert y.tail != [] ==> y.tail[0] == x.tail[t];
      FirstIs(s, y.tail, 0, 0);
    }
  }

  lemma Overwrittens(a: seq<string>, c: int, t: nat, line: string, line': string)
    requires c < |a| && t <= |a| && (c < 0 || c >= t)
    ensures Overwritten(Overwritten(a, c, line)[t..], if c < 0 then -1 else c - t, line') ==
            Overwritten(a, c, line')[t..]
  {
  }

  lemma OverwrittenTwice(a: seq<string>, c: int, line: string, line': string)
    requires c < |a|
    ensures Overwritten(Overwritten(a, c, line), c, line') == Overwritten(a, c, line')
  {
  }

  lemma OverwrittenHead(a: seq<string>, t: nat, e: nat, line: string)
    requires t < e <= |a|
    ensures Overwritten(a, t, line)[t..][..e - t] == [line] + a[t + 1..e]
  {
  }

  // When the overwritten line is neither in the replaced stretch nor what ended it, editing
  // again is as if the first edit had not been.
  lemma SteppedTwice(q: Kind, p: Kind, s: Kind, x: Parts, line: string, block: seq<string>, line': string,
                     block': seq<string>)
    requires InTail(q, x) < 0 || InTail(q, x) > Taken(s, x)
    requires InPre(q, x) >= 0 || InTail(q, x) >= 0 ==> IsLine(q, p, s, line)
    ensures Stepped(q, s, Stepped(q, s, x, line, block), line', block') == Stepped(q, s, x, line', block')
  {
    var y := Stepped(q, s, x, line, block);
    SteppedPre(q, s, x, line, block);
    SteppedTail(q, p, s, x, line, block);
    SteppedTaken(q, p, s, x, line, block);
    Overwrittens(x.tail, InTail(q, x), Taken(s, x), line, line');
  }

  // An edit of a file, seen from line lo.
  function Relative(x: Edit, lo: nat): Edit {
    Edit(if x.c < 0 then -1 else x.c - lo, if x.a < 0 then -1 else x.a - lo, if x.a < 0 then -1 else x.e - lo)
  }

  ghost predicate Inside(x: Edit, lo: nat, hi: nat) {
    && lo <= hi
    && (x.c == -1 || lo <= x.c < hi)
    && (x.a == -1 || lo <= x.a < x.e <= hi)
  }

  lemma SetWithin(lines: seq<string>, lo: nat, hi: nat, c: nat, line: string)
    requires lo <= c < hi <= |lines|
    ensures lines[c := line] == lines[..lo] + lines[lo..hi][c - lo := line] + lines[hi..]
  {
  }

  lemma Parted(lines: seq<string>, lo: nat, hi: nat)
    requires lo <= hi <= |lines|
    ensures lines == lines[..lo] + lines[lo..hi] + lines[hi..]
  {
  }

  lemma ReplacedWithin(w: seq<string>, a: seq<string>, inner: seq<string>, b: seq<string>, x: Edit, block: seq<string>)
    requires w == a + inner + b && Inside(x, |a|, |a| + |inner|)
    ensures Replaced(w, x.a, x.e, block) == a + Replaced(inner, Relative(x, |a|).a, Relative(x, |a|).e, block) + b
  {
    if x.a >= 0 {
      var p, q := x.a - |a|, x.e - |a|;
      assert w[..x.a] == a + inner[..p];
      assert w[x.e..] == inner[q..] + b;
      Regroup(a, inner[..p], block, inner[q..], b);
    }
  }

  lemma Regroup(a: seq<string>, b: seq<string>, c: seq<string>, d: seq<string>, e: seq<string>)
    ensures (a + b) + c + (d + e) == a + (b + c + d) + e
  {
  }

  lemma OverwrittenWithin(lines: seq<string>, lo: nat, hi: nat, c: int, line: string)
    requires lo <= hi <= |lines| && (c == -1 || lo <= c < hi)
    ensures Overwritten(lines, c, line) ==
            lines[..lo] + Overwritten(lines[lo..hi], if c < 0 then -1 else c - lo, line) + lines[hi..]
  {
    if c < 0 {
      Parted(lines, lo, hi);
    } else {
      SetWithin(lines, lo, hi, c, line);
    }
  }

  // Searching the stretch finds the edit that searching the file finds there.
  lemma EditWithin(q: Kind, p: Kind, s: Kind, lines: seq<string>, lo: nat, hi: nat, x: Edit)
    requires lo <= hi <= |lines| && Inside(x, lo, hi)
    requires x.c == LastAt(q, lines, lo, hi) && x.a == LastAt(p, lines, lo, hi)
    requires x.e == if x.a < 0 then -1 else FirstAt(s, lines, x.a + 1, hi)
    ensures EditOf(q, p, s, lines[lo..hi]) == Relative(x, lo)
  {
    LastWithin(q, lines, lo, hi);
    LastWithin(p, lines, lo, hi);
    if x.a >= 0 {
      FirstWithin(s, lines, lo, x.a + 1, hi);
    }
  }

  // The edit of a stretch of lines, made where the stretch stands.
  lemma SpliceWithin(lines: seq<string>, lo: nat, hi: nat, x: Edit, line: string, block: seq<string>)
    requires hi <= |lines| && Inside(x, lo, hi)
    ensures Applied(x, lines, line, block) ==
            lines[..lo] + Applied(Relative(x, lo), lines[lo..hi], line, block) + lines[hi..]
  {
    OverwrittenWithin(lines, lo, hi, x.c, line);
    ReplacedWithin(Overwritten(lines, x.c, line), lines[..lo], Overwritten(lines[lo..hi], Relative(x, lo).c, line),
                   lines[hi..], x, block);
  }

  // An edit brings in nothing that is not of a kind everything else is of.
  lemma AppliedAll(t: Kind, x: Edit, body: seq<string>, line: string, block: seq<string>)
    requires -1 <= x.c < |body| && -1 <= x.a < |body| && (x.a >= 0 ==> x.a < x.e <= |body|)
    requires (forall j :: 0 <= j < |body| ==> t(body[j])) && (x.c >= 0 ==> t(line))
             && forall i :: 0 <= i < |block| ==> t(block[i])
    ensures forall j :: 0 <= j < |Applied(x, body, line, block)| ==> t(Applied(x, body, line, block)[j])
  {
  }

  // ----- gathering what stands under lines of a kind -----

  // What is read under every line of a kind among the first n lines, up to the next stop each.
  function Gathered(p: Kind, s: Kind, read: seq<string> -> seq<string>, body: seq<string>, n: nat): seq<string>
    requires n <= |body|
  {
    if n == 0 then []
    else
      var before := Gathered(p, s, read, body, n - 1);
      if p(body[n - 1]) then before + read(body[n..FirstAt(s, body, n, |body|)]) else before
  }

  lemma {:induction false} GatheredUpTo(p: Kind, s: Kind, read: seq<string> -> seq<string>, body: seq<string>, m: nat,
                                        n: nat)
    requires m <= n <= |body| && forall j :: m <= j < n ==> !p(body[j])
    ensures Gathered(p, s, read, body, n) == Gathered(p, s, read, body, m)
  {
    if n > m {
      GatheredUpTo(p, s, read, body, m, n - 1);
    }
  }

  // Lines that end what is read before them, or of which nothing is read.
  ghost predicate Ends(s: Kind, read: seq<string> -> seq<string>, rest: seq<string>) {
    || rest == [] || s(rest[0])
    || (|rest| == 1 && forall lines :: read(lines + rest) == read(lines))
  }

  lemma ReadEnds(s: Kind, read: seq<string> -> seq<string>, pre: seq<string>, rest: seq<string>, n: nat)
    requires n <= |pre| && Ends(s, read, rest)
    ensures read((pre + rest)[n..FirstAt(s, pre + rest, n, |pre + rest|)]) == read(pre[n..FirstAt(s, pre, n, |pre|)])
  {
    var w, e := pre + rest, FirstAt(s, pre, n, |pre|);
    assert forall j :: 0 <= j < |pre| ==> w[j] == pre[j];
    if e < |pre| || rest == [] || s(rest[0]) {
      assert rest == [] || w[|pre|] == rest[0];
      FirstIs(s, w, n, e);
      assert w[n..e] == pre[n..e];
    } else {
      assert w[|pre|] == rest[0];
      FirstIs(s, w, n, |w|);
      assert w[n..|w|] == pre[n..] + rest;
      assert pre[n..e] == pre[n..];
    }
  }

  lemma {:induction false} GatheredBefore(p: Kind, s: Kind, read: seq<string> -> seq<string>, pre: seq<string>,
                                          rest: seq<string>, n: nat)
    requires n <= |pre| && Ends(s, read, rest)
    ensures Gathered(p, s, read, pre + rest, n) == Gathered(p, s, read, pre, n)
  {
    if n > 0 {
      GatheredBefore(p, s, read, pre, rest, n - 1);
      ReadEnds(s, read, pre, rest, n);
    }
  }

  // Lines that differ in nothing that is looked for gather the same.
  ghost predicate SameKinds(p: Kind, s: Kind, a: seq<string>, b: seq<string>) {
    |a| == |b| && forall j :: 0 <= j < |a| ==> (p(a[j]) <==> p(b[j])) && (s(a[j]) <==> s(b[j]))
  }

  lemma FirstSame(p: Kind, s: Kind, a: seq<string>, b: seq<string>, from: nat)
    requires SameKinds(p, s, a, b) && from <= |a|
    ensures FirstAt(s, a, from, |a|) == FirstAt(s, b, from, |b|)
  {
    FirstIs(s, b, from, FirstAt(s, a, from, |a|));
  }

  lemma {:induction false} GatheredSame(p: Kind, s: Kind, read: seq<string> -> seq<string>, a: seq<string>,
                                        b: seq<string>, n: nat)
    requires SameKinds(p, s, a, b) && n <= |a|
    requires forall lo, hi :: 0 <= lo <= hi <= |a| ==> read(a[lo..hi]) == read(b[lo..hi])
    ensures Gathered(p, s, read, a, n) == Gathered(p, s, read, b, n)
  {
    if n > 0 {
      GatheredSame(p, s, read, a, b, n - 1);
      FirstSame(p, s, a, b, n);
    }
  }

  lemma UnderBlock(x: Parts, t: nat)
    requires x.block != [] && t <= |x.tail|
    ensures x.Whole()[|x.pre| + 1..|x.pre| + |x.block| + t] == x.block[1..] + x.tail[..t]
  {
  }

  // What is gathered from a body in parts.
  lemma GatheredParts(q: Kind, p: Kind, s: Kind, read: seq<string> -> seq<string>, x: Parts)
    requires AreParts(q, p, s, x) && Ends(s, read, x.block + x.tail)
    ensures Gathered(p, s, read, x.Whole(), |x.Whole()|) ==
            Gathered(p, s, read, x.pre, |x.pre|) + read(x.block[1..] + x.tail[..Taken(s, x)])
  {
    var w, a := x.Whole(), |x.pre|;
    SoughtBlock(q, p, s, x);
    GatheredUpTo(p, s, read, w, a + 1, |w|);
    Seqs.Assoc(x.pre, x.block, x.tail);
    GatheredBefore(p, s, read, x.pre, x.block + x.tail, a);
    UnderBlock(x, Taken(s, x));
  }
}
