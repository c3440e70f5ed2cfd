/** Wrapping and unwrapping MCP servers in a YAML configuration, by index into its lines. */
module YamlPatch {
  import opened Basics
  import opened HostServers
  import opened LineSplice
  import Seqs
  import opened Text
  import opened YamlRestore
  import opened YamlServers

  // A server's header line and the line after its last one.
  datatype Range = Range(name: string, start: nat, end: nat)

  // ----- finding the servers -----

  method FindYamlRoot(lines: seq<string>, key: string) returns (r: nat)
    ensures r == RootAt(key, lines)
  {
    r := 0;
    while r < |lines|
      invariant r <= |lines| && forall j :: 0 <= j < r ==> !IsRoot(key, lines[j])
    {
      var trim := TrimSpace(lines[r]);
      if !("#" <= trim) && trim == key + ":" {
        break;
      }
      r := r + 1;
    }
    FirstIs(Root(key), lines, 0, r);
  }

  // The headers from line i on, with their indices, and where the servers end.
  function Headers(root: nat, lines: seq<string>, i: nat): seq<Range>
    requires i <= |lines|
    decreases |lines| - i
  {
    if i == |lines| || IsClose(root, lines[i]) then []
    else (if IsStart(root, lines[i]) then [Range(NameOf(lines[i]), i, i)] else []) + Headers(root, lines, i + 1)
  }

  function CloseAt(root: nat, lines: seq<string>, i: nat): (k: nat)
    requires i <= |lines|
    ensures i <= k <= |lines|
    decreases |lines| - i
  {
    if i == |lines| || IsClose(root, lines[i]) then i else CloseAt(root, lines, i + 1)
  }

  // Where the sections stand when the first one begins at line `at`.
  function RangesOf(sections: seq<Section>, at: nat): (r: seq<Range>)
    ensures |r| == |sections|
  {
    if sections == [] then []
    else
      var end := at + 1 + |sections[0].body|;
      [Range(NameOf(sections[0].header), at, end)] + RangesOf(sections[1..], end)
  }

  // Each header's end is the next header, the last one's the end of the servers.
  function Closed(headers: seq<Range>, close: nat): seq<Range> {
    seq(|headers|, i requires 0 <= i < |headers| =>
      headers[i].(end := if i + 1 < |headers| then headers[i + 1].start else close))
  }

  lemma ClosedCons(first: Range, rest: seq<Range>, close: nat)
    ensures Closed([first] + rest, close) ==
            [first.(end := if rest != [] then rest[0].start else close)] + Closed(rest, close)
  {
  }

  // The headers found by index, from line `at` on, are the sections of the scan.
  ghost predicate Agree(headers: seq<Range>, close: nat, l: Layout, at: nat) {
    && Closed(headers, close) == RangesOf(l.sections, at + |l.lead|)
    && (if headers == [] then close else headers[0].start) == at + |l.lead|
  }

  lemma AgreeHeader(line: string, i: nat, rest: seq<Range>, close: nat, l: Layout)
    requires Agree(rest, close, l, i + 1)
    ensures Agree([Range(NameOf(line), i, i)] + rest, close,
                  Layout([], [Section(line, l.lead)] + l.sections, l.rest), i)
  {
    ClosedCons(Range(NameOf(line), i, i), rest, close);
    Seqs.Cons(Section(line, l.lead), l.sections);
  }

  lemma AgreeLead(line: string, i: nat, rest: seq<Range>, close: nat, l: Layout)
    requires Agree(rest, close, l, i + 1)
    ensures Agree(rest, close, l.(lead := [line] + l.lead), i)
  {
  }

  lemma ScanAt(root: nat, lines: seq<string>, i: nat)
    requires i < |lines|
    ensures Scan(root, lines[i..]) ==
            if IsClose(root, lines[i]) then Layout([], [], lines[i..])
            else Extended(root, lines[i], Scan(root, lines[i + 1..]))
  {
    assert lines[i..][1..] == lines[i + 1..];
  }

  lemma HeadersAt(root: nat, lines: seq<string>, i: nat)
    requires i < |lines| && !IsClose(root, lines[i])
    ensures Headers(root, lines, i) ==
            if IsStart(root, lines[i]) then [Range(NameOf(lines[i]), i, i)] + Headers(root, lines, i + 1)
            else Headers(root, lines, i + 1)
    ensures CloseAt(root, lines, i) == CloseAt(root, lines, i + 1)
  {
    Seqs.Nothing(Headers(root, lines, i + 1));
  }

  lemma {:induction false} HeadersAgree(root: nat, lines: seq<string>, i: nat)
    requires i <= |lines|
    ensures Agree(Headers(root, lines, i), CloseAt(root, lines, i), Scan(root, lines[i..]), i)
    decreases |lines| - i
  {
    if i < |lines| {
      ScanAt(root, lines, i);
      if !IsClose(root, lines[i]) {
        HeadersAgree(root, lines, i + 1);
        HeadersAt(root, lines, i);
        var rest, close, l := Headers(root, lines, i + 1), CloseAt(root, lines, i + 1), Scan(root, lines[i + 1..]);
        if IsStart(root, lines[i]) {
          AgreeHeader(lines[i], i, rest, close, l);
        } else {
          AgreeLead(lines[i], i, rest, close, l);
        }
      }
    }
  }

  lemma RangesAgree(key: string, lines: seq<string>)
    requires RootAt(key, lines) < |lines|
    ensures var root, from := RootIndent(key, lines), RootAt(key, lines) + 1;
            Agree(Headers(root, lines, from), CloseAt(root, lines, from), LayoutAt(key, lines), from)
  {
    var root, from := RootIndent(key, lines), RootAt(key, lines) + 1;
    HeadersAgree(root, lines, from);
    assert LayoutAt(key, lines) == Scan(root, lines[from..]);
  }

  // Everything before the first server.
  function Before(key: string, lines: seq<string>): seq<string> {
    var r := RootAt(key, lines);
    if r < |lines| then lines[..r + 1] + LayoutAt(key, lines).lead else []
  }

  // The lines are the parts of the layout after `pre`, and the ranges are where its servers stand.
  ghost predicate Covers(lines: seq<string>, ranges: seq<Range>, pre: seq<string>, l: Layout) {
    lines == pre + Flat(l.sections) + l.rest && ranges == RangesOf(l.sections, |pre|)
  }

  lemma FileParts(key: string, lines: seq<string>)
    requires RootAt(key, lines) < |lines|
    ensures var l := LayoutAt(key, lines);
            lines == Before(key, lines) + Flat(l.sections) + l.rest
  {
    var r, l := RootAt(key, lines), LayoutAt(key, lines);
    ScanParts(RootIndent(key, lines), lines[r + 1..]);
    Seqs.Halves(lines, r + 1);
    Seqs.Assoc(lines[..r + 1], l.lead, Flat(l.sections));
    Seqs.Assoc(lines[..r + 1], l.lead + Flat(l.sections), l.rest);
  }

  lemma RangesCover(key: string, lines: seq<string>)
    requires RootAt(key, lines) < |lines|
    ensures var root, from := RootIndent(key, lines), RootAt(key, lines) + 1;
            Covers(lines, Closed(Headers(root, lines, from), CloseAt(root, lines, from)), Before(key, lines),
                   LayoutAt(key, lines))
  {
    FileParts(key, lines);
    RangesAgree(key, lines);
    BeforeLength(key, lines);
    var root, from := RootIndent(key, lines), RootAt(key, lines) + 1;
    AgreeCovers(lines, Headers(root, lines, from), CloseAt(root, lines, from), from, Before(key, lines),
                LayoutAt(key, lines));
  }

  lemma AgreeCovers(lines: seq<string>, headers: seq<Range>, close: nat, from: nat, pre: seq<string>, l: Layout)
    requires Agree(headers, close, l, from) && |pre| == from + |l.lead| && lines == pre + Flat(l.sections) + l.rest
    ensures Covers(lines, Closed(headers, close), pre, l)
  {
  }

  lemma BeforeLength(key: string, lines: seq<string>)
    requires RootAt(key, lines) < |lines|
    ensures |Before(key, lines)| == RootAt(key, lines) + 1 + |LayoutAt(key, lines).lead|
  {
  }

  // Where the servers stand, and the indentation of the key they are under.
  method YamlServerRanges(lines: seq<string>, key: string) returns (r: Result<(seq<Range>, nat), YamlError>)
    ensures r.Ok? <==> RootAt(key, lines) < |lines|
    ensures r.Ok? ==>
              r.value.1 == RootIndent(key, lines) && Covers(lines, r.value.0, Before(key, lines), LayoutAt(key, lines))
    ensures r.Err? ==> r.error == KeyAbsent
  {
    var rootIdx := FindYamlRoot(lines, key);
    if rootIdx == |lines| {
      return Err(KeyAbsent);
    }
    var root := Indent(lines[rootIdx]);
    var starts, closeIdx := FindHeaders(root, lines, rootIdx + 1);
    var ranges := CloseRanges(starts, closeIdx);
    RangesCover(key, lines);
    return Ok((ranges, root));
  }

  method CloseRanges(starts: seq<Range>, closeIdx: nat) returns (ranges: seq<Range>)
    ensures ranges == Closed(starts, closeIdx)
  {
    ranges := starts;
    for i := 0 to |starts|
      invariant |ranges| == |starts|
      invariant forall j :: 0 <= j < |starts| ==> ranges[j] == if j < i then Closed(starts, closeIdx)[j] else starts[j]
    {
      ranges := ranges[i := ranges[i].(end := if i + 1 < |starts| then starts[i + 1].start else closeIdx)];
    }
  }

  // The headers up to line i, as a prefix of all.
  ghost predicate Collected(root: nat, lines: seq<string>, from: nat, i: nat, starts: seq<Range>) {
    && from <= i <= |lines|
    && starts + Headers(root, lines, i) == Headers(root, lines, from)
    && CloseAt(root, lines, i) == CloseAt(root, lines, from)
  }

  lemma CollectedNext(root: nat, lines: seq<string>, from: nat, i: nat, starts: seq<Range>)
    requires Collected(root, lines, from, i, starts) && i < |lines| && !IsClose(root, lines[i])
    ensures Collected(root, lines, from, i + 1,
                      if IsStart(root, lines[i]) then starts + [Range(NameOf(lines[i]), i, i)] else starts)
  {
    HeadersAt(root, lines, i);
    if IsStart(root, lines[i]) {
      Seqs.Assoc(starts, [Range(NameOf(lines[i]), i, i)], Headers(root, lines, i + 1));
    }
  }

  method FindHeaders(root: nat, lines: seq<string>, from: nat) returns (starts: seq<Range>, closeIdx: nat)
    requires from <= |lines|
    ensures starts == Headers(root, lines, from) && closeIdx == CloseAt(root, lines, from)
  {
    starts, closeIdx := [], from;
    Seqs.Nothing(Headers(root, lines, from));
    while closeIdx < |lines| && !IsClose(root, lines[closeIdx])
      invariant Collected(root, lines, from, closeIdx, starts)
    {
      CollectedNext(root, lines, from, closeIdx, starts);
      if IsStart(root, lines[closeIdx]) {
        starts := starts + [Range(NameOf(lines[closeIdx]), closeIdx, closeIdx)];
      }
      closeIdx := closeIdx + 1;
    }
    Seqs.Nothing(starts);
  }

  // ----- the fields of a server -----

  method NextYamlField(root: nat, lines: seq<string>, start: nat, end: nat) returns (i: nat)
    requires start <= end <= |lines|
    ensures i == FirstAt(Stop(root), lines, start, end)
  {
    i := start;
    while i < end
      invariant start <= i <= end && FirstAt(Stop(root), lines, start, end) == FirstAt(Stop(root), lines, i, end)
    {
      if IsStop(root, lines[i]) {
        return;
      }
      i := i + 1;
    }
  }

  // What is known of the fields after line j: the last of each kind, and where the arguments end.
  ghost predicate Found(root: nat, lines: seq<string>, lo: nat, j: nat, hi: nat, cmdIdx: int, argsIdx: int,
                        argsEnd: int) {
    && lo <= j <= hi <= |lines|
    && cmdIdx == LastAt(Field(root, Command), lines, lo, j)
    && argsIdx == LastAt(Field(root, Args), lines, lo, j)
    && argsEnd == if argsIdx < 0 then -1 else FirstAt(Stop(root), lines, argsIdx + 1, hi)
  }

  lemma FoundNext(root: nat, lines: seq<string>, lo: nat, j: nat, hi: nat, cmdIdx: int, argsIdx: int, argsEnd: int)
    requires Found(root, lines, lo, j, hi, cmdIdx, argsIdx, argsEnd) && j < hi
    ensures Found(root, lines, lo, j + 1, hi,
                  if IsField(root, Command, lines[j]) then j else cmdIdx,
                  if IsField(root, Args, lines[j]) then j else argsIdx,
                  if IsField(root, Args, lines[j]) then FirstAt(Stop(root), lines, j + 1, hi) else argsEnd)
  {
    LastNext(Field(root, Command), lines, lo, j);
    LastNext(Field(root, Args), lines, lo, j);
  }

  // The last command and args lines after the header, and where the arguments end.
  method FindFields(root: nat, lines: seq<string>, r: Range) returns (cmdIdx: int, argsIdx: int, argsEnd: int)
    requires r.start < r.end <= |lines|
    ensures Found(root, lines, r.start + 1, r.end, r.end, cmdIdx, argsIdx, argsEnd)
  {
    cmdIdx, argsIdx, argsEnd := -1, -1, -1;
    for j := r.start + 1 to r.end
      invariant Found(root, lines, r.start + 1, j, r.end, cmdIdx, argsIdx, argsEnd)
    {
      FoundNext(root, lines, r.start + 1, j, r.end, cmdIdx, argsIdx, argsEnd);
      if IsField(root, Command, lines[j]) {
        cmdIdx := j;
      }
      if IsField(root, Args, lines[j]) {
        argsIdx := j;
        argsEnd := NextYamlField(root, lines, j + 1, r.end);
      }
    }
  }

  // ----- writing one server -----

  // What was found by index in the file is where the fields of the server's body are.
  lemma FoundInBody(root: nat, lines: seq<string>, lo: nat, hi: nat, cmdIdx: int, argsIdx: int, argsEnd: int)
    requires Found(root, lines, lo, hi, hi, cmdIdx, argsIdx, argsEnd)
    ensures Inside(Edit(cmdIdx, argsIdx, argsEnd), lo, hi)
    ensures FieldsOf(root, lines[lo..hi]) == Relative(Edit(cmdIdx, argsIdx, argsEnd), lo)
  {
    EditWithin(Field(root, Command), Field(root, Args), Stop(root), lines, lo, hi, Edit(cmdIdx, argsIdx, argsEnd));
  }

  method ArgsReplacement(root: nat, codec: Codec, args: seq<string>, old_: string) returns (repl: seq<string>)
    ensures repl == ArgsLines(root, codec, args, old_)
  {
    repl := [ArgsHead(root, old_)];
    for i := 0 to |args|
      invariant |repl| == i + 1 && repl[0] == ArgsHead(root, old_)
      invariant forall j :: 0 <= j < i ==> repl[j + 1] == ItemLine(root, codec, args[j], old_)
    {
      repl := repl + [ItemLine(root, codec, args[i], old_)];
    }
  }

  method ReplaceLines(lines: seq<string>, start: nat, end: nat, repl: seq<string>) returns (out: seq<string>)
    requires start <= end <= |lines|
    ensures out == lines[..start] + repl + lines[end..]
  {
    out := lines[..start];
    out := out + repl;
    out := out + lines[end..];
  }

  // Overwrite the fields found for a server, in place.
  method WriteFields(root: nat, codec: Codec, v: Server, lines: seq<string>, cmdIdx: int, argsIdx: int, argsEnd: int)
    returns (out: seq<string>)
    requires Inside(Edit(cmdIdx, argsIdx, argsEnd), 0, |lines|)
    ensures out ==
            Applied(Edit(cmdIdx, argsIdx, argsEnd), lines, LineFor(root, codec, v, lines, cmdIdx),
                    BlockFor(root, codec, v, lines, argsIdx))
  {
    out := lines;
    if cmdIdx >= 0 {
      out := out[cmdIdx := CommandLine(root, codec, v.command, out[cmdIdx])];
    }
    if argsIdx >= 0 {
      var repl := ArgsReplacement(root, codec, v.args, lines[argsIdx]);
      out := ReplaceLines(out, argsIdx, argsEnd, repl);
    }
  }

  // The fields of one server; the lines outside it are untouched.
  lemma WrittenServer(root: nat, codec: Codec, v: Server, lines: seq<string>, lo: nat, hi: nat, cmdIdx: int,
                      argsIdx: int, argsEnd: int)
    requires Found(root, lines, lo, hi, hi, cmdIdx, argsIdx, argsEnd)
    ensures Applied(Edit(cmdIdx, argsIdx, argsEnd), lines, LineFor(root, codec, v, lines, cmdIdx),
                    BlockFor(root, codec, v, lines, argsIdx)) ==
            lines[..lo] + Rewritten(root, codec, v, lines[lo..hi]) + lines[hi..]
  {
    FoundInBody(root, lines, lo, hi, cmdIdx, argsIdx, argsEnd);
    SpliceWithin(lines, lo, hi, Edit(cmdIdx, argsIdx, argsEnd), LineFor(root, codec, v, lines, cmdIdx),
                 BlockFor(root, codec, v, lines, argsIdx));
    PiecesWithin(root, codec, v, lines, lo, hi, Edit(cmdIdx, argsIdx, argsEnd));
  }

  lemma PiecesWithin(root: nat, codec: Codec, v: Server, lines: seq<string>, lo: nat, hi: nat, x: Edit)
    requires hi <= |lines| && Inside(x, lo, hi)
    ensures LineFor(root, codec, v, lines[lo..hi], Relative(x, lo).c) == LineFor(root, codec, v, lines, x.c)
    ensures BlockFor(root, codec, v, lines[lo..hi], Relative(x, lo).a) == BlockFor(root, codec, v, lines, x.a)
  {
    assert x.c >= 0 ==> lines[lo..hi][x.c - lo] == lines[x.c];
    assert x.a >= 0 ==> lines[lo..hi][x.a - lo] == lines[x.a];
  }

  // ----- one server of a file -----

  lemma TakeCons(sections: seq<Section>, i: nat)
    requires 0 < i <= |sections|
    ensures sections[..i] == [sections[0]] + sections[1..][..i - 1]
  {
  }

  lemma {:induction false} RangeAt(sections: seq<Section>, at: nat, i: nat)
    requires i < |sections|
    ensures var start := at + |Flat(sections[..i])|;
            RangesOf(sections, at)[i] == Range(NameOf(sections[i].header), start, start + 1 + |sections[i].body|)
    decreases i
  {
    if i > 0 {
      var first, rest := sections[0], sections[1..];
      RangeAt(rest, at + 1 + |first.body|, i - 1);
      TakeCons(sections, i);
      FlatCons(first, rest[..i - 1]);
    }
  }

  // The lines up to the k-th server, and those from it on.
  function UpTo(pre: seq<string>, sections: seq<Section>, k: nat): seq<string>
    requires k <= |sections|
  {
    pre + Flat(sections[..k])
  }

  function FromOn(sections: seq<Section>, rest: seq<string>, k: nat): seq<string>
    requires k <= |sections|
  {
    Flat(sections[k..]) + rest
  }

  lemma UpToNext(pre: seq<string>, sections: seq<Section>, i: nat)
    requires i < |sections|
    ensures UpTo(pre, sections, i + 1) == UpTo(pre, sections, i) + ([sections[i].header] + sections[i].body)
  {
    assert sections[..i + 1][..i] == sections[..i];
    Seqs.Assoc(pre, Flat(sections[..i]), [sections[i].header] + sections[i].body);
  }

  lemma FromOnNext(sections: seq<Section>, rest: seq<string>, i: nat)
    requires i < |sections|
    ensures FromOn(sections, rest, i) == [sections[i].header] + sections[i].body + FromOn(sections, rest, i + 1)
  {
    assert sections[i..] == [sections[i]] + sections[i + 1..];
    FlatCons(sections[i], sections[i + 1..]);
    Seqs.Assoc([sections[i].header] + sections[i].body, Flat(sections[i + 1..]), rest);
  }

  // The range computed for the i-th server is where it stands as long as no line before it has
  // changed: the loops run backwards.
  lemma RangeIs(pre: seq<string>, sections: seq<Section>, i: nat)
    requires i < |sections|
    ensures var start := |UpTo(pre, sections, i)|;
            RangesOf(sections, |pre|)[i] == Range(NameOf(sections[i].header), start, start + 1 + |sections[i].body|)
  {
    RangeAt(sections, |pre|, i);
  }

  // A server's body between the lines before and after it.
  lemma BodyBetween(a: seq<string>, h: string, body: seq<string>, b: seq<string>, new_: seq<string>)
    ensures var cur := a + ([h] + body) + b;
            var lo, hi := |a| + 1, |a| + 1 + |body|;
            && hi <= |cur| && cur[lo..hi] == body
            && cur[..lo] + new_ + cur[hi..] == a + ([h] + new_ + b)
  {
    var cur := a + ([h] + body) + b;
    assert cur[..|a| + 1] == a + [h];
    assert cur[|a| + 1 + |body|..] == b;
    assert (a + [h]) + new_ + b == a + ([h] + new_ + b);
  }

  // ----- reading all servers -----

  method ReadItems(codec: Codec, lines: seq<string>, from: nat, to: nat) returns (items: seq<string>)
    requires from <= to <= |lines|
    ensures items == Items(codec, lines[from..to])
  {
    items := [];
    for k := from to to
      invariant items == Items(codec, lines[from..k])
    {
      ItemsNext(codec, lines, from, k);
      var tr := TrimSpace(lines[k]);
      if "- " <= tr {
        items := items + [ParseScalar(codec, TrimSpace(tr[2..]))];
      }
    }
  }

  lemma TakeMore(lines: seq<string>, from: nat, k: nat)
    requires from <= k < |lines|
    ensures var more := lines[from..k + 1];
            more[..|more| - 1] == lines[from..k] && more[|more| - 1] == lines[k]
  {
  }

  lemma ItemsNext(codec: Codec, lines: seq<string>, from: nat, k: nat)
    requires from <= k < |lines|
    ensures var before, tr := Items(codec, lines[from..k]), TrimSpace(lines[k]);
            Items(codec, lines[from..k + 1]) == if "- " <= tr then before + [ParseScalar(codec, TrimSpace(tr[2..]))]
            else before
  {
    TakeMore(lines, from, k);
  }

  function CommandAt(codec: Codec, body: seq<string>, c: int): string
    requires c < |body|
  {
    if c < 0 then "" else CommandOn(codec, body[c])
  }

  // What the first j lines of a body load as.
  ghost predicate Reading(root: nat, codec: Codec, body: seq<string>, j: nat, entry: Server) {
    && j <= |body|
    && entry.command == CommandAt(codec, body, LastAt(Field(root, Command), body, 0, j))
    && entry.args == Gathered(Field(root, Args), Stop(root), Reader(codec), body, j)
  }

  lemma ReadingNext(root: nat, codec: Codec, body: seq<string>, j: nat, entry: Server, items: seq<string>)
    requires Reading(root, codec, body, j, entry) && j < |body|
    requires IsField(root, Args, body[j]) ==>
               items == Items(codec, body[j + 1..FirstAt(Stop(root), body, j + 1, |body|)])
    ensures Reading(root, codec, body, j + 1,
                    Server(if IsField(root, Command, body[j]) then CommandOn(codec, body[j]) else entry.command,
                           if IsField(root, Args, body[j]) then entry.args + items else entry.args))
  {
    LastNext(Field(root, Command), body, 0, j);
  }

  // One line of a server.
  method ReadLine(root: nat, codec: Codec, body: seq<string>, j: nat, entry: Server) returns (entry': Server)
    requires j < |body| && Reading(root, codec, body, j, entry)
    ensures Reading(root, codec, body, j + 1, entry')
  {
    var items := [];
    if IsField(root, Args, body[j]) {
      var argsEnd := NextYamlField(root, body, j + 1, |body|);
      items := ReadItems(codec, body, j + 1, argsEnd);
    }
    ReadingNext(root, codec, body, j, entry, items);
    entry' := Server(if IsField(root, Command, body[j]) then CommandOn(codec, body[j]) else entry.command,
                     if IsField(root, Args, body[j]) then entry.args + items else entry.args);
  }

  method ReadServer(root: nat, codec: Codec, body: seq<string>) returns (entry: Server)
    ensures entry == Loaded(root, codec, body)
  {
    entry := Server("", []);
    for j := 0 to |body|
      invariant Reading(root, codec, body, j, entry)
    {
      entry := ReadLine(root, codec, body, j, entry);
    }
  }

  // ----- the file around its servers -----

  lemma RewrittenParts(key: string, codec: Codec, values: Servers, lines: seq<string>)
    requires RootAt(key, lines) < |lines|
    ensures RewrittenFile(key, codec, values, lines) ==
            Before(key, lines) + Flat(RewrittenLayout(key, codec, values, lines).sections) + LayoutAt(key, lines).rest
  {
    var r, l := RootAt(key, lines), RewrittenLayout(key, codec, values, lines);
    Seqs.Assoc(lines[..r + 1], l.lead, Flat(l.sections));
    Seqs.Assoc(lines[..r + 1], l.lead + Flat(l.sections), l.rest);
  }

  // ----- the loops over the servers, last one first -----

  method LoadYamlServers(key: string, codec: Codec, lines: seq<string>) returns (r: Result<Servers, YamlError>)
    ensures r == Load(key, codec, lines)
  {
    var found := YamlServerRanges(lines, key);
    if found.Err? {
      return Err(found.error);
    }
    var (ranges, root) := found.value;
    var servers := LoadRanges(root, codec, lines, ranges, Before(key, lines), LayoutAt(key, lines));
    return if |ranges| == 0 then Err(KeyAbsent) else Ok(servers);
  }

  method LoadRanges(root: nat, codec: Codec, lines: seq<string>, ranges: seq<Range>, ghost pre: seq<string>,
                    ghost l: Layout)
    returns (servers: Servers)
    requires Covers(lines, ranges, pre, l)
    ensures servers == LoadedAll(root, codec, l.sections)
  {
    servers := map[];
    for i := 0 to |ranges|
      invariant servers == LoadedAll(root, codec, l.sections[..i])
    {
      ServerAt(lines, ranges, pre, l, i);
      servers := LoadNth(root, codec, lines, ranges[i], servers, l.sections, i);
    }
    assert l.sections[..|ranges|] == l.sections;
  }

  // One step of the loop.
  method LoadNth(root: nat, codec: Codec, lines: seq<string>, r: Range, servers: Servers,
                 ghost sections: seq<Section>, ghost i: nat)
    returns (servers': Servers)
    requires i < |sections| && Stands(lines, r, sections[i]) && servers == LoadedAll(root, codec, sections[..i])
    ensures servers' == LoadedAll(root, codec, sections[..i + 1])
  {
    LoadedAllSnoc(root, codec, sections, i);
    var entry := ReadServer(root, codec, lines[r.start + 1..r.end]);
    servers' := servers[r.name := entry];
  }

  // A server is where its range says.
  ghost predicate Stands(lines: seq<string>, r: Range, s: Section) {
    && r.name == NameOf(s.header)
    && r.start < r.end <= |lines| && lines[r.start + 1..r.end] == s.body
  }

  lemma StandsBetween(a: seq<string>, s: Section, b: seq<string>)
    ensures Stands(a + ([s.header] + s.body) + b, Range(NameOf(s.header), |a|, |a| + 1 + |s.body|), s)
  {
    BodyBetween(a, s.header, s.body, b, []);
  }

  // Where the i-th server stands in the file as it was.
  lemma ServerAt(lines: seq<string>, ranges: seq<Range>, pre: seq<string>, l: Layout, i: nat)
    requires Covers(lines, ranges, pre, l) && i < |l.sections|
    ensures Stands(lines, ranges[i], l.sections[i])
  {
    var s := l.sections[i];
    RangeIs(pre, l.sections, i);
    WholeFile(pre, l, i);
    StandsBetween(UpTo(pre, l.sections, i), s, FromOn(l.sections, l.rest, i + 1));
  }

  // The file around its i-th server.
  lemma WholeFile(pre: seq<string>, l: Layout, i: nat)
    requires i < |l.sections|
    ensures var s := l.sections[i];
            pre + Flat(l.sections) + l.rest ==
            UpTo(pre, l.sections, i) + ([s.header] + s.body) + FromOn(l.sections, l.rest, i + 1)
  {
    var s := l.sections[i];
    Seqs.Halves(l.sections, i);
    FlatConcat(l.sections[..i], l.sections[i..]);
    Seqs.Assoc(pre, Flat(l.sections[..i]), Flat(l.sections[i..]));
    Seqs.Assoc(UpTo(pre, l.sections, i), Flat(l.sections[i..]), l.rest);
    FromOnNext(l.sections, l.rest, i);
    Seqs.Assoc(UpTo(pre, l.sections, i), [s.header] + s.body, FromOn(l.sections, l.rest, i + 1));
  }

  // Write into one server, given by its range, whatever fields it has.
  method WriteServer(root: nat, codec: Codec, v: Server, cur: seq<string>, r: Range, cmdIdx: int, argsIdx: int,
                     argsEnd: int,
                     ghost a: seq<string>, ghost h: string, ghost body: seq<string>, ghost b: seq<string>)
    returns (out: seq<string>)
    requires cur == a + ([h] + body) + b && r.start == |a| && r.end == |a| + 1 + |body|
    requires Found(root, cur, r.start + 1, r.end, r.end, cmdIdx, argsIdx, argsEnd)
    ensures out == a + ([h] + Rewritten(root, codec, v, body) + b)
  {
    BodyBetween(a, h, body, b, Rewritten(root, codec, v, body));
    FoundInBody(root, cur, r.start + 1, r.end, cmdIdx, argsIdx, argsEnd);
    WrittenServer(root, codec, v, cur, r.start + 1, r.end, cmdIdx, argsIdx, argsEnd);
    out := WriteFields(root, codec, v, cur, cmdIdx, argsIdx, argsEnd);
  }

  // What the loops keep: servers before the i-th are as they were, the others are written.
  ghost predicate WrittenFrom(pre: seq<string>, sections: seq<Section>, rw: seq<Section>, rest: seq<string>, i: nat,
                              cur: seq<string>) {
    i <= |sections| == |rw| && cur == UpTo(pre, sections, i) + FromOn(rw, rest, i)
  }

  lemma NextToWrite(pre: seq<string>, sections: seq<Section>, rw: seq<Section>, rest: seq<string>, i: nat,
                    cur: seq<string>)
    requires i < |sections| && WrittenFrom(pre, sections, rw, rest, i + 1, cur)
    ensures var s := sections[i];
            cur == UpTo(pre, sections, i) + ([s.header] + s.body) + FromOn(rw, rest, i + 1)
  {
    UpToNext(pre, sections, i);
  }

  lemma NextWritten(pre: seq<string>, sections: seq<Section>, rw: seq<Section>, rest: seq<string>, i: nat,
                    cur: seq<string>)
    requires i < |sections| == |rw| && rw[i].header == sections[i].header
    requires cur == UpTo(pre, sections, i) + ([sections[i].header] + rw[i].body + FromOn(rw, rest, i + 1))
    ensures WrittenFrom(pre, sections, rw, rest, i, cur)
  {
    FromOnNext(rw, rest, i);
  }

  lemma NextUnchanged(pre: seq<string>, sections: seq<Section>, rw: seq<Section>, rest: seq<string>, i: nat,
                      cur: seq<string>)
    requires i < |sections| && WrittenFrom(pre, sections, rw, rest, i + 1, cur) && rw[i] == sections[i]
    ensures WrittenFrom(pre, sections, rw, rest, i, cur)
  {
    NextToWrite(pre, sections, rw, rest, i, cur);
    Seqs.Assoc(UpTo(pre, sections, i), [sections[i].header] + sections[i].body, FromOn(rw, rest, i + 1));
    NextWritten(pre, sections, rw, rest, i, cur);
  }

  lemma NothingWritten(pre: seq<string>, sections: seq<Section>, rw: seq<Section>, rest: seq<string>)
    requires |rw| == |sections|
    ensures WrittenFrom(pre, sections, rw, rest, |rw|, pre + Flat(sections) + rest)
  {
    assert sections[..|rw|] == sections && rw[|rw|..] == [];
    Seqs.Nothing(rest);
  }

  lemma AllWritten(pre: seq<string>, sections: seq<Section>, rw: seq<Section>, rest: seq<string>, cur: seq<string>)
    requires WrittenFrom(pre, sections, rw, rest, 0, cur)
    ensures cur == pre + Flat(rw) + rest
  {
    assert sections[..0] == [] && rw[0..] == rw;
    Seqs.Nothing(pre);
    Seqs.Assoc(pre, Flat(rw), rest);
  }

  // ----- patch -----

  function NamesFrom(sections: seq<Section>, k: nat): set<string>
    requires k <= |sections|
    decreases |sections| - k
  {
    if k == |sections| then {} else NamesFrom(sections, k + 1) + {NameOf(sections[k].header)}
  }

  // Every server loaded has a section, and every section a server.
  lemma {:induction false} LoadedNames(root: nat, codec: Codec, sections: seq<Section>)
    ensures LoadedAll(root, codec, sections).Keys == NamesFrom(sections, 0)
  {
    if sections != [] {
      var n := |sections| - 1;
      LoadedNames(root, codec, sections[..n]);
      NamesSnoc(sections, 0);
    }
  }

  lemma {:induction false} NamesSnoc(sections: seq<Section>, k: nat)
    requires k < |sections|
    ensures var n := |sections| - 1;
            NamesFrom(sections, k) == NamesFrom(sections[..n], k) + {NameOf(sections[n].header)}
    decreases |sections| - k
  {
    if k + 1 < |sections| {
      NamesSnoc(sections, k + 1);
    }
  }

  // The servers from the k-th on that are to be rewritten have both fields.
  ghost predicate CompleteFrom(root: nat, values: Servers, sections: seq<Section>, k: nat) {
    forall j :: k <= j < |sections| && NameOf(sections[j].header) in values ==> HasFields(root, sections[j].body)
  }

  // The last server to be rewritten that lacks a field is the one complained about.
  ghost predicate Lacks(root: nat, values: Servers, sections: seq<Section>, error: YamlError) {
    exists i: nat :: i < |sections| && LacksAt(root, values, sections, i, error)
  }

  ghost predicate LacksAt(root: nat, values: Servers, sections: seq<Section>, i: nat, error: YamlError)
    requires i < |sections|
  {
    && NameOf(sections[i].header) in values && !HasFields(root, sections[i].body)
    && CompleteFrom(root, values, sections, i + 1)
    && error == MissingSetting(NameOf(sections[i].header))
  }

  lemma LacksIncomplete(root: nat, values: Servers, sections: seq<Section>, error: YamlError)
    requires Lacks(root, values, sections, error)
    ensures !CompleteFrom(root, values, sections, 0)
  {
  }

  // One server: skipped when it is not selected, refused when it lacks a field, else wrapped.
  method PatchServer(root: nat, codec: Codec, exe: string, parsed: Servers, want: set<string>, cur: seq<string>,
                     r: Range, markers: Servers,
                     ghost pre: seq<string>, ghost sections: seq<Section>, ghost rest: seq<string>, ghost i: nat)
    returns (res: Result<seq<string>, YamlError>, markers': Servers)
    requires i < |sections| && r == RangesOf(sections, |pre|)[i]
    requires WrittenFrom(pre, sections, RewrittenAll(root, codec, Proxied(Originals(parsed, want), exe), sections),
                         rest, i + 1, cur)
    ensures res.Ok? <==> !Selected(parsed, want, r.name) || HasFields(root, sections[i].body)
    ensures res.Ok? ==>
              WrittenFrom(pre, sections, RewrittenAll(root, codec, Proxied(Originals(parsed, want), exe), sections),
                          rest, i, res.value)
    ensures markers' == if Selected(parsed, want, r.name) then markers[r.name := parsed[r.name]] else markers
    ensures res.Err? ==> res.error == MissingSetting(r.name)
  {
    ghost var values := Proxied(Originals(parsed, want), exe);
    ghost var rw := RewrittenAll(root, codec, values, sections);
    RangeIs(pre, sections, i);
    markers' := markers;
    if !Selected(parsed, want, r.name) {
      NextUnchanged(pre, sections, rw, rest, i, cur);
      res := Ok(cur);
      return;
    }
    var entry := parsed[r.name];
    markers' := markers'[r.name := entry];
    var v := Server(exe, ["proxy", "--server-name", r.name, "--", entry.command] + entry.args);
    res := WrapServer(root, codec, v, values, cur, r, pre, sections, rest, i);
  }

  lemma NthStands(pre: seq<string>, sections: seq<Section>, rw: seq<Section>, rest: seq<string>, i: nat,
                  cur: seq<string>)
    requires i < |sections| && WrittenFrom(pre, sections, rw, rest, i + 1, cur)
    ensures Stands(cur, RangesOf(sections, |pre|)[i], sections[i])
  {
    var s := sections[i];
    RangeIs(pre, sections, i);
    NextToWrite(pre, sections, rw, rest, i, cur);
    StandsBetween(UpTo(pre, sections, i), s, FromOn(rw, rest, i + 1));
  }

  lemma FoundBoth(root: nat, lines: seq<string>, r: Range, s: Section, cmdIdx: int, argsIdx: int, argsEnd: int)
    requires Stands(lines, r, s) && Found(root, lines, r.start + 1, r.end, r.end, cmdIdx, argsIdx, argsEnd)
    ensures HasFields(root, s.body) <==> cmdIdx != -1 && argsIdx != -1
  {
    FoundInBody(root, lines, r.start + 1, r.end, cmdIdx, argsIdx, argsEnd);
    assert FieldsOf(root, s.body) == Relative(Edit(cmdIdx, argsIdx, argsEnd), r.start + 1);
  }

  // Find the fields of the i-th server when those after it have been written.
  method FindNth(root: nat, cur: seq<string>, r: Range, ghost pre: seq<string>, ghost sections: seq<Section>,
                 ghost rw: seq<Section>,
                 ghost rest: seq<string>, ghost i: nat)
    returns (cmdIdx: int, argsIdx: int, argsEnd: int)
    requires i < |sections| && r == RangesOf(sections, |pre|)[i] && WrittenFrom(pre, sections, rw, rest, i + 1, cur)
    ensures r.start < r.end && Found(root, cur, r.start + 1, r.end, r.end, cmdIdx, argsIdx, argsEnd)
    ensures HasFields(root, sections[i].body) <==> cmdIdx != -1 && argsIdx != -1
  {
    NthStands(pre, sections, rw, rest, i, cur);
    cmdIdx, argsIdx, argsEnd := FindFields(root, cur, r);
    FoundBoth(root, cur, r, sections[i], cmdIdx, argsIdx, argsEnd);
  }

  // Write into the i-th server.
  method WriteNth(root: nat, codec: Codec, v: Server, cur: seq<string>, r: Range, cmdIdx: int, argsIdx: int,
                  argsEnd: int,
                  ghost pre: seq<string>, ghost sections: seq<Section>, ghost rw: seq<Section>,
                  ghost rest: seq<string>, ghost i: nat)
    returns (out: seq<string>)
    requires i < |sections| && r == RangesOf(sections, |pre|)[i] && WrittenFrom(pre, sections, rw, rest, i + 1, cur)
    requires r.start < r.end && Found(root, cur, r.start + 1, r.end, r.end, cmdIdx, argsIdx, argsEnd)
    requires rw[i] == Section(sections[i].header, Rewritten(root, codec, v, sections[i].body))
    ensures WrittenFrom(pre, sections, rw, rest, i, out)
  {
    ghost var s := sections[i];
    RangeIs(pre, sections, i);
    NextToWrite(pre, sections, rw, rest, i, cur);
    out := WriteServer(root, codec, v, cur, r, cmdIdx, argsIdx, argsEnd, UpTo(pre, sections, i), s.header, s.body,
                       FromOn(rw, rest, i + 1));
    NextWritten(pre, sections, rw, rest, i, out);
  }

  lemma RewrittenAt(root: nat, codec: Codec, values: Servers, sections: seq<Section>, i: nat)
    requires i < |sections| && NameOf(sections[i].header) in values
    ensures RewrittenAll(root, codec, values, sections)[i] ==
            Section(sections[i].header, Rewritten(root, codec, values[NameOf(sections[i].header)], sections[i].body))
  {
  }

  method WrapServer(root: nat, codec: Codec, v: Server, ghost values: Servers, cur: seq<string>, r: Range,
                    ghost pre: seq<string>, ghost sections: seq<Section>, ghost rest: seq<string>, ghost i: nat)
    returns (res: Result<seq<string>, YamlError>)
    requires i < |sections| && r == RangesOf(sections, |pre|)[i] && r.name in values && v == values[r.name]
    requires WrittenFrom(pre, sections, RewrittenAll(root, codec, values, sections), rest, i + 1, cur)
    ensures res.Ok? <==> HasFields(root, sections[i].body)
    ensures res.Ok? ==> WrittenFrom(pre, sections, RewrittenAll(root, codec, values, sections), rest, i, res.value)
    ensures res.Err? ==> res.error == MissingSetting(r.name)
  {
    ghost var rw := RewrittenAll(root, codec, values, sections);
    RangeIs(pre, sections, i);
    var cmdIdx, argsIdx, argsEnd := FindNth(root, cur, r, pre, sections, rw, rest, i);
    if cmdIdx == -1 || argsIdx == -1 {
      return Err(MissingSetting(r.name));
    }
    RewrittenAt(root, codec, values, sections, i);
    var out := WriteNth(root, codec, v, cur, r, cmdIdx, argsIdx, argsEnd, pre, sections, rw, rest, i);
    return Ok(out);
  }

  // What the patch keeps: the servers from the i-th on are written, complete and recorded.
  ghost predicate PatchedFrom(root: nat, codec: Codec, exe: string, originals: Servers, pre: seq<string>, l: Layout,
                              i: nat,
                              cur: seq<string>, markers: Servers)
  {
    && i <= |l.sections|
    && WrittenFrom(pre, l.sections, RewrittenAll(root, codec, Proxied(originals, exe), l.sections), l.rest, i, cur)
    && CompleteFrom(root, originals, l.sections, i)
    && markers == Restricted(originals, NamesFrom(l.sections, i))
  }

  lemma PatchedNext(root: nat, codec: Codec, exe: string, originals: Servers, pre: seq<string>, l: Layout, i: nat,
                    cur: seq<string>, markers: Servers, cur': seq<string>)
    requires i < |l.sections| && PatchedFrom(root, codec, exe, originals, pre, l, i + 1, cur, markers)
    requires WrittenFrom(pre, l.sections, RewrittenAll(root, codec, Proxied(originals, exe), l.sections), l.rest, i,
                         cur')
    requires NameOf(l.sections[i].header) in originals ==> HasFields(root, l.sections[i].body)
    ensures var name := NameOf(l.sections[i].header);
            PatchedFrom(root, codec, exe, originals, pre, l, i, cur',
                        if name in originals then markers[name := originals[name]] else markers)
  {
    RestrictedWider(originals, NamesFrom(l.sections, i + 1), NameOf(l.sections[i].header));
  }

  lemma FirstLacking(root: nat, codec: Codec, exe: string, originals: Servers, pre: seq<string>, l: Layout, i: nat,
                     cur: seq<string>, markers: Servers)
    requires i < |l.sections| && PatchedFrom(root, codec, exe, originals, pre, l, i + 1, cur, markers)
    requires NameOf(l.sections[i].header) in originals && !HasFields(root, l.sections[i].body)
    ensures Lacks(root, originals, l.sections, MissingSetting(NameOf(l.sections[i].header)))
  {
    assert LacksAt(root, originals, l.sections, i, MissingSetting(NameOf(l.sections[i].header)));
  }

  // One step of the loop.
  method PatchNth(root: nat, codec: Codec, exe: string, parsed: Servers, want: set<string>, cur: seq<string>,
                  r: Range, markers: Servers,
                  ghost pre: seq<string>, ghost l: Layout, ghost i: nat)
    returns (res: Result<seq<string>, YamlError>, markers': Servers)
    requires i < |l.sections| && r == RangesOf(l.sections, |pre|)[i]
    requires PatchedFrom(root, codec, exe, Originals(parsed, want), pre, l, i + 1, cur, markers)
    ensures res.Err? ==> Lacks(root, Originals(parsed, want), l.sections, res.error)
    ensures res.Ok? ==> PatchedFrom(root, codec, exe, Originals(parsed, want), pre, l, i, res.value, markers')
  {
    RangeIs(pre, l.sections, i);
    res, markers' := PatchServer(root, codec, exe, parsed, want, cur, r, markers, pre, l.sections, l.rest, i);
    if res.Err? {
      FirstLacking(root, codec, exe, Originals(parsed, want), pre, l, i, cur, markers);
    } else {
      PatchedNext(root, codec, exe, Originals(parsed, want), pre, l, i, cur, markers, res.value);
    }
  }

  // The patch of a file whose servers have been loaded.
  method PatchRanges(root: nat, codec: Codec, exe: string, lines: seq<string>, parsed: Servers, want: set<string>,
                     ranges: seq<Range>,
                     ghost pre: seq<string>, ghost l: Layout)
    returns (res: Result<seq<string>, YamlError>, markers: Servers)
    requires Covers(lines, ranges, pre, l)
    ensures res.Err? ==> Lacks(root, Originals(parsed, want), l.sections, res.error)
    ensures res.Ok? ==> PatchedFrom(root, codec, exe, Originals(parsed, want), pre, l, 0, res.value, markers)
  {
    var cur := lines;
    markers := map[];
    NothingWritten(pre, l.sections, RewrittenAll(root, codec, Proxied(Originals(parsed, want), exe), l.sections),
                   l.rest);
    assert Restricted(Originals(parsed, want), {}) == map[];
    var i := |ranges|;
    while i > 0
      invariant 0 <= i <= |ranges|
      invariant PatchedFrom(root, codec, exe, Originals(parsed, want), pre, l, i, cur, markers)
    {
      i := i - 1;
      res, markers := PatchNth(root, codec, exe, parsed, want, cur, ranges[i], markers, pre, l, i);
      if res.Err? {
        return;
      }
      cur := res.value;
    }
    res := Ok(cur);
  }

  // A patch carried to the first server is the rewritten file.
  lemma PatchDone(key: string, codec: Codec, exe: string, originals: Servers, lines: seq<string>, cur: seq<string>,
                  markers: Servers)
    requires RootAt(key, lines) < |lines| && Load(key, codec, lines).Ok?
             && originals.Keys <= Load(key, codec, lines).value.Keys
    requires PatchedFrom(RootIndent(key, lines), codec, exe, originals, Before(key, lines), LayoutAt(key, lines), 0,
                         cur, markers)
    ensures markers == originals && cur == RewrittenFile(key, codec, Proxied(originals, exe), lines)
    ensures CompleteFrom(RootIndent(key, lines), originals, LayoutAt(key, lines).sections, 0)
  {
    var l, root, values := LayoutAt(key, lines), RootIndent(key, lines), Proxied(originals, exe);
    AllWritten(Before(key, lines), l.sections, RewrittenAll(root, codec, values, l.sections), l.rest, cur);
    RewrittenParts(key, codec, values, lines);
    LoadedNames(root, codec, l.sections);
  }

  // The patch fails when the file cannot be loaded or a selected server lacks a field; else the
  // selected servers are wrapped, everything else is unchanged, and the originals are recorded.
  method Patch(key: string, codec: Codec, exe: string, lines: seq<string>, servers: seq<string>)
    returns (res: Result<seq<string>, YamlError>, markers: Servers)
    ensures res.Ok? <==> Load(key, codec, lines).Ok?
                         && CompleteFrom(RootIndent(key, lines),
                                         Originals(Load(key, codec, lines).value, Wanted(servers)),
                                         LayoutAt(key, lines).sections, 0)
    ensures res.Ok? ==>
              && markers == Originals(Load(key, codec, lines).value, Wanted(servers))
              && res.value == RewrittenFile(key, codec, Proxied(markers, exe), lines)
    ensures res.Err? ==>
              if Load(key, codec, lines).Err? then res.error == KeyAbsent
              else Lacks(RootIndent(key, lines), Originals(Load(key, codec, lines).value, Wanted(servers)),
                         LayoutAt(key, lines).sections, res.error)
  {
    markers := map[];
    var parsed := LoadYamlServers(key, codec, lines);
    if parsed.Err? {
      res := Err(parsed.error);
      return;
    }
    var found := YamlServerRanges(lines, key);
    var (ranges, root) := found.value;
    res, markers := PatchRanges(root, codec, exe, lines, parsed.value, Wanted(servers), ranges, Before(key, lines),
                                LayoutAt(key, lines));
    if res.Err? {
      LacksIncomplete(root, Originals(parsed.value, Wanted(servers)), LayoutAt(key, lines).sections, res.error);
    } else {
      PatchDone(key, codec, exe, Originals(parsed.value, Wanted(servers)), lines, res.value, markers);
    }
  }

  // ----- unpatch -----

  // The reverse: every server with a marker gets its recorded fields back, as far as it has them.
  method Unpatch(key: string, codec: Codec, markers: Servers, lines: seq<string>)
    returns (res: Result<seq<string>, YamlError>, restored: set<string>)
    ensures res.Ok? <==> RootAt(key, lines) < |lines|
    ensures res.Ok? ==>
              && res.value == RewrittenFile(key, codec, markers, lines)
              && restored == markers.Keys * NamesFrom(LayoutAt(key, lines).sections, 0)
    ensures res.Err? ==> res.error == KeyAbsent
  {
    restored := {};
    var found := YamlServerRanges(lines, key);
    if found.Err? {
      res := Err(found.error);
      return;
    }
    var (ranges, root) := found.value;
    var out;
    out, restored := UnpatchRanges(root, codec, markers, lines, ranges, Before(key, lines), LayoutAt(key, lines));
    RewrittenParts(key, codec, markers, lines);
    res := Ok(out);
  }

  method UnpatchRanges(root: nat, codec: Codec, markers: Servers, lines: seq<string>, ranges: seq<Range>,
                       ghost pre: seq<string>, ghost l: Layout)
    returns (out: seq<string>, restored: set<string>)
    requires Covers(lines, ranges, pre, l)
    ensures out == pre + Flat(RewrittenAll(root, codec, markers, l.sections)) + l.rest
    ensures restored == markers.Keys * NamesFrom(l.sections, 0)
  {
    NothingWritten(pre, l.sections, RewrittenAll(root, codec, markers, l.sections), l.rest);
    out, restored := lines, {};
    var i := |ranges|;
    while i > 0
      invariant 0 <= i <= |ranges|
      invariant UnpatchedFrom(root, codec, markers, pre, l, i, out, restored)
    {
      i := i - 1;
      out, restored := UnpatchNth(root, codec, markers, out, ranges[i], restored, pre, l, i);
    }
    AllWritten(pre, l.sections, RewrittenAll(root, codec, markers, l.sections), l.rest, out);
  }

  // What the unpatch keeps: the servers from the i-th on are written and reported.
  ghost predicate UnpatchedFrom(root: nat, codec: Codec, markers: Servers, pre: seq<string>, l: Layout, i: nat,
                                cur: seq<string>, restored: set<string>) {
    && i <= |l.sections|
    && WrittenFrom(pre, l.sections, RewrittenAll(root, codec, markers, l.sections), l.rest, i, cur)
    && restored == markers.Keys * NamesFrom(l.sections, i)
  }

  lemma UnpatchedNext(root: nat, codec: Codec, markers: Servers, pre: seq<string>, l: Layout, i: nat,
                      cur: seq<string>, restored: set<string>,
                      cur': seq<string>)
    requires i < |l.sections| && UnpatchedFrom(root, codec, markers, pre, l, i + 1, cur, restored)
    requires WrittenFrom(pre, l.sections, RewrittenAll(root, codec, markers, l.sections), l.rest, i, cur')
    ensures var name := NameOf(l.sections[i].header);
            UnpatchedFrom(root, codec, markers, pre, l, i, cur', if name in markers then restored + {name}
                          else restored)
  {
  }

  // One step of the loop: a server without a marker is left as it is.
  method UnpatchNth(root: nat, codec: Codec, markers: Servers, cur: seq<string>, r: Range, restored: set<string>,
                    ghost pre: seq<string>, ghost l: Layout, ghost i: nat)
    returns (out: seq<string>, restored': set<string>)
    requires i < |l.sections| && r == RangesOf(l.sections, |pre|)[i]
    requires UnpatchedFrom(root, codec, markers, pre, l, i + 1, cur, restored)
    ensures UnpatchedFrom(root, codec, markers, pre, l, i, out, restored')
  {
    RangeIs(pre, l.sections, i);
    out, restored' := cur, restored;
    if r.name in markers {
      out := RestoreServer(root, codec, markers, cur, r, pre, l.sections, l.rest, i);
      restored' := restored + {r.name};
    } else {
      NextUnchanged(pre, l.sections, RewrittenAll(root, codec, markers, l.sections), l.rest, i, cur);
    }
    UnpatchedNext(root, codec, markers, pre, l, i, cur, restored, out);
  }

  method RestoreServer(root: nat, codec: Codec, markers: Servers, cur: seq<string>, r: Range,
                       ghost pre: seq<string>, ghost sections: seq<Section>, ghost rest: seq<string>, ghost i: nat)
    returns (out: seq<string>)
    requires i < |sections| && r == RangesOf(sections, |pre|)[i] && r.name in markers
    requires WrittenFrom(pre, sections, RewrittenAll(root, codec, markers, sections), rest, i + 1, cur)
    ensures WrittenFrom(pre, sections, RewrittenAll(root, codec, markers, sections), rest, i, out)
  {
    ghost var rw := RewrittenAll(root, codec, markers, sections);
    RangeIs(pre, sections, i);
    var cmdIdx, argsIdx, argsEnd := FindNth(root, cur, r, pre, sections, rw, rest, i);
    RewrittenAt(root, codec, markers, sections, i);
    out := WriteNth(root, codec, markers[r.name], cur, r, cmdIdx, argsIdx, argsEnd, pre, sections, rw, rest, i);
  }
}
