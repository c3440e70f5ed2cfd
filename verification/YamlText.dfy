/** Patching and unpatching a YAML configuration as text, which every pass joins and splits again. */
module YamlText {
  import opened Basics
  import opened HostServers
  import opened LineSplice
  import Seqs
  import opened Text
  import YamlPatch
  import opened YamlRestore
  import opened YamlServers

  // ----- lines that stay lines -----

  // The lines of a file, or with `ended` of one that goes on behind them.
  ghost predicate LinesTo(lines: seq<string>, ended: bool) {
    AreLines(lines) && (ended ==> forall i :: 0 <= i < |lines| ==> Terminated(lines[i]))
  }

  lemma LinesConcat(a: seq<string>, b: seq<string>, ended: bool)
    requires LinesTo(a, true) && LinesTo(b, ended)
    ensures LinesTo(a + b, ended)
  {
  }

  lemma LinesSplit(a: seq<string>, b: seq<string>, ended: bool)
    requires LinesTo(a + b, ended)
    ensures LinesTo(a, ended || b != []) && LinesTo(b, ended)
  {
    var w := a + b;
    assert forall i :: 0 <= i < |a| ==> w[i] == a[i];
    assert forall i :: 0 <= i < |b| ==> w[|a| + i] == b[i];
  }

  // Lines that may take the place of others.
  ghost predicate Replaces(a: seq<string>, b: seq<string>) {
    (a == [] ==> b == []) && forall ended :: LinesTo(a, ended) ==> LinesTo(b, ended)
  }

  lemma ReplacesConcat(a: seq<string>, a': seq<string>, b: seq<string>, b': seq<string>)
    requires Replaces(a, a') && Replaces(b, b')
    ensures Replaces(a + b, a' + b')
  {
    forall ended | LinesTo(a + b, ended) ensures LinesTo(a' + b', ended) {
      LinesSplit(a, b, ended);
      if b == [] {
        Seqs.Nothing(a');
      } else {
        LinesConcat(a', b', ended);
      }
    }
  }

  lemma LinesOver(lines: seq<string>, c: int, line: string, ended: bool)
    requires -1 <= c < |lines| && (c >= 0 ==> IsLineLike(lines[c], line)) && LinesTo(lines, ended)
    ensures LinesTo(Overwritten(lines, c, line), ended)
  {
  }

  lemma LinesFrom(lines: seq<string>, t: nat, ended: bool)
    requires t <= |lines| && LinesTo(lines, ended)
    ensures LinesTo(lines[t..], ended)
  {
    Seqs.Halves(lines, t);
    LinesSplit(lines[..t], lines[t..], ended);
  }

  // ----- the lines that are written -----

  lemma EndedLine(text: string, old_: string)
    requires text != "" && '\n' !in text
    ensures IsLineLike(old_, text + LineEnding(old_))
  {
    var l, post := text + LineEnding(old_), LineEnding(old_);
    EndingTerminates(old_);
    assert forall i :: 0 <= i < |text| ==> text[i] in text && l[i] == text[i];
    assert post == "" ==> l == text;
    assert post != "" ==> l[|l| - 1] == post[|post| - 1] == '\n';
  }

  lemma NoNewlines(n: nat, text: string, more: string)
    requires '\n' !in text && '\n' !in more
    ensures '\n' !in Spaces(n) + (text + more)
  {
  }

  lemma ScalarOneLine(codec: Codec, s: string)
    requires codec.Lawful()
    ensures '\n' !in ScalarText(codec, s)
  {
    if IsBare(s) {
      assert forall i :: 0 <= i < |s| ==> s[i] != '\n';
    } else {
      assert '\n' !in codec.quote(s);
    }
  }

  lemma CommandIsLine(root: nat, codec: Codec, command: string, old_: string)
    requires codec.Lawful()
    ensures IsLineLike(old_, CommandLine(root, codec, command, old_))
  {
    ScalarOneLine(codec, command);
    NoNewlines(root + 4, "command: ", ScalarText(codec, command));
    EndedLine(Spaces(root + 4) + ("command: " + ScalarText(codec, command)), old_);
  }

  lemma HeadIsLine(root: nat, old_: string)
    ensures IsLineLike(old_, ArgsHead(root, old_))
  {
    EndedLine(Spaces(root + 4) + "args:", old_);
  }

  lemma ItemIsLine(root: nat, codec: Codec, arg: string, old_: string)
    requires codec.Lawful()
    ensures IsLineLike(old_, ItemLine(root, codec, arg, old_))
  {
    assert '\n' !in codec.quote(arg);
    NoNewlines(root + 6, "- ", codec.quote(arg));
    EndedLine(Spaces(root + 6) + ("- " + codec.quote(arg)), old_);
  }

  lemma EndedLines(lines: seq<string>, old_: string)
    requires Terminated(old_) && forall i :: 0 <= i < |lines| ==> IsLineLike(old_, lines[i])
    ensures LinesTo(lines, true)
  {
  }

  lemma ArgsAreLines(root: nat, codec: Codec, args: seq<string>, old_: string)
    requires codec.Lawful() && Terminated(old_)
    ensures LinesTo(ArgsLines(root, codec, args, old_), true)
  {
    var block := ArgsLines(root, codec, args, old_);
    forall i | 0 <= i < |block| ensures IsLineLike(old_, block[i]) {
      if i == 0 {
        HeadIsLine(root, old_);
      } else {
        ItemIsLine(root, codec, args[i - 1], old_);
      }
    }
    EndedLines(block, old_);
  }

  lemma BlockLines(root: nat, codec: Codec, args: seq<string>, old_: string)
    requires codec.Lawful()
    ensures LinesTo(BlockRead(root, codec, args, old_), Terminated(old_))
  {
    if Terminated(old_) {
      ArgsAreLines(root, codec, args, old_);
    } else {
      MergedIsOne(root, codec, args, old_);
      OneLine(JoinLines(ArgsLines(root, codec, args, old_)));
    }
  }

  lemma OneLine(line: string)
    requires line != "" && '\n' !in line
    ensures LinesTo([line], false)
  {
    assert forall j :: 0 <= j < |line| ==> line[j] in line;
  }

  lemma LineInLines(root: nat, codec: Codec, v: Server, x: Parts, ended: bool)
    requires codec.Lawful() && LinesTo(x.pre, true) && LinesTo(x.tail, ended) && x.block != []
    ensures LinesTo(Next(root, codec, v, x).pre, true) && LinesTo(Next(root, codec, v, x).tail, ended)
  {
    var line := LineIn(root, codec, v, x);
    if CommandBelow(root, x) >= 0 {
      CommandIsLine(root, codec, v.command, x.tail[CommandBelow(root, x)]);
      LinesOver(x.tail, CommandBelow(root, x), line, ended);
      LinesFrom(Overwritten(x.tail, CommandBelow(root, x), line), Listed(root, x), ended);
    } else {
      LinesFrom(x.tail, Listed(root, x), ended);
      if CommandAbove(root, x) >= 0 {
        CommandIsLine(root, codec, v.command, x.pre[CommandAbove(root, x)]);
      }
      LinesOver(x.pre, CommandAbove(root, x), line, true);
    }
  }

  lemma NextLines(root: nat, codec: Codec, v: Server, x: Parts, ended: bool)
    requires codec.Lawful() && IsBody(root, x) && LinesTo(x.Whole(), ended)
    ensures LinesTo(Next(root, codec, v, x).Whole(), ended)
  {
    var y := Next(root, codec, v, x);
    LinesSplit(x.pre + x.block, x.tail, ended);
    LinesSplit(x.pre, x.block, ended || x.tail != []);
    LineInLines(root, codec, v, x, ended);
    BlockLines(root, codec, v.args, x.block[0]);
    Seqs.Assoc(y.pre, y.block, y.tail);
    if Terminated(x.block[0]) {
      LinesConcat(y.block, y.tail, ended);
    } else {
      Seqs.Nothing(y.block);
    }
    LinesConcat(y.pre, y.block + y.tail, ended);
  }

  lemma AsReadLines(root: nat, codec: Codec, v: Server, body: seq<string>)
    requires codec.Lawful()
    ensures Replaces(body, AsRead(root, codec, v, body))
  {
    var x := FieldsOf(root, body);
    forall ended | LinesTo(body, ended) ensures LinesTo(AsRead(root, codec, v, body), ended) {
      if x.a >= 0 {
        PartsAreBody(root, body);
        NextIs(root, codec, v, BodyParts(root, body));
        NextLines(root, codec, v, BodyParts(root, body), ended);
      } else {
        if x.c >= 0 {
          CommandIsLine(root, codec, v.command, body[x.c]);
        }
        LinesOver(body, x.c, LineFor(root, codec, v, body, x.c), ended);
      }
    }
  }

  // ----- the text -----

  lemma {:induction false} JoinConcat(a: seq<string>, b: seq<string>)
    ensures JoinLines(a + b) == JoinLines(a) + JoinLines(b)
  {
    if b == [] {
      Seqs.Nothing(a);
      Seqs.Nothing(JoinLines(a));
    } else {
      var front, last := b[..|b| - 1], b[|b| - 1];
      JoinConcat(a, front);
      Seqs.FrontLast(b);
      Seqs.Assoc(a, front, [last]);
      JoinLinesSnoc(a + front, last);
      JoinLinesSnoc(front, last);
      Seqs.Assoc(JoinLines(a), JoinLines(front), last);
    }
  }

  lemma JoinOne(line: string)
    ensures JoinLines([line]) == line
  {
    Seqs.Nothing([line]);
    JoinLinesSnoc([], line);
    Seqs.Nothing(line);
  }

  lemma JoinMiddle(a: seq<string>, b: seq<string>, b': seq<string>, c: seq<string>)
    requires JoinLines(b) == JoinLines(b')
    ensures JoinLines(a + b + c) == JoinLines(a + b' + c)
  {
    JoinConcat(a + b, c);
    JoinConcat(a, b);
    JoinConcat(a + b', c);
    JoinConcat(a, b');
  }

  // What is read back is what was written, to the character.
  lemma SameText(root: nat, codec: Codec, v: Server, body: seq<string>)
    ensures JoinLines(AsRead(root, codec, v, body)) == JoinLines(Rewritten(root, codec, v, body))
  {
    var x := FieldsOf(root, body);
    if x.a >= 0 && !Terminated(body[x.a]) {
      var block, over := ArgsLines(root, codec, v.args, body[x.a]),
                         Overwritten(body, x.c, LineFor(root, codec, v, body, x.c));
      JoinOne(JoinLines(block));
      JoinMiddle(over[..x.a], block, [JoinLines(block)], over[x.e..]);
    }
  }

  // ----- the sections -----

  function ReadSection(root: nat, codec: Codec, values: Servers, s: Section): Section {
    if NameOf(s.header) in values then s.(body := AsRead(root, codec, values[NameOf(s.header)], s.body)) else s
  }

  function ReadAll(root: nat, codec: Codec, values: Servers, sections: seq<Section>): (r: seq<Section>)
    ensures |r| == |sections|
    ensures forall i :: 0 <= i < |sections| ==> r[i] == ReadSection(root, codec, values, sections[i])
  {
    seq(|sections|, i requires 0 <= i < |sections| => ReadSection(root, codec, values, sections[i]))
  }

  // The file with the given servers written, as it is read back.
  function ReadFile(key: string, codec: Codec, values: Servers, lines: seq<string>): seq<string> {
    var r, l := RootAt(key, lines), LayoutAt(key, lines);
    if r == |lines| then lines
    else lines[..r + 1] + Joined(l.(sections := ReadAll(RootIndent(key, lines), codec, values, l.sections)))
  }

  lemma FlatNext(sections: seq<Section>, n: nat)
    requires n < |sections|
    ensures Flat(sections[..n + 1]) == Flat(sections[..n]) + ([sections[n].header] + sections[n].body)
  {
    assert sections[..n + 1][..n] == sections[..n];
  }

  lemma ReplacesSelf(a: seq<string>)
    ensures Replaces(a, a)
  {
  }

  lemma {:induction false} FlatLines(root: nat, codec: Codec, values: Servers, sections: seq<Section>, n: nat)
    requires codec.Lawful() && n <= |sections|
    ensures Replaces(Flat(sections[..n]), Flat(ReadAll(root, codec, values, sections)[..n]))
    decreases n
  {
    if n > 0 {
      var s, read := sections[n - 1], ReadAll(root, codec, values, sections);
      FlatLines(root, codec, values, sections, n - 1);
      FlatNext(sections, n - 1);
      FlatNext(read, n - 1);
      ReplacesSelf([s.header]);
      if NameOf(s.header) in values {
        AsReadLines(root, codec, values[NameOf(s.header)], s.body);
      } else {
        ReplacesSelf(s.body);
      }
      ReplacesConcat([s.header], [s.header], s.body, read[n - 1].body);
      ReplacesConcat(Flat(sections[..n - 1]), Flat(read[..n - 1]), [s.header] + s.body, [s.header] + read[n - 1].body);
    }
  }

  lemma {:induction false} FlatText(root: nat, codec: Codec, values: Servers, sections: seq<Section>, n: nat)
    requires n <= |sections|
    ensures JoinLines(Flat(RewrittenAll(root, codec, values, sections)[..n])) ==
            JoinLines(Flat(ReadAll(root, codec, values, sections)[..n]))
    decreases n
  {
    if n > 0 {
      var s, read := sections[n - 1], ReadAll(root, codec, values, sections);
      var written := RewrittenAll(root, codec, values, sections);
      FlatText(root, codec, values, sections, n - 1);
      FlatNext(written, n - 1);
      FlatNext(read, n - 1);
      if NameOf(s.header) in values {
        SameText(root, codec, values[NameOf(s.header)], s.body);
      }
      JoinConcat([s.header], written[n - 1].body);
      JoinConcat([s.header], read[n - 1].body);
      JoinConcat(Flat(written[..n - 1]), [s.header] + written[n - 1].body);
      JoinConcat(Flat(read[..n - 1]), [s.header] + read[n - 1].body);
    }
  }

  lemma LinesOfFile(key: string, lines: seq<string>)
    requires RootAt(key, lines) < |lines|
    ensures lines == lines[..RootAt(key, lines) + 1] + Joined(LayoutAt(key, lines))
  {
    ScanParts(RootIndent(key, lines), lines[RootAt(key, lines) + 1..]);
    Seqs.Halves(lines, RootAt(key, lines) + 1);
  }

  lemma JoinedLines(root: nat, codec: Codec, values: Servers, l: Layout)
    requires codec.Lawful()
    ensures Replaces(Joined(l), Joined(l.(sections := ReadAll(root, codec, values, l.sections))))
  {
    var read := ReadAll(root, codec, values, l.sections);
    FlatLines(root, codec, values, l.sections, |l.sections|);
    Seqs.Full(l.sections);
    Seqs.Full(read);
    ReplacesSelf(l.lead);
    ReplacesSelf(l.rest);
    ReplacesConcat(l.lead, l.lead, Flat(l.sections), Flat(read));
    ReplacesConcat(l.lead + Flat(l.sections), l.lead + Flat(read), l.rest, l.rest);
  }

  lemma JoinedText(root: nat, codec: Codec, values: Servers, l: Layout)
    ensures JoinLines(Joined(l.(sections := RewrittenAll(root, codec, values, l.sections)))) ==
            JoinLines(Joined(l.(sections := ReadAll(root, codec, values, l.sections))))
  {
    var written, read := RewrittenAll(root, codec, values, l.sections), ReadAll(root, codec, values, l.sections);
    FlatText(root, codec, values, l.sections, |l.sections|);
    Seqs.Full(written);
    Seqs.Full(read);
    JoinMiddle(l.lead, Flat(written), Flat(read), l.rest);
  }

  lemma ReadFileLines(key: string, codec: Codec, values: Servers, lines: seq<string>)
    requires codec.Lawful() && AreLines(lines)
    ensures AreLines(ReadFile(key, codec, values, lines))
  {
    var r, l := RootAt(key, lines), LayoutAt(key, lines);
    if r < |lines| {
      LinesOfFile(key, lines);
      ReplacesSelf(lines[..r + 1]);
      JoinedLines(RootIndent(key, lines), codec, values, l);
      ReplacesConcat(lines[..r + 1], lines[..r + 1], Joined(l),
                     Joined(l.(sections := ReadAll(RootIndent(key, lines), codec, values, l.sections))));
      assert LinesTo(lines, false);
    }
  }

  lemma ReadFileText(key: string, codec: Codec, values: Servers, lines: seq<string>)
    ensures JoinLines(RewrittenFile(key, codec, values, lines)) == JoinLines(ReadFile(key, codec, values, lines))
  {
    var r, l := RootAt(key, lines), LayoutAt(key, lines);
    if r < |lines| {
      JoinedText(RootIndent(key, lines), codec, values, l);
      JoinConcat(lines[..r + 1], Joined(RewrittenLayout(key, codec, values, lines)));
      JoinConcat(lines[..r + 1],
                 Joined(l.(sections := ReadAll(RootIndent(key, lines), codec, values, l.sections))));
    }
  }

  // Written, joined to text and split again, a file is the one that is read.
  lemma WrittenSplits(key: string, codec: Codec, values: Servers, lines: seq<string>)
    requires codec.Lawful() && AreLines(lines)
    ensures SplitLinesPreserve(JoinLines(RewrittenFile(key, codec, values, lines))) ==
            ReadFile(key, codec, values, lines)
    ensures AreLines(ReadFile(key, codec, values, lines))
  {
    ReadFileText(key, codec, values, lines);
    ReadFileLines(key, codec, values, lines);
    SplitJoin(ReadFile(key, codec, values, lines));
  }

  // ----- the parts of the file that is read -----

  function Plain(root: nat): Kind {
    (line: string) => IsPlain(root, line)
  }

  lemma BlockPlain(root: nat, codec: Codec, args: seq<string>, old_: string)
    requires codec.Lawful()
    ensures ArePlain(root, BlockRead(root, codec, args, old_))
  {
    if Terminated(old_) {
      var block := ArgsLines(root, codec, args, old_);
      WrittenHead(root, old_);
      forall i | 1 <= i < |block| ensures IsPlain(root, block[i]) {
        WrittenItem(root, codec, args[i - 1], old_);
      }
    } else {
      Merged(root, codec, args, old_);
    }
  }

  lemma AsReadPlain(root: nat, codec: Codec, v: Server, body: seq<string>)
    requires codec.Lawful() && ArePlain(root, body)
    ensures ArePlain(root, AsRead(root, codec, v, body))
  {
    var x := FieldsOf(root, body);
    var line, block := LineFor(root, codec, v, body, x.c),
                       if x.a < 0 then [] else BlockRead(root, codec, v.args, body[x.a]);
    if x.c >= 0 {
      WrittenCommand(root, codec, v.command, body[x.c]);
    }
    if x.a >= 0 {
      BlockPlain(root, codec, v.args, body[x.a]);
    }
    AppliedPlain(root, x, body, line, block);
  }

  lemma AppliedPlain(root: nat, x: Edit, body: seq<string>, line: string, block: seq<string>)
    requires -1 <= x.c < |body| && -1 <= x.a < |body| && (x.a >= 0 ==> x.a < x.e <= |body|)
    requires ArePlain(root, body) && (x.c >= 0 ==> IsPlain(root, line)) && ArePlain(root, block)
    ensures ArePlain(root, Applied(x, body, line, block))
  {
    AppliedAll(Plain(root), x, body, line, block);
  }

  lemma ReadIsLayout(root: nat, codec: Codec, values: Servers, l: Layout)
    requires codec.Lawful() && IsLayout(root, l)
    ensures IsLayout(root, l.(sections := ReadAll(root, codec, values, l.sections)))
  {
    forall i | 0 <= i < |l.sections| ensures ArePlain(root, ReadSection(root, codec, values, l.sections[i]).body) {
      if NameOf(l.sections[i].header) in values {
        AsReadPlain(root, codec, values[NameOf(l.sections[i].header)], l.sections[i].body);
      }
    }
  }

  lemma FirstInPrefix(s: Kind, pre: seq<string>, tail: seq<string>)
    requires pre != [] && s(pre[|pre| - 1]) && forall j :: 0 <= j < |pre| - 1 ==> !s(pre[j])
    ensures FirstAt(s, pre + tail, 0, |pre + tail|) == |pre| - 1
    ensures (pre + tail)[|pre|..] == tail && (pre + tail)[|pre| - 1] == pre[|pre| - 1]
  {
    assert forall j :: 0 <= j < |pre| ==> (pre + tail)[j] == pre[j];
    FirstIs(s, pre + tail, 0, |pre| - 1);
  }

  // The file after its root, replaced.
  ghost predicate SameRoot(key: string, lines: seq<string>, file: seq<string>, tail: seq<string>) {
    var r := RootAt(key, lines);
    && RootAt(key, file) == r < |lines| && r < |file| && file[r] == lines[r]
    && file[..r + 1] == lines[..r + 1] && file[r + 1..] == tail
  }

  lemma RootStays(key: string, lines: seq<string>, tail: seq<string>)
    requires RootAt(key, lines) < |lines|
    ensures SameRoot(key, lines, lines[..RootAt(key, lines) + 1] + tail, tail)
  {
    var head := lines[..RootAt(key, lines) + 1];
    RootFound(key, lines, tail);
    Seqs.Prefix(head, tail);
    assert (head + tail)[|head| - 1] == head[|head| - 1] == lines[|head| - 1];
  }

  lemma RootFound(key: string, lines: seq<string>, tail: seq<string>)
    requires RootAt(key, lines) < |lines|
    ensures RootAt(key, lines[..RootAt(key, lines) + 1] + tail) == RootAt(key, lines)
  {
    HeadEndsAtRoot(key, lines);
    FirstInPrefix(Root(key), lines[..RootAt(key, lines) + 1], tail);
  }

  lemma HeadEndsAtRoot(key: string, lines: seq<string>)
    requires RootAt(key, lines) < |lines|
    ensures var head := lines[..RootAt(key, lines) + 1];
            IsRoot(key, head[|head| - 1]) && forall j :: 0 <= j < |head| - 1 ==> !IsRoot(key, head[j])
  {
  }

  // The file that is read has the same root and the same parts, with the servers as they are read.
  lemma ReadFileScans(key: string, codec: Codec, values: Servers, lines: seq<string>)
    requires codec.Lawful() && RootAt(key, lines) < |lines|
    ensures var file, l, root := ReadFile(key, codec, values, lines), LayoutAt(key, lines), RootIndent(key, lines);
            var read := l.(sections := ReadAll(root, codec, values, l.sections));
            SameRoot(key, lines, file, Joined(read)) && RootIndent(key, file) == root && LayoutAt(key, file) == read
  {
    var l, root := LayoutAt(key, lines), RootIndent(key, lines);
    var read := l.(sections := ReadAll(root, codec, values, l.sections));
    ScanParts(root, lines[RootAt(key, lines) + 1..]);
    ReadIsLayout(root, codec, values, l);
    ScanUnique(root, read);
    RootStays(key, lines, Joined(read));
  }

  // ----- what the sections load as -----

  // The section that counts for its name.
  ghost predicate Latest(sections: seq<Section>, i: nat) {
    i < |sections| && forall j :: i < j < |sections| ==> NameOf(sections[j].header) != NameOf(sections[i].header)
  }

  ghost predicate Holds(root: nat, codec: Codec, sections: seq<Section>, all: Servers, i: nat)
    requires i < |sections|
  {
    var name := NameOf(sections[i].header);
    name in all && all[name] == Loaded(root, codec, sections[i].body)
  }

  lemma {:induction false} LatestLoads(root: nat, codec: Codec, sections: seq<Section>, i: nat, n: nat)
    requires i < n <= |sections| && forall j :: i < j < n ==> NameOf(sections[j].header) != NameOf(sections[i].header)
    ensures Holds(root, codec, sections, LoadedAll(root, codec, sections[..n]), i)
    decreases n
  {
    LoadedAllSnoc(root, codec, sections, n - 1);
    if i < n - 1 {
      LatestLoads(root, codec, sections, i, n - 1);
    }
  }

  lemma SomeLoaded(root: nat, codec: Codec, sections: seq<Section>, n: nat, name: string)
    requires n <= |sections| && name in LoadedAll(root, codec, sections[..n])
    ensures n > 0
  {
  }

  lemma LoadedName(root: nat, codec: Codec, sections: seq<Section>, n: nat, name: string)
    requires 0 < n <= |sections| && name in LoadedAll(root, codec, sections[..n])
    ensures name == NameOf(sections[n - 1].header) || name in LoadedAll(root, codec, sections[..n - 1])
  {
    LoadedAllSnoc(root, codec, sections, n - 1);
  }

  function Named(name: string): Section -> bool {
    (s: Section) => NameOf(s.header) == name
  }

  function LastOf(p: Section -> bool, sections: seq<Section>, n: nat): (k: int)
    requires n <= |sections|
    ensures -1 <= k < n && (k >= 0 ==> p(sections[k]))
    ensures forall j :: k < j < n ==> !p(sections[j])
  {
    if n == 0 then -1 else if p(sections[n - 1]) then n - 1 else LastOf(p, sections, n - 1)
  }

  lemma {:induction false} NamedOf(root: nat, codec: Codec, sections: seq<Section>, name: string, n: nat)
    requires n <= |sections| && name in LoadedAll(root, codec, sections[..n])
    ensures LastOf(Named(name), sections, n) >= 0
  {
    SomeLoaded(root, codec, sections, n, name);
    LoadedName(root, codec, sections, n, name);
    if NameOf(sections[n - 1].header) != name {
      NamedOf(root, codec, sections, name, n - 1);
    }
  }

  lemma SectionLoads(root: nat, codec: Codec, sections: seq<Section>, i: nat)
    requires Latest(sections, i)
    ensures Holds(root, codec, sections, LoadedAll(root, codec, sections), i)
  {
    LatestLoads(root, codec, sections, i, |sections|);
    Seqs.Full(sections);
  }

  lemma SectionOf(root: nat, codec: Codec, sections: seq<Section>, name: string) returns (i: nat)
    requires name in LoadedAll(root, codec, sections)
    ensures Latest(sections, i) && NameOf(sections[i].header) == name
  {
    Seqs.Full(sections);
    NamedOf(root, codec, sections, name, |sections|);
    i := LastOf(Named(name), sections, |sections|);
    forall j | i < j < |sections| ensures NameOf(sections[j].header) != name {
      assert !Named(name)(sections[j]);
    }
  }

  ghost predicate SameHeaders(a: seq<Section>, b: seq<Section>) {
    |a| == |b| && forall i :: 0 <= i < |a| ==> a[i].header == b[i].header
  }

  lemma SameNames(root: nat, codec: Codec, a: seq<Section>, b: seq<Section>, name: string)
    requires SameHeaders(a, b) && name in LoadedAll(root, codec, a)
    ensures name in LoadedAll(root, codec, b)
  {
    var i := SectionOf(root, codec, a, name);
    SectionLoads(root, codec, b, i);
  }

  ghost predicate AllHold(root: nat, codec: Codec, sections: seq<Section>, all: Servers) {
    forall i :: Latest(sections, i) ==> Holds(root, codec, sections, all, i)
  }

  lemma LoadedHold(root: nat, codec: Codec, sections: seq<Section>)
    ensures AllHold(root, codec, sections, LoadedAll(root, codec, sections))
  {
    forall i | Latest(sections, i) ensures Holds(root, codec, sections, LoadedAll(root, codec, sections), i) {
      SectionLoads(root, codec, sections, i);
    }
  }

  lemma HeldAt(root: nat, codec: Codec, sections: seq<Section>, all: Servers, name: string)
    requires AllHold(root, codec, sections, all) && name in LoadedAll(root, codec, sections)
    ensures name in all && all[name] == LoadedAll(root, codec, sections)[name]
  {
    var i := SectionOf(root, codec, sections, name);
    SectionLoads(root, codec, sections, i);
    assert Holds(root, codec, sections, all, i);
  }

  // Sections load as given servers exactly when those that count do.
  lemma LoadsExactlyWhen(root: nat, codec: Codec, sections: seq<Section>, all: Servers)
    requires all.Keys == LoadedAll(root, codec, sections).Keys
    ensures LoadedAll(root, codec, sections) == all <==> AllHold(root, codec, sections, all)
  {
    var loaded := LoadedAll(root, codec, sections);
    LoadedHold(root, codec, sections);
    if AllHold(root, codec, sections, all) {
      forall name | name in loaded ensures name in all && all[name] == loaded[name] {
        HeldAt(root, codec, sections, all, name);
      }
      assert loaded == all;
    }
  }

  lemma SameKeys(root: nat, codec: Codec, a: seq<Section>, b: seq<Section>)
    requires SameHeaders(a, b)
    ensures LoadedAll(root, codec, a).Keys == LoadedAll(root, codec, b).Keys
  {
    forall name ensures name in LoadedAll(root, codec, a) <==> name in LoadedAll(root, codec, b) {
      if name in LoadedAll(root, codec, a) {
        SameNames(root, codec, a, b, name);
      }
      if name in LoadedAll(root, codec, b) {
        SameNames(root, codec, b, a, name);
      }
    }
  }

  // ----- the file as text -----

  function LoadText(key: string, codec: Codec, text: string): Result<Servers, YamlError> {
    Load(key, codec, SplitLinesPreserve(text))
  }

  // The text that a pass leaves behind when it writes the given servers.
  function WrittenText(key: string, codec: Codec, values: Servers, text: string): string {
    JoinLines(RewrittenFile(key, codec, values, SplitLinesPreserve(text)))
  }

  function Sections(key: string, text: string): seq<Section> {
    LayoutAt(key, SplitLinesPreserve(text)).sections
  }

  function RootOf(key: string, text: string): nat {
    RootIndent(key, SplitLinesPreserve(text))
  }

  lemma LoadOf(key: string, codec: Codec, text: string)
    requires Sections(key, text) != []
    ensures LoadText(key, codec, text) == Ok(LoadedAll(RootOf(key, text), codec, Sections(key, text)))
  {
  }

  lemma LoadedRoot(key: string, codec: Codec, text: string)
    requires LoadText(key, codec, text).Ok?
    ensures Sections(key, text) != [] && RootAt(key, SplitLinesPreserve(text)) < |SplitLinesPreserve(text)|
  {
  }

  // What is read of a written text.
  lemma WrittenSections(key: string, codec: Codec, values: Servers, text: string)
    requires codec.Lawful() && LoadText(key, codec, text).Ok?
    ensures var root, read := RootOf(key, text), ReadAll(RootOf(key, text), codec, values, Sections(key, text));
            var out := WrittenText(key, codec, values, text);
            && RootOf(key, out) == root && Sections(key, out) == read
            && LoadText(key, codec, out) == Ok(LoadedAll(root, codec, read))
  {
    var lines := SplitLinesPreserve(text);
    SplitYieldsLines(text);
    LoadedRoot(key, codec, text);
    WrittenSplits(key, codec, values, lines);
    ReadFileScans(key, codec, values, lines);
    LoadOf(key, codec, WrittenText(key, codec, values, text));
  }

  lemma SectionsApart(sections: seq<Section>, i: nat)
    requires i < |sections|
    ensures Flat(sections) ==
            Flat(sections[..i]) + ([sections[i].header] + sections[i].body + Flat(sections[i + 1..]))
  {
    FlatConcat(sections[..i], sections[i..]);
    Seqs.Halves(sections, i);
    FlatCons(sections[i], sections[i + 1..]);
    HeadTail(sections[i..]);
  }

  lemma BodyLines(key: string, text: string, i: nat)
    requires i < |Sections(key, text)|
    ensures AreLines(Sections(key, text)[i].body)
  {
    var lines, sections := SplitLinesPreserve(text), Sections(key, text);
    var l := LayoutAt(key, lines);
    SplitYieldsLines(text);
    LinesOfFile(key, lines);
    LinesSplit(lines[..RootAt(key, lines) + 1], Joined(l), false);
    LinesSplit(l.lead + Flat(sections), l.rest, false);
    LinesSplit(l.lead, Flat(sections), false);
    SectionsApart(sections, i);
    var s, rest := sections[i], Flat(sections[i + 1..]);
    LinesSplit(Flat(sections[..i]), [s.header] + s.body + rest, false);
    LinesSplit([s.header] + s.body, rest, false);
    LinesSplit([s.header], s.body, false);
  }

  // Every section of the given names has the fields to write: what a patch requires.
  ghost predicate Complete(key: string, values: Servers, text: string) {
    YamlPatch.CompleteFrom(RootOf(key, text), values, Sections(key, text), 0)
  }

  // ----- a patched text -----

  ghost predicate AllReadBack(root: nat, codec: Codec, values: Servers, sections: seq<Section>) {
    forall i: nat :: Latest(sections, i) && NameOf(sections[i].header) in values ==>
                       HasFields(root, sections[i].body)
                       && ReadsBack(root, codec, values[NameOf(sections[i].header)], sections[i].body)
  }

  lemma SectionReadsBack(root: nat, codec: Codec, values: Servers, sections: seq<Section>, i: nat)
    requires codec.Lawful() && Latest(sections, i) && AreLines(sections[i].body)
    requires NameOf(sections[i].header) in values ==> HasFields(root, sections[i].body)
    ensures Holds(root, codec, ReadAll(root, codec, values, sections),
                  Overridden(LoadedAll(root, codec, sections), values), i)
       <==> (NameOf(sections[i].header) in values ==>
               ReadsBack(root, codec, values[NameOf(sections[i].header)], sections[i].body))
  {
    SectionLoads(root, codec, sections, i);
    var name := NameOf(sections[i].header);
    if name in values {
      ReadsBackExactlyWhen(root, codec, values[name], sections[i].body);
    }
  }

  ghost predicate AllLines(sections: seq<Section>) {
    forall i :: 0 <= i < |sections| ==> AreLines(sections[i].body)
  }

  // Whether everything holds is decided section by section.
  lemma HoldExactly(root: nat, codec: Codec, sections: seq<Section>, b: seq<Section>, all: Servers,
                    good: nat -> bool)
    requires SameHeaders(sections, b) && all.Keys == LoadedAll(root, codec, sections).Keys
    requires forall i: nat :: Latest(sections, i) ==> (Holds(root, codec, b, all, i) <==> good(i))
    ensures LoadedAll(root, codec, b) == all <==> forall i: nat :: Latest(sections, i) ==> good(i)
  {
    SameKeys(root, codec, sections, b);
    LoadsExactlyWhen(root, codec, b, all);
    forall i: nat ensures Latest(b, i) <==> Latest(sections, i) {
    }
    if AllHold(root, codec, b, all) {
      forall i: nat | Latest(sections, i) ensures good(i) {
        assert Latest(b, i) && Holds(root, codec, b, all, i);
      }
    }
    if forall i: nat :: Latest(sections, i) ==> good(i) {
      forall i: nat | Latest(b, i) ensures Holds(root, codec, b, all, i) {
        assert Latest(sections, i) && good(i);
      }
    }
  }

  lemma SectionsReadBack(root: nat, codec: Codec, values: Servers, sections: seq<Section>)
    requires codec.Lawful() && AllLines(sections) && YamlPatch.CompleteFrom(root, values, sections, 0)
    ensures LoadedAll(root, codec, ReadAll(root, codec, values, sections)) ==
            Overridden(LoadedAll(root, codec, sections), values)
       <==> AllReadBack(root, codec, values, sections)
  {
    var good := (i: nat) => i < |sections| && NameOf(sections[i].header) in values ==>
          HasFields(root, sections[i].body)
          && ReadsBack(root, codec, values[NameOf(sections[i].header)], sections[i].body);
    forall i: nat | Latest(sections, i)
      ensures good(i) <==> Holds(root, codec, ReadAll(root, codec, values, sections),
                                 Overridden(LoadedAll(root, codec, sections), values), i)
    {
      SectionReadsBack(root, codec, values, sections, i);
    }
    HoldExactly(root, codec, sections, ReadAll(root, codec, values, sections),
                Overridden(LoadedAll(root, codec, sections), values), good);
  }

  lemma TextLines(key: string, text: string)
    ensures AllLines(Sections(key, text))
  {
    forall i | 0 <= i < |Sections(key, text)| ensures AreLines(Sections(key, text)[i].body) {
      BodyLines(key, text, i);
    }
  }

  // A written text loads as the original with the written servers in place of the old exactly
  // when, for each of them, the section that counts reads back what was written.
  lemma WrittenLoadsExactlyWhen(key: string, codec: Codec, values: Servers, text: string)
    requires codec.Lawful() && LoadText(key, codec, text).Ok? && Complete(key, values, text)
    ensures LoadText(key, codec, WrittenText(key, codec, values, text)) ==
            Ok(Overridden(LoadText(key, codec, text).value, values))
       <==> AllReadBack(RootOf(key, text), codec, values, Sections(key, text))
  {
    LoadedRoot(key, codec, text);
    LoadOf(key, codec, text);
    WrittenSections(key, codec, values, text);
    TextLines(key, text);
    SectionsReadBack(RootOf(key, text), codec, values, Sections(key, text));
  }

  // ----- an unpatched text -----

  ghost predicate AllRestore(root: nat, codec: Codec, values: Servers, sections: seq<Section>) {
    forall i: nat :: Latest(sections, i) && NameOf(sections[i].header) in values ==>
                       HasFields(root, sections[i].body) && Restores(root, codec, sections[i].body)
  }

  // The sections of an unpatched text.
  function Unpatched(root: nat, codec: Codec, originals: Servers, exe: string,
                     sections: seq<Section>): (r: seq<Section>)
    ensures SameHeaders(sections, r)
  {
    ReadAll(root, codec, originals, ReadAll(root, codec, Proxied(originals, exe), sections))
  }

  // The servers to restore are recorded as they loaded.
  ghost predicate Recorded(root: nat, codec: Codec, originals: Servers, s: Section) {
    NameOf(s.header) in originals ==>
      && HasFields(root, s.body) && originals[NameOf(s.header)] == Loaded(root, codec, s.body)
      && Loaded(root, codec, s.body).command != ""
  }

  lemma SectionRestored(root: nat, codec: Codec, originals: Servers, exe: string, sections: seq<Section>, i: nat)
    requires codec.Lawful() && Latest(sections, i) && AreLines(sections[i].body)
    requires Recorded(root, codec, originals, sections[i])
    ensures Holds(root, codec, Unpatched(root, codec, originals, exe, sections), LoadedAll(root, codec, sections), i)
       <==> (NameOf(sections[i].header) in originals ==> Restores(root, codec, sections[i].body))
  {
    SectionLoads(root, codec, sections, i);
    var name := NameOf(sections[i].header);
    if name in originals {
      ServerRoundTripExactlyWhen(root, codec, Proxied(originals, exe)[name], sections[i].body);
    }
  }

  lemma SectionsRestored(root: nat, codec: Codec, originals: Servers, exe: string, sections: seq<Section>)
    requires codec.Lawful() && AllLines(sections)
    requires forall i: nat :: Latest(sections, i) ==> Recorded(root, codec, originals, sections[i])
    ensures LoadedAll(root, codec, Unpatched(root, codec, originals, exe, sections)) == LoadedAll(root, codec, sections)
       <==> AllRestore(root, codec, originals, sections)
  {
    var all, twice := LoadedAll(root, codec, sections), Unpatched(root, codec, originals, exe, sections);
    var good := (i: nat) => i < |sections| && NameOf(sections[i].header) in originals ==>
          HasFields(root, sections[i].body) && Restores(root, codec, sections[i].body);
    forall i: nat | Latest(sections, i) ensures Holds(root, codec, twice, all, i) <==> good(i) {
      SectionRestored(root, codec, originals, exe, sections, i);
    }
    HoldExactly(root, codec, sections, twice, all, good);
  }

  lemma OriginalsRecorded(root: nat, codec: Codec, want: set<string>, sections: seq<Section>)
    requires YamlPatch.CompleteFrom(root, Originals(LoadedAll(root, codec, sections), want), sections, 0)
    ensures forall i: nat :: Latest(sections, i) ==>
                               Recorded(root, codec, Originals(LoadedAll(root, codec, sections), want), sections[i])
  {
    forall i: nat | Latest(sections, i)
      ensures Recorded(root, codec, Originals(LoadedAll(root, codec, sections), want), sections[i])
    {
      SectionLoads(root, codec, sections, i);
    }
  }

  lemma UnpatchedSections(key: string, codec: Codec, originals: Servers, exe: string, text: string)
    requires codec.Lawful() && LoadText(key, codec, text).Ok?
    ensures var patched := WrittenText(key, codec, Proxied(originals, exe), text);
            LoadText(key, codec, WrittenText(key, codec, originals, patched)) ==
            Ok(LoadedAll(RootOf(key, text), codec,
                            Unpatched(RootOf(key, text), codec, originals, exe, Sections(key, text))))
  {
    WrittenSections(key, codec, Proxied(originals, exe), text);
    WrittenSections(key, codec, originals, WrittenText(key, codec, Proxied(originals, exe), text));
  }

  lemma UnpatchedLoads(key: string, codec: Codec, originals: Servers, exe: string, text: string)
    requires codec.Lawful() && LoadText(key, codec, text).Ok?
    requires forall i: nat :: Latest(Sections(key, text), i) ==>
                                Recorded(RootOf(key, text), codec, originals, Sections(key, text)[i])
    ensures LoadText(key, codec, WrittenText(key, codec, originals,
                                             WrittenText(key, codec, Proxied(originals, exe), text))) ==
            LoadText(key, codec, text)
       <==> AllRestore(RootOf(key, text), codec, originals, Sections(key, text))
  {
    LoadedRoot(key, codec, text);
    LoadOf(key, codec, text);
    TextLines(key, text);
    UnpatchedSections(key, codec, originals, exe, text);
    SectionsRestored(RootOf(key, text), codec, originals, exe, Sections(key, text));
  }

  // Unpatching what a patch left loads the original servers exactly when, for each wrapped one,
  // the section that counts gets back what it loaded as.
  lemma UnpatchRestoresExactlyWhen(key: string, codec: Codec, want: set<string>, exe: string, text: string)
    requires codec.Lawful() && LoadText(key, codec, text).Ok?
    requires Complete(key, Originals(LoadText(key, codec, text).value, want), text)
    ensures var originals := Originals(LoadText(key, codec, text).value, want);
            var patched := WrittenText(key, codec, Proxied(originals, exe), text);
            LoadText(key, codec, WrittenText(key, codec, originals, patched)) == LoadText(key, codec, text)
            <==> AllRestore(RootOf(key, text), codec, originals, Sections(key, text))
  {
    LoadedRoot(key, codec, text);
    LoadOf(key, codec, text);
    OriginalsRecorded(RootOf(key, text), codec, want, Sections(key, text));
    UnpatchedLoads(key, codec, Originals(LoadText(key, codec, text).value, want), exe, text);
  }

  // ----- servers with one list of arguments -----

  // Every section of the given names has one args line, and its command line is neither in the
  // list nor what ends it.
  ghost predicate KeptText(key: string, values: Servers, text: string) {
    forall i :: 0 <= i < |Sections(key, text)| && NameOf(Sections(key, text)[i].header) in values ==>
                  IsKept(RootOf(key, text), Sections(key, text)[i].body)
  }

  // The args line of every section that counts for a given name has a newline.
  ghost predicate AllEnded(root: nat, values: Servers, sections: seq<Section>) {
    forall i: nat :: Latest(sections, i) && NameOf(sections[i].header) in values ==> ArgsEnded(root, sections[i].body)
  }

  predicate ArgsEnded(root: nat, body: seq<string>) {
    FieldsOf(root, body).a >= 0 && Terminated(body[FieldsOf(root, body).a])
  }

  lemma KeptIsComplete(key: string, values: Servers, text: string)
    requires KeptText(key, values, text)
    ensures Complete(key, values, text)
  {
  }

  lemma KeptReadsBack(root: nat, codec: Codec, v: Server, body: seq<string>)
    requires codec.Lawful() && AreLines(body) && IsKept(root, body) && v.args != []
    ensures ReadsBack(root, codec, v, body) <==> ArgsEnded(root, body)
  {
    LoadedKept(root, codec, v, body);
    ReadsBackExactlyWhen(root, codec, v, body);
  }

  lemma KeptSections(key: string, codec: Codec, values: Servers, text: string)
    requires codec.Lawful() && KeptText(key, values, text) && forall name :: name in values ==> values[name].args != []
    ensures AllReadBack(RootOf(key, text), codec, values, Sections(key, text)) <==>
            AllEnded(RootOf(key, text), values, Sections(key, text))
  {
    var root, sections := RootOf(key, text), Sections(key, text);
    TextLines(key, text);
    forall i: nat | Latest(sections, i) && NameOf(sections[i].header) in values
      ensures HasFields(root, sections[i].body)
      ensures ReadsBack(root, codec, values[NameOf(sections[i].header)], sections[i].body) <==>
              ArgsEnded(root, sections[i].body)
    {
      KeptReadsBack(root, codec, values[NameOf(sections[i].header)], sections[i].body);
    }
  }

  // A patched text loads with every selected server wrapped, and every other as it was, exactly
  // when no selected args line ends the text without a newline.
  lemma PatchedLoadsExactlyWhen(key: string, codec: Codec, want: set<string>, exe: string, text: string)
    requires codec.Lawful() && LoadText(key, codec, text).Ok?
    requires KeptText(key, Originals(LoadText(key, codec, text).value, want), text)
    ensures var before := LoadText(key, codec, text).value;
            var proxied := Proxied(Originals(before, want), exe);
            LoadText(key, codec, WrittenText(key, codec, proxied, text)) == Ok(Overridden(before, proxied))
            <==> AllEnded(RootOf(key, text), Originals(before, want), Sections(key, text))
  {
    var originals := Originals(LoadText(key, codec, text).value, want);
    var proxied := Proxied(originals, exe);
    assert KeptText(key, proxied, text);
    KeptIsComplete(key, proxied, text);
    KeptSections(key, codec, proxied, text);
    WrittenLoadsExactlyWhen(key, codec, proxied, text);
    assert AllEnded(RootOf(key, text), originals, Sections(key, text)) <==>
           AllEnded(RootOf(key, text), proxied, Sections(key, text));
  }

  // Unpatching such a text after a patch loads the original servers.
  lemma UnpatchRestoresServers(key: string, codec: Codec, want: set<string>, exe: string, text: string)
    requires codec.Lawful() && LoadText(key, codec, text).Ok?
    requires KeptText(key, Originals(LoadText(key, codec, text).value, want), text)
    ensures var originals := Originals(LoadText(key, codec, text).value, want);
            var patched := WrittenText(key, codec, Proxied(originals, exe), text);
            LoadText(key, codec, WrittenText(key, codec, originals, patched)) == LoadText(key, codec, text)
  {
    var originals := Originals(LoadText(key, codec, text).value, want);
    KeptIsComplete(key, originals, text);
    forall i: nat | Latest(Sections(key, text), i) && NameOf(Sections(key, text)[i].header) in originals
      ensures Restores(RootOf(key, text), codec, Sections(key, text)[i].body)
    {
      BodyLines(key, text, i);
      KeptRestores(RootOf(key, text), codec, Sections(key, text)[i].body);
    }
    UnpatchRestoresExactlyWhen(key, codec, want, exe, text);
  }

  // ----- patching again -----

  // A server that no patch selects.
  predicate IsSettled(s: Server) {
    s.command == "" || IsManaged(s.args)
  }

  predicate Settles(root: nat, codec: Codec, v: Server, body: seq<string>) {
    HasFields(root, body) && IsSettled(Written(root, codec, v, body))
  }

  ghost predicate AllSettled(root: nat, codec: Codec, values: Servers, sections: seq<Section>) {
    forall i: nat :: Latest(sections, i) && NameOf(sections[i].header) in values ==>
                       Settles(root, codec, values[NameOf(sections[i].header)], sections[i].body)
  }

  // The sections of a patched text, and what they load as.
  function Patched(root: nat, codec: Codec, want: set<string>, exe: string, sections: seq<Section>): (r: seq<Section>)
    ensures SameHeaders(sections, r)
  {
    ReadAll(root, codec, Proxied(Originals(LoadedAll(root, codec, sections), want), exe), sections)
  }

  // What a section that counts loads as after the patch.
  ghost predicate LoadsAs(root: nat, codec: Codec, sections: seq<Section>, name: string, s: Server) {
    name in LoadedAll(root, codec, sections) && LoadedAll(root, codec, sections)[name] == s
  }

  lemma SelectedLoads(root: nat, codec: Codec, values: Servers, sections: seq<Section>, i: nat)
    requires codec.Lawful() && Latest(sections, i) && AreLines(sections[i].body) && HasFields(root, sections[i].body)
    requires NameOf(sections[i].header) in values
    ensures var name := NameOf(sections[i].header);
            LoadsAs(root, codec, ReadAll(root, codec, values, sections), name,
                    Written(root, codec, values[name], sections[i].body))
  {
    SectionLoads(root, codec, ReadAll(root, codec, values, sections), i);
    LoadedWritten(root, codec, values[NameOf(sections[i].header)], sections[i].body);
  }

  lemma OtherLoads(root: nat, codec: Codec, values: Servers, sections: seq<Section>, i: nat)
    requires Latest(sections, i) && NameOf(sections[i].header) !in values
    ensures var name, all := NameOf(sections[i].header), LoadedAll(root, codec, sections);
            name in all && LoadsAs(root, codec, ReadAll(root, codec, values, sections), name, all[name])
  {
    SectionLoads(root, codec, sections, i);
    SectionLoads(root, codec, ReadAll(root, codec, values, sections), i);
  }

  lemma AgainWhen(before: Servers, after: Servers, want: set<string>, name: string, s: Server)
    requires name in before && name in after
    requires after[name] == if name in Originals(before, want) then s else before[name]
    ensures Selected(after, want, name) <==> name in Originals(before, want) && !IsSettled(s)
  {
  }

  // A server is selected again exactly when it was selected and what it loads as is not settled.
  lemma SelectedAgain(root: nat, codec: Codec, want: set<string>, exe: string, sections: seq<Section>, i: nat)
    requires codec.Lawful() && Latest(sections, i) && AreLines(sections[i].body)
    requires NameOf(sections[i].header) in Originals(LoadedAll(root, codec, sections), want) ==>
               HasFields(root, sections[i].body)
    ensures var proxied, name := Proxied(Originals(LoadedAll(root, codec, sections), want), exe),
                                 NameOf(sections[i].header);
            Selected(LoadedAll(root, codec, Patched(root, codec, want, exe, sections)), want, name) <==>
            name in proxied && !IsSettled(Written(root, codec, proxied[name], sections[i].body))
  {
    var before, name := LoadedAll(root, codec, sections), NameOf(sections[i].header);
    var proxied := Proxied(Originals(before, want), exe);
    var after := LoadedAll(root, codec, Patched(root, codec, want, exe, sections));
    SectionLoads(root, codec, sections, i);
    if name in proxied {
      SelectedLoads(root, codec, proxied, sections, i);
      AgainWhen(before, after, want, name, Written(root, codec, proxied[name], sections[i].body));
    } else {
      OtherLoads(root, codec, proxied, sections, i);
      AgainWhen(before, after, want, name, before[name]);
    }
  }

  lemma NothingAgainExactlyWhen(root: nat, codec: Codec, want: set<string>, exe: string, sections: seq<Section>)
    requires codec.Lawful() && AllLines(sections)
    requires YamlPatch.CompleteFrom(root, Originals(LoadedAll(root, codec, sections), want), sections, 0)
    ensures Originals(LoadedAll(root, codec, Patched(root, codec, want, exe, sections)), want) == map[] <==>
            AllSettled(root, codec, Proxied(Originals(LoadedAll(root, codec, sections), want), exe), sections)
  {
    var after := LoadedAll(root, codec, Patched(root, codec, want, exe, sections));
    if Originals(after, want) == map[] {
      var proxied := Proxied(Originals(LoadedAll(root, codec, sections), want), exe);
      forall i: nat | Latest(sections, i) && NameOf(sections[i].header) in proxied
        ensures IsSettled(Written(root, codec, proxied[NameOf(sections[i].header)], sections[i].body))
      {
        SelectedAgain(root, codec, want, exe, sections, i);
        assert NameOf(sections[i].header) !in Originals(after, want);
      }
    } else {
      var name :| name in Originals(after, want);
      SomethingAgain(root, codec, want, exe, sections, name);
    }
  }

  lemma SomethingAgain(root: nat, codec: Codec, want: set<string>, exe: string, sections: seq<Section>, name: string)
    requires codec.Lawful() && AllLines(sections)
    requires YamlPatch.CompleteFrom(root, Originals(LoadedAll(root, codec, sections), want), sections, 0)
    requires Selected(LoadedAll(root, codec, Patched(root, codec, want, exe, sections)), want, name)
    ensures !AllSettled(root, codec, Proxied(Originals(LoadedAll(root, codec, sections), want), exe), sections)
  {
    SameNames(root, codec, Patched(root, codec, want, exe, sections), sections, name);
    var i := SectionOf(root, codec, sections, name);
    SelectedAgain(root, codec, want, exe, sections, i);
  }

  lemma NothingRewritten(key: string, codec: Codec, lines: seq<string>)
    ensures RewrittenFile(key, codec, map[], lines) == lines
  {
    if RootAt(key, lines) < |lines| {
      LinesOfFile(key, lines);
      var sections := LayoutAt(key, lines).sections;
      assert RewrittenAll(RootIndent(key, lines), codec, map[], sections) == sections;
    }
  }

  lemma NothingWritten(key: string, codec: Codec, exe: string, text: string)
    ensures WrittenText(key, codec, Proxied(map[], exe), text) == text
  {
    assert Proxied(map[], exe) == map[];
    NothingRewritten(key, codec, SplitLinesPreserve(text));
    SplitYieldsLines(text);
  }

  // Patching what a patch left selects nothing, and changes nothing, exactly when no wrapped server
  // loads as one to be wrapped.
  lemma PatchAgainExactlyWhen(key: string, codec: Codec, want: set<string>, exe: string, text: string)
    requires codec.Lawful() && LoadText(key, codec, text).Ok?
    requires Complete(key, Originals(LoadText(key, codec, text).value, want), text)
    ensures var proxied := Proxied(Originals(LoadText(key, codec, text).value, want), exe);
            var patched := WrittenText(key, codec, proxied, text);
            && LoadText(key, codec, patched).Ok?
            && (Originals(LoadText(key, codec, patched).value, want) == map[]
                <==> AllSettled(RootOf(key, text), codec, proxied, Sections(key, text)))
            && WrittenText(key, codec, Proxied(map[], exe), patched) == patched
  {
    var originals := Originals(LoadText(key, codec, text).value, want);
    LoadedRoot(key, codec, text);
    LoadOf(key, codec, text);
    TextLines(key, text);
    WrittenSections(key, codec, Proxied(originals, exe), text);
    NothingAgainExactlyWhen(RootOf(key, text), codec, want, exe, Sections(key, text));
    NothingWritten(key, codec, exe, WrittenText(key, codec, Proxied(originals, exe), text));
  }

  lemma KeptSettles(root: nat, codec: Codec, v: Server, body: seq<string>)
    requires codec.Lawful() && AreLines(body) && IsKept(root, body) && IsManaged(v.args)
    ensures Settles(root, codec, v, body) <==> v.command == "" || ArgsEnded(root, body)
  {
    LoadedWritten(root, codec, v, body);
    LoadedKept(root, codec, v, body);
  }

  lemma ProxiedIs(originals: Servers, exe: string, name: string)
    requires name in originals
    ensures name in Proxied(originals, exe) && IsManaged(Proxied(originals, exe)[name].args)
    ensures Proxied(originals, exe)[name].command == exe
  {
  }

  lemma KeptAllSettle(key: string, codec: Codec, originals: Servers, exe: string, text: string)
    requires codec.Lawful() && KeptText(key, originals, text)
    ensures AllSettled(RootOf(key, text), codec, Proxied(originals, exe), Sections(key, text)) <==>
            exe == "" || AllEnded(RootOf(key, text), originals, Sections(key, text))
  {
    var root, sections, proxied := RootOf(key, text), Sections(key, text), Proxied(originals, exe);
    forall i: nat | Latest(sections, i) && NameOf(sections[i].header) in originals
      ensures NameOf(sections[i].header) in proxied
      ensures Settles(root, codec, proxied[NameOf(sections[i].header)], sections[i].body) <==>
              exe == "" || ArgsEnded(root, sections[i].body)
    {
      BodyLines(key, text, i);
      ProxiedIs(originals, exe, NameOf(sections[i].header));
      KeptSettles(root, codec, proxied[NameOf(sections[i].header)], sections[i].body);
    }
  }

  // Where each selected server has one list of arguments, that is exactly when no selected args
  // line ends the text without a newline (or the proxy has no name).
  lemma KeptPatchAgainExactlyWhen(key: string, codec: Codec, want: set<string>, exe: string, text: string)
    requires codec.Lawful() && LoadText(key, codec, text).Ok?
    requires KeptText(key, Originals(LoadText(key, codec, text).value, want), text)
    ensures var originals := Originals(LoadText(key, codec, text).value, want);
            var patched := WrittenText(key, codec, Proxied(originals, exe), text);
            && LoadText(key, codec, patched).Ok?
            && (Originals(LoadText(key, codec, patched).value, want) == map[]
                <==> exe == "" || AllEnded(RootOf(key, text), originals, Sections(key, text)))
  {
    var originals := Originals(LoadText(key, codec, text).value, want);
    KeptIsComplete(key, originals, text);
    PatchAgainExactlyWhen(key, codec, want, exe, text);
    KeptAllSettle(key, codec, originals, exe, text);
  }

  // ----- unpatching, to the character -----

  // The command line of every section of the given names is neither in the list of arguments nor
  // what ends it.
  ghost predicate SteadyText(key: string, values: Servers, text: string) {
    forall i :: 0 <= i < |Sections(key, text)| && NameOf(Sections(key, text)[i].header) in values ==>
                  IsSteady(RootOf(key, text), Sections(key, text)[i].body)
  }

  lemma ReadTwice(key: string, codec: Codec, originals: Servers, exe: string, text: string)
    requires codec.Lawful() && SteadyText(key, originals, text)
    ensures Unpatched(RootOf(key, text), codec, originals, exe, Sections(key, text)) ==
            ReadAll(RootOf(key, text), codec, originals, Sections(key, text))
  {
    var root, sections := RootOf(key, text), Sections(key, text);
    TextLines(key, text);
    forall i | 0 <= i < |sections|
      ensures Unpatched(root, codec, originals, exe, sections)[i] == ReadAll(root, codec, originals, sections)[i]
    {
      var name := NameOf(sections[i].header);
      if name in originals {
        RewrittenTwice(root, codec, Proxied(originals, exe)[name], originals[name], sections[i].body);
      }
    }
  }

  lemma ReadFileTwice(key: string, codec: Codec, originals: Servers, exe: string, text: string)
    requires codec.Lawful() && LoadText(key, codec, text).Ok? && SteadyText(key, originals, text)
    ensures var lines := SplitLinesPreserve(text);
            ReadFile(key, codec, originals, ReadFile(key, codec, Proxied(originals, exe), lines)) ==
            ReadFile(key, codec, originals, lines)
  {
    LoadedRoot(key, codec, text);
    ReadFileScans(key, codec, Proxied(originals, exe), SplitLinesPreserve(text));
    ReadTwice(key, codec, originals, exe, text);
  }

  // Then what unpatching leaves is the original text with the recorded fields written into it.
  lemma UnpatchedText(key: string, codec: Codec, originals: Servers, exe: string, text: string)
    requires codec.Lawful() && LoadText(key, codec, text).Ok? && SteadyText(key, originals, text)
    ensures WrittenText(key, codec, originals, WrittenText(key, codec, Proxied(originals, exe), text)) ==
            WrittenText(key, codec, originals, text)
  {
    var lines := SplitLinesPreserve(text);
    SplitYieldsLines(text);
    WrittenSplits(key, codec, Proxied(originals, exe), lines);
    ReadFileText(key, codec, originals, ReadFile(key, codec, Proxied(originals, exe), lines));
    ReadFileText(key, codec, originals, lines);
    ReadFileTwice(key, codec, originals, exe, text);
  }

  // ----- an args line without a newline -----

  predicate IsPlainWord(s: string) {
    s != "" && forall i :: 0 <= i < |s| ==> IsBareChar(s[i])
  }

  function HeaderLine(n: nat, word: string): string {
    Spaces(n) + (word + ":") + LineEnding("\n")
  }

  // One server whose args line, without arguments, ends the file without a newline.
  function UnendedBody(codec: Codec, command: string): seq<string> {
    [CommandLine(0, codec, command, "\n"), ArgsHead(0, "")]
  }

  function UnendedServer(name: string, codec: Codec, command: string): Section {
    Section(HeaderLine(2, name), UnendedBody(codec, command))
  }

  function UnendedText(key: string, name: string, codec: Codec, command: string): string {
    JoinLines([HeaderLine(0, key)] + ([HeaderLine(2, name)] + UnendedBody(codec, command)))
  }

  lemma HeaderIsLine(n: nat, word: string)
    requires IsPlainWord(word)
    ensures IsLineLike("\n", HeaderLine(n, word))
  {
    assert forall i :: 0 <= i < |word| ==> word[i] != '\n';
    NoNewlines(n, word, ":");
    EndedLine(Spaces(n) + (word + ":"), "\n");
  }

  lemma HeaderReads(n: nat, word: string)
    requires IsPlainWord(word)
    ensures TrimSpace(HeaderLine(n, word)) == word + ":" && Indent(HeaderLine(n, word)) == n
  {
    IndentedLine(n, word + ":", "\n");
  }

  lemma HeaderIsRoot(word: string)
    requires IsPlainWord(word)
    ensures IsRoot(word, HeaderLine(0, word)) && Indent(HeaderLine(0, word)) == 0
  {
    HeaderReads(0, word);
    assert "#"[0] == '#';
  }

  lemma HeaderIsStart(word: string)
    requires IsPlainWord(word)
    ensures IsStart(0, HeaderLine(2, word)) && NameOf(HeaderLine(2, word)) == word
  {
    HeaderReads(2, word);
    Seqs.Snoc(word, ':');
    assert "#"[0] == '#';
  }

  lemma UnendedAreLines(name: string, codec: Codec, command: string)
    requires codec.Lawful() && IsPlainWord(name)
    ensures AreLines([HeaderLine(2, name)] + UnendedBody(codec, command))
  {
    HeaderIsLine(2, name);
    CommandIsLine(0, codec, command, "\n");
    HeadIsLine(0, "");
    assert LinesTo([HeaderLine(2, name)], true) && LinesTo([CommandLine(0, codec, command, "\n")], true);
    LinesConcat([CommandLine(0, codec, command, "\n")], [ArgsHead(0, "")], false);
    LinesConcat([HeaderLine(2, name)], UnendedBody(codec, command), false);
  }

  lemma UnendedPlain(codec: Codec, command: string)
    requires codec.Lawful()
    ensures ArePlain(0, UnendedBody(codec, command))
  {
    WrittenCommand(0, codec, command, "\n");
    WrittenHead(0, "");
  }

  lemma UnendedScans(name: string, codec: Codec, command: string)
    requires codec.Lawful() && IsPlainWord(name)
    ensures Scan(0, [HeaderLine(2, name)] + UnendedBody(codec, command)) ==
            Layout([], [UnendedServer(name, codec, command)], [])
  {
    var l := Layout([], [UnendedServer(name, codec, command)], []);
    HeaderIsStart(name);
    UnendedPlain(codec, command);
    FlatOne(l.sections[0]);
    Seqs.Nothing(Flat(l.sections));
    ScanUnique(0, l);
  }

  lemma UnendedSplits(key: string, name: string, codec: Codec, command: string)
    requires codec.Lawful() && IsPlainWord(key) && IsPlainWord(name)
    ensures SplitLinesPreserve(UnendedText(key, name, codec, command)) ==
            [HeaderLine(0, key)] + ([HeaderLine(2, name)] + UnendedBody(codec, command))
  {
    var rest := [HeaderLine(2, name)] + UnendedBody(codec, command);
    HeaderIsLine(0, key);
    UnendedAreLines(name, codec, command);
    assert LinesTo([HeaderLine(0, key)], true);
    LinesConcat([HeaderLine(0, key)], rest, false);
    SplitJoin([HeaderLine(0, key)] + rest);
  }

  lemma UnendedRoot(key: string, name: string, codec: Codec, command: string)
    requires codec.Lawful() && IsPlainWord(key) && IsPlainWord(name)
    ensures var text := UnendedText(key, name, codec, command);
            RootOf(key, text) == 0 && Sections(key, text) == [UnendedServer(name, codec, command)]
  {
    var rest := [HeaderLine(2, name)] + UnendedBody(codec, command);
    UnendedSplits(key, name, codec, command);
    HeaderIsRoot(key);
    FirstIs(Root(key), [HeaderLine(0, key)] + rest, 0, 0);
    Seqs.Cons(HeaderLine(0, key), rest);
    UnendedScans(name, codec, command);
  }

  lemma UnendedIsKept(codec: Codec, command: string)
    requires codec.Lawful()
    ensures var body := UnendedBody(codec, command);
            && FieldsOf(0, body) == Edit(0, 1, 2) && IsKept(0, body) && !ArgsEnded(0, body)
            && Loaded(0, codec, body) == Server(command, [])
  {
    var body := UnendedBody(codec, command);
    WrittenCommand(0, codec, command, "\n");
    WrittenHead(0, "");
    LastIs(Field(0, Command), body, 0);
    LastIs(Field(0, Args), body, 1);
    FirstIs(Stop(0), body, 2, 2);
    GatheredUpTo(Field(0, Args), Stop(0), Reader(codec), body, 0, 1);
    assert body[2..2] == [];
  }

  lemma OneLoads(codec: Codec, s: Section)
    ensures LoadedAll(0, codec, [s]) == map[NameOf(s.header) := Loaded(0, codec, s.body)]
  {
    LoadedAllSnoc(0, codec, [s], 0);
    Seqs.Full([s]);
  }

  lemma UnendedLoads(key: string, name: string, codec: Codec, command: string)
    requires codec.Lawful() && IsPlainWord(key) && IsPlainWord(name)
    ensures var text := UnendedText(key, name, codec, command);
            LoadText(key, codec, text) == Ok(map[name := Server(command, [])])
  {
    UnendedRoot(key, name, codec, command);
    HeaderIsStart(name);
    UnendedIsKept(codec, command);
    LoadOf(key, codec, UnendedText(key, name, codec, command));
    OneLoads(codec, UnendedServer(name, codec, command));
  }

  lemma UnendedWritten(key: string, name: string, codec: Codec, command: string, values: Servers)
    requires codec.Lawful() && IsPlainWord(key) && IsPlainWord(name) && name in values
    ensures var text := UnendedText(key, name, codec, command);
            LoadText(key, codec, WrittenText(key, codec, values, text)) ==
            Ok(map[name := Server(values[name].command, [])])
  {
    var text, s := UnendedText(key, name, codec, command), UnendedServer(name, codec, command);
    UnendedRoot(key, name, codec, command);
    UnendedLoads(key, name, codec, command);
    HeaderIsStart(name);
    UnendedIsKept(codec, command);
    WrittenSections(key, codec, values, text);
    UnendedAreLines(name, codec, command);
    LinesSplit([HeaderLine(2, name)], UnendedBody(codec, command), false);
    LoadedKept(0, codec, values[name], s.body);
    assert ReadAll(0, codec, values, [s]) == [ReadSection(0, codec, values, s)];
    OneLoads(codec, ReadSection(0, codec, values, s));
  }

  lemma OneSelected(name: string, command: string)
    requires command != ""
    ensures Originals(map[name := Server(command, [])], {}) == map[name := Server(command, [])]
  {
  }

  lemma UnendedKeptText(key: string, name: string, codec: Codec, command: string, values: Servers)
    requires codec.Lawful() && IsPlainWord(key) && IsPlainWord(name)
    ensures KeptText(key, values, UnendedText(key, name, codec, command))
  {
    UnendedRoot(key, name, codec, command);
    UnendedIsKept(codec, command);
  }

  // A file that a patch spoils: the written arguments run together on one line, the server loads
  // without any, and the next patch takes the proxy for the original command.
  lemma UnendedIsPatchedAgain(key: string, name: string, codec: Codec, command: string, exe: string)
    requires codec.Lawful() && IsPlainWord(key) && IsPlainWord(name) && command != "" && exe != ""
    ensures var text, before := UnendedText(key, name, codec, command), map[name := Server(command, [])];
            var patched := WrittenText(key, codec, Proxied(before, exe), text);
            && LoadText(key, codec, text) == Ok(before) && Originals(before, {}) == before
            && KeptText(key, before, text)
            && LoadText(key, codec, patched) == Ok(map[name := Server(exe, [])])
            && Originals(map[name := Server(exe, [])], {}) == map[name := Server(exe, [])]
  {
    var before := map[name := Server(command, [])];
    UnendedLoads(key, name, codec, command);
    UnendedKeptText(key, name, codec, command, before);
    OneSelected(name, command);
    OneSelected(name, exe);
    UnendedWritten(key, name, codec, command, Proxied(before, exe));
  }
}
