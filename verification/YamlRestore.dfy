/** Rewriting one server of a YAML configuration and reading it back. */
module YamlRestore {
  import opened Basics
  import opened HostServers
  import opened LineSplice
  import Seqs
  import opened Text
  import opened YamlServers

  // ----- the parts of a file -----

  predicate IsPlain(root: nat, line: string) {
    !IsClose(root, line) && !IsStart(root, line)
  }

  ghost predicate ArePlain(root: nat, lines: seq<string>) {
    forall i :: 0 <= i < |lines| ==> IsPlain(root, lines[i])
  }

  // What a scan yields: servers under their headers, and a rest that begins where servers end.
  ghost predicate IsLayout(root: nat, l: Layout) {
    && ArePlain(root, l.lead)
    && (forall i :: 0 <= i < |l.sections| ==> IsStart(root, l.sections[i].header) && ArePlain(root, l.sections[i].body))
    && (l.rest == [] || IsClose(root, l.rest[0]))
  }

  lemma {:induction false} FlatConcat(a: seq<Section>, b: seq<Section>)
    ensures Flat(a + b) == Flat(a) + Flat(b)
  {
    if b == [] {
      Seqs.Nothing(a);
      Seqs.Nothing(Flat(a));
    } else {
      var front, last := b[..|b| - 1], b[|b| - 1];
      FlatConcat(a, front);
      Seqs.FrontLast(b);
      Seqs.Assoc(a, front, [last]);
      Seqs.Snoc(a + front, last);
      Seqs.Assoc(Flat(a), Flat(front), [last.header] + last.body);
    }
  }

  lemma FlatOne(s: Section)
    ensures Flat([s]) == [s.header] + s.body
  {
    assert [s][..0] == [];
    Seqs.Nothing([s.header] + s.body);
  }

  lemma FlatCons(s: Section, sections: seq<Section>)
    ensures Flat([s] + sections) == [s.header] + s.body + Flat(sections)
  {
    FlatConcat([s], sections);
    FlatOne(s);
  }

  lemma ExtendedJoined(root: nat, line: string, l: Layout)
    ensures Joined(Extended(root, line, l)) == [line] + Joined(l)
  {
    if IsStart(root, line) {
      FlatCons(Section(line, l.lead), l.sections);
      Seqs.Nothing([line] + l.lead + Flat(l.sections));
    }
    Seqs.Assoc([line], l.lead, Flat(l.sections));
    Seqs.Assoc([line], l.lead + Flat(l.sections), l.rest);
  }

  lemma ExtendedIsLayout(root: nat, line: string, l: Layout)
    requires IsLayout(root, l) && !IsClose(root, line)
    ensures IsLayout(root, Extended(root, line, l))
  {
  }

  // The parts of a scan make up the lines ...
  lemma {:induction false} ScanParts(root: nat, lines: seq<string>)
    ensures IsLayout(root, Scan(root, lines)) && Joined(Scan(root, lines)) == lines
  {
    if lines == [] || IsClose(root, lines[0]) {
      Seqs.Nothing(lines);
    } else {
      ScanParts(root, lines[1..]);
      ExtendedIsLayout(root, lines[0], Scan(root, lines[1..]));
      ExtendedJoined(root, lines[0], Scan(root, lines[1..]));
      HeadTail(lines);
    }
  }

  lemma HeadTail<T>(s: seq<T>)
    requires s != []
    ensures s == [s[0]] + s[1..]
  {
  }

  // A layout with servers or a lead, less its first line.
  lemma Shrunk(root: nat, l: Layout) returns (line: string, less: Layout)
    requires IsLayout(root, l) && (l.lead != [] || l.sections != [])
    ensures IsLayout(root, less) && !IsClose(root, line) && l == Extended(root, line, less)
  {
    if l.lead != [] {
      line, less := l.lead[0], l.(lead := l.lead[1..]);
      HeadTail(l.lead);
    } else {
      line, less := l.sections[0].header, Layout(l.sections[0].body, l.sections[1..], l.rest);
      HeadTail(l.sections);
    }
  }

  lemma ScanCons(root: nat, line: string, lines: seq<string>)
    requires !IsClose(root, line)
    ensures Scan(root, [line] + lines) == Extended(root, line, Scan(root, lines))
  {
    Seqs.Cons(line, lines);
  }

  // ... and no other parts do.
  lemma {:induction false} ScanUnique(root: nat, l: Layout)
    requires IsLayout(root, l)
    ensures Scan(root, Joined(l)) == l
    decreases |Joined(l)|
  {
    if l.lead != [] || l.sections != [] {
      var line, less := Shrunk(root, l);
      ExtendedJoined(root, line, less);
      ScanUnique(root, less);
      ScanCons(root, line, Joined(less));
    } else {
      Seqs.Nothing(l.rest);
    }
  }

  // ----- the lines that are written -----

  lemma ScalarTight(codec: Codec, s: string)
    requires codec.Lawful()
    ensures Tight(ScalarText(codec, s), IsSpace) && ParseScalar(codec, ScalarText(codec, s)) == s
    ensures !EndsInColon(ScalarText(codec, s))
  {
    if IsBare(s) {
      BareReads(codec, s);
    } else {
      QuotedReads(codec, s);
    }
  }

  lemma BareReads(codec: Codec, s: string)
    requires IsBare(s)
    ensures Tight(s, IsSpace) && !EndsInColon(s) && ParseScalar(codec, s) == s
  {
    TrimTight(s, IsSpace);
  }

  lemma QuotedReads(codec: Codec, s: string)
    requires codec.Lawful()
    ensures var q := codec.quote(s); Tight(q, IsSpace) && !EndsInColon(q) && ParseScalar(codec, q) == s
  {
    var q := codec.quote(s);
    assert q[0] == '"' && q[|q| - 1] == '"' && codec.unquote(q) == Some(s);
    assert Tight(q, IsSpace);
    TrimTight(q, IsSpace);
  }

  lemma PrefixedTight(pre: string, s: string)
    requires Tight(s, IsSpace) && pre != "" && !IsSpace(pre[0])
    ensures Tight(pre + s, IsSpace) && (pre + s)[|pre + s| - 1] == s[|s| - 1] && pre <= pre + s
  {
  }

  lemma WrittenCommand(root: nat, codec: Codec, command: string, old_: string)
    requires codec.Lawful()
    ensures var l := CommandLine(root, codec, command, old_);
            && IsField(root, Command, l) && !IsField(root, Args, l) && !IsStop(root, l) && IsPlain(root, l)
            && CommandOn(codec, l) == command && LineEnding(l) == LineEnding(old_) && !("- " <= TrimSpace(l))
  {
    var t := ScalarText(codec, command);
    ScalarTight(codec, command);
    PrefixedTight("command: ", t);
    var body := "command: " + t;
    IndentedLine(root + 4, body, old_);
    assert body[0] == 'c' && "args:"[0] == 'a' && "- "[0] == '-';
    assert "command:" <= "command: " <= body;
    assert body[|"command:"|..] == " " + t;
    TrimPadded(t);
    TrimTight(t, IsSpace);
  }

  lemma WrittenHead(root: nat, old_: string)
    ensures var l := ArgsHead(root, old_);
            IsField(root, Args, l) && !IsField(root, Command, l) && IsPlain(root, l)
            && LineEnding(l) == LineEnding(old_)
  {
    IndentedLine(root + 4, "args:", old_);
    assert "args:"[0] == 'a' && "command:"[0] == 'c' && "#"[0] == '#';
  }

  lemma WrittenItem(root: nat, codec: Codec, arg: string, old_: string)
    requires codec.Lawful()
    ensures var l := ItemLine(root, codec, arg, old_);
            && (forall w :: !IsField(root, w, l)) && !IsStop(root, l) && IsPlain(root, l)
            && "- " <= TrimSpace(l) && ParseScalar(codec, TrimSpace(TrimSpace(l)[2..])) == arg
  {
    var q := codec.quote(arg);
    QuotedReads(codec, arg);
    PrefixedTight("- ", q);
    IndentedLine(root + 6, "- " + q, old_);
    assert ("- " + q)[2..] == q;
    TrimTight(q, IsSpace);
  }

  // ----- a written list as it is read back -----

  // What is written over an args line takes that line's ending. Without one, the lines run
  // together, and are a single line when the file is read again.
  function BlockRead(root: nat, codec: Codec, args: seq<string>, old_: string): (r: seq<string>)
    ensures r != []
  {
    var block := ArgsLines(root, codec, args, old_);
    if Terminated(old_) then block else [JoinLines(block)]
  }

  function MergedText(root: nat, codec: Codec, args: seq<string>): string {
    if args == [] then "args:"
    else
      MergedText(root, codec, args[..|args| - 1]) + (Spaces(root + 6) + ("- " + codec.quote(args[|args| - 1])))
  }

  lemma ArgsLinesSnoc(root: nat, codec: Codec, args: seq<string>, old_: string)
    requires args != []
    ensures ArgsLines(root, codec, args, old_) ==
            ArgsLines(root, codec, args[..|args| - 1], old_) + [ItemLine(root, codec, args[|args| - 1], old_)]
  {
  }

  lemma NoEnding(root: nat, codec: Codec, arg: string, old_: string)
    requires !Terminated(old_)
    ensures LineEnding(old_) == "" && ArgsHead(root, old_) == Spaces(root + 4) + "args:"
    ensures ItemLine(root, codec, arg, old_) == Spaces(root + 6) + ("- " + codec.quote(arg))
  {
    Seqs.Nothing(Spaces(root + 4) + "args:");
    Seqs.Nothing(Spaces(root + 6) + ("- " + codec.quote(arg)));
  }

  lemma {:induction false} MergedIs(root: nat, codec: Codec, args: seq<string>, old_: string)
    requires !Terminated(old_)
    ensures JoinLines(ArgsLines(root, codec, args, old_)) == Spaces(root + 4) + MergedText(root, codec, args)
  {
    if args == [] {
      NoEnding(root, codec, "", old_);
      Seqs.Nothing(ArgsHead(root, old_));
      JoinLinesSnoc([], ArgsHead(root, old_));
      Seqs.Nothing([ArgsHead(root, old_)]);
    } else {
      var front, arg := args[..|args| - 1], args[|args| - 1];
      MergedIs(root, codec, front, old_);
      ArgsLinesSnoc(root, codec, args, old_);
      NoEnding(root, codec, arg, old_);
      JoinLinesSnoc(ArgsLines(root, codec, front, old_), ItemLine(root, codec, arg, old_));
      Seqs.Assoc(Spaces(root + 4), MergedText(root, codec, front), ItemLine(root, codec, arg, old_));
    }
  }

  // Text that begins an args line, with nothing behind the colon or with something.
  ghost predicate IsArgsText(t: string, bare: bool) {
    |t| >= 5 && t[..5] == "args:" && !IsSpace(t[|t| - 1]) && (t[|t| - 1] == ':' <==> bare)
  }

  lemma ArgsTextGrows(t: string, bare: bool, more: string)
    requires IsArgsText(t, bare) && more != "" && more[|more| - 1] == '"'
    ensures IsArgsText(t + more, false)
  {
    assert (t + more)[..5] == t[..5];
  }

  lemma ItemEnds(root: nat, codec: Codec, arg: string)
    requires codec.Lawful()
    ensures var more := Spaces(root + 6) + ("- " + codec.quote(arg)); more != "" && more[|more| - 1] == '"'
  {
    var q := codec.quote(arg);
    assert |q| >= 2 && q[|q| - 1] == '"';
  }

  lemma {:induction false} MergedTextIs(root: nat, codec: Codec, args: seq<string>)
    requires codec.Lawful()
    ensures IsArgsText(MergedText(root, codec, args), args == [])
  {
    if args != [] {
      var front, arg := args[..|args| - 1], args[|args| - 1];
      MergedTextIs(root, codec, front);
      ItemEnds(root, codec, arg);
      ArgsTextGrows(MergedText(root, codec, front), front == [], Spaces(root + 6) + ("- " + codec.quote(arg)));
    }
  }

  lemma {:induction false} MergedOneLine(root: nat, codec: Codec, args: seq<string>)
    requires codec.Lawful()
    ensures '\n' !in MergedText(root, codec, args)
  {
    if args != [] {
      MergedOneLine(root, codec, args[..|args| - 1]);
      assert '\n' !in codec.quote(args[|args| - 1]);
    }
  }

  // An args line that says more than that.
  ghost predicate IsArgs(root: nat, l: string) {
    IsField(root, Args, l) && !IsField(root, Command, l) && IsPlain(root, l) && !("- " <= TrimSpace(l))
  }

  lemma FieldIsPlain(root: nat, line: string)
    requires Indent(line) == root + 4
    ensures IsPlain(root, line)
  {
  }

  lemma StartsLikeArgs(root: nat, line: string, t: string)
    requires |t| >= 5 && t[..5] == "args:" && TrimSpace(line) == t
    ensures "args:" <= t && !IsField(root, Command, line) && !("- " <= t)
  {
    assert t[0] == 'a' && "command:"[0] == 'c' && "- "[0] == '-';
  }

  lemma ArgsTextIs(root: nat, t: string, bare: bool)
    requires IsArgsText(t, bare)
    ensures IsArgs(root, Spaces(root + 4) + t)
  {
    var l := Spaces(root + 4) + t;
    assert t[0] == 'a';
    IndentedLine(root + 4, t, "");
    Seqs.Nothing(l);
    StartsLikeArgs(root, l, t);
    FieldIsPlain(root, l);
  }

  lemma StopExactly(root: nat, line: string, t: string)
    requires TrimSpace(line) == t != "" && t[0] != '#' && Indent(line) <= root + 4
    ensures IsStop(root, line) <==> t[|t| - 1] == ':'
  {
    assert "#"[0] == '#';
  }

  lemma ArgsTextStops(root: nat, t: string, bare: bool)
    requires IsArgsText(t, bare)
    ensures IsStop(root, Spaces(root + 4) + t) <==> bare
  {
    assert t[0] == 'a';
    IndentedLine(root + 4, t, "");
    Seqs.Nothing(Spaces(root + 4) + t);
    StopExactly(root, Spaces(root + 4) + t, t);
  }

  // Lines that are run together are one args line, and a list without items.
  lemma Merged(root: nat, codec: Codec, args: seq<string>, old_: string)
    requires codec.Lawful() && !Terminated(old_)
    ensures IsArgs(root, JoinLines(ArgsLines(root, codec, args, old_)))
  {
    MergedIs(root, codec, args, old_);
    MergedTextIs(root, codec, args);
    ArgsTextIs(root, MergedText(root, codec, args), args == []);
  }

  lemma MergedStops(root: nat, codec: Codec, args: seq<string>, old_: string)
    requires codec.Lawful() && !Terminated(old_)
    ensures IsStop(root, JoinLines(ArgsLines(root, codec, args, old_))) <==> args == []
  {
    MergedIs(root, codec, args, old_);
    MergedTextIs(root, codec, args);
    ArgsTextStops(root, MergedText(root, codec, args), args == []);
  }

  lemma MergedIsOne(root: nat, codec: Codec, args: seq<string>, old_: string)
    requires codec.Lawful() && !Terminated(old_)
    ensures var l := JoinLines(ArgsLines(root, codec, args, old_)); l != "" && '\n' !in l
  {
    MergedIs(root, codec, args, old_);
    MergedTextIs(root, codec, args);
    MergedOneLine(root, codec, args);
  }

  lemma BlockReadIsBlock(root: nat, codec: Codec, args: seq<string>, old_: string)
    requires codec.Lawful()
    ensures IsBlock(Field(root, Command), Field(root, Args), Stop(root), BlockRead(root, codec, args, old_))
  {
    if Terminated(old_) {
      WrittenHead(root, old_);
      var block := ArgsLines(root, codec, args, old_);
      forall i | 1 <= i < |block|
        ensures !IsField(root, Args, block[i]) && !IsField(root, Command, block[i]) && !IsStop(root, block[i])
      {
        WrittenItem(root, codec, args[i - 1], old_);
      }
    } else {
      Merged(root, codec, args, old_);
    }
  }

  lemma MergedEnding(root: nat, codec: Codec, args: seq<string>, old_: string)
    requires codec.Lawful() && !Terminated(old_)
    ensures LineEnding(JoinLines(ArgsLines(root, codec, args, old_))) == "" == LineEnding(old_)
  {
    MergedIsOne(root, codec, args, old_);
    NoNewline(JoinLines(ArgsLines(root, codec, args, old_)));
    EndingTerminates(old_);
  }

  // The first of them ends as the overwritten line did.
  lemma BlockReadEnding(root: nat, codec: Codec, args: seq<string>, old_: string)
    requires codec.Lawful()
    ensures LineEnding(BlockRead(root, codec, args, old_)[0]) == LineEnding(old_)
  {
    if Terminated(old_) {
      WrittenHead(root, old_);
    } else {
      MergedEnding(root, codec, args, old_);
    }
  }

  lemma BlockReadItems(root: nat, codec: Codec, args: seq<string>, old_: string)
    requires codec.Lawful()
    ensures Items(codec, BlockRead(root, codec, args, old_)[1..]) == if Terminated(old_) then args else []
  {
    if Terminated(old_) {
      ItemsOf(root, codec, args, old_, ArgsLines(root, codec, args, old_)[1..]);
    }
  }

  lemma NothingRead(codec: Codec, lines: seq<string>, line: string)
    requires !("- " <= TrimSpace(line))
    ensures Items(codec, lines + [line]) == Items(codec, lines)
  {
    Seqs.Snoc(lines, line);
  }

  // What is read before them ends there, or nothing is read of them.
  lemma BlockReadEnds(root: nat, codec: Codec, args: seq<string>, old_: string, tail: seq<string>)
    requires codec.Lawful() && (Terminated(old_) || tail == [])
    ensures Ends(Stop(root), Reader(codec), BlockRead(root, codec, args, old_) + tail)
  {
    if Terminated(old_) {
      WrittenHead(root, old_);
      HeadStops(root, old_);
    } else {
      var l := JoinLines(ArgsLines(root, codec, args, old_));
      Merged(root, codec, args, old_);
      MergedStops(root, codec, args, old_);
      Seqs.Nothing([l]);
      forall lines: seq<string> ensures Items(codec, lines + [l]) == Items(codec, lines) {
        NothingRead(codec, lines, l);
      }
    }
  }

  lemma HeadStops(root: nat, old_: string)
    ensures IsStop(root, ArgsHead(root, old_))
  {
    IndentedLine(root + 4, "args:", old_);
    StopExactly(root, ArgsHead(root, old_), "args:");
  }

  lemma {:induction false} ItemsOf(root: nat, codec: Codec, args: seq<string>, old_: string, lines: seq<string>)
    requires codec.Lawful() && |lines| == |args|
    requires forall i :: 0 <= i < |args| ==> lines[i] == ItemLine(root, codec, args[i], old_)
    ensures Items(codec, lines) == args
  {
    if args != [] {
      var n := |args| - 1;
      ItemsOf(root, codec, args[..n], old_, lines[..n]);
      WrittenItem(root, codec, args[n], old_);
      Seqs.FrontLast(args);
    }
  }

  lemma {:induction false} ItemsConcat(codec: Codec, a: seq<string>, b: seq<string>)
    ensures Items(codec, a + b) == Items(codec, a) + Items(codec, b)
  {
    if b == [] {
      Seqs.Nothing(a);
      Seqs.Nothing(Items(codec, a));
    } else {
      var front, last := b[..|b| - 1], b[|b| - 1];
      ItemsConcat(codec, a, front);
      Seqs.FrontLast(b);
      Seqs.Assoc(a, front, [last]);
      Seqs.Snoc(a + front, last);
      if "- " <= TrimSpace(last) {
        Seqs.Assoc(Items(codec, a), Items(codec, front), [ParseScalar(codec, TrimSpace(TrimSpace(last)[2..]))]);
      }
    }
  }

  // ----- rewriting one server -----

  // Nothing of a list of arguments, and nothing that ends one.
  predicate Mute(root: nat, line: string) {
    !IsField(root, Args, line) && !IsStop(root, line) && !("- " <= TrimSpace(line))
  }

  // The body of a server after a writing, as it is read back.
  function AsRead(root: nat, codec: Codec, v: Server, body: seq<string>): seq<string> {
    var x := FieldsOf(root, body);
    Applied(x, body, LineFor(root, codec, v, body, x.c),
            if x.a < 0 then [] else BlockRead(root, codec, v.args, body[x.a]))
  }

  // A body around its last args line. Without a newline, that line is the last.
  ghost predicate IsBody(root: nat, x: Parts) {
    && AreParts(Field(root, Command), Field(root, Args), Stop(root), x)
    && (Terminated(x.block[0]) || (|x.block| == 1 && x.tail == []))
  }

  function BodyParts(root: nat, body: seq<string>): (x: Parts)
    requires FieldsOf(root, body).a >= 0
    ensures x.Whole() == body
  {
    PartsOf(Field(root, Args), body)
  }

  lemma NotBothFields(root: nat, line: string)
    ensures !(IsField(root, Command, line) && IsField(root, Args, line))
  {
    assert "command:"[0] == 'c' && "args:"[0] == 'a';
  }

  lemma PartsAreBody(root: nat, body: seq<string>)
    requires FieldsOf(root, body).a >= 0 && AreLines(body)
    ensures IsBody(root, BodyParts(root, body))
  {
    NotBothFields(root, body[FieldsOf(root, body).a]);
    PartsOfAre(Field(root, Command), Field(root, Args), Stop(root), body);
  }

  // The command lines of a body, before and after its last args line.
  function CommandAbove(root: nat, x: Parts): (k: int)
    ensures -1 <= k < |x.pre|
  {
    InPre(Field(root, Command), x)
  }

  function CommandBelow(root: nat, x: Parts): (k: int)
    ensures -1 <= k < |x.tail|
  {
    InTail(Field(root, Command), x)
  }

  // How many lines below it count as its arguments.
  function Listed(root: nat, x: Parts): (t: nat)
    ensures t <= |x.tail|
  {
    Taken(Stop(root), x)
  }

  function LineIn(root: nat, codec: Codec, v: Server, x: Parts): string {
    if CommandBelow(root, x) >= 0 then CommandLine(root, codec, v.command, x.tail[CommandBelow(root, x)])
    else if CommandAbove(root, x) >= 0 then CommandLine(root, codec, v.command, x.pre[CommandAbove(root, x)])
    else ""
  }

  // The parts of a body after a writing.
  function Next(root: nat, codec: Codec, v: Server, x: Parts): Parts
    requires x.block != []
  {
    Stepped(Field(root, Command), Stop(root), x, LineIn(root, codec, v, x),
            BlockRead(root, codec, v.args, x.block[0]))
  }

  // A written line is a command and nothing else.
  ghost predicate IsCommand(root: nat, codec: Codec, command: string, line: string) {
    && IsLine(Field(root, Command), Field(root, Args), Stop(root), line)
    && CommandOn(codec, line) == command && Mute(root, line)
  }

  lemma CommandWritten(root: nat, codec: Codec, command: string, old_: string)
    requires codec.Lawful()
    ensures IsCommand(root, codec, command, CommandLine(root, codec, command, old_))
  {
    WrittenCommand(root, codec, command, old_);
  }

  lemma LineInIs(root: nat, codec: Codec, v: Server, x: Parts)
    requires codec.Lawful() && (CommandBelow(root, x) >= 0 || CommandAbove(root, x) >= 0)
    ensures IsCommand(root, codec, v.command, LineIn(root, codec, v, x))
  {
    if CommandBelow(root, x) >= 0 {
      CommandWritten(root, codec, v.command, x.tail[CommandBelow(root, x)]);
    } else {
      CommandWritten(root, codec, v.command, x.pre[CommandAbove(root, x)]);
    }
  }

  lemma FieldsOfParts(root: nat, x: Parts)
    requires IsBody(root, x)
    ensures FieldsOf(root, x.Whole()) == Sought(Field(root, Command), Stop(root), x)
    ensures x.Whole()[|x.pre|] == x.block[0]
  {
    EditOfParts(Field(root, Command), Field(root, Args), Stop(root), x);
    WholeAt(x, |x.pre|);
  }

  lemma LineForIs(root: nat, codec: Codec, v: Server, x: Parts)
    requires IsBody(root, x)
    ensures LineFor(root, codec, v, x.Whole(), FieldsOf(root, x.Whole()).c) == LineIn(root, codec, v, x)
  {
    FieldsOfParts(root, x);
    if FieldsOf(root, x.Whole()).c >= 0 {
      SoughtAt(Field(root, Command), Stop(root), x);
    }
  }

  lemma NextIs(root: nat, codec: Codec, v: Server, x: Parts)
    requires IsBody(root, x)
    ensures AsRead(root, codec, v, x.Whole()) == Next(root, codec, v, x).Whole()
  {
    FieldsOfParts(root, x);
    LineForIs(root, codec, v, x);
    AppliedParts(Field(root, Command), Field(root, Args), Stop(root), x, LineIn(root, codec, v, x),
                 BlockRead(root, codec, v.args, x.block[0]));
  }

  lemma NextIsBody(root: nat, codec: Codec, v: Server, x: Parts)
    requires codec.Lawful() && IsBody(root, x)
    ensures IsBody(root, Next(root, codec, v, x))
    ensures Terminated(Next(root, codec, v, x).block[0]) <==> Terminated(x.block[0])
  {
    if CommandBelow(root, x) >= 0 {
      LineInIs(root, codec, v, x);
    }
    BlockReadIsBlock(root, codec, v.args, x.block[0]);
    BlockReadEnding(root, codec, v.args, x.block[0]);
    EndingTerminates(x.block[0]);
    EndingTerminates(BlockRead(root, codec, v.args, x.block[0])[0]);
    SteppedIsParts(Field(root, Command), Field(root, Args), Stop(root), x, LineIn(root, codec, v, x),
                   BlockRead(root, codec, v.args, x.block[0]));
  }

  // ----- what a written server loads as -----

  function CommandBefore(root: nat, codec: Codec, x: Parts): string {
    if CommandAbove(root, x) >= 0 then CommandOn(codec, x.pre[CommandAbove(root, x)]) else ""
  }

  function CommandIn(root: nat, codec: Codec, x: Parts): string {
    if CommandBelow(root, x) >= 0 then CommandOn(codec, x.tail[CommandBelow(root, x)])
    else CommandBefore(root, codec, x)
  }

  // The arguments listed in some lines.
  function Above(root: nat, codec: Codec, pre: seq<string>): seq<string> {
    Gathered(Field(root, Args), Stop(root), Reader(codec), pre, |pre|)
  }

  lemma LoadedCommand(root: nat, codec: Codec, x: Parts)
    requires IsBody(root, x)
    ensures Loaded(root, codec, x.Whole()).command == CommandIn(root, codec, x)
  {
    FieldsOfParts(root, x);
    if FieldsOf(root, x.Whole()).c >= 0 {
      SoughtAt(Field(root, Command), Stop(root), x);
    }
  }

  lemma LoadedArgs(root: nat, codec: Codec, x: Parts)
    requires IsBody(root, x) && Ends(Stop(root), Reader(codec), x.block + x.tail)
    ensures Loaded(root, codec, x.Whole()).args ==
            Above(root, codec, x.pre) + Items(codec, x.block[1..] + x.tail[..Listed(root, x)])
  {
    GatheredParts(Field(root, Command), Field(root, Args), Stop(root), Reader(codec), x);
  }

  // Where the command lines are after a writing.
  lemma NextPlaces(root: nat, codec: Codec, v: Server, x: Parts)
    requires codec.Lawful() && x.block != []
    ensures var y, c, t := Next(root, codec, v, x), CommandBelow(root, x), Listed(root, x);
            && CommandBelow(root, y) == (if c >= t then c - t else -1)
            && Listed(root, y) == (if c == t then FirstAt(Stop(root), x.tail, t + 1, |x.tail|) - t else 0)
            && CommandAbove(root, y) == CommandAbove(root, x)
            && (c >= t ==> y.tail[c - t] == LineIn(root, codec, v, x))
  {
    var line, block := LineIn(root, codec, v, x), BlockRead(root, codec, v.args, x.block[0]);
    if CommandBelow(root, x) >= 0 || CommandAbove(root, x) >= 0 {
      LineInIs(root, codec, v, x);
    }
    SteppedPre(Field(root, Command), Stop(root), x, line, block);
    SteppedTail(Field(root, Command), Field(root, Args), Stop(root), x, line, block);
    SteppedTaken(Field(root, Command), Field(root, Args), Stop(root), x, line, block);
  }

  lemma LineSays(root: nat, codec: Codec, v: Server, x: Parts)
    requires codec.Lawful() && (CommandBelow(root, x) >= 0 || CommandAbove(root, x) >= 0)
    ensures CommandOn(codec, LineIn(root, codec, v, x)) == v.command
  {
    LineInIs(root, codec, v, x);
  }

  // A writing puts its command in the last command line. If that was one of the lines of the list,
  // it is gone, and the one before counts.
  lemma CommandNext(root: nat, codec: Codec, v: Server, x: Parts)
    requires codec.Lawful() && x.block != []
    ensures var c, t := CommandBelow(root, x), Listed(root, x);
            CommandIn(root, codec, Next(root, codec, v, x)) ==
            if 0 <= c < t then CommandBefore(root, codec, x)
            else if c >= t || CommandAbove(root, x) >= 0 then v.command else ""
  {
    NextPlaces(root, codec, v, x);
    if CommandBelow(root, x) >= 0 || CommandAbove(root, x) >= 0 {
      LineSays(root, codec, v, x);
    }
  }

  lemma CommandTwice(root: nat, codec: Codec, v1: Server, v2: Server, x: Parts)
    requires codec.Lawful() && x.block != []
    ensures var c, t := CommandBelow(root, x), Listed(root, x);
            CommandIn(root, codec, Next(root, codec, v2, Next(root, codec, v1, x))) ==
            if c == t then CommandBefore(root, codec, x)
            else if c > t || CommandAbove(root, x) >= 0 then v2.command else ""
  {
    NextPlaces(root, codec, v1, x);
    CommandNext(root, codec, v2, Next(root, codec, v1, x));
  }

  // ----- lines that make no difference to the arguments -----

  ghost predicate Alike(root: nat, a: seq<string>, b: seq<string>) {
    |a| == |b| && forall j :: 0 <= j < |a| ==> a[j] == b[j] || (Mute(root, a[j]) && Mute(root, b[j]))
  }

  lemma {:induction false} ItemsAlike(root: nat, codec: Codec, a: seq<string>, b: seq<string>)
    requires Alike(root, a, b)
    ensures Items(codec, a) == Items(codec, b)
  {
    if a != [] {
      ItemsAlike(root, codec, a[..|a| - 1], b[..|b| - 1]);
      assert a[|a| - 1] == b[|b| - 1] || (Mute(root, a[|a| - 1]) && Mute(root, b[|b| - 1]));
    }
  }

  lemma AlikeKinds(root: nat, a: seq<string>, b: seq<string>)
    requires Alike(root, a, b)
    ensures SameKinds(Field(root, Args), Stop(root), a, b)
  {
    forall j | 0 <= j < |a|
      ensures (IsField(root, Args, a[j]) <==> IsField(root, Args, b[j])) && (IsStop(root, a[j]) <==> IsStop(root, b[j]))
    {
      assert a[j] == b[j] || (Mute(root, a[j]) && Mute(root, b[j]));
    }
  }

  lemma AboveAlike(root: nat, codec: Codec, a: seq<string>, b: seq<string>)
    requires Alike(root, a, b)
    ensures Above(root, codec, a) == Above(root, codec, b)
  {
    AlikeKinds(root, a, b);
    forall lo, hi | 0 <= lo <= hi <= |a| ensures Items(codec, a[lo..hi]) == Items(codec, b[lo..hi]) {
      ItemsAlike(root, codec, a[lo..hi], b[lo..hi]);
    }
    GatheredSame(Field(root, Args), Stop(root), Reader(codec), a, b, |a|);
  }

  // ----- the arguments -----

  // What is listed above the last args line, with or without the command line there.
  function Early(root: nat, codec: Codec, x: Parts, over: bool): seq<string> {
    Above(root, codec, if over then Overwritten(x.pre, CommandAbove(root, x), "") else x.pre)
  }

  // How far the list reaches once the line that ended it has been overwritten.
  function LateEnd(root: nat, x: Parts): (e: nat)
    requires CommandBelow(root, x) == Listed(root, x)
    ensures Listed(root, x) < e <= |x.tail|
  {
    FirstAt(Stop(root), x.tail, Listed(root, x) + 1, |x.tail|)
  }

  // What follows the command line that ended the arguments.
  function Late(root: nat, codec: Codec, x: Parts): seq<string> {
    if CommandBelow(root, x) == Listed(root, x) then Items(codec, x.tail[Listed(root, x) + 1..LateEnd(root, x)])
    else []
  }

  lemma EarlyNext(root: nat, codec: Codec, v: Server, x: Parts)
    requires codec.Lawful() && x.block != []
    ensures Above(root, codec, Next(root, codec, v, x).pre) == Early(root, codec, x, CommandBelow(root, x) < 0)
  {
    var k := CommandAbove(root, x);
    if CommandBelow(root, x) < 0 && k >= 0 {
      LineInIs(root, codec, v, x);
      assert Mute(root, "");
      AboveAlike(root, codec, Overwritten(x.pre, k, LineIn(root, codec, v, x)), Overwritten(x.pre, k, ""));
    }
  }

  lemma NextTail(root: nat, codec: Codec, v: Server, x: Parts)
    requires x.block != [] && CommandBelow(root, x) == Listed(root, x)
    ensures Next(root, codec, v, x).tail ==
            Overwritten(x.tail, Listed(root, x), LineIn(root, codec, v, x))[Listed(root, x)..]
  {
  }

  lemma NextListed(root: nat, codec: Codec, v: Server, x: Parts)
    requires codec.Lawful() && x.block != [] && CommandBelow(root, x) == Listed(root, x)
    ensures Listed(root, Next(root, codec, v, x)) == LateEnd(root, x) - Listed(root, x)
  {
    NextPlaces(root, codec, v, x);
  }

  lemma NextList(root: nat, codec: Codec, v: Server, x: Parts)
    requires codec.Lawful() && x.block != [] && CommandBelow(root, x) == Listed(root, x)
    ensures var y := Next(root, codec, v, x);
            y.tail[..Listed(root, y)] ==
            [LineIn(root, codec, v, x)] + x.tail[Listed(root, x) + 1..LateEnd(root, x)]
  {
    NextTail(root, codec, v, x);
    NextListed(root, codec, v, x);
    OverwrittenHead(x.tail, Listed(root, x), LateEnd(root, x), LineIn(root, codec, v, x));
  }

  lemma NoItem(codec: Codec, line: string, rest: seq<string>)
    requires !("- " <= TrimSpace(line))
    ensures Items(codec, [line] + rest) == Items(codec, rest)
  {
    ItemsConcat(codec, [line], rest);
    NothingRead(codec, [], line);
    Seqs.Nothing([line]);
  }

  lemma LateNextAt(root: nat, codec: Codec, v: Server, x: Parts)
    requires codec.Lawful() && x.block != [] && CommandBelow(root, x) == Listed(root, x)
    ensures var y := Next(root, codec, v, x);
            Items(codec, y.tail[..Listed(root, y)]) == Late(root, codec, x)
  {
    NextList(root, codec, v, x);
    LineInIs(root, codec, v, x);
    NoItem(codec, LineIn(root, codec, v, x), x.tail[Listed(root, x) + 1..LateEnd(root, x)]);
  }

  lemma LateNext(root: nat, codec: Codec, v: Server, x: Parts)
    requires codec.Lawful() && x.block != []
    ensures var y := Next(root, codec, v, x);
            Items(codec, y.tail[..Listed(root, y)]) == Late(root, codec, x)
  {
    if CommandBelow(root, x) == Listed(root, x) {
      LateNextAt(root, codec, v, x);
    } else {
      NextPlaces(root, codec, v, x);
    }
  }

  function Given(args: seq<string>, x: Parts): seq<string>
    requires x.block != []
  {
    if Terminated(x.block[0]) then args else []
  }

  lemma ArgsNext(root: nat, codec: Codec, v: Server, x: Parts)
    requires codec.Lawful() && IsBody(root, x)
    ensures Loaded(root, codec, Next(root, codec, v, x).Whole()).args ==
            Early(root, codec, x, CommandBelow(root, x) < 0) + (Given(v.args, x) + Late(root, codec, x))
  {
    var y := Next(root, codec, v, x);
    NextIsBody(root, codec, v, x);
    BlockReadEnds(root, codec, v.args, x.block[0], y.tail);
    LoadedArgs(root, codec, y);
    ItemsConcat(codec, y.block[1..], y.tail[..Listed(root, y)]);
    BlockReadItems(root, codec, v.args, x.block[0]);
    EarlyNext(root, codec, v, x);
    LateNext(root, codec, v, x);
  }

  lemma EarlyTwice(root: nat, codec: Codec, v: Server, x: Parts)
    requires codec.Lawful() && x.block != []
    ensures var y := Next(root, codec, v, x);
            Early(root, codec, y, CommandBelow(root, y) < 0) ==
            Early(root, codec, x, CommandBelow(root, x) < Listed(root, x))
  {
    NextPlaces(root, codec, v, x);
    OverwrittenTwice(x.pre, CommandAbove(root, x), LineIn(root, codec, v, x), "");
  }

  lemma LateTwice(root: nat, codec: Codec, v: Server, x: Parts)
    requires codec.Lawful() && x.block != []
    ensures Late(root, codec, Next(root, codec, v, x)) == []
  {
    NextPlaces(root, codec, v, x);
  }

  lemma ArgsTwice(root: nat, codec: Codec, v1: Server, v2: Server, x: Parts)
    requires codec.Lawful() && IsBody(root, x)
    ensures Loaded(root, codec, Next(root, codec, v2, Next(root, codec, v1, x)).Whole()).args ==
            Early(root, codec, x, CommandBelow(root, x) < Listed(root, x)) + Given(v2.args, x)
  {
    var y := Next(root, codec, v1, x);
    NextIsBody(root, codec, v1, x);
    ArgsNext(root, codec, v2, y);
    EarlyTwice(root, codec, v1, x);
    LateTwice(root, codec, v1, x);
    Seqs.Nothing(Given(v2.args, y));
  }

  // ----- a server written and read back -----

  // What a body loads as once v has been written into it.
  function Written(root: nat, codec: Codec, v: Server, body: seq<string>): Server
    requires HasFields(root, body)
  {
    var x := BodyParts(root, body);
    var c, t := CommandBelow(root, x), Listed(root, x);
    Server(if 0 <= c < t then CommandBefore(root, codec, x) else v.command,
           Early(root, codec, x, c < 0) + (Given(v.args, x) + Late(root, codec, x)))
  }

  lemma HasCommand(root: nat, x: Parts)
    requires IsBody(root, x)
    ensures FieldsOf(root, x.Whole()).c >= 0 <==> CommandBelow(root, x) >= 0 || CommandAbove(root, x) >= 0
  {
    FieldsOfParts(root, x);
  }

  lemma LoadedWritten(root: nat, codec: Codec, v: Server, body: seq<string>)
    requires codec.Lawful() && AreLines(body) && HasFields(root, body)
    ensures Loaded(root, codec, AsRead(root, codec, v, body)) == Written(root, codec, v, body)
  {
    var x := BodyParts(root, body);
    PartsAreBody(root, body);
    HasCommand(root, x);
    NextIs(root, codec, v, x);
    NextIsBody(root, codec, v, x);
    LoadedCommand(root, codec, Next(root, codec, v, x));
    CommandNext(root, codec, v, x);
    ArgsNext(root, codec, v, x);
  }

  lemma AsReadTwice(root: nat, codec: Codec, v1: Server, v2: Server, x: Parts)
    requires codec.Lawful() && IsBody(root, x)
    ensures AsRead(root, codec, v2, AsRead(root, codec, v1, x.Whole())) ==
            Next(root, codec, v2, Next(root, codec, v1, x)).Whole()
  {
    NextIs(root, codec, v1, x);
    NextIsBody(root, codec, v1, x);
    NextIs(root, codec, v2, Next(root, codec, v1, x));
  }

  // ... and what it loads as once v has been written over something else that was written.
  function Twice(root: nat, codec: Codec, v: Server, x: Parts): Server
    requires x.block != []
  {
    var c, t := CommandBelow(root, x), Listed(root, x);
    Server(if c == t then CommandBefore(root, codec, x)
           else if c > t || CommandAbove(root, x) >= 0 then v.command else "",
           Early(root, codec, x, c < t) + Given(v.args, x))
  }

  lemma LoadedTwice(root: nat, codec: Codec, v1: Server, v2: Server, x: Parts)
    requires codec.Lawful() && IsBody(root, x)
    ensures Loaded(root, codec, AsRead(root, codec, v2, AsRead(root, codec, v1, x.Whole()))) ==
            Twice(root, codec, v2, x)
  {
    AsReadTwice(root, codec, v1, v2, x);
    NextIsBody(root, codec, v1, x);
    NextIsBody(root, codec, v2, Next(root, codec, v1, x));
    LoadedCommand(root, codec, Next(root, codec, v2, Next(root, codec, v1, x)));
    CommandTwice(root, codec, v1, v2, x);
    ArgsTwice(root, codec, v1, v2, x);
  }

  // A body reads back what is written into it exactly when the last command line does not stand in
  // the list of arguments (unless the one that is left says the same), when nothing is listed
  // above the last args line or behind a command line that ended the list, and when the last args
  // line has a newline. (Without it, what is listed above must be what was to be written.)
  predicate ReadsBack(root: nat, codec: Codec, v: Server, body: seq<string>)
    requires HasFields(root, body)
  {
    var x := BodyParts(root, body);
    var c, t := CommandBelow(root, x), Listed(root, x);
    && (0 <= c < t ==> CommandBefore(root, codec, x) == v.command)
    && Early(root, codec, x, c < 0) == (if Terminated(x.block[0]) then [] else v.args)
    && Late(root, codec, x) == []
  }

  lemma ReadsBackExactlyWhen(root: nat, codec: Codec, v: Server, body: seq<string>)
    requires codec.Lawful() && AreLines(body) && HasFields(root, body)
    ensures Loaded(root, codec, AsRead(root, codec, v, body)) == v <==> ReadsBack(root, codec, v, body)
  {
    var x := BodyParts(root, body);
    LoadedWritten(root, codec, v, body);
    PartsAreBody(root, body);
    var early, late := Early(root, codec, x, CommandBelow(root, x) < 0), Late(root, codec, x);
    if Terminated(x.block[0]) {
      Between(early, v.args, late);
    } else {
      Seqs.Nothing(early);
    }
  }

  lemma Between<T>(a: seq<T>, b: seq<T>, c: seq<T>)
    ensures a + (b + c) == b <==> a == [] && c == []
  {
    if a + (b + c) == b {
      assert |a + (b + c)| == |a| + |b| + |c|;
    }
  }

  lemma GivenExactly(early: seq<string>, args: seq<string>, x: Parts)
    requires x.block != []
    ensures early + Given(args, x) == args <==> early == if Terminated(x.block[0]) then [] else args
  {
    if Terminated(x.block[0]) {
      Between(early, args, []);
      Seqs.Nothing(args);
    } else {
      Seqs.Nothing(early);
    }
  }

  // A server gets back what it loaded as, whatever was written in between, exactly when
  //  - a command line is left: the last one follows the line that ends the arguments, or another
  //    stands above the args line; if the last one is what ends them, the other says the same; and
  //  - nothing is listed above the last args line; or, when that line ends the file without a
  //    newline, all the arguments are.
  predicate Restores(root: nat, codec: Codec, body: seq<string>)
    requires HasFields(root, body)
  {
    RestoresParts(root, codec, BodyParts(root, body), Loaded(root, codec, body).args)
  }

  predicate RestoresParts(root: nat, codec: Codec, x: Parts, args: seq<string>)
    requires x.block != []
  {
    var c, t := CommandBelow(root, x), Listed(root, x);
    && (if c == t then CommandBefore(root, codec, x) == CommandIn(root, codec, x)
        else c > t || CommandAbove(root, x) >= 0)
    && Early(root, codec, x, c < t) == if Terminated(x.block[0]) then [] else args
  }

  lemma PartsRoundTrip(root: nat, codec: Codec, s: Server, x: Parts)
    requires x.block != [] && s.command == CommandIn(root, codec, x) != ""
    ensures Twice(root, codec, s, x) == s <==> RestoresParts(root, codec, x, s.args)
  {
    GivenExactly(Early(root, codec, x, CommandBelow(root, x) < Listed(root, x)), s.args, x);
  }

  lemma ServerRoundTripExactlyWhen(root: nat, codec: Codec, v: Server, body: seq<string>)
    requires codec.Lawful() && AreLines(body) && HasFields(root, body) && Loaded(root, codec, body).command != ""
    ensures Loaded(root, codec, AsRead(root, codec, Loaded(root, codec, body), AsRead(root, codec, v, body))) ==
            Loaded(root, codec, body)
       <==> Restores(root, codec, body)
  {
    var x, original := BodyParts(root, body), Loaded(root, codec, body);
    PartsAreBody(root, body);
    LoadedTwice(root, codec, v, original, x);
    LoadedCommand(root, codec, x);
    PartsRoundTrip(root, codec, original, x);
  }

  // A server that loses its command: it stands under the arguments.
  lemma CommandUnderArguments(root: nat, codec: Codec, command: string, old_: string)
    requires codec.Lawful()
    ensures var body := [ArgsHead(root, old_), CommandLine(root, codec, command, old_)];
            HasFields(root, body) && Loaded(root, codec, body).command == command && !Restores(root, codec, body)
  {
    var head, line := ArgsHead(root, old_), CommandLine(root, codec, command, old_);
    var body := [head, line];
    WrittenHead(root, old_);
    WrittenCommand(root, codec, command, old_);
    LastIs(Field(root, Command), body, 1);
    LastIs(Field(root, Args), body, 0);
    assert BodyParts(root, body) == Parts([], [head], [line]);
    LastIs(Field(root, Command), [line], 0);
    FirstIs(Stop(root), [line], 0, 1);
  }

  // A command line and a list of one argument.
  function OneList(root: nat, codec: Codec, command: string, arg: string, old_: string): Parts {
    Parts([CommandLine(root, codec, command, old_)], ArgsLines(root, codec, [arg], old_), [])
  }

  // ... and another list under it.
  function TwoLists(root: nat, codec: Codec, command: string, one: string, other: string, old_: string): Parts {
    Parts(OneList(root, codec, command, one, old_).Whole(), ArgsLines(root, codec, [other], old_), [])
  }

  lemma ListIsBody(root: nat, codec: Codec, pre: seq<string>, arg: string, old_: string)
    requires codec.Lawful() && Terminated(old_)
    ensures var x := Parts(pre, ArgsLines(root, codec, [arg], old_), []);
            && IsBody(root, x)
            && Loaded(root, codec, x.Whole()).args == Above(root, codec, pre) + [arg]
  {
    var block := ArgsLines(root, codec, [arg], old_);
    BlockReadIsBlock(root, codec, [arg], old_);
    BlockReadEnding(root, codec, [arg], old_);
    EndingTerminates(old_);
    EndingTerminates(block[0]);
    BlockReadEnds(root, codec, [arg], old_, []);
    BlockReadItems(root, codec, [arg], old_);
    LoadedArgs(root, codec, Parts(pre, block, []));
    Seqs.Nothing(block[1..]);
  }

  lemma OneListLoads(root: nat, codec: Codec, command: string, arg: string, old_: string)
    requires codec.Lawful() && Terminated(old_)
    ensures var x := OneList(root, codec, command, arg, old_);
            && IsBody(root, x) && CommandAbove(root, x) == 0 && CommandBelow(root, x) == -1
            && Above(root, codec, x.Whole()) == [arg]
  {
    var line := CommandLine(root, codec, command, old_);
    WrittenCommand(root, codec, command, old_);
    LastIs(Field(root, Command), [line], 0);
    ListIsBody(root, codec, [line], arg, old_);
    GatheredUpTo(Field(root, Args), Stop(root), Reader(codec), [line], 0, 1);
  }

  lemma TwoListsPlaces(root: nat, codec: Codec, command: string, one: string, other: string, old_: string)
    requires codec.Lawful() && Terminated(old_)
    ensures var x := TwoLists(root, codec, command, one, other, old_);
            && CommandAbove(root, x) == 0 && CommandBelow(root, x) == -1 && Listed(root, x) == 0
            && CommandBefore(root, codec, x) == command && Early(root, codec, x, true) == [one]
  {
    var x, first := TwoLists(root, codec, command, one, other, old_), OneList(root, codec, command, one, old_);
    OneListLoads(root, codec, command, one, old_);
    FieldsOfParts(root, first);
    WholeAt(first, 0);
    WrittenCommand(root, codec, command, old_);
    assert Mute(root, "");
    AboveAlike(root, codec, Overwritten(x.pre, 0, ""), x.pre);
  }

  lemma TwoListsLoad(root: nat, codec: Codec, command: string, one: string, other: string, old_: string)
    requires codec.Lawful() && Terminated(old_)
    ensures var x := TwoLists(root, codec, command, one, other, old_);
            IsBody(root, x) && Loaded(root, codec, x.Whole()) == Server(command, [one, other])
  {
    var x := TwoLists(root, codec, command, one, other, old_);
    OneListLoads(root, codec, command, one, old_);
    ListIsBody(root, codec, x.pre, other, old_);
    TwoListsPlaces(root, codec, command, one, other, old_);
    LoadedCommand(root, codec, x);
  }

  lemma TwoListsTwice(root: nat, codec: Codec, command: string, one: string, other: string, old_: string)
    requires codec.Lawful() && Terminated(old_)
    ensures Twice(root, codec, Server(command, [one, other]), TwoLists(root, codec, command, one, other, old_)) ==
            Server(command, [one, one, other])
  {
    TwoListsPlaces(root, codec, command, one, other, old_);
    HeadTerminated(root, codec, [other], old_);
  }

  // A server that gets an argument twice: its arguments stand in two lists.
  lemma FirstListStays(root: nat, codec: Codec, v: Server, command: string, one: string, other: string, old_: string)
    requires codec.Lawful() && Terminated(old_)
    ensures var body := TwoLists(root, codec, command, one, other, old_).Whole();
            && Loaded(root, codec, body) == Server(command, [one, other])
            && Loaded(root, codec, AsRead(root, codec, Loaded(root, codec, body), AsRead(root, codec, v, body))) ==
               Server(command, [one, one, other])
  {
    TwoListsLoad(root, codec, command, one, other, old_);
    LoadedTwice(root, codec, v, Server(command, [one, other]), TwoLists(root, codec, command, one, other, old_));
    TwoListsTwice(root, codec, command, one, other, old_);
  }

  lemma HeadTerminated(root: nat, codec: Codec, args: seq<string>, old_: string)
    requires Terminated(old_)
    ensures Terminated(ArgsLines(root, codec, args, old_)[0])
  {
    WrittenHead(root, old_);
    EndingTerminates(old_);
    EndingTerminates(ArgsHead(root, old_));
  }

  // ----- writing over what was written -----

  // The last command line is neither in the list of arguments nor what ends it.
  predicate IsSteady(root: nat, body: seq<string>) {
    var x := FieldsOf(root, body);
    HasFields(root, body) && (x.c < x.a || x.c > x.e)
  }

  // ... and there is one args line.
  ghost predicate IsKept(root: nat, body: seq<string>) {
    IsSteady(root, body) && forall j :: 0 <= j < FieldsOf(root, body).a ==> !IsField(root, Args, body[j])
  }

  lemma SteadyParts(root: nat, body: seq<string>)
    requires AreLines(body) && HasFields(root, body)
    ensures var x := BodyParts(root, body);
            IsSteady(root, body) <==> CommandBelow(root, x) < 0 || CommandBelow(root, x) > Listed(root, x)
  {
    PartsAreBody(root, body);
    FieldsOfParts(root, BodyParts(root, body));
  }

  lemma SameLine(root: nat, codec: Codec, v1: Server, v2: Server, old_: string)
    requires codec.Lawful()
    ensures CommandLine(root, codec, v2.command, CommandLine(root, codec, v1.command, old_)) ==
            CommandLine(root, codec, v2.command, old_)
  {
    WrittenCommand(root, codec, v1.command, old_);
  }

  lemma SameEndings(root: nat, codec: Codec, args: seq<string>, one: string, other: string)
    requires LineEnding(one) == LineEnding(other)
    ensures BlockRead(root, codec, args, one) == BlockRead(root, codec, args, other)
  {
    EndingTerminates(one);
    EndingTerminates(other);
    assert ArgsLines(root, codec, args, one) == ArgsLines(root, codec, args, other);
  }

  lemma NextLine(root: nat, codec: Codec, v1: Server, v2: Server, x: Parts)
    requires codec.Lawful() && x.block != [] && (CommandBelow(root, x) < 0 || CommandBelow(root, x) > Listed(root, x))
    ensures LineIn(root, codec, v2, Next(root, codec, v1, x)) == LineIn(root, codec, v2, x)
  {
    NextPlaces(root, codec, v1, x);
    if CommandBelow(root, x) >= 0 {
      SameLine(root, codec, v1, v2, x.tail[CommandBelow(root, x)]);
    } else if CommandAbove(root, x) >= 0 {
      SameLine(root, codec, v1, v2, x.pre[CommandAbove(root, x)]);
    }
  }

  lemma NextTwice(root: nat, codec: Codec, v1: Server, v2: Server, x: Parts)
    requires codec.Lawful() && x.block != [] && (CommandBelow(root, x) < 0 || CommandBelow(root, x) > Listed(root, x))
    ensures Next(root, codec, v2, Next(root, codec, v1, x)) == Next(root, codec, v2, x)
  {
    var y := Next(root, codec, v1, x);
    NextLine(root, codec, v1, v2, x);
    BlockReadEnding(root, codec, v1.args, x.block[0]);
    SameEndings(root, codec, v2.args, y.block[0], x.block[0]);
    if CommandBelow(root, x) >= 0 || CommandAbove(root, x) >= 0 {
      LineInIs(root, codec, v1, x);
    }
    SteppedTwice(Field(root, Command), Field(root, Args), Stop(root), x, LineIn(root, codec, v1, x), y.block,
                 LineIn(root, codec, v2, x), BlockRead(root, codec, v2.args, x.block[0]));
  }

  // Writing over what was written is as if the first writing had not been.
  lemma RewrittenTwice(root: nat, codec: Codec, v1: Server, v2: Server, body: seq<string>)
    requires codec.Lawful() && AreLines(body) && IsSteady(root, body)
    ensures AsRead(root, codec, v2, AsRead(root, codec, v1, body)) == AsRead(root, codec, v2, body)
  {
    var x := BodyParts(root, body);
    PartsAreBody(root, body);
    SteadyParts(root, body);
    AsReadTwice(root, codec, v1, v2, x);
    NextTwice(root, codec, v1, v2, x);
    NextIs(root, codec, v2, x);
  }

  // ----- servers with one list of arguments -----

  lemma NothingEarly(root: nat, codec: Codec, x: Parts, over: bool)
    requires forall j :: 0 <= j < |x.pre| ==> !IsField(root, Args, x.pre[j])
    ensures Early(root, codec, x, over) == []
  {
    var pre := if over then Overwritten(x.pre, CommandAbove(root, x), "") else x.pre;
    GatheredUpTo(Field(root, Args), Stop(root), Reader(codec), pre, 0, |pre|);
  }

  lemma WrittenAlone(root: nat, codec: Codec, v: Server, body: seq<string>)
    requires HasFields(root, body)
    requires var x := BodyParts(root, body);
             && (CommandBelow(root, x) < 0 || CommandBelow(root, x) > Listed(root, x))
             && Early(root, codec, x, CommandBelow(root, x) < 0) == []
    ensures Written(root, codec, v, body) == Server(v.command, Given(v.args, BodyParts(root, body)))
  {
    Seqs.Nothing(Given(v.args, BodyParts(root, body)));
  }

  // Such a server loads as what was written, except that without a newline at the end of the args
  // line there are no arguments.
  lemma LoadedKept(root: nat, codec: Codec, v: Server, body: seq<string>)
    requires codec.Lawful() && AreLines(body) && IsKept(root, body)
    ensures Loaded(root, codec, AsRead(root, codec, v, body)) ==
            if Terminated(body[FieldsOf(root, body).a]) then v else v.(args := [])
  {
    LoadedWritten(root, codec, v, body);
    SteadyParts(root, body);
    NothingEarly(root, codec, BodyParts(root, body), CommandBelow(root, BodyParts(root, body)) < 0);
    WrittenAlone(root, codec, v, body);
  }

  // Without a newline at its end, an args line is the last line, and lists nothing.
  lemma NothingUnder(root: nat, codec: Codec, body: seq<string>)
    requires AreLines(body) && IsKept(root, body) && !Terminated(body[FieldsOf(root, body).a])
    ensures Loaded(root, codec, body).args == []
  {
    var a := FieldsOf(root, body).a;
    PartsAreBody(root, body);
    GatheredUpTo(Field(root, Args), Stop(root), Reader(codec), body, 0, a);
    assert |body| == a + 1 && body[a + 1..a + 1] == [];
  }

  lemma KeptRestores(root: nat, codec: Codec, body: seq<string>)
    requires AreLines(body) && IsKept(root, body)
    ensures Restores(root, codec, body)
  {
    var x := BodyParts(root, body);
    SteadyParts(root, body);
    PartsAreBody(root, body);
    HasCommand(root, x);
    NothingEarly(root, codec, x, CommandBelow(root, x) < Listed(root, x));
    if !Terminated(x.block[0]) {
      NothingUnder(root, codec, body);
    }
  }

  lemma LoadedAllSnoc(root: nat, codec: Codec, sections: seq<Section>, n: nat)
    requires n < |sections|
    ensures LoadedAll(root, codec, sections[..n + 1]) ==
            LoadedAll(root, codec, sections[..n])[NameOf(sections[n].header) := Loaded(root, codec, sections[n].body)]
  {
    assert sections[..n + 1][..n] == sections[..n];
  }

}
