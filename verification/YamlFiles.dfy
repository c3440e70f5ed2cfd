/** YAML configurations as their authors write them load as what they say. */
module YamlFiles {
  import opened Basics
  import opened HostServers
  import opened LineSplice
  import Seqs
  import opened Text
  import opened YamlRestore
  import opened YamlServers

  // ----- what authors write -----

  datatype Spelling = InQuotes | InApostrophes | AsIs

  datatype Word = Word(text: string, spelling: Spelling)

  // Lines without a meaning of their own: blank ones, comments, and whatever is indented deeper than
  // the fields of a server.
  datatype Note = Blank(indent: nat) | Comment(indent: nat, text: string) | Deeper(extra: nat, text: string)

  datatype Entry = Entry(name: string, before: seq<Note>, command: Word, args: seq<Word>, after: seq<Note>)

  function Spelled(codec: Codec, w: Word): string {
    match w.spelling
    case InQuotes => codec.quote(w.text)
    case InApostrophes => "'" + w.text + "'"
    case AsIs => w.text
  }

  predicate IsMark(c: char) {
    c == '\''
  }

  predicate WfWord(codec: Codec, w: Word) {
    match w.spelling
    case InQuotes => true
    case InApostrophes =>
      (w.text == "" || Tight(w.text, IsMark)) && codec.unquote("'" + w.text + "'") in {None, Some(w.text)}
    case AsIs => Tight(w.text, IsSpace) && w.text[0] != '"' && w.text[0] != '\''
  }

  predicate WfNote(n: Note) {
    n.Deeper? ==> Tight(n.text, IsSpace) && !("- " <= n.text)
  }

  // A name at the start of its line.
  predicate WfName(s: string) {
    Tight(s, IsSpace) && s[0] != '#'
  }

  predicate Wf(codec: Codec, e: Entry) {
    && WfName(e.name) && WfWord(codec, e.command)
    && (forall n :: n in e.before ==> WfNote(n)) && (forall n :: n in e.after ==> WfNote(n))
    && (forall w :: w in e.args ==> WfWord(codec, w))
  }

  function NoteLine(n: Note): string {
    match n
    case Blank(indent) => Spaces(indent) + "\n"
    case Comment(indent, text) => Spaces(indent) + ("#" + text + "\n")
    case Deeper(extra, text) => "     " + Spaces(extra) + (text + "\n")
  }

  function NoteLines(notes: seq<Note>): seq<string> {
    seq(|notes|, i requires 0 <= i < |notes| => NoteLine(notes[i]))
  }

  function ItemLines(codec: Codec, args: seq<Word>): seq<string> {
    seq(|args|, i requires 0 <= i < |args| => "      " + ("- " + Spelled(codec, args[i])) + "\n")
  }

  function CommandIs(codec: Codec, w: Word): string {
    "    " + ("command: " + Spelled(codec, w)) + "\n"
  }

  const ARGS_LINE := "    " + "args:" + "\n"

  function BodyOf(codec: Codec, e: Entry): Parts {
    Parts(NoteLines(e.before) + [CommandIs(codec, e.command)], [ARGS_LINE] + ItemLines(codec, e.args),
          NoteLines(e.after))
  }

  function SectionOf(codec: Codec, e: Entry): Section {
    Section("  " + (e.name + ":") + "\n", BodyOf(codec, e).Whole())
  }

  function SectionsOf(codec: Codec, entries: seq<Entry>): seq<Section> {
    seq(|entries|, i requires 0 <= i < |entries| => SectionOf(codec, entries[i]))
  }

  // A key at the margin, the servers under it, and what follows at the margin.
  function FileOf(key: string, codec: Codec, entries: seq<Entry>, rest: seq<string>): seq<string> {
    [key + ":\n"] + (Flat(SectionsOf(codec, entries)) + rest)
  }

  // What they say.
  function TextsOf(args: seq<Word>): seq<string> {
    seq(|args|, i requires 0 <= i < |args| => args[i].text)
  }

  function SaidBy(e: Entry): Server {
    Server(e.command.text, TextsOf(e.args))
  }

  // A later server of a name replaces an earlier one.
  function Said(entries: seq<Entry>): Servers {
    if entries == [] then map[]
    else
      var last := entries[|entries| - 1];
      Said(entries[..|entries| - 1])[last.name := SaidBy(last)]
  }

  // ----- words -----

  lemma QuoteMarksTight(codec: Codec, w: Word)
    requires codec.Lawful() && WfWord(codec, w)
    ensures Tight(Spelled(codec, w), IsSpace)
  {
    if w.spelling.InQuotes? {
      var q := codec.quote(w.text);
      assert |q| >= 2 && q[0] == '"' && q[|q| - 1] == '"';
    }
  }

  lemma ApostrophesTrim(text: string)
    requires text == "" || Tight(text, IsMark)
    ensures Trim("'" + text + "'", c => c == '\'') == text
  {
    var cut := (c: char) => c == '\'';
    var s := "'" + text + "'";
    if text == "" {
      TrimLeftOff(s, "", cut);
      Seqs.Nothing(s);
    } else {
      TrimOff("'", text, "'", cut);
    }
  }

  // However it is spelled, a word is read as its text.
  lemma WordReads(codec: Codec, w: Word)
    requires codec.Lawful() && WfWord(codec, w)
    ensures ParseScalar(codec, Spelled(codec, w)) == w.text
  {
    var s := Spelled(codec, w);
    QuoteMarksTight(codec, w);
    TrimTight(s, IsSpace);
    match w.spelling
    case InQuotes =>
      assert s[0] == '"' && s[|s| - 1] == '"' && codec.unquote(s) == Some(w.text);
    case InApostrophes =>
      ApostrophesTrim(w.text);
      assert s[0] == '\'' && s[|s| - 1] == '\'';
    case AsIs =>
  }

  // ----- lines -----

  lemma FourSpaces()
    ensures Spaces(2) == "  " && Spaces(4) == "    " && Spaces(5) == "     " && Spaces(6) == "      "
  {
  }

  lemma LineOf(n: nat, body: string)
    requires Tight(body, IsSpace)
    ensures TrimSpace(Spaces(n) + body + "\n") == body && Indent(Spaces(n) + body + "\n") == n
  {
    IndentedLine(n, body, "\n");
    assert LineEnding("\n") == "\n";
  }

  // A line of no consequence.
  ghost predicate IsNothing(line: string) {
    && (forall w :: !IsField(0, w, line)) && !IsStop(0, line) && IsPlain(0, line) && !("- " <= TrimSpace(line))
  }

  lemma IdleIsNothing(line: string)
    requires TrimSpace(line) == "" || TrimSpace(line)[0] == '#'
    ensures IsNothing(line)
  {
    assert "#"[0] == '#' && "- "[0] == '-' && "command:"[0] == 'c' && "args:"[0] == 'a';
  }

  lemma BlankTrims(n: nat)
    ensures TrimSpace(Spaces(n) + "\n") == ""
  {
    var s := Spaces(n) + "\n";
    TrimLeftOff(s, "", IsSpace);
    Seqs.Nothing(s);
  }

  lemma CommentTrims(n: nat, rest: string)
    requires rest != "" && rest[0] == '#'
    ensures var t := TrimSpace(Spaces(n) + rest); t != "" && t[0] == '#'
  {
    TrimLeftOff(Spaces(n), rest, IsSpace);
    TrimRightKeepsFirst(rest, IsSpace);
  }

  lemma DeepIsNothing(line: string)
    requires Indent(line) > 4 && !("- " <= TrimSpace(line))
    ensures IsNothing(line)
  {
  }

  lemma NoteIsNothing(n: Note)
    requires WfNote(n)
    ensures IsNothing(NoteLine(n))
  {
    match n
    case Blank(indent) =>
      BlankTrims(indent);
      IdleIsNothing(NoteLine(n));
    case Comment(indent, text) =>
      CommentTrims(indent, "#" + text + "\n");
      IdleIsNothing(NoteLine(n));
    case Deeper(extra, text) =>
      assert NoteLine(n) == Spaces(5 + extra) + text + "\n";
      LineOf(5 + extra, text);
      DeepIsNothing(NoteLine(n));
  }

  lemma NotesAreNothing(notes: seq<Note>)
    requires forall n :: n in notes ==> WfNote(n)
    ensures forall i :: 0 <= i < |notes| ==> IsNothing(NoteLines(notes)[i])
  {
    forall i | 0 <= i < |notes| ensures IsNothing(NoteLines(notes)[i]) {
      NoteIsNothing(notes[i]);
    }
  }

  lemma PrefixTight(pre: string, s: string)
    requires Tight(s, IsSpace) && pre != "" && !IsSpace(pre[0])
    ensures Tight(pre + s, IsSpace)
  {
    assert (pre + s)[|pre + s| - 1] == s[|s| - 1];
  }

  lemma CommandReads(codec: Codec, w: Word)
    requires codec.Lawful() && WfWord(codec, w)
    ensures var l := CommandIs(codec, w);
            && IsField(0, Command, l) && !IsField(0, Args, l) && IsPlain(0, l) && CommandOn(codec, l) == w.text
  {
    var t := Spelled(codec, w);
    QuoteMarksTight(codec, w);
    PrefixTight("command: ", t);
    FourSpaces();
    LineOf(4, "command: " + t);
    TrimPadded(t);
    WordReads(codec, w);
    TrimTight(t, IsSpace);
    CommandText(t);
  }

  lemma CommandText(t: string)
    ensures var s := "command: " + t;
            "command:" <= s && s[|"command:"|..] == " " + t && !("args:" <= s) && s[0] == 'c'
  {
    var s := "command: " + t;
    assert s[0] == 'c' && "args:"[0] == 'a';
    assert "command:" <= "command: " <= s;
  }

  lemma ArgsReads()
    ensures IsField(0, Args, ARGS_LINE) && !IsField(0, Command, ARGS_LINE) && IsPlain(0, ARGS_LINE)
            && IsStop(0, ARGS_LINE) && Terminated(ARGS_LINE)
  {
    FourSpaces();
    LineOf(4, "args:");
    assert "args:"[0] == 'a' && "command:"[0] == 'c' && "#"[0] == '#';
  }

  // A line of the list.
  ghost predicate IsItem(codec: Codec, text: string, line: string) {
    && (forall w :: !IsField(0, w, line)) && !IsStop(0, line) && IsPlain(0, line)
    && "- " <= TrimSpace(line) && ParseScalar(codec, TrimSpace(TrimSpace(line)[2..])) == text
  }

  lemma ItemReads(codec: Codec, w: Word)
    requires codec.Lawful() && WfWord(codec, w)
    ensures IsItem(codec, w.text, "      " + ("- " + Spelled(codec, w)) + "\n")
  {
    var t := Spelled(codec, w);
    QuoteMarksTight(codec, w);
    PrefixTight("- ", t);
    FourSpaces();
    LineOf(6, "- " + t);
    assert ("- " + t)[2..] == t;
    TrimTight(t, IsSpace);
    WordReads(codec, w);
  }

  lemma HeaderReads(name: string)
    requires WfName(name)
    ensures var l := "  " + (name + ":") + "\n"; IsStart(0, l) && NameOf(l) == name
  {
    FourSpaces();
    LineOf(2, name + ":");
    Seqs.Snoc(name, ':');
    assert "#"[0] == '#' && (name + ":")[0] == name[0];
  }

  lemma RootReads(key: string)
    requires WfName(key)
    ensures IsRoot(key, key + ":\n") && Indent(key + ":\n") == 0
  {
    LineOf(0, key + ":");
    assert Spaces(0) + (key + ":") + "\n" == key + ":\n";
    assert "#"[0] == '#' && (key + ":")[0] == key[0];
  }

  // ----- one server -----

  lemma ItemsAreItems(codec: Codec, args: seq<Word>)
    requires codec.Lawful() && forall w :: w in args ==> WfWord(codec, w)
    ensures forall i :: 0 <= i < |args| ==> IsItem(codec, args[i].text, ItemLines(codec, args)[i])
  {
    forall i | 0 <= i < |args| ensures IsItem(codec, args[i].text, ItemLines(codec, args)[i]) {
      assert args[i] in args;
      ItemReads(codec, args[i]);
    }
  }

  lemma BlockOf(q: Kind, p: Kind, s: Kind, head: string, items: seq<string>)
    requires p(head) && !q(head) && forall i :: 0 <= i < |items| ==> !p(items[i]) && !q(items[i]) && !s(items[i])
    ensures IsBlock(q, p, s, [head] + items)
  {
  }

  lemma ListIsBlock(codec: Codec, args: seq<Word>)
    requires codec.Lawful() && forall w :: w in args ==> WfWord(codec, w)
    ensures IsBlock(Field(0, Command), Field(0, Args), Stop(0), [ARGS_LINE] + ItemLines(codec, args))
  {
    ArgsReads();
    ItemsAreItems(codec, args);
    BlockOf(Field(0, Command), Field(0, Args), Stop(0), ARGS_LINE, ItemLines(codec, args));
  }

  lemma BodyIsBody(codec: Codec, e: Entry)
    requires codec.Lawful() && Wf(codec, e)
    ensures IsBody(0, BodyOf(codec, e))
  {
    ArgsReads();
    NotesAreNothing(e.after);
    ListIsBlock(codec, e.args);
  }

  lemma BlockIsPlain(codec: Codec, args: seq<Word>)
    requires codec.Lawful() && forall w :: w in args ==> WfWord(codec, w)
    ensures ArePlain(0, [ARGS_LINE] + ItemLines(codec, args))
  {
    ArgsReads();
    ItemsAreItems(codec, args);
  }

  lemma NotesArePlain(notes: seq<Note>)
    requires forall n :: n in notes ==> WfNote(n)
    ensures ArePlain(0, NoteLines(notes))
  {
    NotesAreNothing(notes);
  }

  lemma PlainSnoc(lines: seq<string>, line: string)
    requires ArePlain(0, lines) && IsPlain(0, line)
    ensures ArePlain(0, lines + [line])
  {
  }

  lemma BodyIsPlain(codec: Codec, e: Entry)
    requires codec.Lawful() && Wf(codec, e)
    ensures ArePlain(0, BodyOf(codec, e).Whole())
  {
    NotesArePlain(e.before);
    NotesArePlain(e.after);
    CommandReads(codec, e.command);
    PlainSnoc(NoteLines(e.before), CommandIs(codec, e.command));
    BlockIsPlain(codec, e.args);
    PlainParts(BodyOf(codec, e));
  }

  lemma PlainParts(x: Parts)
    requires ArePlain(0, x.pre) && ArePlain(0, x.block) && ArePlain(0, x.tail)
    ensures ArePlain(0, x.Whole())
  {
  }

  lemma OneItemMore(codec: Codec, lines: seq<string>, line: string, text: string)
    requires IsItem(codec, text, line)
    ensures Items(codec, lines + [line]) == Items(codec, lines) + [text]
  {
    Seqs.Snoc(lines, line);
  }

  lemma ListSnoc(codec: Codec, args: seq<Word>)
    requires args != []
    ensures var n := |args| - 1;
            && ItemLines(codec, args) ==
               ItemLines(codec, args[..n]) + ["      " + ("- " + Spelled(codec, args[n])) + "\n"]
            && TextsOf(args) == TextsOf(args[..n]) + [args[n].text]
  {
  }

  lemma {:induction false} ItemsAreTexts(codec: Codec, args: seq<Word>)
    requires codec.Lawful() && forall w :: w in args ==> WfWord(codec, w)
    ensures Items(codec, ItemLines(codec, args)) == TextsOf(args)
  {
    if args != [] {
      var n := |args| - 1;
      assert args[n] in args && forall w :: w in args[..n] ==> w in args;
      ItemsAreTexts(codec, args[..n]);
      ItemReads(codec, args[n]);
      ListSnoc(codec, args);
      OneItemMore(codec, ItemLines(codec, args[..n]), "      " + ("- " + Spelled(codec, args[n])) + "\n", args[n].text);
    }
  }

  lemma {:induction false} NoItems(codec: Codec, lines: seq<string>)
    requires forall i :: 0 <= i < |lines| ==> IsNothing(lines[i])
    ensures Items(codec, lines) == []
  {
    if lines != [] {
      NoItems(codec, lines[..|lines| - 1]);
    }
  }

  lemma CommandFound(codec: Codec, e: Entry)
    requires codec.Lawful() && Wf(codec, e)
    ensures CommandIn(0, codec, BodyOf(codec, e)) == e.command.text
  {
    var x := BodyOf(codec, e);
    NotesAreNothing(e.after);
    CommandReads(codec, e.command);
    LastIs(Field(0, Command), x.pre, |e.before|);
  }

  lemma ArgsFound(codec: Codec, e: Entry)
    requires codec.Lawful() && Wf(codec, e)
    ensures Loaded(0, codec, BodyOf(codec, e).Whole()).args == TextsOf(e.args)
  {
    var x := BodyOf(codec, e);
    BodyIsBody(codec, e);
    ArgsReads();
    LoadedArgs(0, codec, x);
    NothingAbove(codec, e);
    NotesAreNothing(e.after);
    var left := x.tail[..Listed(0, x)];
    assert forall i :: 0 <= i < |left| ==> left[i] == x.tail[i];
    assert x.block[1..] == ItemLines(codec, e.args);
    ItemsConcat(codec, x.block[1..], left);
    ItemsAreTexts(codec, e.args);
    NoItems(codec, left);
    Seqs.Nothing(TextsOf(e.args));
  }

  lemma NothingAbove(codec: Codec, e: Entry)
    requires codec.Lawful() && Wf(codec, e)
    ensures Above(0, codec, BodyOf(codec, e).pre) == []
  {
    var x := BodyOf(codec, e);
    NotesAreNothing(e.before);
    CommandReads(codec, e.command);
    GatheredUpTo(Field(0, Args), Stop(0), Reader(codec), x.pre, 0, |x.pre|);
  }

  lemma EntryLoads(codec: Codec, e: Entry)
    requires codec.Lawful() && Wf(codec, e)
    ensures Loaded(0, codec, SectionOf(codec, e).body) == SaidBy(e)
  {
    BodyIsBody(codec, e);
    LoadedCommand(0, codec, BodyOf(codec, e));
    CommandFound(codec, e);
    ArgsFound(codec, e);
  }

  // ----- whole files -----

  lemma SectionsSnoc(codec: Codec, entries: seq<Entry>)
    requires entries != []
    ensures var n, all := |entries| - 1, SectionsOf(codec, entries);
            all[..n] == SectionsOf(codec, entries[..n]) && all[n] == SectionOf(codec, entries[n]) && all[..n + 1] == all
  {
  }

  lemma {:induction false} EntriesLoad(codec: Codec, entries: seq<Entry>)
    requires codec.Lawful() && forall e :: e in entries ==> Wf(codec, e)
    ensures LoadedAll(0, codec, SectionsOf(codec, entries)) == Said(entries)
  {
    if entries != [] {
      var n := |entries| - 1;
      assert entries[n] in entries && forall e :: e in entries[..n] ==> e in entries;
      EntriesLoad(codec, entries[..n]);
      SectionsSnoc(codec, entries);
      LoadedAllSnoc(0, codec, SectionsOf(codec, entries), n);
      EntryLoads(codec, entries[n]);
      HeaderReads(entries[n].name);
    }
  }

  lemma EntriesLaidOut(codec: Codec, entries: seq<Entry>, rest: seq<string>)
    requires codec.Lawful() && (forall e :: e in entries ==> Wf(codec, e)) && (rest == [] || IsClose(0, rest[0]))
    ensures IsLayout(0, Layout([], SectionsOf(codec, entries), rest))
  {
    forall i | 0 <= i < |entries|
      ensures IsStart(0, SectionOf(codec, entries[i]).header) && ArePlain(0, SectionOf(codec, entries[i]).body)
    {
      assert entries[i] in entries;
      HeaderReads(entries[i].name);
      BodyIsPlain(codec, entries[i]);
    }
  }

  // What follows: nothing, or a line at the margin that holds something.
  predicate WfRest(rest: seq<string>) {
    rest == [] || (rest[0] != "" && rest[0][0] != '#' && !IsSpace(rest[0][0]))
  }

  lemma RestCloses(line: string)
    requires line != "" && line[0] != '#' && !IsSpace(line[0])
    ensures IsClose(0, line)
  {
    TrimRightKeepsFirst(line, IsSpace);
    assert "#"[0] == '#' && !IsSpaceChar(line[0]);
  }

  lemma RootFirst(key: string, below: seq<string>)
    requires WfName(key)
    ensures var lines := [key + ":\n"] + below;
            RootAt(key, lines) == 0 && RootIndent(key, lines) == 0 && LayoutAt(key, lines) == Scan(0, below)
  {
    RootReads(key);
    FirstIs(Root(key), [key + ":\n"] + below, 0, 0);
    Seqs.Cons(key + ":\n", below);
  }

  lemma EntriesScan(codec: Codec, entries: seq<Entry>, rest: seq<string>)
    requires codec.Lawful() && (forall e :: e in entries ==> Wf(codec, e)) && WfRest(rest)
    ensures Scan(0, Flat(SectionsOf(codec, entries)) + rest) == Layout([], SectionsOf(codec, entries), rest)
  {
    var l := Layout([], SectionsOf(codec, entries), rest);
    if rest != [] {
      RestCloses(rest[0]);
    }
    EntriesLaidOut(codec, entries, rest);
    Seqs.Nothing(Flat(l.sections));
    ScanUnique(0, l);
  }

  // A comment is not taken for the key, even if the key looks like one.
  lemma CommentIsNoRoot(key: string, indent: nat, text: string)
    ensures !IsRoot(key, NoteLine(Comment(indent, text)))
  {
    CommentTrims(indent, "#" + text + "\n");
    assert "#"[0] == '#';
  }

  // A file of servers loads as what they say.
  lemma FileLoads(key: string, codec: Codec, entries: seq<Entry>, rest: seq<string>)
    requires codec.Lawful() && WfName(key) && (forall e :: e in entries ==> Wf(codec, e)) && WfRest(rest)
    ensures Load(key, codec, FileOf(key, codec, entries, rest)) ==
            if entries == [] then Err(KeyAbsent) else Ok(Said(entries))
  {
    RootFirst(key, Flat(SectionsOf(codec, entries)) + rest);
    EntriesScan(codec, entries, rest);
    EntriesLoad(codec, entries);
  }
}
