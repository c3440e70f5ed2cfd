/** TOML configurations as their authors write them load as what they say. */
module TomlFiles {
  import opened Basics
  import opened HostServers
  import Seqs
  import opened Text
  import opened TomlPatch

  // The lines of a file: the table of a server or another one, the two settings that matter and any
  // other, comments and blank lines. All may stand between blanks.
  datatype Line =
    | ServerTable(name: string)
    | OtherTable(title: string)
    | CommandIs(gap: string, command: string)
    | ArgsAre(gap: string, args: seq<string>)
    | OtherIs(gap: string, word: string, value: string)
    | Note(text: Option<string>)

  // With `dos`, the line ends as on DOS.
  datatype Padded = Padded(pre: string, line: Line, post: string, dos: bool)

  function Body(key: string, codec: Codec, l: Line): string {
    match l
    case ServerTable(name) => "[" + key + "." + name + "]"
    case OtherTable(title) => "[" + title + "]"
    case CommandIs(gap, command) => "command" + gap + "=" + gap + codec.quote(command)
    case ArgsAre(gap, args) => "args" + gap + "=" + gap + codec.StringArray(args)
    case OtherIs(gap, word, value) => word + gap + "=" + gap + value
    case Note(text) => if text.Some? then "#" + text.value else ""
  }

  function Ending(dos: bool): string {
    if dos then "\r\n" else "\n"
  }

  function Written(key: string, codec: Codec, l: Padded): string {
    l.pre + Body(key, codec, l.line) + (l.post + Ending(l.dos))
  }

  // Letters, digits, dots, dashes and underscores.
  predicate IsNameText(s: string) {
    forall c :: c in s ==> 'A' <= c <= 'Z' || 'a' <= c <= 'z' || '0' <= c <= '9' || c == '_' || c == '.' || c == '-'
  }

  lemma NameTextIsName(s: string)
    requires IsNameText(s)
    ensures AllNameChars(s)
  {
    forall i | 0 <= i < |s| ensures IsNameChar(s[i]) {
      assert s[i] in s;
    }
  }

  predicate WfLine(key: string, l: Line) {
    match l
    case ServerTable(name) => name != "" && IsNameText(name)
    case OtherTable(title) => !(key + "." <= title)
    case CommandIs(gap, _) => IsGap(gap)
    case ArgsAre(gap, _) => IsGap(gap)
    case OtherIs(gap, word, value) =>
      IsGap(gap) && word != "" && IsNameText(word) && word != "command" && word != "args" && Tight(value, IsSpace)
    case Note(_) => true
  }

  predicate IsGap(s: string) {
    forall i :: 0 <= i < |s| ==> IsBlank(s[i])
  }

  predicate Wf(key: string, l: Padded) {
    WfLine(key, l.line) && IsGap(l.pre) && IsGap(l.post)
  }

  // What the lines say, one after the other: settings belong to the server whose table was opened
  // last, if it is one.
  function Said(st: Loading, l: Line): Loading {
    match l
    case ServerTable(name) => Loading(name, if name in st.servers then st.servers
                                      else st.servers[name := Server("", [])])
    case OtherTable(_) => st.(current := "")
    case CommandIs(_, command) =>
      if st.current == "" then st else st.(servers := st.servers[st.current := Current(st).(command := command)])
    case ArgsAre(_, args) =>
      if st.current == "" then st else st.(servers := st.servers[st.current := Current(st).(args := args)])
    case _ => st
  }

  function Current(st: Loading): Server {
    if st.current in st.servers then st.servers[st.current] else Server("", [])
  }

  function SaidAll(lines: seq<Padded>): Loading {
    if lines == [] then Loading("", map[]) else Said(SaidAll(lines[..|lines| - 1]), lines[|lines| - 1].line)
  }

  // ----- one line -----

  lemma GapIsSpace(s: string)
    requires IsGap(s)
    ensures All(s, IsSpace) && All(s, IsReSpace) && '=' !in s
  {
  }

  lemma ListTight(codec: Codec, args: seq<string>)
    ensures Tight(codec.StringArray(args), IsSpace)
  {
    var s := codec.StringArray(args);
    assert s[0] == '[' && s[|s| - 1] == ']';
  }

  lemma QuoteTight(codec: Codec, s: string)
    requires codec.Lawful()
    ensures Tight(codec.quote(s), IsSpace)
  {
    var q := codec.quote(s);
    assert |q| >= 2 && q[0] == '"' && q[|q| - 1] == '"';
  }

  lemma CutAt(word: string, gap: string, value: string)
    ensures var s, k := word + gap + "=" + gap + value, |word| + |gap|;
            k < |s| && s[k] == '=' && s[..k] == word + gap && s[k + 1..] == gap + value
  {
    var s := word + gap + "=" + gap + value;
    assert s == (word + gap) + ("=" + (gap + value));
    Seqs.Prefix(word + gap, "=" + (gap + value));
  }

  lemma EqIs(s: string, k: nat)
    requires k < |s| && s[k] == '=' && '=' !in s[..k]
    ensures '=' in s && FirstEq(s) == k
  {
    var i := FirstEq(s);
    assert forall j :: 0 <= j < k ==> s[..k][j] != '=';
    assert forall j :: 0 <= j < i ==> s[..i][j] != '=';
  }

  lemma GapTrims(word: string, gap: string, value: string)
    requires IsGap(gap) && Tight(word, IsSpace) && Tight(value, IsSpace)
    ensures TrimSpace(word + gap) == word && TrimSpace(gap + value) == value
  {
    GapIsSpace(gap);
    TrimOff("", word, gap, IsSpace);
    assert "" + word + gap == word + gap;
    TrimOff(gap, value, "", IsSpace);
    Seqs.Nothing(gap + value);
  }

  lemma NameTight(word: string)
    requires word != "" && IsNameText(word)
    ensures Tight(word, IsSpace) && '=' !in word && word[0] != '#' && word[0] != '['
  {
    NameTextIsName(word);
    assert IsNameChar(word[0]) && IsNameChar(word[|word| - 1]);
  }

  lemma NoEqualsIn(word: string, gap: string)
    requires '=' !in word && IsGap(gap)
    ensures '=' !in word + gap
  {
    GapIsSpace(gap);
  }

  lemma SettingTight(word: string, gap: string, value: string)
    requires Tight(word, IsSpace) && Tight(value, IsSpace)
    ensures var s := word + gap + "=" + gap + value; Tight(s, IsSpace) && s[0] == word[0]
  {
    var s := word + gap + "=" + gap + value;
    assert s[|s| - 1] == value[|value| - 1];
  }

  // A setting as the loader cuts it.
  ghost predicate IsCut(s: string, word: string, value: string) {
    && s != "" && s[0] != '#' && s[0] != '[' && '=' in s
    && TrimSpace(s[..FirstEq(s)]) == word && TrimSpace(s[FirstEq(s) + 1..]) == value
  }

  lemma SettingCut(word: string, gap: string, value: string)
    requires word != "" && IsNameText(word) && IsGap(gap) && Tight(value, IsSpace)
    ensures var s := word + gap + "=" + gap + value; Tight(s, IsSpace) && IsCut(s, word, value)
  {
    NameTight(word);
    CutAt(word, gap, value);
    NoEqualsIn(word, gap);
    EqIs(word + gap + "=" + gap + value, |word| + |gap|);
    GapTrims(word, gap, value);
    SettingTight(word, gap, value);
  }

  lemma WrittenTrims(key: string, codec: Codec, l: Padded)
    requires IsGap(l.pre) && IsGap(l.post) && Tight(Body(key, codec, l.line), IsSpace)
    ensures TrimSpace(Written(key, codec, l)) == Body(key, codec, l.line)
  {
    GapIsSpace(l.pre);
    GapEnds(l.post, l.dos);
    TrimOff(l.pre, Body(key, codec, l.line), l.post + Ending(l.dos), IsSpace);
  }

  lemma GapEnds(gap: string, dos: bool)
    requires IsGap(gap)
    ensures All(gap + Ending(dos), IsSpace)
  {
    GapIsSpace(gap);
  }

  lemma LastIsBlank(line: string, body: string, pre: string, post: string)
    requires line == pre + body + post && IsGap(post) && body != "" && body[|body| - 1] == ']'
    ensures line != "" && !IsCrLf(line[|line| - 1])
  {
    if post == "" {
      assert line == pre + body && line[|line| - 1] == ']';
    } else {
      assert line[|line| - 1] == post[|post| - 1];
    }
  }

  // A table's header is found between blanks.
  lemma HeaderBody(pre: string, body: string, post: string, dos: bool)
    requires IsGap(pre) && IsGap(post) && |body| >= 2 && body[0] == '[' && body[|body| - 1] == ']'
    ensures Trim(TrimRight(pre + body + (post + Ending(dos)), IsCrLf), IsReSpace) == body
  {
    var line := pre + body + post;
    assert pre + body + (post + Ending(dos)) == line + Ending(dos);
    LastIsBlank(line, body, pre, post);
    TrimRightOff(line, Ending(dos), IsCrLf);
    GapIsSpace(pre);
    GapIsSpace(post);
    TrimOff(pre, body, post, IsReSpace);
  }

  lemma TableReads(key: string, codec: Codec, l: Padded)
    requires Wf(key, l) && (l.line.ServerTable? || l.line.OtherTable?)
    ensures SectionName(key, Written(key, codec, l)) == if l.line.ServerTable? then Some(l.line.name) else None
  {
    var body := Body(key, codec, l.line);
    HeaderBody(l.pre, body, l.post, l.dos);
    var open := "[" + key + ".";
    if l.line.ServerTable? {
      NameTextIsName(l.line.name);
      assert body == open + l.line.name + "]";
      assert body[|open|..|body| - 1] == l.line.name;
    } else if open <= body {
      OpenInTitle(key, l.line.title);
    }
  }

  lemma OpenInTitle(key: string, title: string)
    requires "[" + key + "." <= "[" + title + "]"
    ensures key + "." <= title
  {
    var open, body := "[" + key + ".", "[" + title + "]";
    assert body[1..] == title + "]" && open[1..] == key + ".";
    assert forall i :: 0 <= i < |open| ==> body[i] == open[i];
    assert body[|key| + 1] == '.' && body[|body| - 1] == ']';
    assert forall i :: 0 <= i < |key| + 1 ==> title[i] == (key + ".")[i] by {
      forall i | 0 <= i < |key| + 1 ensures title[i] == (key + ".")[i] {
        assert body[i + 1] == title[i] && open[i + 1] == (key + ".")[i];
      }
    }
  }

  lemma BlankTrims(pre: string, post: string, dos: bool)
    requires IsGap(pre) && IsGap(post)
    ensures TrimSpace(pre + "" + (post + Ending(dos))) == ""
  {
    var line := pre + "" + (post + Ending(dos));
    GapIsSpace(pre);
    GapEnds(post, dos);
    assert All(line, IsSpace);
    TrimLeftOff(line, "", IsSpace);
    Seqs.Nothing(line);
  }

  lemma CommentTrims(pre: string, rest: string)
    requires IsGap(pre) && rest != "" && rest[0] == '#'
    ensures var trim := TrimSpace(pre + rest); trim != "" && trim[0] == '#'
  {
    GapIsSpace(pre);
    TrimLeftOff(pre, rest, IsSpace);
    TrimRightKeepsFirst(rest, IsSpace);
  }

  lemma NoteTrims(key: string, codec: Codec, l: Padded)
    requires IsGap(l.pre) && IsGap(l.post) && l.line.Note?
    ensures var trim := TrimSpace(Written(key, codec, l)); trim == "" || trim[0] == '#'
  {
    if l.line.text.None? {
      BlankTrims(l.pre, l.post, l.dos);
    } else {
      Seqs.Assoc(l.pre, "#" + l.line.text.value, l.post + Ending(l.dos));
      CommentTrims(l.pre, "#" + l.line.text.value + (l.post + Ending(l.dos)));
    }
  }

  // A line that is trimmed to a setting.
  lemma SettingLoads(key: string, codec: Codec, st: Loading, line: string, word: string, value: string)
    requires IsCut(TrimSpace(line), word, value)
    ensures LoadLine(key, codec, st, line) ==
            if st.current == "" then Ok(st)
            else if word == "command" then
              (match codec.unquote(value)
               case None => Err(BadValue)
               case Some(c) => Ok(st.(servers := st.servers[st.current := Current(st).(command := c)])))
            else if word == "args" then
              (match codec.parseArray(value)
               case None => Err(BadValue)
               case Some(a) => Ok(st.(servers := st.servers[st.current := Current(st).(args := a)])))
            else Ok(st)
  {
    assert "#"[0] == '#' && "["[0] == '[';
  }

  lemma CommandReads(key: string, codec: Codec, st: Loading, l: Padded)
    requires codec.Lawful() && Wf(key, l) && l.line.CommandIs?
    ensures LoadLine(key, codec, st, Written(key, codec, l)) == Ok(Said(st, l.line))
  {
    var value := codec.quote(l.line.command);
    QuoteTight(codec, l.line.command);
    SettingCut("command", l.line.gap, value);
    WrittenTrims(key, codec, l);
    SettingLoads(key, codec, st, Written(key, codec, l), "command", value);
  }

  lemma ArgsRead(key: string, codec: Codec, st: Loading, l: Padded)
    requires codec.Lawful() && Wf(key, l) && l.line.ArgsAre?
    ensures LoadLine(key, codec, st, Written(key, codec, l)) == Ok(Said(st, l.line))
  {
    var value := codec.StringArray(l.line.args);
    ListTight(codec, l.line.args);
    SettingCut("args", l.line.gap, value);
    WrittenTrims(key, codec, l);
    assert "args"[0] != "command"[0];
    SettingLoads(key, codec, st, Written(key, codec, l), "args", value);
  }

  lemma OtherReads(key: string, codec: Codec, st: Loading, l: Padded)
    requires Wf(key, l) && l.line.OtherIs?
    ensures LoadLine(key, codec, st, Written(key, codec, l)) == Ok(st)
  {
    SettingCut(l.line.word, l.line.gap, l.line.value);
    WrittenTrims(key, codec, l);
    SettingLoads(key, codec, st, Written(key, codec, l), l.line.word, l.line.value);
  }

  lemma NoteReads(key: string, codec: Codec, st: Loading, l: Padded)
    requires IsGap(l.pre) && IsGap(l.post) && l.line.Note?
    ensures LoadLine(key, codec, st, Written(key, codec, l)) == Ok(st)
  {
    NoteTrims(key, codec, l);
  }

  lemma TableLoads(key: string, codec: Codec, st: Loading, l: Padded)
    requires Wf(key, l) && (l.line.ServerTable? || l.line.OtherTable?)
    ensures LoadLine(key, codec, st, Written(key, codec, l)) == Ok(Said(st, l.line))
  {
    var body := Body(key, codec, l.line);
    assert body[0] == '[' && body[|body| - 1] == ']' && "#"[0] == '#';
    WrittenTrims(key, codec, l);
    TableReads(key, codec, l);
  }

  lemma LineReads(key: string, codec: Codec, st: Loading, l: Padded)
    requires codec.Lawful() && Wf(key, l)
    ensures LoadLine(key, codec, st, Written(key, codec, l)) == Ok(Said(st, l.line))
  {
    match l.line
    case ServerTable(_) => TableLoads(key, codec, st, l);
    case OtherTable(_) => TableLoads(key, codec, st, l);
    case CommandIs(_, _) => CommandReads(key, codec, st, l);
    case ArgsAre(_, _) => ArgsRead(key, codec, st, l);
    case OtherIs(_, _, _) => OtherReads(key, codec, st, l);
    case Note(_) => NoteReads(key, codec, st, l);
  }

  // ----- whole files -----

  function WrittenAll(key: string, codec: Codec, lines: seq<Padded>): seq<string> {
    seq(|lines|, i requires 0 <= i < |lines| => Written(key, codec, lines[i]))
  }

  // A file loads as what its lines say.
  lemma {:induction false} FileReads(key: string, codec: Codec, lines: seq<Padded>)
    requires codec.Lawful() && forall l :: l in lines ==> Wf(key, l)
    ensures LoadAll(key, codec, WrittenAll(key, codec, lines)) == Ok(SaidAll(lines))
    ensures Load(key, codec, WrittenAll(key, codec, lines)) ==
            if SaidAll(lines).servers == map[] then Err(KeyAbsent) else Ok(SaidAll(lines).servers)
  {
    if lines != [] {
      var front, last := lines[..|lines| - 1], lines[|lines| - 1];
      FileReads(key, codec, front);
      assert WrittenAll(key, codec, lines)[..|front|] == WrittenAll(key, codec, front);
      LineReads(key, codec, SaidAll(front), last);
    }
  }
}
