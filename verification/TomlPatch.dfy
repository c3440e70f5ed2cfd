/** Wrapping and unwrapping MCP servers in a host's TOML configuration, line by line. */
module TomlPatch {
  import opened Basics
  import opened HostServers
  import opened LineSplice
  import opened Text

  datatype TomlError = KeyAbsent | BadValue | MissingCommand(server: string) | MissingArgs(server: string)

  // ----- what a line is -----

  predicate IsNameChar(c: char) {
    'A' <= c <= 'Z' || 'a' <= c <= 'z' || '0' <= c <= '9' || c == '_' || c == '.' || c == '-'
  }

  predicate AllNameChars(s: string) {
    forall i :: 0 <= i < |s| ==> IsNameChar(s[i])
  }

  predicate IsCrLf(c: char) {
    c == '\r' || c == '\n'
  }

  // The server a section header names: [key.name] between white space.
  function SectionName(key: string, line: string): Option<string> {
    var body := Trim(TrimRight(line, IsCrLf), IsReSpace);
    var open := "[" + key + ".";
    if open <= body && |body| > |open| + 1 && body[|body| - 1] == ']' && AllNameChars(body[|open|..|body| - 1])
    then Some(body[|open|..|body| - 1])
    else None
  }

  predicate IsHeader(line: string) {
    "[" <= TrimSpace(line)
  }

  function Header(): Kind {
    (line: string) => IsHeader(line)
  }

  // A line the patch takes for a setting: the word at its start and an equals sign somewhere.
  datatype Setting = Command | Args
  {
    function Name(): string {
      if Command? then "command" else "args"
    }
  }

  predicate IsSetting(word: Setting, line: string) {
    word.Name() <= TrimSpace(line) && '=' in TrimSpace(line)
  }

  function FirstEq(s: string): (i: nat)
    requires '=' in s
    ensures i < |s| && s[i] == '=' && '=' !in s[..i]
  {
    if s[0] == '=' then 0
    else
      assert s == [s[0]] + s[1..];
      var i := FirstEq(s[1..]);
      assert s[..i + 1] == [s[0]] + s[1..][..i];
      i + 1
  }

  // ----- reading the servers -----

  datatype Loading = Loading(current: string, servers: Servers)

  function LoadLine(key: string, codec: Codec, st: Loading, line: string): Result<Loading, TomlError> {
    var trim := TrimSpace(line);
    if trim == "" || "#" <= trim then Ok(st)
    else if "[" <= trim then
      (match SectionName(key, line)
       case Some(name) =>
         Ok(Loading(name, if name in st.servers then st.servers else st.servers[name := Server("", [])]))
       case None => Ok(st.(current := "")))
    else if st.current == "" || '=' !in trim then Ok(st)
    else
      var k, v := TrimSpace(trim[..FirstEq(trim)]), TrimSpace(trim[FirstEq(trim) + 1..]);
      var entry := if st.current in st.servers then st.servers[st.current] else Server("", []);
      if k == "command" then
        (match codec.unquote(v)
         case None => Err(BadValue)
         case Some(c) => Ok(st.(servers := st.servers[st.current := entry.(command := c)])))
      else if k == "args" then
        (match codec.parseArray(v)
         case None => Err(BadValue)
         case Some(a) => Ok(st.(servers := st.servers[st.current := entry.(args := a)])))
      else Ok(st)
  }

  function LoadAll(key: string, codec: Codec, lines: seq<string>): Result<Loading, TomlError> {
    if lines == [] then Ok(Loading("", map[]))
    else
      match LoadAll(key, codec, lines[..|lines| - 1])
      case Err(e) => Err(e)
      case Ok(st) => LoadLine(key, codec, st, lines[|lines| - 1])
  }

  function Load(key: string, codec: Codec, lines: seq<string>): Result<Servers, TomlError> {
    match LoadAll(key, codec, lines)
    case Err(e) => Err(e)
    case Ok(st) => if st.servers == map[] then Err(KeyAbsent) else Ok(st.servers)
  }

  // ----- rewriting settings in place -----

  // The last header before line k, or -1.
  function HeaderBefore(lines: seq<string>, k: nat): (h: int)
    requires k <= |lines|
    ensures -1 <= h < k
    ensures h >= 0 ==> IsHeader(lines[h])
    ensures forall j :: h < j < k ==> !IsHeader(lines[j])
  {
    LastAt(Header(), lines, 0, k)
  }

  // The server whose section line k is in.
  function ServerAt(key: string, lines: seq<string>, k: nat): Option<string>
    requires k <= |lines|
  {
    var h := HeaderBefore(lines, k);
    if h < 0 then None else SectionName(key, lines[h])
  }

  // The end of the section: the first header at or after `start`.
  function NextSection(lines: seq<string>, start: nat): (end: nat)
    requires start <= |lines|
    ensures start <= end <= |lines|
    ensures end < |lines| ==> IsHeader(lines[end])
    ensures forall j :: start <= j < end ==> !IsHeader(lines[j])
  {
    FirstAt(Header(), lines, start, |lines|)
  }

  // Line k is the last setting of its kind in its section.
  predicate IsSlot(word: Setting, lines: seq<string>, k: nat)
    requires k < |lines|
  {
    IsSetting(word, lines[k]) && forall j :: k < j < NextSection(lines, k + 1) ==> !IsSetting(word, lines[j])
  }

  function SettingLine(line: string, text: string): string {
    LinePrefix(line) + text + LineEnding(line)
  }

  function CommandText(codec: Codec, s: Server): string {
    Command.Name() + " = " + codec.quote(s.command)
  }

  function ArgsText(codec: Codec, s: Server): string {
    Args.Name() + " = " + codec.StringArray(s.args)
  }

  // Line k after the given servers have been written into their sections.
  function RewrittenLine(key: string, codec: Codec, values: Servers, lines: seq<string>, k: nat): string
    requires k < |lines|
  {
    match ServerAt(key, lines, k)
    case None => lines[k]
    case Some(name) =>
      if name !in values then lines[k]
      else if IsSlot(Command, lines, k) then SettingLine(lines[k], CommandText(codec, values[name]))
      else if IsSlot(Args, lines, k) then SettingLine(lines[k], ArgsText(codec, values[name]))
      else lines[k]
  }

  function Rewritten(key: string, codec: Codec, values: Servers, lines: seq<string>): seq<string> {
    seq(|lines|, k requires 0 <= k < |lines| => RewrittenLine(key, codec, values, lines, k))
  }

  // ----- patch and unpatch -----

  // Every section of a selected server has both settings.
  ghost predicate Complete(key: string, values: Servers, lines: seq<string>) {
    CompleteUpTo(key, values, lines, |lines|)
  }

  ghost predicate CompleteUpTo(key: string, values: Servers, lines: seq<string>, n: nat)
    requires n <= |lines|
  {
    forall i :: 0 <= i < n && SectionName(key, lines[i]).Some? && SectionName(key, lines[i]).value in values ==>
                  HasSettings(lines, i)
  }

  ghost predicate HasSettings(lines: seq<string>, i: nat)
    requires i < |lines|
  {
    HasSetting(Command, lines, i) && HasSetting(Args, lines, i)
  }

  ghost predicate HasSetting(word: Setting, lines: seq<string>, i: nat)
    requires i < |lines|
  {
    exists j :: i < j < NextSection(lines, i + 1) && IsSetting(word, lines[j])
  }

  // The first selected section that lacks a setting is the one complained about.
  ghost predicate Lacks(key: string, values: Servers, lines: seq<string>, error: TomlError) {
    exists i: nat :: i < |lines| && LacksAt(key, values, lines, i, error)
  }

  ghost predicate LacksAt(key: string, values: Servers, lines: seq<string>, i: nat, error: TomlError)
    requires i < |lines|
  {
    match SectionName(key, lines[i])
    case None => false
    case Some(name) =>
      && name in values && CompleteUpTo(key, values, lines, i) && !HasSettings(lines, i)
      && error == if HasSetting(Command, lines, i) then MissingArgs(name) else MissingCommand(name)
  }

  // ----- lines of the same kind -----

  lemma SectionIsHeader(key: string, line: string)
    requires SectionName(key, line).Some?
    ensures IsHeader(line) && SectionName(key, line).value != ""
  {
    var cut := TrimRight(line, IsCrLf);
    var left := TrimLeft(cut, IsReSpace);
    var body := Trim(cut, IsReSpace);
    TrimLeftParts(cut, IsReSpace);
    TrimRightPrefix(left, IsReSpace);
    TrimRightPrefix(line, IsCrLf);
    assert body[0] == '[' && left[0] == '[';
    BracketFirst(line, |cut| - |left|);
  }

  // A line whose first character that is no blank is a bracket is a header.
  lemma BracketFirst(line: string, n: nat)
    requires n < |line| && line[n] == '[' && forall i :: 0 <= i < n ==> IsSpace(line[i])
    ensures IsHeader(line)
  {
    assert line == line[..n] + line[n..];
    TrimLeftOff(line[..n], line[n..], IsSpace);
    TrimRightKeepsFirst(line[n..], IsSpace);
  }

  ghost predicate SameKind(key: string, a: string, b: string) {
    && IsHeader(a) == IsHeader(b)
    && SectionName(key, a) == SectionName(key, b)
    && IsSetting(Command, a) == IsSetting(Command, b)
    && IsSetting(Args, a) == IsSetting(Args, b)
  }

  ghost predicate SameKinds(key: string, a: seq<string>, b: seq<string>) {
    |a| == |b| && forall k :: 0 <= k < |a| ==> SameKind(key, a[k], b[k])
  }

  // The two kinds of text that are written.
  ghost predicate IsSettingText(word: Setting, text: string) {
    && Tight(text, IsSpace)
    && word.Name() + " = " <= text
  }

  lemma SettingTextOf(word: Setting, value: string)
    requires Tight(value, IsSpace)
    ensures IsSettingText(word, word.Name() + " = " + value)
  {
    var text := word.Name() + " = " + value;
    assert text[|text| - 1] == value[|value| - 1];
    assert text[0] == word.Name()[0];
  }

  lemma SettingTexts(codec: Codec, v: Server)
    requires codec.Lawful()
    ensures IsSettingText(Command, CommandText(codec, v)) && IsSettingText(Args, ArgsText(codec, v))
  {
    SettingTextOf(Command, codec.quote(v.command));
    SettingTextOf(Args, codec.StringArray(v.args));
  }

  // A written line is a setting of its word only, keeps prefix and ending, and trims to its text.
  lemma WrittenLine(key: string, word: Setting, line: string, text: string)
    requires IsSettingText(word, text)
    ensures var l := SettingLine(line, text);
            && TrimSpace(l) == text && LinePrefix(l) == LinePrefix(line) && LineEnding(l) == LineEnding(line)
            && !IsHeader(l) && SectionName(key, l) == None
            && IsSetting(word, l) && (forall w :: w != word ==> !IsSetting(w, l))
  {
    LinePrefixBlank(line);
    RebuiltLine(LinePrefix(line), text, line);
    var name := word.Name();
    assert text[0] == (name + " = ")[0] == name[0];
    assert (name + " = ")[|name| + 1] == '=' && text[|name| + 1] == '=';
    var l := SettingLine(line, text);
    if SectionName(key, l).Some? {
      SectionIsHeader(key, l);
    }
    assert "command"[0] == 'c' && "args"[0] == 'a';
  }

  lemma SettingIsNoHeader(key: string, word: Setting, line: string)
    requires IsSetting(word, line)
    ensures !IsHeader(line) && SectionName(key, line) == None
    ensures forall w :: w != word ==> !IsSetting(w, line)
  {
    assert TrimSpace(line)[0] == word.Name()[0];
    assert "command"[0] == 'c' && "args"[0] == 'a' && "["[0] == '[';
    if SectionName(key, line).Some? {
      SectionIsHeader(key, line);
    }
  }

  // Writing a setting over a setting of the same word keeps the kind.
  lemma WriteKeepsKind(key: string, word: Setting, line: string, text: string)
    requires IsSettingText(word, text) && IsSetting(word, line)
    ensures SameKind(key, line, SettingLine(line, text))
  {
    WrittenLine(key, word, line, text);
    SettingIsNoHeader(key, word, line);
  }

  // Everything positional depends on the kinds only.
  lemma {:induction false} KindsHeaderBefore(key: string, a: seq<string>, b: seq<string>, k: nat)
    requires SameKinds(key, a, b) && k <= |a|
    ensures HeaderBefore(a, k) == HeaderBefore(b, k) && ServerAt(key, a, k) == ServerAt(key, b, k)
  {
    if k > 0 {
      assert SameKind(key, a[k - 1], b[k - 1]);
      if !IsHeader(a[k - 1]) {
        KindsHeaderBefore(key, a, b, k - 1);
      }
    }
  }

  lemma {:induction false} KindsNextSection(key: string, a: seq<string>, b: seq<string>, k: nat)
    requires SameKinds(key, a, b) && k <= |a|
    ensures NextSection(a, k) == NextSection(b, k)
    decreases |a| - k
  {
    if k < |a| {
      assert SameKind(key, a[k], b[k]);
      if !IsHeader(a[k]) {
        KindsNextSection(key, a, b, k + 1);
      }
    }
  }

  lemma KindsSlot(key: string, word: Setting, a: seq<string>, b: seq<string>, k: nat)
    requires SameKinds(key, a, b) && k < |a|
    ensures IsSlot(word, a, k) == IsSlot(word, b, k)
  {
    KindsNextSection(key, a, b, k + 1);
    assert SameKind(key, a[k], b[k]);
    assert forall j :: 0 <= j < |a| ==> SameKind(key, a[j], b[j]);
  }

  lemma RewrittenKinds(key: string, codec: Codec, values: Servers, lines: seq<string>)
    requires codec.Lawful()
    ensures SameKinds(key, lines, Rewritten(key, codec, values, lines))
  {
    forall k | 0 <= k < |lines| ensures SameKind(key, lines[k], RewrittenLine(key, codec, values, lines, k)) {
      var name := ServerAt(key, lines, k);
      if name.Some? && name.value in values {
        SettingTexts(codec, values[name.value]);
        if IsSlot(Command, lines, k) {
          WriteKeepsKind(key, Command, lines[k], CommandText(codec, values[name.value]));
        } else if IsSlot(Args, lines, k) {
          WriteKeepsKind(key, Args, lines[k], ArgsText(codec, values[name.value]));
        }
      }
    }
  }

  // Writing again, into at least the same servers, is as if the first time had not been.
  lemma RewriteTwice(key: string, codec: Codec, v1: Servers, v2: Servers, lines: seq<string>)
    requires codec.Lawful() && v1.Keys <= v2.Keys
    ensures Rewritten(key, codec, v2, Rewritten(key, codec, v1, lines)) == Rewritten(key, codec, v2, lines)
  {
    var once := Rewritten(key, codec, v1, lines);
    RewrittenKinds(key, codec, v1, lines);
    forall k | 0 <= k < |lines|
      ensures RewrittenLine(key, codec, v2, once, k) == RewrittenLine(key, codec, v2, lines, k)
    {
      LineTwice(key, codec, v1, v2, lines, once, k);
    }
  }

  lemma LineTwice(key: string, codec: Codec, v1: Servers, v2: Servers, lines: seq<string>, once: seq<string>, k: nat)
    requires codec.Lawful() && v1.Keys <= v2.Keys && k < |lines|
    requires SameKinds(key, lines, once) && once[k] == RewrittenLine(key, codec, v1, lines, k)
    ensures RewrittenLine(key, codec, v2, once, k) == RewrittenLine(key, codec, v2, lines, k)
  {
    KindsHeaderBefore(key, lines, once, k);
    KindsSlot(key, Command, lines, once, k);
    KindsSlot(key, Args, lines, once, k);
    var name := ServerAt(key, lines, k);
    if name.Some? && name.value in v1 {
      SettingTexts(codec, v1[name.value]);
      WrittenLine(key, Command, lines[k], CommandText(codec, v1[name.value]));
      WrittenLine(key, Args, lines[k], ArgsText(codec, v1[name.value]));
    }
  }

  // ----- what a rewritten file loads -----

  // A setting that loading will read: the word stands before the first equals sign.
  ghost predicate Reads(word: Setting, line: string) {
    var trim := TrimSpace(line);
    && trim != "" && !("#" <= trim) && !("[" <= trim) && '=' in trim
    && TrimSpace(trim[..FirstEq(trim)]) == word.Name()
  }

  lemma ReadsIsSetting(word: Setting, line: string)
    requires Reads(word, line)
    ensures IsSetting(word, line)
  {
    var trim := TrimSpace(line);
    var x := trim[..FirstEq(trim)];
    TrimLeftParts(line, IsSpace);
    TrimRightPrefix(TrimLeft(line, IsSpace), IsSpace);
    assert !IsSpace(trim[0]);
    if x == "" {
      assert TrimSpace(x) == "";
    }
    assert TrimLeft(x, IsSpace) == x;
    TrimRightPrefix(x, IsSpace);
  }

  lemma {:induction false} FirstEqAt(s: string, i: nat)
    requires i < |s| && s[i] == '=' && '=' !in s[..i]
    ensures '=' in s && FirstEq(s) == i
  {
    assert s[i] in s;
    var j := FirstEq(s);
    assert forall k :: 0 <= k < i ==> s[..i][k] != '=';
    assert forall k :: 0 <= k < j ==> s[..j][k] != '=';
  }

  lemma EqSplit(text: string, left: string, right: string)
    requires text == left + "=" + right && '=' !in left
    ensures '=' in text && text[..FirstEq(text)] == left && text[FirstEq(text) + 1..] == right
  {
    assert text[|left|] == '=' && text[..|left|] == left && text[|left| + 1..] == right;
    FirstEqAt(text, |left|);
  }

  // A written line reads back as the word and the value it was written with.
  lemma WrittenLineReads(word: Setting, text: string, value: string)
    requires text == word.Name() + " = " + value && Tight(value, IsSpace)
    ensures '=' in text
    ensures TrimSpace(text[..FirstEq(text)]) == word.Name() && TrimSpace(text[FirstEq(text) + 1..]) == value
  {
    var name := word.Name();
    Spaced(name, value);
    NameIsTight(word);
    EqSplit(text, name + " ", " " + value);
    TrimPadded(name);
    TrimPadded(value);
  }

  lemma Spaced(name: string, value: string)
    ensures name + " = " + value == (name + " ") + "=" + (" " + value)
  {
  }

  lemma NameIsTight(word: Setting)
    ensures Tight(word.Name(), IsSpace) && '=' !in word.Name() + " "
  {
  }

  // A line outside the headers changes at most the field it reads, of the current server.
  lemma LoadSetting(key: string, codec: Codec, st: Loading, line: string)
    requires !IsHeader(line) && st.current in st.servers && st.current != ""
    ensures var r := LoadLine(key, codec, st, line);
            r.Ok? ==>
              && r.value.current == st.current
              && r.value.servers.Keys == st.servers.Keys
              && (forall name :: name in st.servers && name != st.current ==> r.value.servers[name] == st.servers[name])
              && (!Reads(Command, line) ==> r.value.servers[st.current].command == st.servers[st.current].command)
              && (!Reads(Args, line) ==> r.value.servers[st.current].args == st.servers[st.current].args)
  {
  }

  // A setting that is read sets its field.
  lemma LoadReads(key: string, codec: Codec, st: Loading, line: string, word: Setting, value: string)
    requires st.current in st.servers && st.current != "" && Reads(word, line)
    requires TrimSpace(TrimSpace(line)[FirstEq(TrimSpace(line)) + 1..]) == value
    ensures word.Command? && codec.unquote(value).Some? ==>
              var entry := st.servers[st.current].(command := codec.unquote(value).value);
              LoadLine(key, codec, st, line) == Ok(st.(servers := st.servers[st.current := entry]))
    ensures word.Args? && codec.parseArray(value).Some? ==>
              var entry := st.servers[st.current].(args := codec.parseArray(value).value);
              LoadLine(key, codec, st, line) == Ok(st.(servers := st.servers[st.current := entry]))
  {
  }

  lemma WrittenIsRead(key: string, word: Setting, line: string, value: string)
    requires Tight(value, IsSpace)
    ensures var l := SettingLine(line, word.Name() + " = " + value);
            Reads(word, l) && TrimSpace(TrimSpace(l)[FirstEq(TrimSpace(l)) + 1..]) == value
  {
    var text := word.Name() + " = " + value;
    SettingTextOf(word, value);
    WrittenLine(key, word, line, text);
    WrittenLineReads(word, text, value);
    assert text[0] == word.Name()[0] && "#"[0] == '#' && "["[0] == '[';
  }

  lemma LoadWrittenCommand(key: string, codec: Codec, st: Loading, line: string, v: Server)
    requires codec.Lawful() && st.current in st.servers && st.current != ""
    ensures LoadLine(key, codec, st, SettingLine(line, CommandText(codec, v))) ==
            Ok(st.(servers := st.servers[st.current := st.servers[st.current].(command := v.command)]))
  {
    var value := codec.quote(v.command);
    WrittenIsRead(key, Command, line, value);
    LoadReads(key, codec, st, SettingLine(line, CommandText(codec, v)), Command, value);
    assert codec.unquote(value) == Some(v.command);
  }

  lemma LoadWrittenArgs(key: string, codec: Codec, st: Loading, line: string, v: Server)
    requires codec.Lawful() && st.current in st.servers && st.current != ""
    ensures LoadLine(key, codec, st, SettingLine(line, ArgsText(codec, v))) ==
            Ok(st.(servers := st.servers[st.current := st.servers[st.current].(args := v.args)]))
  {
    var value := codec.StringArray(v.args);
    WrittenIsRead(key, Args, line, value);
    LoadReads(key, codec, st, SettingLine(line, ArgsText(codec, v)), Args, value);
    assert codec.parseArray(value) == Some(v.args);
  }

  // Reading keeps track of the section: the current server is the one whose section the next
  // line is in, and every server met so far has an entry.
  ghost predicate Located(key: string, lines: seq<string>, n: nat, st: Loading)
    requires n <= |lines|
  {
    && (match ServerAt(key, lines, n)
        case None => st.current == ""
        case Some(name) => st.current == name && name != "" && name in st.servers)
    && "" !in st.servers
  }

  lemma {:induction false} LoadLocated(key: string, codec: Codec, lines: seq<string>, n: nat)
    requires n <= |lines| && LoadAll(key, codec, lines[..n]).Ok?
    ensures Located(key, lines, n, LoadAll(key, codec, lines[..n]).value)
  {
    if n > 0 {
      LoadNext(key, codec, lines, n - 1);
      LoadLocated(key, codec, lines, n - 1);
      LocatedStep(key, codec, lines, n - 1, LoadAll(key, codec, lines[..n - 1]).value);
    }
  }

  lemma LocatedStep(key: string, codec: Codec, lines: seq<string>, n: nat, st: Loading)
    requires n < |lines| && Located(key, lines, n, st) && LoadLine(key, codec, st, lines[n]).Ok?
    ensures Located(key, lines, n + 1, LoadLine(key, codec, st, lines[n]).value)
  {
    if SectionName(key, lines[n]).Some? {
      SectionIsHeader(key, lines[n]);
    }
    if IsHeader(lines[n]) {
      assert TrimSpace(lines[n]) != "" && TrimSpace(lines[n])[0] == '[' && "#"[0] == '#';
    } else if st.current != "" {
      LoadSetting(key, codec, st, lines[n]);
    }
  }

  // The section's slot for the word lies before line n.
  ghost predicate Passed(word: Setting, lines: seq<string>, n: nat)
    requires n <= |lines|
  {
    exists j: nat :: HeaderBefore(lines, n) < j < n && IsSlot(word, lines, j)
  }

  // How the two loads compare after n lines: same section, same servers; those that are not
  // rewritten agree; a rewritten one has its new value once its section is over, and each of
  // its fields once the section's slot is past.
  ghost predicate Tracks(key: string, values: Servers, lines: seq<string>, n: nat, st: Loading, st': Loading)
    requires n <= |lines|
  {
    && st'.current == st.current && st'.servers.Keys == st.servers.Keys
    && (forall name :: name in st.servers && name !in values ==> st'.servers[name] == st.servers[name])
    && (forall name :: name in st.servers && name in values && name != st.current ==> st'.servers[name] == values[name])
    && (st.current in st.servers && st.current in values ==>
          && (Passed(Command, lines, n) ==> st'.servers[st.current].command == values[st.current].command)
          && (Passed(Args, lines, n) ==> st'.servers[st.current].args == values[st.current].args))
  }

  // A section that has a setting has a slot.
  lemma {:induction false} LastSetting(word: Setting, lines: seq<string>, end: nat, j: nat) returns (k: nat)
    requires j < end <= |lines| && IsSetting(word, lines[j])
    requires forall i :: j < i < end ==> !IsHeader(lines[i])
    requires end == |lines| || IsHeader(lines[end])
    ensures j <= k < end && IsSlot(word, lines, k)
    decreases end - j
  {
    SectionEnd(lines, j + 1, end);
    if i :| j < i < end && IsSetting(word, lines[i]) {
      k := LastSetting(word, lines, end, i);
    } else {
      k := j;
    }
  }

  lemma {:induction false} SectionEnd(lines: seq<string>, i: nat, end: nat)
    requires i <= end <= |lines| && (end == |lines| || IsHeader(lines[end]))
    requires forall j :: i <= j < end ==> !IsHeader(lines[j])
    ensures NextSection(lines, i) == end
    decreases end - i
  {
    if i < end {
      SectionEnd(lines, i + 1, end);
    }
  }

  // At the end of a rewritten server's section both slots are past.
  lemma SectionComplete(key: string, values: Servers, lines: seq<string>, n: nat)
    requires Complete(key, values, lines) && n <= |lines| && (n == |lines| || IsHeader(lines[n]))
    requires ServerAt(key, lines, n).Some? && ServerAt(key, lines, n).value in values
    ensures Passed(Command, lines, n) && Passed(Args, lines, n)
  {
    var h := HeaderBefore(lines, n);
    SectionEnd(lines, h + 1, n);
    assert HasSettings(lines, h);
    var c: nat :| h < c < n && IsSetting(Command, lines[c]);
    var kc := LastSetting(Command, lines, n, c);
    var a: nat :| h < a < n && IsSetting(Args, lines[a]);
    var ka := LastSetting(Args, lines, n, a);
  }

  // ----- one line further -----

  lemma InSection(lines: seq<string>, j: nat, n: nat)
    requires j < n < |lines| && forall i :: j < i <= n ==> !IsHeader(lines[i])
    ensures NextSection(lines, j + 1) > n
  {
  }

  // After a slot its section has no further setting of the kind.
  lemma SlotIsFinal(word: Setting, lines: seq<string>, j: nat, n: nat)
    requires j < n < |lines| && IsSlot(word, lines, j) && forall i :: j < i <= n ==> !IsHeader(lines[i])
    ensures !IsSetting(word, lines[n])
  {
    InSection(lines, j, n);
  }

  lemma NoHeaderSince(lines: seq<string>, n: nat)
    requires n < |lines| && !IsHeader(lines[n])
    ensures HeaderBefore(lines, n + 1) == HeaderBefore(lines, n)
    ensures forall i :: HeaderBefore(lines, n) < i <= n ==> !IsHeader(lines[i])
  {
  }

  lemma PassedSlotIsLast(word: Setting, lines: seq<string>, n: nat)
    requires n < |lines| && !IsHeader(lines[n]) && Passed(word, lines, n)
    ensures !IsSetting(word, lines[n]) && Passed(word, lines, n + 1)
  {
    NoHeaderSince(lines, n);
    var j: nat :| HeaderBefore(lines, n) < j < n && IsSlot(word, lines, j);
    SlotIsFinal(word, lines, j, n);
    assert HeaderBefore(lines, n + 1) < j < n + 1;
  }

  lemma PassedBefore(word: Setting, lines: seq<string>, n: nat)
    requires n < |lines| && !IsHeader(lines[n]) && Passed(word, lines, n + 1) && !IsSlot(word, lines, n)
    ensures Passed(word, lines, n)
  {
    var j: nat :| HeaderBefore(lines, n + 1) < j < n + 1 && IsSlot(word, lines, j);
    assert HeaderBefore(lines, n) < j < n;
  }

  lemma NothingPassed(word: Setting, lines: seq<string>, n: nat)
    requires n < |lines| && IsHeader(lines[n])
    ensures !Passed(word, lines, n + 1)
  {
  }

  // A header line: the old section is complete, the new one has nothing yet.
  lemma TracksHeader(key: string, codec: Codec, values: Servers, lines: seq<string>, n: nat, st: Loading, st': Loading)
    requires n < |lines| && IsHeader(lines[n]) && Complete(key, values, lines)
    requires Located(key, lines, n, st) && Tracks(key, values, lines, n, st, st')
    ensures var r, r' := LoadLine(key, codec, st, lines[n]), LoadLine(key, codec, st', lines[n]);
            r.Ok? && r'.Ok? && Tracks(key, values, lines, n + 1, r.value, r'.value)
  {
    HeaderLoadsAny(key, codec, st, lines[n]);
    HeaderLoadsAny(key, codec, st', lines[n]);
    NothingPassed(Command, lines, n);
    NothingPassed(Args, lines, n);
    if st.current != "" && st.current in values {
      SectionComplete(key, values, lines, n);
    }
  }

  // What a header line does to a load.
  lemma HeaderLoadsAny(key: string, codec: Codec, st: Loading, line: string)
    requires IsHeader(line)
    ensures LoadLine(key, codec, st, line) ==
            (match SectionName(key, line)
             case Some(name) =>
               Ok(Loading(name, if name in st.servers then st.servers else st.servers[name := Server("", [])]))
             case None => Ok(st.(current := "")))
  {
    assert TrimSpace(line)[0] == '[' && "#"[0] == '#';
  }

  // A line of a section that is not rewritten, or outside all of them: both loads see the same.
  lemma TracksUnwritten(key: string, codec: Codec, values: Servers, lines: seq<string>, n: nat, st: Loading,
                        st': Loading)
    requires n < |lines| && !IsHeader(lines[n])
    requires Located(key, lines, n, st) && Tracks(key, values, lines, n, st, st')
    requires LoadLine(key, codec, st, lines[n]).Ok? && st.current !in values
    ensures var r, r' := LoadLine(key, codec, st, lines[n]), LoadLine(key, codec, st', lines[n]);
            r'.Ok? && Tracks(key, values, lines, n + 1, r.value, r'.value)
  {
    if st.current != "" {
      LoadSetting(key, codec, st, lines[n]);
      LoadSetting(key, codec, st', lines[n]);
    }
  }

  // A line of a rewritten section that was kept: it can only touch fields whose slot is ahead.
  lemma TracksKept(key: string, codec: Codec, values: Servers, lines: seq<string>, n: nat, st: Loading, st': Loading)
    requires n < |lines| && !IsHeader(lines[n])
    requires Located(key, lines, n, st) && Tracks(key, values, lines, n, st, st')
    requires LoadLine(key, codec, st, lines[n]).Ok? && st.current in values && st.current != ""
    requires !IsSlot(Command, lines, n) && !IsSlot(Args, lines, n)
    ensures var r, r' := LoadLine(key, codec, st, lines[n]), LoadLine(key, codec, st', lines[n]);
            r'.Ok? && Tracks(key, values, lines, n + 1, r.value, r'.value)
  {
    LoadSetting(key, codec, st, lines[n]);
    LoadSetting(key, codec, st', lines[n]);
    if Passed(Command, lines, n + 1) {
      PassedBefore(Command, lines, n);
      PassedSlotIsLast(Command, lines, n);
      assert !Reads(Command, lines[n]) by { if Reads(Command, lines[n]) { ReadsIsSetting(Command, lines[n]); } }
    }
    if Passed(Args, lines, n + 1) {
      PassedBefore(Args, lines, n);
      PassedSlotIsLast(Args, lines, n);
      assert !Reads(Args, lines[n]) by { if Reads(Args, lines[n]) { ReadsIsSetting(Args, lines[n]); } }
    }
  }

  // Writing a setting of the current server: both loads keep the others.
  lemma TracksSlot(key: string, values: Servers, lines: seq<string>, n: nat, st: Loading, st': Loading, now: Loading,
                   entry: Server)
    requires n < |lines| && st.current in values && st.current in st.servers
    requires Tracks(key, values, lines, n, st, st')
    requires now.current == st.current && now.servers.Keys == st.servers.Keys
    requires forall name :: name in st.servers && name != st.current ==> now.servers[name] == st.servers[name]
    requires Passed(Command, lines, n + 1) ==> entry.command == values[st.current].command
    requires Passed(Args, lines, n + 1) ==> entry.args == values[st.current].args
    ensures Tracks(key, values, lines, n + 1, now, st'.(servers := st'.servers[st.current := entry]))
  {
  }

  lemma TracksCommand(key: string, codec: Codec, values: Servers, lines: seq<string>, n: nat, st: Loading, st': Loading)
    requires codec.Lawful() && n < |lines| && !IsHeader(lines[n]) && IsSlot(Command, lines, n)
    requires Located(key, lines, n, st) && Tracks(key, values, lines, n, st, st')
    requires LoadLine(key, codec, st, lines[n]).Ok? && st.current in values && st.current != ""
    ensures var r, r' := LoadLine(key, codec, st, lines[n]),
                         LoadLine(key, codec, st', SettingLine(lines[n], CommandText(codec, values[st.current])));
            r'.Ok? && Tracks(key, values, lines, n + 1, r.value, r'.value)
  {
    LoadSetting(key, codec, st, lines[n]);
    LoadWrittenCommand(key, codec, st', lines[n], values[st.current]);
    SettingIsNoHeader(key, Command, lines[n]);
    assert !IsSlot(Args, lines, n);
    if Passed(Args, lines, n + 1) {
      PassedBefore(Args, lines, n);
    }
    TracksSlot(key, values, lines, n, st, st', LoadLine(key, codec, st, lines[n]).value,
               st'.servers[st.current].(command := values[st.current].command));
  }

  lemma TracksArgs(key: string, codec: Codec, values: Servers, lines: seq<string>, n: nat, st: Loading, st': Loading)
    requires codec.Lawful() && n < |lines| && !IsHeader(lines[n]) && IsSlot(Args, lines, n)
    requires Located(key, lines, n, st) && Tracks(key, values, lines, n, st, st')
    requires LoadLine(key, codec, st, lines[n]).Ok? && st.current in values && st.current != ""
    ensures var r, r' := LoadLine(key, codec, st, lines[n]),
                         LoadLine(key, codec, st', SettingLine(lines[n], ArgsText(codec, values[st.current])));
            r'.Ok? && Tracks(key, values, lines, n + 1, r.value, r'.value)
  {
    LoadSetting(key, codec, st, lines[n]);
    LoadWrittenArgs(key, codec, st', lines[n], values[st.current]);
    SettingIsNoHeader(key, Args, lines[n]);
    assert !IsSlot(Command, lines, n);
    if Passed(Command, lines, n + 1) {
      PassedBefore(Command, lines, n);
    }
    TracksSlot(key, values, lines, n, st, st', LoadLine(key, codec, st, lines[n]).value,
               st'.servers[st.current].(args := values[st.current].args));
  }

  lemma TracksStep(key: string, codec: Codec, values: Servers, lines: seq<string>, n: nat, st: Loading, st': Loading)
    requires codec.Lawful() && n < |lines| && Complete(key, values, lines)
    requires Located(key, lines, n, st) && Tracks(key, values, lines, n, st, st')
    requires LoadLine(key, codec, st, lines[n]).Ok?
    ensures var r, r' := LoadLine(key, codec, st, lines[n]),
                         LoadLine(key, codec, st', RewrittenLine(key, codec, values, lines, n));
            r'.Ok? && Tracks(key, values, lines, n + 1, r.value, r'.value)
  {
    if IsHeader(lines[n]) {
      assert !IsSetting(Command, lines[n]) && !IsSetting(Args, lines[n]) by {
        assert TrimSpace(lines[n])[0] == '[' && "command"[0] == 'c' && "args"[0] == 'a';
      }
      TracksHeader(key, codec, values, lines, n, st, st');
    } else if st.current == "" || st.current !in values {
      if st.current == "" && st.current in values {
        TracksOutside(key, codec, values, lines, n, st, st');
      } else {
        TracksUnwritten(key, codec, values, lines, n, st, st');
      }
    } else if IsSlot(Command, lines, n) {
      TracksCommand(key, codec, values, lines, n, st, st');
    } else if IsSlot(Args, lines, n) {
      TracksArgs(key, codec, values, lines, n, st, st');
    } else {
      TracksKept(key, codec, values, lines, n, st, st');
    }
  }

  lemma TracksOutside(key: string, codec: Codec, values: Servers, lines: seq<string>, n: nat, st: Loading, st': Loading)
    requires n < |lines| && !IsHeader(lines[n])
    requires Located(key, lines, n, st) && Tracks(key, values, lines, n, st, st') && st.current == ""
    ensures var r, r' := LoadLine(key, codec, st, lines[n]), LoadLine(key, codec, st', lines[n]);
            r.Ok? && r'.Ok? && Tracks(key, values, lines, n + 1, r.value, r'.value)
  {
  }

  // ----- the whole file -----

  lemma {:induction false} LoadTracks(key: string, codec: Codec, values: Servers, lines: seq<string>, n: nat)
    requires codec.Lawful() && n <= |lines| && Complete(key, values, lines)
    requires LoadAll(key, codec, lines[..n]).Ok?
    ensures LoadAll(key, codec, Rewritten(key, codec, values, lines)[..n]).Ok?
    ensures Tracks(key, values, lines, n, LoadAll(key, codec, lines[..n]).value,
                   LoadAll(key, codec, Rewritten(key, codec, values, lines)[..n]).value)
  {
    if n > 0 {
      var new' := Rewritten(key, codec, values, lines);
      LoadNext(key, codec, lines, n - 1);
      LoadNext(key, codec, new', n - 1);
      LoadTracks(key, codec, values, lines, n - 1);
      LoadLocated(key, codec, lines, n - 1);
      var st, st' := LoadAll(key, codec, lines[..n - 1]).value, LoadAll(key, codec, new'[..n - 1]).value;
      TracksStep(key, codec, values, lines, n - 1, st, st');
      assert new'[n - 1] == RewrittenLine(key, codec, values, lines, n - 1);
    } else {
      TracksNothing(key, values, lines);
    }
  }

  lemma TracksNothing(key: string, values: Servers, lines: seq<string>)
    ensures Tracks(key, values, lines, 0, Loading("", map[]), Loading("", map[]))
  {
    assert !Passed(Command, lines, 0) && !Passed(Args, lines, 0);
  }

  lemma LoadNext(key: string, codec: Codec, lines: seq<string>, n: nat)
    requires n < |lines|
    ensures LoadAll(key, codec, lines[..n + 1]).Ok? ==> LoadAll(key, codec, lines[..n]).Ok?
    ensures LoadAll(key, codec, lines[..n]).Ok? ==>
              LoadAll(key, codec, lines[..n + 1]) ==
              LoadLine(key, codec, LoadAll(key, codec, lines[..n]).value, lines[n])
  {
    assert lines[..n + 1][..n] == lines[..n] && lines[..n + 1][n] == lines[n];
  }

  // A rewritten file loads as the original does, with the written servers in place of the old.
  lemma RewrittenLoads(key: string, codec: Codec, values: Servers, lines: seq<string>)
    requires codec.Lawful() && Complete(key, values, lines) && Load(key, codec, lines).Ok?
    ensures var before := Load(key, codec, lines).value;
            Load(key, codec, Rewritten(key, codec, values, lines)) ==
            Ok(Overridden(before, values))
  {
    var n, new' := |lines|, Rewritten(key, codec, values, lines);
    assert lines[..n] == lines && new'[..n] == new';
    LoadTracks(key, codec, values, lines, n);
    LoadLocated(key, codec, lines, n);
    TracksEnd(key, values, lines, LoadAll(key, codec, lines).value, LoadAll(key, codec, new').value);
  }

  // After the last line every section is over.
  lemma TracksEnd(key: string, values: Servers, lines: seq<string>, st: Loading, st': Loading)
    requires Complete(key, values, lines) && Located(key, lines, |lines|, st)
             && Tracks(key, values, lines, |lines|, st, st')
    ensures st'.servers == Overridden(st.servers, values)
  {
    if st.current in st.servers && st.current in values {
      SectionComplete(key, values, lines, |lines|);
      assert st'.servers[st.current] == values[st.current];
    }
  }

  // ----- round trip and idempotence -----

  // Unpatching what was patched loads the servers of the original file.
  lemma UnpatchRestoresServers(key: string, codec: Codec, want: set<string>, exe: string, lines: seq<string>)
    requires codec.Lawful() && Load(key, codec, lines).Ok?
    requires Complete(key, Originals(Load(key, codec, lines).value, want), lines)
    ensures var originals := Originals(Load(key, codec, lines).value, want);
            var patched := Rewritten(key, codec, Proxied(originals, exe), lines);
            && Rewritten(key, codec, originals, patched) == Rewritten(key, codec, originals, lines)
            && Load(key, codec, Rewritten(key, codec, originals, patched)) == Load(key, codec, lines)
  {
    var before := Load(key, codec, lines).value;
    var originals := Originals(before, want);
    RewriteTwice(key, codec, Proxied(originals, exe), originals, lines);
    RewrittenLoads(key, codec, originals, lines);
    OriginalsRestore(before, want);
  }

  // A patched file loads with every selected server wrapped and every other server as it was.
  lemma PatchWrapsServers(key: string, codec: Codec, want: set<string>, exe: string, lines: seq<string>)
    requires codec.Lawful() && Load(key, codec, lines).Ok?
    requires Complete(key, Originals(Load(key, codec, lines).value, want), lines)
    ensures var before := Load(key, codec, lines).value;
            var proxied := Proxied(Originals(before, want), exe);
            Load(key, codec, Rewritten(key, codec, proxied, lines)) ==
            Ok(Overridden(before, proxied))
  {
    var originals := Originals(Load(key, codec, lines).value, want);
    assert Proxied(originals, exe).Keys == originals.Keys;
    RewrittenLoads(key, codec, Proxied(originals, exe), lines);
  }

  // Patching a patched file selects nothing, and so changes nothing.
  lemma PatchIdempotent(key: string, codec: Codec, want: set<string>, exe: string, lines: seq<string>)
    requires codec.Lawful() && Load(key, codec, lines).Ok?
    requires Complete(key, Originals(Load(key, codec, lines).value, want), lines)
    ensures var patched := Rewritten(key, codec, Proxied(Originals(Load(key, codec, lines).value, want), exe), lines);
            && Load(key, codec, patched).Ok?
            && Originals(Load(key, codec, patched).value, want) == map[]
            && Rewritten(key, codec, Proxied(map[], exe), patched) == patched
  {
    PatchWrapsServers(key, codec, want, exe, lines);
    NothingLeftToSelect(Load(key, codec, lines).value, want, exe);
    assert Proxied(map[], exe) == map[];
  }

  // A patch or unpatch writes over nothing but the last line of either word in the section of a
  // server it writes: one that begins with the word and has an equals sign.
  lemma WritesOnlySettings(key: string, codec: Codec, values: Servers, lines: seq<string>, k: nat)
    requires k < |lines| && RewrittenLine(key, codec, values, lines, k) != lines[k]
    ensures ServerAt(key, lines, k).Some? && ServerAt(key, lines, k).value in values
    ensures '=' in TrimSpace(lines[k])
            && exists word: string :: word in {"command", "args"} && IsLastOf(word, lines, k)
  {
    if IsSlot(Command, lines, k) {
      assert IsLastOf("command", lines, k);
    } else {
      assert IsLastOf("args", lines, k);
    }
  }

  // The last line up to the next header that begins with the word and has an equals sign.
  ghost predicate IsLastOf(word: string, lines: seq<string>, k: nat)
    requires k < |lines|
  {
    && word <= TrimSpace(lines[k])
    && forall j :: k < j < |lines| && (forall i :: k < i <= j ==> !("[" <= TrimSpace(lines[i]))) ==>
                     !(word <= TrimSpace(lines[j]) && '=' in TrimSpace(lines[j]))
  }

  // A line the round trip may rewrite differently: the slot of a selected server, not already
  // in the form in which settings are written.
  predicate IsForeign(key: string, codec: Codec, originals: Servers, lines: seq<string>, k: nat)
    requires k < |lines|
  {
    match ServerAt(key, lines, k)
    case None => false
    case Some(name) =>
      && name in originals
      && (if IsSlot(Command, lines, k) then lines[k] != SettingLine(lines[k], CommandText(codec, originals[name]))
          else IsSlot(Args, lines, k) && lines[k] != SettingLine(lines[k], ArgsText(codec, originals[name])))
  }

  // The round trip changes exactly the foreign lines, the line of another key that begins with the
  // word included; a file without any comes back byte for byte.
  lemma RoundTripChangesExactly(key: string, codec: Codec, want: set<string>, exe: string, lines: seq<string>, k: nat)
    requires codec.Lawful() && Load(key, codec, lines).Ok? && k < |lines|
    ensures var originals := Originals(Load(key, codec, lines).value, want);
            var back := Rewritten(key, codec, originals, Rewritten(key, codec, Proxied(originals, exe), lines));
            |back| == |lines| && (back[k] != lines[k] <==> IsForeign(key, codec, originals, lines, k))
  {
    var originals := Originals(Load(key, codec, lines).value, want);
    assert Proxied(originals, exe).Keys == originals.Keys;
    RewriteTwice(key, codec, Proxied(originals, exe), originals, lines);
  }

  // ----- keys that only begin with the word -----

  // A key that begins with the word of a setting is taken for the setting, but not read as it.
  lemma LongerKeyIsSetting(word: Setting, more: string, rest: string)
    requires Tight(more, IsSpace) && '=' !in more
    ensures var line := word.Name() + more + " =" + rest;
            IsSetting(word, line) && forall w :: !Reads(w, line)
  {
    var longer := word.Name() + more;
    LongerKeyReads(longer, rest);
    var line := longer + " =" + rest;
    assert word.Name() <= longer <= TrimSpace(line);
    forall w ensures !Reads(w, line) {
      if Reads(w, line) {
        ReadsIsSetting(w, line);
        SettingIsNoHeader("", w, line);
      }
    }
  }

  // What stands before the equals sign of a line that begins with a key.
  lemma LongerKeyReads(longer: string, rest: string)
    requires Tight(longer, IsSpace) && '=' !in longer
    ensures var trim := TrimSpace(longer + " =" + rest);
            longer <= trim && '=' in trim && TrimSpace(trim[..FirstEq(trim)]) == longer
  {
    var line, after := longer + " =" + rest, TrimRight(rest, IsSpace);
    TrimRightKeeps(longer + " =", rest, IsSpace);
    assert TrimLeft(line, IsSpace) == line;
    var trim := TrimSpace(line);
    assert trim == (longer + " ") + "=" + after;
    EqSplit(trim, longer + " ", after);
    TrimPadded(longer);
  }

  // A slot that loading does not read is another key's line: the patch overwrites it, the
  // unpatch does not bring it back, and the setting stands there twice.
  lemma OtherKeyIsLost(key: string, codec: Codec, want: set<string>, exe: string, lines: seq<string>, word: Setting,
                       k: nat)
    requires codec.Lawful() && Load(key, codec, lines).Ok? && k < |lines|
    requires var name := ServerAt(key, lines, k);
             name.Some? && name.value in Originals(Load(key, codec, lines).value, want)
    requires IsSlot(word, lines, k) && !Reads(word, lines[k])
    ensures var originals := Originals(Load(key, codec, lines).value, want);
            var patched := Rewritten(key, codec, Proxied(originals, exe), lines);
            var back := Rewritten(key, codec, originals, patched);
            back[k] != lines[k] && Reads(word, patched[k]) && Reads(word, back[k])
  {
    var originals := Originals(Load(key, codec, lines).value, want);
    RewriteTwice(key, codec, Proxied(originals, exe), originals, lines);
    SlotIsRead(key, codec, Proxied(originals, exe), lines, word, k);
    SlotIsRead(key, codec, originals, lines, word, k);
  }

  function SettingText(codec: Codec, v: Server, word: Setting): string {
    if word.Command? then CommandText(codec, v) else ArgsText(codec, v)
  }

  lemma WrittenSlot(key: string, codec: Codec, values: Servers, lines: seq<string>, word: Setting, k: nat)
    requires k < |lines| && IsSlot(word, lines, k)
    requires ServerAt(key, lines, k).Some? && ServerAt(key, lines, k).value in values
    ensures RewrittenLine(key, codec, values, lines, k) ==
            SettingLine(lines[k], SettingText(codec, values[ServerAt(key, lines, k).value], word))
  {
    SettingIsNoHeader("", word, lines[k]);
  }

  lemma TextIsRead(codec: Codec, v: Server, word: Setting, line: string)
    requires codec.Lawful()
    ensures Reads(word, SettingLine(line, SettingText(codec, v, word)))
  {
    if word.Command? {
      CommandIsRead(codec, v, line);
    } else {
      ArgsAreRead(codec, v, line);
    }
  }

  lemma CommandIsRead(codec: Codec, v: Server, line: string)
    requires codec.Lawful()
    ensures Reads(Command, SettingLine(line, CommandText(codec, v)))
  {
    WrittenIsRead("", Command, line, codec.quote(v.command));
  }

  lemma ArgsAreRead(codec: Codec, v: Server, line: string)
    requires codec.Lawful()
    ensures Reads(Args, SettingLine(line, ArgsText(codec, v)))
  {
    WrittenIsRead("", Args, line, codec.StringArray(v.args));
  }

  lemma SlotIsRead(key: string, codec: Codec, values: Servers, lines: seq<string>, word: Setting, k: nat)
    requires codec.Lawful() && k < |lines| && IsSlot(word, lines, k)
    requires ServerAt(key, lines, k).Some? && ServerAt(key, lines, k).value in values
    ensures Reads(word, RewrittenLine(key, codec, values, lines, k))
  {
    WrittenSlot(key, codec, values, lines, word, k);
    TextIsRead(codec, values[ServerAt(key, lines, k).value], word, lines[k]);
  }

  // Every setting line to be written is one that loading reads.
  ghost predicate SlotsRead(key: string, originals: Servers, lines: seq<string>) {
    forall word, k: nat :: k < |lines| && IsSlot(word, lines, k) ==> SlotReads(key, originals, lines, word, k)
  }

  ghost predicate SlotReads(key: string, originals: Servers, lines: seq<string>, word: Setting, k: nat)
    requires k < |lines|
  {
    match ServerAt(key, lines, k)
    case None => true
    case Some(name) => name in originals ==> Reads(word, lines[k])
  }

  // The round trip changes nothing but command and args lines exactly when no selected section
  // ends its settings with the line of a longer key.
  lemma ChangesOnlySettingsExactlyWhen(key: string, codec: Codec, want: set<string>, exe: string, lines: seq<string>)
    requires codec.Lawful() && Load(key, codec, lines).Ok?
    ensures var originals := Originals(Load(key, codec, lines).value, want);
            (forall k: nat :: k < |lines| ==> ChangedAreRead(key, codec, originals, exe, lines, k))
            <==> SlotsRead(key, originals, lines)
  {
    var originals := Originals(Load(key, codec, lines).value, want);
    if SlotsRead(key, originals, lines) {
      forall k: nat | k < |lines| ensures ChangedAreRead(key, codec, originals, exe, lines, k) {
        ChangedReads(key, codec, want, exe, lines, k);
      }
    } else {
      var word, k: nat :| k < |lines| && IsSlot(word, lines, k) && !SlotReads(key, originals, lines, word, k);
      UnreadIsLost(key, codec, want, exe, lines, word, k);
    }
  }

  // Line k is as it was after the round trip, or a command or args line.
  ghost predicate ChangedAreRead(key: string, codec: Codec, originals: Servers, exe: string, lines: seq<string>, k: nat)
    requires k < |lines|
  {
    Rewritten(key, codec, originals, Rewritten(key, codec, Proxied(originals, exe), lines))[k] != lines[k] ==>
      Reads(Command, lines[k]) || Reads(Args, lines[k])
  }

  lemma UnreadIsLost(key: string, codec: Codec, want: set<string>, exe: string, lines: seq<string>, word: Setting,
                     k: nat)
    requires codec.Lawful() && Load(key, codec, lines).Ok? && k < |lines| && IsSlot(word, lines, k)
    requires !SlotReads(key, Originals(Load(key, codec, lines).value, want), lines, word, k)
    ensures !ChangedAreRead(key, codec, Originals(Load(key, codec, lines).value, want), exe, lines, k)
  {
    OtherKeyIsLost(key, codec, want, exe, lines, word, k);
    NotReadAtAll(word, lines[k]);
  }

  lemma ChangedReads(key: string, codec: Codec, want: set<string>, exe: string, lines: seq<string>, k: nat)
    requires codec.Lawful() && Load(key, codec, lines).Ok? && k < |lines|
    requires SlotsRead(key, Originals(Load(key, codec, lines).value, want), lines)
    ensures var originals := Originals(Load(key, codec, lines).value, want);
            var back := Rewritten(key, codec, originals, Rewritten(key, codec, Proxied(originals, exe), lines));
            back[k] != lines[k] ==> Reads(Command, lines[k]) || Reads(Args, lines[k])
  {
    var originals := Originals(Load(key, codec, lines).value, want);
    RoundTripChangesExactly(key, codec, want, exe, lines, k);
    if IsForeign(key, codec, originals, lines, k) {
      if IsSlot(Command, lines, k) {
        assert SlotReads(key, originals, lines, Command, k);
      } else {
        assert SlotReads(key, originals, lines, Args, k);
      }
    }
  }

  // A file of one server: its header, its command and arguments as they are written, and the line
  // of a longer key after them.
  ghost predicate EndsInLongerKey(key: string, codec: Codec, name: string, v: Server, lines: seq<string>) {
    && |lines| == 4 && name != ""
    && SectionName(key, lines[0]) == Some(name) && IsHeader(lines[0])
    && lines[1] == SettingLine("", CommandText(codec, v)) && lines[2] == SettingLine("", ArgsText(codec, v))
    && IsSetting(Command, lines[3]) && forall w :: !Reads(w, lines[3])
  }

  // A line that is a setting of one word and nothing else.
  ghost predicate OnlySetting(key: string, word: Setting, line: string) {
    !IsHeader(line) && SectionName(key, line) == None && forall w :: IsSetting(w, line) <==> w == word
  }

  ghost predicate LongerKeyKinds(key: string, lines: seq<string>) {
    && |lines| == 4
    && OnlySetting(key, Command, lines[1]) && OnlySetting(key, Args, lines[2]) && OnlySetting(key, Command, lines[3])
  }

  lemma SettingIsOnly(key: string, word: Setting, line: string)
    requires IsSetting(word, line)
    ensures OnlySetting(key, word, line)
  {
    SettingIsNoHeader(key, word, line);
  }

  lemma WrittenIsSetting(codec: Codec, v: Server, word: Setting, line: string)
    requires codec.Lawful()
    ensures IsSetting(word, SettingLine(line, SettingText(codec, v, word)))
  {
    SettingTexts(codec, v);
    WrittenLine("", word, line, SettingText(codec, v, word));
  }

  lemma LongerKeyLines(key: string, codec: Codec, name: string, v: Server, lines: seq<string>)
    requires codec.Lawful() && EndsInLongerKey(key, codec, name, v, lines)
    ensures LongerKeyKinds(key, lines)
  {
    WrittenIsSetting(codec, v, Command, "");
    WrittenIsSetting(codec, v, Args, "");
    SettingIsOnly(key, Command, lines[1]);
    SettingIsOnly(key, Args, lines[2]);
    SettingIsOnly(key, Command, lines[3]);
  }

  // A line that is taken for a setting and not read as any is passed over.
  lemma PassedOver(key: string, codec: Codec, st: Loading, line: string, word: Setting)
    requires IsSetting(word, line) && forall w :: !Reads(w, line)
    ensures LoadLine(key, codec, st, line) == Ok(st)
  {
    SettingIsNoHeader(key, word, line);
    assert !Reads(Command, line) && !Reads(Args, line);
  }

  lemma HeaderLoads(key: string, codec: Codec, line: string, name: string)
    requires SectionName(key, line) == Some(name) && IsHeader(line)
    ensures LoadLine(key, codec, Loading("", map[]), line) == Ok(Loading(name, map[name := Server("", [])]))
  {
    HeaderLoadsAny(key, codec, Loading("", map[]), line);
    assert map[][name := Server("", [])] == map[name := Server("", [])];
  }

  lemma LongerKeyLoads(key: string, codec: Codec, name: string, v: Server, lines: seq<string>)
    requires codec.Lawful() && EndsInLongerKey(key, codec, name, v, lines)
    ensures Load(key, codec, lines) == Ok(map[name := v])
  {
    var st := Loading(name, map[name := v]);
    ThreeLoad(key, codec, name, v, lines);
    PassedOver(key, codec, st, lines[3], Command);
    LoadStep(key, codec, lines, 3, st, st);
    assert lines[..4] == lines && name in st.servers;
  }

  lemma ThreeLoad(key: string, codec: Codec, name: string, v: Server, lines: seq<string>)
    requires codec.Lawful() && EndsInLongerKey(key, codec, name, v, lines)
    ensures LoadAll(key, codec, lines[..3]) == Ok(Loading(name, map[name := v]))
  {
    var st1, st2 := Loading(name, map[name := Server("", [])]), Loading(name, map[name := Server(v.command, [])]);
    assert lines[..0] == [];
    HeaderLoads(key, codec, lines[0], name);
    BothLoad(key, codec, name, v);
    LoadStep(key, codec, lines, 0, Loading("", map[]), st1);
    LoadStep(key, codec, lines, 1, st1, st2);
    LoadStep(key, codec, lines, 2, st2, Loading(name, map[name := v]));
  }

  lemma BothLoad(key: string, codec: Codec, name: string, v: Server)
    requires codec.Lawful() && name != ""
    ensures var st1, st2 := Loading(name, map[name := Server("", [])]),
                            Loading(name, map[name := Server(v.command, [])]);
            && LoadLine(key, codec, st1, SettingLine("", CommandText(codec, v))) == Ok(st2)
            && LoadLine(key, codec, st2, SettingLine("", ArgsText(codec, v))) == Ok(Loading(name, map[name := v]))
  {
    var st1, st2 := Loading(name, map[name := Server("", [])]), Loading(name, map[name := Server(v.command, [])]);
    assert st1.servers[name := Server(v.command, [])] == st2.servers && st2.servers[name := v] == map[name := v];
    LoadWrittenCommand(key, codec, st1, "", v);
    LoadWrittenArgs(key, codec, st2, "", v);
  }

  lemma LoadStep(key: string, codec: Codec, lines: seq<string>, n: nat, st: Loading, st': Loading)
    requires n < |lines| && LoadAll(key, codec, lines[..n]) == Ok(st) && LoadLine(key, codec, st, lines[n]) == Ok(st')
    ensures LoadAll(key, codec, lines[..n + 1]) == Ok(st')
  {
    LoadNext(key, codec, lines, n);
  }

  lemma LongerKeySlots(key: string, lines: seq<string>, name: string)
    requires LongerKeyKinds(key, lines) && SectionName(key, lines[0]) == Some(name) && IsHeader(lines[0])
    ensures ServerAt(key, lines, 3) == Some(name) && IsSlot(Command, lines, 3)
    ensures !IsSlot(Command, lines, 1) && !IsSlot(Args, lines, 1) && HasSettings(lines, 0)
  {
    assert HeaderBefore(lines, 3) == 0;
    assert NextSection(lines, 4) == 4 && NextSection(lines, 2) == 4 && NextSection(lines, 1) == 4;
  }

  // The patch of such a file goes through; after the unpatch the last line is gone for good, and the
  // section has two command lines.
  lemma TimeoutIsLost(key: string, codec: Codec, name: string, v: Server, exe: string, lines: seq<string>)
    requires codec.Lawful() && EndsInLongerKey(key, codec, name, v, lines) && v.command != "" && !IsManaged(v.args)
    ensures var originals := Originals(map[name := v], {});
            var back := Rewritten(key, codec, originals, Rewritten(key, codec, Proxied(originals, exe), lines));
            && Load(key, codec, lines) == Ok(map[name := v]) && Complete(key, originals, lines)
            && back[3] != lines[3] && Reads(Command, back[3]) && back[1] == lines[1] && Reads(Command, back[1])
  {
    LongerKeyLoads(key, codec, name, v, lines);
    LongerKeyLines(key, codec, name, v, lines);
    LongerKeySlots(key, lines, name);
    LongerKeyComplete(key, name, v, lines);
    assert name in Originals(map[name := v], {});
    OtherKeyIsLost(key, codec, {}, exe, lines, Command, 3);
    FirstCommandStays(key, codec, name, v, exe, lines);
  }

  lemma LongerKeyComplete(key: string, name: string, v: Server, lines: seq<string>)
    requires LongerKeyKinds(key, lines) && HasSettings(lines, 0)
    ensures Complete(key, Originals(map[name := v], {}), lines)
  {
  }

  lemma FirstCommandStays(key: string, codec: Codec, name: string, v: Server, exe: string, lines: seq<string>)
    requires codec.Lawful() && EndsInLongerKey(key, codec, name, v, lines)
    requires !IsSlot(Command, lines, 1) && !IsSlot(Args, lines, 1)
    ensures var originals := Originals(map[name := v], {});
            var back := Rewritten(key, codec, originals, Rewritten(key, codec, Proxied(originals, exe), lines));
            back[1] == lines[1] && Reads(Command, back[1])
  {
    var originals := Originals(map[name := v], {});
    assert Proxied(originals, exe).Keys == originals.Keys;
    RewriteTwice(key, codec, Proxied(originals, exe), originals, lines);
    CommandIsRead(codec, v, "");
  }

  // There are such files.
  lemma TimeoutOccurs(codec: Codec, v: Server)
    ensures EndsInLongerKey("m", codec, "a", v,
                            ["[m.a]", SettingLine("", CommandText(codec, v)), SettingLine("", ArgsText(codec, v)),
                             "command_timeout = 5"])
  {
    HeaderNames();
    TimeoutLine();
  }

  lemma TimeoutLine()
    ensures IsSetting(Command, "command_timeout = 5") && forall w :: !Reads(w, "command_timeout = 5")
  {
    LongerKeyIsSetting(Command, "_timeout", " 5");
    TimeoutText();
  }

  lemma TimeoutText()
    ensures Command.Name() + "_timeout" + " =" + " 5" == "command_timeout = 5"
  {
  }

  lemma HeaderNames()
    ensures SectionName("m", "[m.a]") == Some("a") && IsHeader("[m.a]")
  {
    var line := "[m.a]";
    assert !IsCrLf(line[4]) && TrimRight(line, IsCrLf) == line;
    TrimTight(line, IsReSpace);
    TrimTight(line, IsSpace);
    assert "[" + "m" + "." == "[m." && line[..3] == "[m." && line[3..4] == "a";
  }

  // A line taken for one setting is not read as another.
  lemma NotReadAtAll(word: Setting, line: string)
    requires IsSetting(word, line) && !Reads(word, line)
    ensures forall w :: !Reads(w, line)
  {
    SettingIsNoHeader("", word, line);
    forall w ensures !Reads(w, line) {
      if Reads(w, line) {
        ReadsIsSetting(w, line);
      }
    }
  }

  // ----- the text stays a file of lines -----

  lemma {:induction false} QuotedListOneLine(codec: Codec, args: seq<string>)
    requires codec.Lawful()
    ensures '\n' !in codec.QuotedList(args)
  {
    if |args| > 1 {
      QuotedListOneLine(codec, args[1..]);
    }
  }

  lemma SettingIsLine(line: string, text: string)
    requires line != "" && text != "" && '\n' !in text
    requires forall j :: 0 <= j < |line| - 1 ==> line[j] != '\n'
    ensures var l := SettingLine(line, text);
            l != "" && (Terminated(line) <==> Terminated(l)) && forall j :: 0 <= j < |l| - 1 ==> l[j] != '\n'
  {
    var pre, post := LinePrefix(line), LineEnding(line);
    LinePrefixBlank(line);
    var l := SettingLine(line, text);
    assert forall i :: 0 <= i < |pre| ==> pre[i] != '\n';
    assert forall i :: 0 <= i < |text| ==> text[i] in text;
    assert l == pre + text + post;
    assert post == "" ==> l[|l| - 1] == text[|text| - 1];
    assert post != "" ==> l[|l| - 1] == post[|post| - 1] == '\n';
  }

  lemma RewrittenIsLine(key: string, codec: Codec, values: Servers, lines: seq<string>, k: nat)
    requires codec.Lawful() && AreLines(lines) && k < |lines|
    ensures IsLineLike(lines[k], RewrittenLine(key, codec, values, lines, k))
  {
    var name := ServerAt(key, lines, k);
    if name.Some? && name.value in values {
      WrittenIsLineLike(codec, values[name.value], lines[k]);
    }
  }

  lemma WrittenIsLineLike(codec: Codec, v: Server, line: string)
    requires codec.Lawful() && line != "" && forall j :: 0 <= j < |line| - 1 ==> line[j] != '\n'
    ensures IsLineLike(line, SettingLine(line, CommandText(codec, v)))
            && IsLineLike(line, SettingLine(line, ArgsText(codec, v)))
  {
    TextsOneLine(codec, v);
    SettingIsLine(line, CommandText(codec, v));
    SettingIsLine(line, ArgsText(codec, v));
  }

  lemma TextsOneLine(codec: Codec, v: Server)
    requires codec.Lawful()
    ensures CommandText(codec, v) != "" && '\n' !in CommandText(codec, v)
    ensures ArgsText(codec, v) != "" && '\n' !in ArgsText(codec, v)
  {
    QuotedListOneLine(codec, v.args);
    assert '\n' !in codec.quote(v.command);
    assert '\n' !in "command = " && '\n' !in "args = " && '\n' !in "[" && '\n' !in "]";
  }

  // What a rewrite joins into text splits back into the same lines, so the next pass sees them.
  lemma RewrittenSplits(key: string, codec: Codec, values: Servers, lines: seq<string>)
    requires codec.Lawful() && AreLines(lines)
    ensures SplitLinesPreserve(JoinLines(Rewritten(key, codec, values, lines))) == Rewritten(key, codec, values, lines)
  {
    var out := Rewritten(key, codec, values, lines);
    forall k | 0 <= k < |out| ensures IsLineLike(lines[k], out[k]) {
      RewrittenIsLine(key, codec, values, lines, k);
    }
    LineLikeLines(lines, out);
    SplitJoin(out);
  }

  lemma LineLikeLines(lines: seq<string>, out: seq<string>)
    requires AreLines(lines) && |out| == |lines| && forall k :: 0 <= k < |out| ==> IsLineLike(lines[k], out[k])
    ensures AreLines(out)
  {
  }

  function PatchedText(key: string, codec: Codec, values: Servers, text: string): string {
    JoinLines(Rewritten(key, codec, values, SplitLinesPreserve(text)))
  }

  // The round trip on file contents: what is written, read back, restored and read again holds
  // the servers the first file held.
  lemma TextRoundTrip(key: string, codec: Codec, want: set<string>, exe: string, text: string)
    requires codec.Lawful() && Load(key, codec, SplitLinesPreserve(text)).Ok?
    requires Complete(key, Originals(Load(key, codec, SplitLinesPreserve(text)).value, want), SplitLinesPreserve(text))
    ensures var originals := Originals(Load(key, codec, SplitLinesPreserve(text)).value, want);
            var back := PatchedText(key, codec, originals, PatchedText(key, codec, Proxied(originals, exe), text));
            && Load(key, codec, SplitLinesPreserve(back)) == Load(key, codec, SplitLinesPreserve(text))
            && back == PatchedText(key, codec, originals, text)
  {
    var lines := SplitLinesPreserve(text);
    var originals := Originals(Load(key, codec, lines).value, want);
    SplitYieldsLines(text);
    RewrittenSplits(key, codec, Proxied(originals, exe), lines);
    RewrittenSplits(key, codec, originals, lines);
    UnpatchRestoresServers(key, codec, want, exe, lines);
  }

  // ----- the loops -----

  method LoadServers(key: string, codec: Codec, lines: seq<string>) returns (r: Result<Servers, TomlError>)
    ensures r == Load(key, codec, lines)
  {
    var st := Loading("", map[]);
    assert lines[..0] == [];
    for n := 0 to |lines|
      invariant LoadAll(key, codec, lines[..n]) == Ok(st)
    {
      LoadNext(key, codec, lines, n);
      var next := LoadLine(key, codec, st, lines[n]);
      if next.Err? {
        LoadFails(key, codec, lines, n + 1);
        return Err(next.error);
      }
      st := next.value;
    }
    assert lines[..|lines|] == lines;
    return if st.servers == map[] then Err(KeyAbsent) else Ok(st.servers);
  }

  // A failure stays.
  lemma {:induction false} LoadFails(key: string, codec: Codec, lines: seq<string>, n: nat)
    requires n <= |lines| && LoadAll(key, codec, lines[..n]).Err?
    ensures LoadAll(key, codec, lines) == LoadAll(key, codec, lines[..n])
    decreases |lines| - n
  {
    if n == |lines| {
      assert lines[..n] == lines;
    } else {
      assert lines[..n + 1][..n] == lines[..n];
      LoadFails(key, codec, lines, n + 1);
    }
  }

  method NextTomlSection(lines: seq<string>, start: nat) returns (end: nat)
    requires start <= |lines|
    ensures end == NextSection(lines, start)
  {
    end := start;
    while end < |lines|
      invariant start <= end <= |lines|
      invariant forall j :: start <= j < end ==> !IsHeader(lines[j])
    {
      if IsHeader(lines[end]) {
        break;
      }
      end := end + 1;
    }
    SectionEnd(lines, start, end);
  }

  // The last setting of each kind between a header and the end of its section; -1 for none.
  method FindSettings(lines: seq<string>, start: nat, end: nat) returns (cmdIdx: int, argsIdx: int)
    requires start <= end <= |lines|
    ensures IsLast(Command, lines, start, end, cmdIdx) && IsLast(Args, lines, start, end, argsIdx)
  {
    cmdIdx, argsIdx := -1, -1;
    for j := start to end
      invariant IsLast(Command, lines, start, j, cmdIdx) && IsLast(Args, lines, start, j, argsIdx)
    {
      LastStep(Command, lines, start, j, cmdIdx);
      LastStep(Args, lines, start, j, argsIdx);
      if IsSetting(Command, lines[j]) {
        cmdIdx := j;
      }
      if IsSetting(Args, lines[j]) {
        argsIdx := j;
      }
    }
  }

  lemma LastStep(word: Setting, lines: seq<string>, start: nat, j: nat, k: int)
    requires start <= j < |lines| && IsLast(word, lines, start, j, k)
    ensures IsLast(word, lines, start, j + 1, if IsSetting(word, lines[j]) then j else k)
  {
    if !IsSetting(word, lines[j]) {
      forall i | start <= i < j + 1 && k < i ensures !IsSetting(word, lines[i]) {
        if i < j {
          assert start <= i < j && k < i;
        }
      }
    }
  }

  ghost predicate IsLast(word: Setting, lines: seq<string>, start: nat, end: nat, k: int)
    requires start <= end <= |lines|
  {
    if k < 0 then forall j :: start <= j < end ==> !IsSetting(word, lines[j])
    else start <= k < end && IsSetting(word, lines[k]) && forall j :: k < j < end ==> !IsSetting(word, lines[j])
  }

  // Overwrite the settings found.
  method WriteSettings(codec: Codec, lines: seq<string>, cmdIdx: int, argsIdx: int, v: Server)
    returns (out: seq<string>)
    requires cmdIdx < |lines| && argsIdx < |lines| && (cmdIdx == argsIdx ==> cmdIdx < 0)
    ensures |out| == |lines|
    ensures forall k :: 0 <= k < |lines| ==>
                          out[k] == SectionLine(codec, lines, cmdIdx, argsIdx, v, k)
  {
    out := lines;
    if cmdIdx >= 0 {
      out := out[cmdIdx := SettingLine(out[cmdIdx], CommandText(codec, v))];
    }
    if argsIdx >= 0 {
      out := out[argsIdx := SettingLine(out[argsIdx], ArgsText(codec, v))];
    }
  }

  // The lines while the loop is at line i: sections that begin before i are written.
  ghost predicate WrittenUpTo(key: string, codec: Codec, values: Servers, lines: seq<string>, i: nat,
                              out: seq<string>) {
    && |out| == |lines|
    && forall k :: 0 <= k < |lines| ==>
                     out[k] == if HeaderBefore(lines, k) < i then RewrittenLine(key, codec, values, lines, k)
                     else lines[k]
  }

  lemma WrittenKinds(key: string, codec: Codec, values: Servers, lines: seq<string>, i: nat, out: seq<string>)
    requires codec.Lawful() && WrittenUpTo(key, codec, values, lines, i, out)
    ensures SameKinds(key, lines, out)
  {
    RewrittenKinds(key, codec, values, lines);
    var all := Rewritten(key, codec, values, lines);
    forall k | 0 <= k < |lines| ensures SameKind(key, lines[k], out[k]) {
      assert SameKind(key, lines[k], all[k]) && SameKind(key, lines[k], lines[k]);
    }
  }

  // Nothing is rewritten in the section of a line that heads none of the given servers.
  lemma WrittenSkip(key: string, codec: Codec, values: Servers, lines: seq<string>, i: nat, out: seq<string>)
    requires i < |lines| && WrittenUpTo(key, codec, values, lines, i, out)
    requires SectionName(key, lines[i]).None? || SectionName(key, lines[i]).value !in values
    ensures WrittenUpTo(key, codec, values, lines, i + 1, out)
  {
  }

  // Where a line after the header lies.
  lemma SectionFrom(lines: seq<string>, i: nat, end: nat, k: nat)
    requires i < |lines| && end == NextSection(lines, i + 1) && i < k < |lines| && HeaderBefore(lines, k) == i
    ensures k < end ==> NextSection(lines, k + 1) == end
    ensures k >= end ==> k == end && IsHeader(lines[k])
  {
    if k < end {
      SectionEnd(lines, k + 1, end);
    }
  }

  // A line after the header, up to its section's end, is a slot exactly when it is the last
  // setting found there.
  lemma SlotsOfSection(word: Setting, lines: seq<string>, i: nat, end: nat, idx: int, k: nat)
    requires i < |lines| && end == NextSection(lines, i + 1)
    requires IsLast(word, lines, i + 1, end, idx) && i < k < |lines| && HeaderBefore(lines, k) == i
    ensures IsSlot(word, lines, k) <==> k == idx
  {
    SectionFrom(lines, i, end, k);
    if k < end {
      SlotIsLast(word, lines, i + 1, end, idx, k);
    } else {
      HeaderIsNoSetting(word, lines[k]);
    }
  }

  lemma SlotIsLast(word: Setting, lines: seq<string>, start: nat, end: nat, idx: int, k: nat)
    requires start <= k < end <= |lines| && NextSection(lines, k + 1) == end
    requires IsLast(word, lines, start, end, idx)
    ensures IsSlot(word, lines, k) <==> k == idx
  {
  }

  lemma HeaderIsNoSetting(word: Setting, line: string)
    ensures IsHeader(line) ==> !IsSetting(word, line)
  {
    if IsSetting(word, line) {
      SettingIsNoHeader("", word, line);
    }
  }

  // Line k of the section, as its settings are written.
  function SectionLine(codec: Codec, lines: seq<string>, cmdIdx: int, argsIdx: int, v: Server, k: nat): string
    requires k < |lines|
  {
    if k == cmdIdx then SettingLine(lines[k], CommandText(codec, v))
    else if k == argsIdx then SettingLine(lines[k], ArgsText(codec, v))
    else lines[k]
  }

  lemma SectionLineIsRewritten(key: string, codec: Codec, values: Servers, lines: seq<string>, i: nat, end: nat,
                               cmdIdx: int, argsIdx: int, k: nat)
    requires i < k < |lines| && HeaderBefore(lines, k) == i && end == NextSection(lines, i + 1)
    requires SectionName(key, lines[i]).Some? && SectionName(key, lines[i]).value in values
    requires IsLast(Command, lines, i + 1, end, cmdIdx) && IsLast(Args, lines, i + 1, end, argsIdx)
    ensures SectionLine(codec, lines, cmdIdx, argsIdx, values[SectionName(key, lines[i]).value], k) ==
            RewrittenLine(key, codec, values, lines, k)
  {
    SlotsOfSection(Command, lines, i, end, cmdIdx, k);
    SlotsOfSection(Args, lines, i, end, argsIdx, k);
  }

  // Writing the settings of one section.
  lemma WrittenSection(key: string, codec: Codec, values: Servers, lines: seq<string>, i: nat, out: seq<string>,
                       out': seq<string>,
                       end: nat, cmdIdx: int, argsIdx: int)
    requires i < |lines| && WrittenUpTo(key, codec, values, lines, i, out) && |out'| == |out|
    requires SectionName(key, lines[i]).Some? && SectionName(key, lines[i]).value in values
    requires end == NextSection(lines, i + 1)
    requires IsLast(Command, lines, i + 1, end, cmdIdx) && IsLast(Args, lines, i + 1, end, argsIdx)
    requires var v := values[SectionName(key, lines[i]).value];
             forall k :: 0 <= k < |out| ==> out'[k] == SectionLine(codec, out, cmdIdx, argsIdx, v, k)
    ensures WrittenUpTo(key, codec, values, lines, i + 1, out')
  {
    forall k | 0 <= k < |lines|
      ensures out'[k] == if HeaderBefore(lines, k) < i + 1 then RewrittenLine(key, codec, values, lines, k)
                         else lines[k]
    {
      WrittenSectionLine(key, codec, values, lines, i, out, end, cmdIdx, argsIdx, k);
    }
  }

  lemma WrittenSectionLine(key: string, codec: Codec, values: Servers, lines: seq<string>, i: nat, out: seq<string>,
                           end: nat, cmdIdx: int, argsIdx: int, k: nat)
    requires i < |lines| && k < |lines| && WrittenUpTo(key, codec, values, lines, i, out)
    requires SectionName(key, lines[i]).Some? && SectionName(key, lines[i]).value in values
    requires end == NextSection(lines, i + 1)
    requires IsLast(Command, lines, i + 1, end, cmdIdx) && IsLast(Args, lines, i + 1, end, argsIdx)
    ensures SectionLine(codec, out, cmdIdx, argsIdx, values[SectionName(key, lines[i]).value], k) ==
            if HeaderBefore(lines, k) < i + 1 then RewrittenLine(key, codec, values, lines, k) else lines[k]
  {
    SectionIsHeader(key, lines[i]);
    if HeaderBefore(lines, k) == i {
      SectionLineIsRewritten(key, codec, values, lines, i, end, cmdIdx, argsIdx, k);
    } else if i < k < end {
      HeaderWithin(lines, i, k);
    }
  }

  lemma {:induction false} HeaderWithin(lines: seq<string>, i: nat, k: nat)
    requires i < k <= |lines| && IsHeader(lines[i]) && forall j :: i < j < k ==> !IsHeader(lines[j])
    ensures HeaderBefore(lines, k) == i
  {
    if i < k - 1 {
      HeaderWithin(lines, i, k - 1);
    }
  }

  // Whether the section at line i has both settings, as the loop finds out.
  lemma FoundSettings(lines: seq<string>, i: nat, end: nat, cmdIdx: int, argsIdx: int)
    requires i < |lines| && end == NextSection(lines, i + 1)
    requires IsLast(Command, lines, i + 1, end, cmdIdx) && IsLast(Args, lines, i + 1, end, argsIdx)
    ensures HasSetting(Command, lines, i) <==> cmdIdx >= 0
    ensures HasSetting(Args, lines, i) <==> argsIdx >= 0
  {
  }

  // The settings of one section, looked up in the current lines, whose kinds are those of the
  // original.
  method LocateSettings(key: string, codec: Codec, ghost values: Servers, ghost lines: seq<string>, i: nat,
                        out: seq<string>)
    returns (cmdIdx: int, argsIdx: int)
    requires codec.Lawful() && i < |lines| && WrittenUpTo(key, codec, values, lines, i, out)
    ensures var end := NextSection(lines, i + 1);
            IsLast(Command, lines, i + 1, end, cmdIdx) && IsLast(Args, lines, i + 1, end, argsIdx)
    ensures HasSetting(Command, lines, i) <==> cmdIdx >= 0
    ensures HasSetting(Args, lines, i) <==> argsIdx >= 0
    ensures cmdIdx == argsIdx ==> cmdIdx < 0
  {
    WrittenKinds(key, codec, values, lines, i, out);
    KindsNextSection(key, lines, out, i + 1);
    var end := NextTomlSection(out, i + 1);
    cmdIdx, argsIdx := FindSettings(out, i + 1, end);
    KindsLast(key, Command, lines, out, i + 1, end, cmdIdx);
    KindsLast(key, Args, lines, out, i + 1, end, argsIdx);
    FoundSettings(lines, i, end, cmdIdx, argsIdx);
    DistinctSettings(lines, i + 1, end, cmdIdx, argsIdx);
  }

  lemma KindsLast(key: string, word: Setting, a: seq<string>, b: seq<string>, start: nat, end: nat, k: int)
    requires SameKinds(key, a, b) && start <= end <= |a| && IsLast(word, b, start, end, k)
    ensures IsLast(word, a, start, end, k)
  {
    assert forall j :: 0 <= j < |a| ==> SameKind(key, a[j], b[j]);
  }

  lemma DistinctSettings(lines: seq<string>, start: nat, end: nat, cmdIdx: int, argsIdx: int)
    requires start <= end <= |lines| && IsLast(Command, lines, start, end, cmdIdx)
             && IsLast(Args, lines, start, end, argsIdx)
    ensures cmdIdx == argsIdx ==> cmdIdx < 0
  {
    if cmdIdx >= 0 {
      SettingIsNoHeader("", Command, lines[cmdIdx]);
    }
  }

  // Both passes read headers in the lines as they stand; those are never rewritten.
  lemma HeadersKept(key: string, codec: Codec, values: Servers, lines: seq<string>, i: nat, out: seq<string>)
    requires codec.Lawful() && i < |lines| && WrittenUpTo(key, codec, values, lines, i, out)
    ensures SectionName(key, out[i]) == SectionName(key, lines[i])
  {
    WrittenKinds(key, codec, values, lines, i, out);
    assert SameKind(key, lines[i], out[i]);
  }

  lemma NothingWrittenYet(key: string, codec: Codec, values: Servers, lines: seq<string>)
    ensures WrittenUpTo(key, codec, values, lines, 0, lines)
  {
  }

  lemma AllWritten(key: string, codec: Codec, values: Servers, lines: seq<string>, out: seq<string>)
    requires WrittenUpTo(key, codec, values, lines, |lines|, out)
    ensures out == Rewritten(key, codec, values, lines)
  {
  }

  // The servers with a section among the first n lines.
  function SectionNames(key: string, lines: seq<string>, n: nat): set<string>
    requires n <= |lines|
  {
    if n == 0 then {}
    else
      var before := SectionNames(key, lines, n - 1);
      match SectionName(key, lines[n - 1])
      case None => before
      case Some(name) => before + {name}
  }

  // What the patch has recorded by line i: the selected servers met so far.
  ghost predicate Recorded(key: string, originals: Servers, lines: seq<string>, i: nat, markers: Servers) {
    i <= |lines| && markers == Restricted(originals, SectionNames(key, lines, i))
  }

  lemma RecordedStep(key: string, originals: Servers, lines: seq<string>, i: nat, markers: Servers)
    requires i < |lines| && Recorded(key, originals, lines, i, markers)
    ensures var m := SectionName(key, lines[i]);
            Recorded(key, originals, lines, i + 1,
                     if m.Some? && m.value in originals then markers[m.value := originals[m.value]] else markers)
  {
    if SectionName(key, lines[i]).Some? {
      RestrictedWider(originals, SectionNames(key, lines, i), SectionName(key, lines[i]).value);
    }
  }

  lemma CompleteStep(key: string, values: Servers, lines: seq<string>, i: nat)
    requires i < |lines| && CompleteUpTo(key, values, lines, i)
    ensures var m := SectionName(key, lines[i]);
            && ((m.Some? && m.value in values ==> HasSettings(lines, i)) ==> CompleteUpTo(key, values, lines, i + 1))
            && (m.Some? && m.value in values && !HasSettings(lines, i) ==>
                  LacksAt(key, values, lines, i, if HasSetting(Command, lines, i) then MissingArgs(m.value)
                          else MissingCommand(m.value)))
  {
  }

  lemma LacksIncomplete(key: string, values: Servers, lines: seq<string>, error: TomlError)
    requires Lacks(key, values, lines, error)
    ensures !Complete(key, values, lines)
  {
  }

  // A line adds at most the server of its own section header.
  lemma LoadLineKeys(key: string, codec: Codec, st: Loading, line: string)
    requires LoadLine(key, codec, st, line).Ok? && (st.current == "" || st.current in st.servers)
    ensures LoadLine(key, codec, st, line).value.servers.Keys <=
            st.servers.Keys + (if SectionName(key, line).Some? then {SectionName(key, line).value} else {})
  {
    if !IsHeader(line) && st.current != "" {
      LoadSetting(key, codec, st, line);
    }
  }

  // Every loaded server has a section.
  lemma {:induction false} LoadedHasSection(key: string, codec: Codec, lines: seq<string>, n: nat)
    requires n <= |lines| && LoadAll(key, codec, lines[..n]).Ok?
    ensures LoadAll(key, codec, lines[..n]).value.servers.Keys <= SectionNames(key, lines, n)
    decreases n
  {
    if n > 0 {
      LoadNext(key, codec, lines, n - 1);
      LoadLocated(key, codec, lines, n - 1);
      LoadedHasSection(key, codec, lines, n - 1);
      LoadLineKeys(key, codec, LoadAll(key, codec, lines[..n - 1]).value, lines[n - 1]);
    }
  }

  lemma MarkersComplete(key: string, codec: Codec, lines: seq<string>, originals: Servers, markers: Servers)
    requires Load(key, codec, lines).Ok? && originals.Keys <= Load(key, codec, lines).value.Keys
    requires Recorded(key, originals, lines, |lines|, markers)
    ensures markers == originals
  {
    assert lines[..|lines|] == lines;
    LoadedHasSection(key, codec, lines, |lines|);
  }

  // One selected section.
  method PatchSection(key: string, codec: Codec, ghost values: Servers, v: Server, ghost lines: seq<string>, i: nat,
                      out: seq<string>, name: string)
    returns (r: Result<seq<string>, TomlError>)
    requires codec.Lawful() && i < |lines| && WrittenUpTo(key, codec, values, lines, i, out)
    requires SectionName(key, lines[i]) == Some(name) && name in values && v == values[name]
    ensures r.Ok? <==> HasSettings(lines, i)
    ensures r.Err? ==> r.error == if HasSetting(Command, lines, i) then MissingArgs(name) else MissingCommand(name)
    ensures r.Ok? ==> WrittenUpTo(key, codec, values, lines, i + 1, r.value)
  {
    var cmdIdx, argsIdx := LocateSettings(key, codec, values, lines, i, out);
    if cmdIdx < 0 {
      return Err(MissingCommand(name));
    }
    if argsIdx < 0 {
      return Err(MissingArgs(name));
    }
    var out' := WriteSettings(codec, out, cmdIdx, argsIdx, v);
    WrittenSection(key, codec, values, lines, i, out, out', NextSection(lines, i + 1), cmdIdx, argsIdx);
    return Ok(out');
  }

  // The patch: every selected section gets the proxy's command and arguments. It fails when a
  // selected section lacks one of the two settings.
  method Patch(key: string, codec: Codec, exe: string, lines: seq<string>, servers: seq<string>)
    returns (r: Result<seq<string>, TomlError>, markers: Servers)
    requires codec.Lawful()
    ensures r.Ok?
       <==> Load(key, codec, lines).Ok?
            && Complete(key, Originals(Load(key, codec, lines).value, Wanted(servers)), lines)
    ensures r.Ok? ==>
              && markers == Originals(Load(key, codec, lines).value, Wanted(servers))
              && r.value == Rewritten(key, codec, Proxied(markers, exe), lines)
    ensures r.Err? ==>
              if Load(key, codec, lines).Err? then r.error == Load(key, codec, lines).error
              else Lacks(key, Originals(Load(key, codec, lines).value, Wanted(servers)), lines, r.error)
  {
    var loaded := LoadServers(key, codec, lines);
    if loaded.Err? {
      return Err(loaded.error), map[];
    }
    r, markers := PatchLoaded(key, codec, exe, lines, loaded.value, Wanted(servers));
    if r.Ok? {
      MarkersComplete(key, codec, lines, Originals(loaded.value, Wanted(servers)), markers);
    }
  }

  // The patch of one section header's section, if it is a selected server's.
  method PatchLine(key: string, codec: Codec, exe: string, ghost lines: seq<string>, parsed: Servers, want: set<string>,
                   i: nat, out: seq<string>, markers: Servers)
    returns (r: Result<seq<string>, TomlError>, markers': Servers)
    requires codec.Lawful() && i < |lines|
    requires WrittenUpTo(key, codec, Proxied(Originals(parsed, want), exe), lines, i, out)
    requires Recorded(key, Originals(parsed, want), lines, i, markers)
    requires CompleteUpTo(key, Originals(parsed, want), lines, i)
    ensures r.Err? ==> LacksAt(key, Originals(parsed, want), lines, i, r.error)
    ensures r.Ok? ==> WrittenUpTo(key, codec, Proxied(Originals(parsed, want), exe), lines, i + 1, r.value)
    ensures r.Ok? ==> Recorded(key, Originals(parsed, want), lines, i + 1, markers')
    ensures r.Ok? ==> CompleteUpTo(key, Originals(parsed, want), lines, i + 1)
  {
    ghost var originals := Originals(parsed, want);
    ghost var values := Proxied(originals, exe);
    HeadersKept(key, codec, values, lines, i, out);
    RecordedStep(key, originals, lines, i, markers);
    CompleteStep(key, originals, lines, i);
    var m := SectionName(key, out[i]);
    if m.Some? && Selected(parsed, want, m.value) {
      var name, entry := m.value, parsed[m.value];
      var v := Server(exe, ["proxy", "--server-name", name, "--", entry.command] + entry.args);
      r := PatchSection(key, codec, values, v, lines, i, out, name);
      markers' := markers[name := entry];
    } else {
      WrittenSkip(key, codec, values, lines, i, out);
      r, markers' := Ok(out), markers;
    }
  }

  method PatchLoaded(key: string, codec: Codec, exe: string, lines: seq<string>, parsed: Servers, want: set<string>)
    returns (r: Result<seq<string>, TomlError>, markers: Servers)
    requires codec.Lawful()
    ensures r.Ok? <==> Complete(key, Originals(parsed, want), lines)
    ensures r.Err? ==> Lacks(key, Originals(parsed, want), lines, r.error)
    ensures r.Ok? ==> r.value == Rewritten(key, codec, Proxied(Originals(parsed, want), exe), lines)
    ensures r.Ok? ==> Recorded(key, Originals(parsed, want), lines, |lines|, markers)
  {
    ghost var originals := Originals(parsed, want);
    ghost var values := Proxied(originals, exe);
    var out := lines;
    markers := map[];
    NothingWrittenYet(key, codec, values, lines);
    NothingRecordedYet(key, originals, lines);
    for i := 0 to |lines|
      invariant WrittenUpTo(key, codec, values, lines, i, out)
      invariant Recorded(key, originals, lines, i, markers)
      invariant CompleteUpTo(key, originals, lines, i)
    {
      r, markers := PatchLine(key, codec, exe, lines, parsed, want, i, out, markers);
      if r.Err? {
        LacksIncomplete(key, originals, lines, r.error);
        return;
      }
      out := r.value;
    }
    AllWritten(key, codec, values, lines, out);
    r := Ok(out);
  }

  lemma NothingRecordedYet(key: string, originals: Servers, lines: seq<string>)
    ensures Recorded(key, originals, lines, 0, map[])
  {
    assert Restricted(originals, {}) == map[];
  }

  // One section with a marker: whatever settings it has are restored.
  method UnpatchSection(key: string, codec: Codec, ghost values: Servers, v: Server, ghost lines: seq<string>,
                        i: nat, out: seq<string>, ghost name: string)
    returns (out': seq<string>)
    requires codec.Lawful() && i < |lines| && WrittenUpTo(key, codec, values, lines, i, out)
    requires SectionName(key, lines[i]) == Some(name) && name in values && v == values[name]
    ensures WrittenUpTo(key, codec, values, lines, i + 1, out')
  {
    var cmdIdx, argsIdx := LocateSettings(key, codec, values, lines, i, out);
    out' := WriteSettings(codec, out, cmdIdx, argsIdx, v);
    WrittenSection(key, codec, values, lines, i, out, out', NextSection(lines, i + 1), cmdIdx, argsIdx);
  }

  ghost predicate Restored(key: string, markers: Servers, lines: seq<string>, i: nat, restored: set<string>) {
    i <= |lines| && restored == markers.Keys * SectionNames(key, lines, i)
  }

  lemma RestoredStep(key: string, markers: Servers, lines: seq<string>, i: nat, restored: set<string>)
    requires i < |lines| && Restored(key, markers, lines, i, restored)
    ensures var m := SectionName(key, lines[i]);
            Restored(key, markers, lines, i + 1,
                     if m.Some? && m.value in markers then restored + {m.value} else restored)
  {
  }

  // The reverse: every section a marker names gets its recorded settings back, as far as it has them.
  method Unpatch(key: string, codec: Codec, markers: Servers, lines: seq<string>)
    returns (out: seq<string>, restored: set<string>)
    requires codec.Lawful()
    ensures out == Rewritten(key, codec, markers, lines)
    ensures Restored(key, markers, lines, |lines|, restored)
  {
    out := lines;
    restored := {};
    NothingWrittenYet(key, codec, markers, lines);
    for i := 0 to |lines|
      invariant WrittenUpTo(key, codec, markers, lines, i, out)
      invariant Restored(key, markers, lines, i, restored)
    {
      out, restored := UnpatchLine(key, codec, markers, lines, i, out, restored);
    }
    AllWritten(key, codec, markers, lines, out);
  }

  // The section of one section header, if it has a marker.
  method UnpatchLine(key: string, codec: Codec, markers: Servers, ghost lines: seq<string>, i: nat, out: seq<string>,
                     restored: set<string>)
    returns (out': seq<string>, restored': set<string>)
    requires codec.Lawful() && i < |lines|
    requires WrittenUpTo(key, codec, markers, lines, i, out) && Restored(key, markers, lines, i, restored)
    ensures WrittenUpTo(key, codec, markers, lines, i + 1, out') && Restored(key, markers, lines, i + 1, restored')
  {
    HeadersKept(key, codec, markers, lines, i, out);
    RestoredStep(key, markers, lines, i, restored);
    var m := SectionName(key, out[i]);
    if m.Some? && m.value in markers {
      out' := UnpatchSection(key, codec, markers, markers[m.value], lines, i, out, m.value);
      restored' := restored + {m.value};
    } else {
      WrittenSkip(key, codec, markers, lines, i, out);
      out', restored' := out, restored;
    }
  }
}
