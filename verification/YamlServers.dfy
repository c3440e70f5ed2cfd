/** MCP servers in a host's YAML configuration: where they are, and what rewriting them means. */
module YamlServers {
  import opened Basics
  import opened HostServers
  import opened LineSplice
  import opened Text

  datatype YamlError = KeyAbsent | MissingSetting(server: string)

  // ----- what a line is -----

  predicate IsIdle(line: string) {
    TrimSpace(line) == "" || "#" <= TrimSpace(line)
  }

  predicate EndsInColon(s: string) {
    s != "" && s[|s| - 1] == ':'
  }

  predicate IsRoot(key: string, line: string) {
    !("#" <= TrimSpace(line)) && TrimSpace(line) == key + ":"
  }

  // The first line that is indented no deeper than the root ends the servers.
  predicate IsClose(root: nat, line: string) {
    !IsIdle(line) && Indent(line) <= root
  }

  predicate IsStart(root: nat, line: string) {
    !IsIdle(line) && Indent(line) == root + 2 && EndsInColon(TrimSpace(line))
  }

  function NameOf(line: string): string {
    var trim := TrimSpace(line);
    if EndsInColon(trim) then trim[..|trim| - 1] else trim
  }

  // The two fields of a server that matter.
  datatype Word = Command | Args
  {
    function Name(): string {
      if Command? then "command:" else "args:"
    }
  }

  predicate IsField(root: nat, word: Word, line: string) {
    Indent(line) == root + 4 && word.Name() <= TrimSpace(line)
  }

  // What ends a list of arguments: only a line that ends in a colon.
  predicate IsStop(root: nat, line: string) {
    !IsIdle(line) && Indent(line) <= root + 4 && EndsInColon(TrimSpace(line))
  }

  function Field(root: nat, word: Word): Kind {
    (line: string) => IsField(root, word, line)
  }

  function Stop(root: nat): Kind {
    (line: string) => IsStop(root, line)
  }

  // Where a server's command and arguments are.
  function FieldsOf(root: nat, body: seq<string>): (x: Edit)
    ensures -1 <= x.c < |body| && -1 <= x.a < |body| && (x.a >= 0 ==> x.a < x.e <= |body|)
  {
    EditOf(Field(root, Command), Field(root, Args), Stop(root), body)
  }

  // ----- reading a server -----

  function ParseScalar(codec: Codec, raw: string): string {
    var s := TrimSpace(raw);
    if s == "" then ""
    else if (s[0] == '"' && s[|s| - 1] == '"') || (s[0] == '\'' && s[|s| - 1] == '\'') then
      (match codec.unquote(s)
       case Some(v) => v
       case None => Trim(s, c => c == '\''))
    else s
  }

  function CommandOn(codec: Codec, line: string): string {
    var trim := TrimSpace(line);
    ParseScalar(codec, TrimSpace(if "command:" <= trim then trim[|"command:"|..] else trim))
  }

  // The list items among some lines.
  function Items(codec: Codec, lines: seq<string>): seq<string> {
    if lines == [] then []
    else
      var before, tr := Items(codec, lines[..|lines| - 1]), TrimSpace(lines[|lines| - 1]);
      if "- " <= tr then before + [ParseScalar(codec, TrimSpace(tr[2..]))] else before
  }

  function Reader(codec: Codec): seq<string> -> seq<string> {
    (lines: seq<string>) => Items(codec, lines)
  }

  function Loaded(root: nat, codec: Codec, body: seq<string>): Server {
    var c := FieldsOf(root, body).c;
    Server(if c < 0 then "" else CommandOn(codec, body[c]),
           Gathered(Field(root, Args), Stop(root), Reader(codec), body, |body|))
  }

  // ----- writing a server -----

  predicate IsBareChar(c: char) {
    'A' <= c <= 'Z' || 'a' <= c <= 'z' || '0' <= c <= '9' || c == '_' || c == '.' || c == '/'
  }

  // Text that is written without quotes.
  predicate IsBare(s: string) {
    s != "" && IsBareChar(s[0]) && forall i :: 0 <= i < |s| ==> IsBareChar(s[i]) || s[i] == '-'
  }

  function ScalarText(codec: Codec, s: string): string {
    if IsBare(s) then s else codec.quote(s)
  }

  function CommandLine(root: nat, codec: Codec, command: string, old_: string): string {
    Spaces(root + 4) + ("command: " + ScalarText(codec, command)) + LineEnding(old_)
  }

  function ArgsHead(root: nat, old_: string): string {
    Spaces(root + 4) + "args:" + LineEnding(old_)
  }

  function ItemLine(root: nat, codec: Codec, arg: string, old_: string): string {
    Spaces(root + 6) + ("- " + codec.quote(arg)) + LineEnding(old_)
  }

  function ArgsLines(root: nat, codec: Codec, args: seq<string>, old_: string): (r: seq<string>)
    ensures |r| == 1 + |args| && r[0] == ArgsHead(root, old_)
    ensures forall i :: 0 <= i < |args| ==> r[i + 1] == ItemLine(root, codec, args[i], old_)
  {
    [ArgsHead(root, old_)] + seq(|args|, i requires 0 <= i < |args| => ItemLine(root, codec, args[i], old_))
  }

  // The body of a server after a command and arguments have been written into it: the last
  // command line is overwritten, and the last args line with all lines up to the next stop is
  // replaced.
  function Rewritten(root: nat, codec: Codec, v: Server, body: seq<string>): seq<string> {
    var x := FieldsOf(root, body);
    Applied(x, body, LineFor(root, codec, v, body, x.c), BlockFor(root, codec, v, body, x.a))
  }

  // What is written over the command line and over the arguments at the given indices, if any.
  function LineFor(root: nat, codec: Codec, v: Server, lines: seq<string>, c: int): string
    requires c < |lines|
  {
    if c < 0 then "" else CommandLine(root, codec, v.command, lines[c])
  }

  function BlockFor(root: nat, codec: Codec, v: Server, lines: seq<string>, a: int): seq<string>
    requires a < |lines|
  {
    if a < 0 then [] else ArgsLines(root, codec, v.args, lines[a])
  }

  // ----- the servers of a file -----

  datatype Section = Section(header: string, body: seq<string>)

  // The lines after the root: what precedes the first server, the servers, and what follows them.
  datatype Layout = Layout(lead: seq<string>, sections: seq<Section>, rest: seq<string>)

  function Scan(root: nat, lines: seq<string>): Layout {
    if lines == [] || IsClose(root, lines[0]) then Layout([], [], lines)
    else Extended(root, lines[0], Scan(root, lines[1..]))
  }

  // One more line at the front: a header takes the lead as its body.
  function Extended(root: nat, line: string, l: Layout): Layout {
    if IsStart(root, line) then Layout([], [Section(line, l.lead)] + l.sections, l.rest)
    else l.(lead := [line] + l.lead)
  }

  function Flat(sections: seq<Section>): seq<string> {
    if sections == [] then []
    else
      var last := sections[|sections| - 1];
      Flat(sections[..|sections| - 1]) + ([last.header] + last.body)
  }

  function Root(key: string): Kind {
    (line: string) => IsRoot(key, line)
  }

  // The line of the root, or the number of lines.
  function RootAt(key: string, lines: seq<string>): (k: nat)
    ensures k <= |lines|
  {
    FirstAt(Root(key), lines, 0, |lines|)
  }

  function RootIndent(key: string, lines: seq<string>): nat {
    if RootAt(key, lines) < |lines| then Indent(lines[RootAt(key, lines)]) else 0
  }

  // The parts after the root; none without one.
  function LayoutAt(key: string, lines: seq<string>): Layout {
    var r := RootAt(key, lines);
    if r < |lines| then Scan(RootIndent(key, lines), lines[r + 1..]) else Layout([], [], [])
  }

  // Later servers override earlier ones of the same name.
  function LoadedAll(root: nat, codec: Codec, sections: seq<Section>): Servers {
    if sections == [] then map[]
    else
      var n := |sections| - 1;
      LoadedAll(root, codec, sections[..n])[NameOf(sections[n].header) := Loaded(root, codec, sections[n].body)]
  }

  function Load(key: string, codec: Codec, lines: seq<string>): Result<Servers, YamlError> {
    var l := LayoutAt(key, lines);
    if l.sections == [] then Err(KeyAbsent) else Ok(LoadedAll(RootIndent(key, lines), codec, l.sections))
  }

  function RewrittenSection(root: nat, codec: Codec, values: Servers, s: Section): Section {
    if NameOf(s.header) in values then s.(body := Rewritten(root, codec, values[NameOf(s.header)], s.body)) else s
  }

  function RewrittenAll(root: nat, codec: Codec, values: Servers, sections: seq<Section>): (r: seq<Section>)
    ensures |r| == |sections|
    ensures forall i :: 0 <= i < |sections| ==> r[i] == RewrittenSection(root, codec, values, sections[i])
  {
    seq(|sections|, i requires 0 <= i < |sections| => RewrittenSection(root, codec, values, sections[i]))
  }

  // The servers of a file with the given ones rewritten.
  function RewrittenLayout(key: string, codec: Codec, values: Servers, lines: seq<string>): Layout {
    var l := LayoutAt(key, lines);
    l.(sections := RewrittenAll(RootIndent(key, lines), codec, values, l.sections))
  }

  function Joined(l: Layout): seq<string> {
    l.lead + Flat(l.sections) + l.rest
  }

  // The file with the given servers written into their sections; the rest of it is unchanged.
  function RewrittenFile(key: string, codec: Codec, values: Servers, lines: seq<string>): seq<string> {
    var r := RootAt(key, lines);
    if r == |lines| then lines else lines[..r + 1] + Joined(RewrittenLayout(key, codec, values, lines))
  }

  predicate HasFields(root: nat, body: seq<string>) {
    FieldsOf(root, body).c >= 0 && FieldsOf(root, body).a >= 0
  }
}
