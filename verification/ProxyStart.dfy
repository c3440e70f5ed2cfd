/** What the proxy starts from the arguments a patch writes, in each of the three formats. */
module ProxyStart {
  import opened Basics
  import opened HostServers
  import opened Json
  import JsonPatch
  import Seqs
  import opened Text
  import TomlPatch
  import YamlPatch
  import YamlText

  // ----- the command line of the proxy -----

  // The logical name of the server, and the command that is run with its arguments.
  datatype Started = Started(name: string, line: seq<string>)

  // A flag argument without its dashes: the name, and what follows an equals sign.
  datatype Flag = Flag(name: string, value: Option<string>)

  function CutAtEquals(s: string): Flag {
    if '=' !in s then Flag(s, None)
    else if s[0] == '=' then Flag("", Some(s[1..]))
    else
      assert s == [s[0]] + s[1..];
      var rest := CutAtEquals(s[1..]);
      Flag([s[0]] + rest.name, rest.value)
  }

  predicate IsTruth(s: string) {
    s in {"1", "t", "T", "true", "TRUE", "True", "0", "f", "F", "false", "FALSE", "False"}
  }

  // The flags, up to two dashes alone or to the first argument that is none. Anything not understood
  // ends the proxy.
  function ParseFlags(args: seq<string>, name: string): Option<Started> {
    if args == [] || |args[0]| < 2 || args[0][0] != '-' then Some(Started(name, args))
    else if args[0] == "--" then Some(Started(name, args[1..]))
    else
      var body := if args[0][1] == '-' then args[0][2..] else args[0][1..];
      if body[0] == '-' || body[0] == '=' then None
      else
        var flag := CutAtEquals(body);
        if flag.name == "server-name" then
          if flag.value.Some? then ParseFlags(args[1..], flag.value.value)
          else if |args| > 1 then ParseFlags(args[2..], args[1])
          else None
        else if flag.name == "no-capture" || flag.name == "fail-closed" then
          if flag.value.None? || IsTruth(flag.value.value) then ParseFlags(args[1..], name) else None
        else None
  }

  // What `scouttrace <args>` starts as a proxy. A server without a name is called after the last
  // part of its command's path.
  function Starts(base: string -> string, args: seq<string>): Option<Started> {
    if args == [] || args[0] != "proxy" then None
    else
      match ParseFlags(args[1..], "")
      case None => None
      case Some(st) =>
        if st.line == [] then None
        else Some(Started(if st.name == "" then base(st.line[0]) else st.name, st.line))
  }

  // How a server runs: the command with its arguments, under its name.
  function Running(base: string -> string, name: string, s: Server): Started {
    Started(if name == "" then base(s.command) else name, [s.command] + s.args)
  }

  lemma NoEquals(s: string)
    requires '=' !in s
    ensures CutAtEquals(s) == Flag(s, None)
  {
  }

  // Wrapped arguments start the server itself, whatever its command and arguments look like.
  lemma WrappedStarts(base: string -> string, name: string, s: Server)
    ensures Starts(base, ["proxy", "--server-name", name, "--", s.command] + s.args) ==
            Some(Running(base, name, s))
  {
    var args := ["proxy", "--server-name", name, "--", s.command] + s.args;
    var flags, rest := args[1..], [s.command] + s.args;
    assert flags == ["--server-name", name, "--"] + rest;
    assert flags[0] == "--server-name" && flags[0][2..] == "server-name" && flags[1] == name;
    NoEquals("server-name");
    assert flags[2..] == ["--"] + rest;
    assert flags[2..][0] == "--" && flags[2..][1..] == rest;
    assert ParseFlags(flags[2..], name) == Some(Started(name, rest));
  }

  // A server is taken for wrapped exactly when its arguments have the form in which they are written.
  lemma ManagedExactly(args: seq<string>)
    ensures IsManaged(args) <==> exists name, line :: args == ["proxy", "--server-name", name, "--"] + line
  {
    if IsManaged(args) {
      assert args == ["proxy", "--server-name", args[2], "--"] + args[4..];
    }
  }

  // ----- patched files -----

  // The servers named in a call: all of them, when it names none.
  predicate IsNamed(servers: seq<string>, name: string) {
    (forall s :: s in servers ==> TrimSpace(s) == "") || exists s :: s in servers && TrimSpace(s) == name != ""
  }

  lemma NamedAreWanted(servers: seq<string>, name: string)
    ensures Wanted(servers) == {} || name in Wanted(servers) <==> IsNamed(servers, name)
  {
    if s :| s in servers && TrimSpace(s) != "" {
      assert TrimSpace(s) in Wanted(servers);
    }
  }

  // The server is run by the proxy as it was run before.
  predicate RunsAs(base: string -> string, exe: string, name: string, before: Server, after: Server) {
    after.command == exe && Starts(base, after.args) == Some(Running(base, name, before))
  }

  // After the patch every server that was named, has a command and was not wrapped is run by the
  // proxy, every other is as it was, and no other appears.
  ghost predicate IsWrapping(base: string -> string, servers: seq<string>, exe: string, before: Servers,
                             after: Servers) {
    && after.Keys == before.Keys
    && forall name :: name in before ==>
                        if IsNamed(servers, name) && before[name].command != "" && !IsManaged(before[name].args)
                        then RunsAs(base, exe, name, before[name], after[name])
                        else after[name] == before[name]
  }

  lemma ProxiedRun(base: string -> string, servers: seq<string>, exe: string, before: Servers)
    ensures IsWrapping(base, servers, exe, before,
                       Overridden(before, Proxied(Originals(before, Wanted(servers)), exe)))
  {
    var originals := Originals(before, Wanted(servers));
    forall name | name in before
      ensures name in originals <==>
              IsNamed(servers, name) && before[name].command != "" && !IsManaged(before[name].args)
      ensures name in originals ==> RunsAs(base, exe, name, before[name], Proxied(originals, exe)[name])
    {
      NamedAreWanted(servers, name);
      WrappedStarts(base, name, before[name]);
    }
  }

  // What a patched TOML text loads runs what the original text loads.
  lemma PatchedTomlRuns(key: string, codec: Codec, base: string -> string, servers: seq<string>, exe: string,
                        text: string)
    requires codec.Lawful() && TomlPatch.Load(key, codec, SplitLinesPreserve(text)).Ok?
    requires TomlPatch.Complete(key, Originals(TomlPatch.Load(key, codec, SplitLinesPreserve(text)).value,
                                               Wanted(servers)), SplitLinesPreserve(text))
    ensures var before := TomlPatch.Load(key, codec, SplitLinesPreserve(text)).value;
            var proxied := Proxied(Originals(before, Wanted(servers)), exe);
            var after := TomlPatch.Load(key, codec,
                                        SplitLinesPreserve(TomlPatch.PatchedText(key, codec, proxied, text)));
            after.Ok? && IsWrapping(base, servers, exe, before, after.value)
  {
    var lines := SplitLinesPreserve(text);
    var before := TomlPatch.Load(key, codec, lines).value;
    SplitYieldsLines(text);
    TomlPatch.RewrittenSplits(key, codec, Proxied(Originals(before, Wanted(servers)), exe), lines);
    TomlPatch.PatchWrapsServers(key, codec, Wanted(servers), exe, lines);
    ProxiedRun(base, servers, exe, before);
  }

  // So does what a patched YAML text loads, if every wrapped server reads back what was written.
  lemma PatchedYamlRuns(key: string, codec: Codec, base: string -> string, servers: seq<string>, exe: string,
                        text: string)
    requires codec.Lawful() && YamlText.LoadText(key, codec, text).Ok?
    requires var originals := Originals(YamlText.LoadText(key, codec, text).value, Wanted(servers));
             YamlText.Complete(key, originals, text)
             && YamlText.AllReadBack(YamlText.RootOf(key, text), codec, Proxied(originals, exe),
                                     YamlText.Sections(key, text))
    ensures var before := YamlText.LoadText(key, codec, text).value;
            var proxied := Proxied(Originals(before, Wanted(servers)), exe);
            var after := YamlText.LoadText(key, codec, YamlText.WrittenText(key, codec, proxied, text));
            after.Ok? && IsWrapping(base, servers, exe, before, after.value)
  {
    var before := YamlText.LoadText(key, codec, text).value;
    var originals := Originals(before, Wanted(servers));
    assert Proxied(originals, exe).Keys == originals.Keys;
    YamlText.WrittenLoadsExactlyWhen(key, codec, Proxied(originals, exe), text);
    ProxiedRun(base, servers, exe, before);
  }

  // ----- JSON -----

  function Texts(items: seq<Json>): seq<string>
    requires JsonPatch.AllStrings(items)
  {
    seq(|items|, i requires 0 <= i < |items| => items[i].s)
  }

  // The arguments of an entry; anything but a list counts as none.
  function ListOf(entry: JsonPatch.Fields): seq<Json> {
    if "args" in entry && entry["args"].Array? then entry["args"].items else []
  }

  // The server that a JSON entry stands for; a command that is no string counts as none.
  function ServerOf(entry: JsonPatch.Fields): Server
    requires JsonPatch.AllStrings(ListOf(entry))
  {
    Server(if "command" in entry && entry["command"].String? then entry["command"].s else "", Texts(ListOf(entry)))
  }

  // The marker of a wrapped entry.
  predicate IsStamped(entry: JsonPatch.Fields) {
    && "_scouttrace" in entry && entry["_scouttrace"].Object?
    && var mark := entry["_scouttrace"].fields; "managed" in mark && mark["managed"] == Bool(true)
  }

  // ... in which the original is kept.
  predicate IsRecorded(entry: JsonPatch.Fields, command: string, args: seq<Json>) {
    && "_scouttrace" in entry && entry["_scouttrace"].Object?
    && var mark := entry["_scouttrace"].fields;
    && "version" in mark && "original" in mark && mark["original"].Object?
    && mark["original"].fields == map["command" := String(command), "args" := Array(args)]
  }

  lemma PatchedFields(entry: JsonPatch.Fields, name: string, proxy: JsonPatch.Proxy)
    ensures var out := JsonPatch.PatchedEntry(entry, name, proxy);
            && JsonPatch.CommandOf(out) == proxy.exe
            && JsonPatch.ArgsOf(out) ==
               [String("proxy"), String("--server-name"), String(name), String("--"),
                String(JsonPatch.CommandOf(entry))] + JsonPatch.ArgsOf(entry)
            && IsStamped(out) && out["_scouttrace"].fields["version"] == String(proxy.version)
            && IsRecorded(out, JsonPatch.CommandOf(entry), JsonPatch.ArgsOf(entry))
    ensures forall k :: k !in {"command", "args", JsonPatch.MARKER} ==>
                          var out := JsonPatch.PatchedEntry(entry, name, proxy);
                          (k in out <==> k in entry) && (k in entry ==> out[k] == entry[k])
  {
    assert "command" != "args" && JsonPatch.MARKER != "args" && JsonPatch.MARKER != "command" by {
      assert "command"[0] == 'c' && "args"[0] == 'a' && JsonPatch.MARKER[0] == '_';
    }
  }

  lemma TextsOf(name: string, command: string, items: seq<Json>)
    requires JsonPatch.AllStrings(items)
    ensures var all := [String("proxy"), String("--server-name"), String(name), String("--"), String(command)] + items;
            && JsonPatch.AllStrings(all)
            && Texts(all) == ["proxy", "--server-name", name, "--", command] + Texts(items)
  {
  }

  // A wrapped JSON entry runs what the entry ran; its other fields are as they were.
  lemma PatchedEntryRuns(base: string -> string, entry: JsonPatch.Fields, name: string, proxy: JsonPatch.Proxy)
    requires JsonPatch.AllStrings(ListOf(entry))
    ensures var out := JsonPatch.PatchedEntry(entry, name, proxy);
            && JsonPatch.AllStrings(ListOf(out))
            && RunsAs(base, proxy.exe, name, ServerOf(entry), ServerOf(out))
            && forall k :: k !in {"command", "args", JsonPatch.MARKER} ==>
                             (k in out <==> k in entry) && (k in entry ==> out[k] == entry[k])
  {
    PatchedFields(entry, name, proxy);
    TextsOf(name, JsonPatch.CommandOf(entry), JsonPatch.ArgsOf(entry));
    WrappedStarts(base, name, ServerOf(entry));
  }

  // In a patched tree every server that was named, is an object and was not wrapped is run by the
  // proxy, and every other is as it was.
  lemma PatchedTreeRuns(base: string -> string, tree: JsonPatch.Fields, key: string, servers: seq<string>,
                        proxy: JsonPatch.Proxy, name: string)
    requires JsonPatch.HasServers(tree, key) && JsonPatch.Patchable(tree[key].fields, servers)
    requires name in tree[key].fields
    ensures JsonPatch.HasServers(JsonPatch.PatchedTree(tree, key, servers, proxy), key)
    ensures var was, all := tree[key].fields[name], JsonPatch.PatchedTree(tree, key, servers, proxy)[key].fields;
            && name in all
            && if (servers == [] || name in servers) && was.Object? && !IsStamped(was.fields) then
                 && JsonPatch.AllStrings(ListOf(was.fields)) && all[name].Object?
                 && JsonPatch.AllStrings(ListOf(all[name].fields))
                 && RunsAs(base, proxy.exe, name, ServerOf(was.fields), ServerOf(all[name].fields))
               else all[name] == was
  {
    var srv := tree[key].fields;
    if JsonPatch.Selected(srv, servers, name) {
      PatchedEntryRuns(base, srv[name].fields, name, proxy);
    }
  }
}
