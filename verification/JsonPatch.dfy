/** Wrapping and unwrapping MCP servers in a host's JSON configuration. */
module JsonPatch {
  import opened Basics
  import opened Json

  type Fields = map<string, Json>

  datatype PatchError = KeyAbsent | NotAnObject | ArgsNotStrings(server: string) | MarkerMissing(server: string)

  const MARKER := "_scouttrace"

  // What is written into a host's configuration: the proxy binary and the version stamp.
  datatype Proxy = Proxy(exe: string, version: string)

  // ----- one server entry -----

  function FieldOr(m: Fields, k: string): Json {
    if k in m then m[k] else Null
  }

  predicate AlreadyManaged(entry: Fields) {
    var mk := FieldOr(entry, MARKER);
    mk.Object? && FieldOr(mk.fields, "managed") == Bool(true)
  }

  predicate AllStrings(items: seq<Json>) {
    forall i :: 0 <= i < |items| ==> items[i].String?
  }

  // The command and arguments as the patch reads them; anything but a string or an array
  // counts as empty.
  function CommandOf(entry: Fields): string {
    var c := FieldOr(entry, "command");
    if c.String? then c.s else ""
  }

  function ArgsOf(entry: Fields): seq<Json> {
    var a := FieldOr(entry, "args");
    if a.Array? then a.items else []
  }

  function PatchedEntry(entry: Fields, name: string, proxy: Proxy): Fields {
    var command, args := String(CommandOf(entry)), ArgsOf(entry);
    entry[
    "command" := String(proxy.exe)][
    "args" := Array([String("proxy"), String("--server-name"), String(name), String("--"), command] + args)][
    MARKER := Object(map[
                       "managed" := Bool(true),
                       "version" := String(proxy.version),
                       "original" := Object(map["command" := command, "args" := Array(args)])])]
  }

  method PatchEntry(entry: Fields, name: string, proxy: Proxy) returns (r: Result<Fields, PatchError>)
    ensures r == if AllStrings(ArgsOf(entry)) then Ok(PatchedEntry(entry, name, proxy)) else Err(ArgsNotStrings(name))
  {
    var raw := ArgsOf(entry);
    for i := 0 to |raw|
      invariant AllStrings(raw[..i])
    {
      if !raw[i].String? {
        return Err(ArgsNotStrings(name));
      }
      assert raw[..i + 1] == raw[..i] + [raw[i]];
    }
    assert raw[..|raw|] == raw;
    return Ok(PatchedEntry(entry, name, proxy));
  }

  // ----- all servers of a tree -----

  predicate Wanted(servers: seq<string>, name: string) {
    servers == [] || name in servers
  }

  // The servers a patch rewrites.
  predicate Selected(srv: Fields, servers: seq<string>, name: string) {
    name in srv && Wanted(servers, name) && srv[name].Object? && !AlreadyManaged(srv[name].fields)
  }

  function PatchedServers(srv: Fields, servers: seq<string>, proxy: Proxy): Fields {
    map name | name in srv ::
      if Selected(srv, servers, name) then Object(PatchedEntry(srv[name].fields, name, proxy)) else srv[name]
  }

  // A patch goes through when every server it would rewrite has string arguments.
  ghost predicate Patchable(srv: Fields, servers: seq<string>) {
    forall name :: Selected(srv, servers, name) ==> AllStrings(ArgsOf(srv[name].fields))
  }

  predicate HasServers(tree: Fields, key: string) {
    key in tree && tree[key].Object?
  }

  function PatchedTree(tree: Fields, key: string, servers: seq<string>, proxy: Proxy): Fields
    requires HasServers(tree, key)
  {
    tree[key := Object(PatchedServers(tree[key].fields, servers, proxy))]
  }

  method Patch(tree: Fields, key: string, servers: seq<string>, proxy: Proxy) returns (r: Result<Fields, PatchError>)
    ensures r.Ok? <==> HasServers(tree, key) && Patchable(tree[key].fields, servers)
    ensures r.Ok? ==> r.value == PatchedTree(tree, key, servers, proxy)
    ensures r.Err? ==> match r.error
                       case KeyAbsent => key !in tree
                       case NotAnObject => key in tree && !tree[key].Object?
                       case ArgsNotStrings(name) =>
                         HasServers(tree, key) && Selected(tree[key].fields, servers, name)
                         && !AllStrings(ArgsOf(tree[key].fields[name].fields))
                       case MarkerMissing(_) => false
  {
    if key !in tree {
      return Err(KeyAbsent);
    }
    if !tree[key].Object? {
      return Err(NotAnObject);
    }
    var before := tree[key].fields;
    var srv := before;
    var todo := srv.Keys;
    while todo != {}
      invariant todo <= before.Keys == srv.Keys
      invariant forall name :: name in before ==>
                                 srv[name] == (if name in todo then before[name]
                                               else PatchedServers(before, servers, proxy)[name])
      invariant forall name :: Selected(before, servers, name) && name !in todo ==>
                                 AllStrings(ArgsOf(before[name].fields))
      decreases |todo|
    {
      var name :| name in todo;
      todo := todo - {name};
      if servers != [] && name !in servers {
        continue;
      }
      if !srv[name].Object? || AlreadyManaged(srv[name].fields) {
        continue;
      }
      var patched := PatchEntry(srv[name].fields, name, proxy);
      if patched.Err? {
        return Err(patched.error);
      }
      srv := srv[name := Object(patched.value)];
    }
    assert srv == PatchedServers(before, servers, proxy);
    return Ok(tree[key := Object(srv)]);
  }

  // ----- undoing it -----

  predicate Marked(e: Json) {
    e.Object? && FieldOr(e.fields, MARKER).Object?
  }

  // What a marked entry is restored to: its other fields, overlaid with the recorded original.
  function RestoredEntry(entry: Fields): Fields
    requires Marked(Object(entry)) && FieldOr(entry[MARKER].fields, "original").Object?
  {
    (entry - {"command", "args", MARKER}) + entry[MARKER].fields["original"].fields
  }

  predicate Restorable(e: Json) {
    Marked(e) ==> FieldOr(e.fields[MARKER].fields, "original").Object?
  }

  function RestoredServer(e: Json): Json
    requires Restorable(e)
  {
    if Marked(e) then Object(RestoredEntry(e.fields)) else e
  }

  function RestoredServers(srv: Fields): Fields
    requires forall name :: name in srv ==> Restorable(srv[name])
  {
    map name | name in srv :: RestoredServer(srv[name])
  }

  // A tree without the servers key is returned as it is.
  method Unpatch(tree: Fields, key: string) returns (r: Result<Fields, PatchError>, restored: set<string>)
    ensures r.Ok?
       <==> key !in tree
            || (tree[key].Object? && forall name :: name in tree[key].fields ==> Restorable(tree[key].fields[name]))
    ensures r.Ok? && key !in tree ==> r.value == tree && restored == {}
    ensures r.Ok? && key in tree ==>
              && r.value == tree[key := Object(RestoredServers(tree[key].fields))]
              && restored == set name | name in tree[key].fields && Marked(tree[key].fields[name])
    ensures r.Err? && key in tree && tree[key].Object? ==>
              r.error.MarkerMissing? && r.error.server in tree[key].fields
              && !Restorable(tree[key].fields[r.error.server])
    ensures r.Err? && !HasServers(tree, key) ==> r.error == NotAnObject
  {
    restored := {};
    if key !in tree {
      return Ok(tree), restored;
    }
    if !tree[key].Object? {
      return Err(NotAnObject), restored;
    }
    var before := tree[key].fields;
    var srv := before;
    var todo := srv.Keys;
    while todo != {}
      invariant todo <= before.Keys == srv.Keys
      invariant forall name :: name in before && name !in todo ==>
                                 Restorable(before[name]) && srv[name] == RestoredServer(before[name])
      invariant forall name :: name in todo ==> srv[name] == before[name]
      invariant restored == set name | name in before && name !in todo && Marked(before[name])
      decreases |todo|
    {
      var name :| name in todo;
      todo := todo - {name};
      var e := srv[name];
      if !e.Object? || !FieldOr(e.fields, MARKER).Object? {
        continue;
      }
      if !FieldOr(e.fields[MARKER].fields, "original").Object? {
        return Err(MarkerMissing(name)), {};
      }
      srv := srv[name := Object(RestoredEntry(e.fields))];
      restored := restored + {name};
    }
    assert srv == RestoredServers(before);
    return Ok(tree[key := Object(srv)]), restored;
  }

  // ----- round trips -----

  // An entry whose command is a string, whose arguments are an array, and that carries no
  // marker field of its own.
  predicate Plain(entry: Fields) {
    FieldOr(entry, "command").String? && FieldOr(entry, "args").Array? && MARKER !in entry
  }

  lemma PatchedIsManaged(entry: Fields, name: string, proxy: Proxy)
    ensures var p := PatchedEntry(entry, name, proxy);
            && AlreadyManaged(p) && Marked(Object(p)) && Restorable(Object(p))
            && RestoredEntry(p) ==
               (entry - {MARKER})["command" := String(CommandOf(entry))]["args" := Array(ArgsOf(entry))]
  {
  }

  // Undoing the patch of one entry gives the entry back exactly when it was plain.
  lemma EntryRoundTripExactlyWhen(entry: Fields, name: string, proxy: Proxy)
    ensures Restorable(Object(PatchedEntry(entry, name, proxy)))
    ensures RestoredServer(Object(PatchedEntry(entry, name, proxy))) == Object(entry) <==> Plain(entry)
  {
    PatchedIsManaged(entry, name, proxy);
    var back := (entry - {MARKER})["command" := String(CommandOf(entry))]["args" := Array(ArgsOf(entry))];
    assert "command" in back && "args" in back && MARKER !in back;
    if Plain(entry) {
      assert back == entry;
    }
  }

  // Restoring always changes a marked entry: a marker cannot be recorded inside itself.
  lemma MarkedChanges(e: Json)
    requires Marked(e) && Restorable(e)
    ensures RestoredServer(e) != e
  {
    var marker := e.fields[MARKER];
    var original := marker.fields["original"];
    assert original < marker;
    assert MARKER in original.fields ==> original.fields[MARKER] < original;
  }

  // What a server must look like to survive patch and unpatch: plain if the patch rewrites it,
  // free of a marker object if it does not.
  predicate Survives(srv: Fields, servers: seq<string>, name: string)
    requires name in srv
  {
    if Selected(srv, servers, name) then Plain(srv[name].fields) else !Marked(srv[name])
  }

  lemma ServerRoundTripExactlyWhen(srv: Fields, servers: seq<string>, proxy: Proxy, name: string)
    requires name in srv
    ensures var e := PatchedServers(srv, servers, proxy)[name];
            Restorable(e) && RestoredServer(e) == srv[name] <==> Survives(srv, servers, name)
  {
    if Selected(srv, servers, name) {
      EntryRoundTripExactlyWhen(srv[name].fields, name, proxy);
    } else if Marked(srv[name]) && Restorable(srv[name]) {
      MarkedChanges(srv[name]);
    }
  }

  // Unpatch undoes patch on a whole server table, for any selection, exactly when every server
  // survives; in particular whenever every entry is plain.
  lemma UnpatchUndoesPatchExactlyWhen(srv: Fields, servers: seq<string>, proxy: Proxy)
    ensures var once := PatchedServers(srv, servers, proxy);
            (forall name :: name in once ==> Restorable(once[name])) && RestoredServers(once) == srv
            <==> forall name :: name in srv ==> Survives(srv, servers, name)
  {
    var once := PatchedServers(srv, servers, proxy);
    forall name | name in srv
      ensures Restorable(once[name]) && RestoredServer(once[name]) == srv[name] <==> Survives(srv, servers, name)
    {
      ServerRoundTripExactlyWhen(srv, servers, proxy, name);
    }
    if forall name :: name in once ==> Restorable(once[name]) {
      var back := RestoredServers(once);
      assert back.Keys == srv.Keys;
      if back == srv {
        forall name | name in srv ensures Survives(srv, servers, name) {
          assert back[name] == RestoredServer(once[name]);
        }
      }
    }
  }

  lemma UnpatchUndoesPatch(srv: Fields, servers: seq<string>, proxy: Proxy)
    requires forall name :: name in srv ==> srv[name].Object? && Plain(srv[name].fields)
    ensures var once := PatchedServers(srv, servers, proxy);
            (forall name :: name in once ==> Restorable(once[name])) && RestoredServers(once) == srv
  {
    UnpatchUndoesPatchExactlyWhen(srv, servers, proxy);
  }

  // Both selections together; an empty one means all servers.
  function Both(first: seq<string>, second: seq<string>): seq<string> {
    if first == [] || second == [] then [] else first + second
  }

  // Patching some servers and then some is patching them all at once.
  lemma PatchInTurns(srv: Fields, first: seq<string>, second: seq<string>, proxy: Proxy)
    ensures PatchedServers(PatchedServers(srv, first, proxy), second, proxy) ==
            PatchedServers(srv, Both(first, second), proxy)
  {
    var once := PatchedServers(srv, first, proxy);
    forall name | name in srv
      ensures PatchedServers(once, second, proxy)[name] == PatchedServers(srv, Both(first, second), proxy)[name]
    {
      if Selected(srv, first, name) {
        PatchedIsManaged(srv[name].fields, name, proxy);
      }
    }
  }

  // Patching twice is patching once, and what is patched stays so when other servers are named.
  lemma PatchIdempotent(srv: Fields, servers: seq<string>, again: seq<string>, proxy: Proxy)
    ensures var once := PatchedServers(srv, servers, proxy);
            && Patchable(once, servers) && PatchedServers(once, servers, proxy) == once
            && forall name :: Selected(srv, servers, name) ==> PatchedServers(once, again, proxy)[name] == once[name]
  {
    var once := PatchedServers(srv, servers, proxy);
    forall name ensures !Selected(once, servers, name)
                        && (Selected(srv, servers, name) ==> !Selected(once, again, name)) {
      if Selected(srv, servers, name) {
        PatchedIsManaged(srv[name].fields, name, proxy);
      }
    }
  }

  // A patch changes exactly the selected servers: no key comes or goes, everything beside the
  // servers and every other server is as it was, and a selected server is never as it was.
  lemma PatchChangesExactly(tree: Fields, key: string, servers: seq<string>, proxy: Proxy)
    requires HasServers(tree, key)
    ensures var out, srv := PatchedTree(tree, key, servers, proxy), tree[key].fields;
            && out.Keys == tree.Keys && (forall k :: k in tree && k != key ==> out[k] == tree[k])
            && HasServers(out, key) && out[key].fields.Keys == srv.Keys
            && forall name :: name in srv ==> (out[key].fields[name] != srv[name] <==> Selected(srv, servers, name))
  {
    var srv := tree[key].fields;
    forall name | Selected(srv, servers, name) ensures PatchedServers(srv, servers, proxy)[name] != srv[name] {
      PatchedIsManaged(srv[name].fields, name, proxy);
    }
  }

  // An entry without arguments comes back with an empty list of them.
  lemma MissingArgsAppear(entry: Fields, name: string, proxy: Proxy)
    requires FieldOr(entry, "command").String? && "args" !in entry && MARKER !in entry
    ensures RestoredServer(Object(PatchedEntry(entry, name, proxy))) == Object(entry["args" := Array([])])
    ensures entry["args" := Array([])] != entry
  {
    PatchedIsManaged(entry, name, proxy);
    assert (entry - {MARKER})["command" := String(CommandOf(entry))]["args" := Array([])] == entry["args" := Array([])];
    assert "args" in entry["args" := Array([])];
  }

  // What unpatching makes of a marked entry, key by key: what was recorded, else nothing of what a
  // patch writes, else what is there.
  lemma RestoredExactly(entry: Fields, k: string)
    requires Marked(Object(entry)) && FieldOr(entry[MARKER].fields, "original").Object?
    ensures var original, out := entry["_scouttrace"].fields["original"].fields, RestoredEntry(entry);
            if k in original then k in out && out[k] == original[k]
            else if k in {"command", "args", "_scouttrace"} then k !in out
            else (k in out <==> k in entry) && (k in out ==> out[k] == entry[k])
  {
  }
}
