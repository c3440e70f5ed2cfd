/** MCP server entries of a host's configuration, whatever the file format. */
module HostServers {
  import opened Basics
  import opened Text

  datatype Server = Server(command: string, args: seq<string>)

  type Servers = map<string, Server>

  // String quoting and unquoting, and the parsing of a JSON string array.
  datatype Codec = Codec(quote: string -> string, unquote: string -> Option<string>,
                         parseArray: string -> Option<seq<string>>)
  {
    // Quoted text is a single line between double quotes and reads back as what was quoted.
    ghost predicate Lawful() {
      && (forall s :: |quote(s)| >= 2 && quote(s)[0] == '"' && quote(s)[|quote(s)| - 1] == '"' && '\n' !in quote(s))
      && (forall s :: unquote(quote(s)) == Some(s))
      && (forall args :: parseArray(StringArray(args)) == Some(args))
    }

    function QuotedList(args: seq<string>): string {
      if args == [] then "" else if |args| == 1 then quote(args[0]) else quote(args[0]) + ", " + QuotedList(args[1..])
    }

    function StringArray(args: seq<string>): string {
      "[" + QuotedList(args) + "]"
    }
  }

  // A list is written as its quoted strings with a comma and a blank between them.
  lemma {:induction false} ListGrows(codec: Codec, args: seq<string>, arg: string)
    ensures codec.QuotedList(args + [arg]) ==
            (if args == [] then "" else codec.QuotedList(args) + ", ") + codec.quote(arg)
    ensures codec.StringArray(args) == "[" + codec.QuotedList(args) + "]" && codec.QuotedList([]) == ""
  {
    if args == [] {
      assert args + [arg] == [arg];
    } else {
      assert (args + [arg])[1..] == args[1..] + [arg];
      ListGrows(codec, args[1..], arg);
    }
  }

  // ----- which servers are wrapped, and how -----

  predicate IsManaged(args: seq<string>) {
    |args| >= 4 && args[0] == "proxy" && args[1] == "--server-name" && args[3] == "--"
  }

  function Wanted(servers: seq<string>): set<string> {
    set s | s in servers && TrimSpace(s) != "" :: TrimSpace(s)
  }

  predicate Selected(parsed: Servers, want: set<string>, name: string) {
    name in parsed && (want == {} || name in want) && parsed[name].command != "" && !IsManaged(parsed[name].args)
  }

  // What a patch records, and what it writes.
  function Originals(parsed: Servers, want: set<string>): Servers {
    map name | name in parsed && Selected(parsed, want, name) :: parsed[name]
  }

  function Proxied(originals: Servers, exe: string): Servers {
    map name | name in originals ::
      Server(exe, ["proxy", "--server-name", name, "--", originals[name].command] + originals[name].args)
  }

  // Some servers only.
  function Restricted(servers: Servers, names: set<string>): Servers {
    map name | name in servers && name in names :: servers[name]
  }

  lemma RestrictedWider(servers: Servers, names: set<string>, name: string)
    ensures Restricted(servers, names + {name}) ==
            if name in servers then Restricted(servers, names)[name := servers[name]] else Restricted(servers, names)
  {
  }

  // Some servers replaced.
  function Overridden(before: Servers, values: Servers): Servers {
    map name | name in before :: if name in values then values[name] else before[name]
  }

  lemma OriginalsRestore(before: Servers, want: set<string>)
    ensures Overridden(before, Originals(before, want)) == before
  {
  }

  // Once wrapped, no server is selected again.
  lemma NothingLeftToSelect(before: Servers, want: set<string>, exe: string)
    ensures Originals(Overridden(before, Proxied(Originals(before, want), exe)), want) == map[]
  {
    var proxied := Proxied(Originals(before, want), exe);
    var after := Overridden(before, proxied);
    forall name | name in after ensures !Selected(after, want, name) {
      if name in proxied {
        assert IsManaged(proxied[name].args);
      }
    }
  }
}
