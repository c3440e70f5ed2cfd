/** The configuration's YAML subset: a recursive-descent parser over indented lines. */
module YamlSubset {
  import opened Basics
  import opened Json
  import opened Text
  import opened YamlQuotes

  // A line that holds something: its indentation and its text without comment.
  datatype Line = Line(indent: nat, text: string)

  // A parsed value and the lines left over.
  datatype Parsed = Parsed(node: Json, rest: seq<Line>)

  // JSON and number syntax, which the parser leaves to libraries; and which numbers JSON can write,
  // which infinities are not.
  datatype Codec = Codec(json: string -> Option<Json>, number: string -> Option<Json>, quote: string -> string,
                         finite: string -> bool)

  // ----- from text to lines -----

  predicate IsReturn(c: char) {
    c == '\r'
  }

  function ReadLine(raw: string): Option<Line> {
    var ln := TrimRight(raw, IsReturn);
    var body := TrimLeft(ln, IsSpaceChar);
    TrimLeftParts(ln, IsSpaceChar);
    var text := TrimRight(Uncommented(body), IsBlank);
    if text == "" then None else Some(Line(|ln| - |body|, text))
  }

  function ReadLines(raws: seq<string>): seq<Line> {
    if raws == [] then []
    else
      var before := ReadLines(raws[..|raws| - 1]);
      match ReadLine(raws[|raws| - 1])
      case None => before
      case Some(line) => before + [line]
  }

  function Preprocessed(text: string): seq<Line> {
    ReadLines(Split(text, '\n'))
  }

  // ----- scalars -----

  function SingleUnescaped(s: string): string {
    if |s| < 2 then s
    else if s[0] == '\'' && s[1] == '\'' then ['\''] + SingleUnescaped(s[2..])
    else [s[0]] + SingleUnescaped(s[1..])
  }

  function PlainValue(codec: Codec, s: string): Json {
    if s == "null" || s == "~" then Null
    else if s == "true" then Bool(true)
    else if s == "false" then Bool(false)
    else
      match codec.number(s)
      case Some(n) => n
      case None => String(s)
  }

  function ParseScalar(codec: Codec, s: string): Json {
    if |s| >= 2 && Wrapped(s, '"') then
      (match codec.json(s)
       case Some(String(v)) => String(v)
       case _ => String(s[1..|s| - 1]))
    else if |s| >= 2 && Wrapped(s, '\'') then String(SingleUnescaped(s[1..|s| - 1]))
    else PlainValue(codec, s)
  }

  predicate IsFlow(s: string) {
    s != "" && ((s[0] == '[' && s[|s| - 1] == ']') || (s[0] == '{' && s[|s| - 1] == '}'))
  }

  function ParseScalarOrFlow(codec: Codec, raw: string): Result<Json, YamlError> {
    var s := TrimSpace(raw);
    if s == "" then Ok(Null)
    else if IsFlow(s) then
      (match codec.json(s)
       case None => Err(BadFlow)
       case Some(v) => Ok(v))
    else Ok(ParseScalar(codec, s))
  }

  // ----- blocks -----

  predicate IsDash(text: string) {
    "- " <= text || text == "-"
  }

  // How many lines, from the first on, are indented deeper.
  function Deeper(lines: seq<Line>, indent: nat): (k: nat)
    ensures k <= |lines|
    ensures forall i :: 0 <= i < k ==> lines[i].indent > indent
    ensures k < |lines| ==> lines[k].indent <= indent
  {
    if lines == [] || lines[0].indent <= indent then 0 else 1 + Deeper(lines[1..], indent)
  }

  ghost predicate IsTail(rest: seq<Line>, lines: seq<Line>) {
    |rest| <= |lines| && rest == lines[|lines| - |rest|..]
  }

  lemma TailOfTail(rest: seq<Line>, mid: seq<Line>, lines: seq<Line>)
    requires IsTail(rest, mid) && IsTail(mid, lines)
    ensures IsTail(rest, lines)
  {
  }

  function Block(codec: Codec, lines: seq<Line>, base: nat): (r: Result<Parsed, YamlError>)
    ensures r.Ok? ==> IsTail(r.value.rest, lines)
    decreases |lines|, 2
  {
    if lines == [] || lines[0].indent < base then Ok(Parsed(Null, lines))
    else if IsDash(lines[0].text) then Items(codec, lines, lines[0].indent, [])
    else Entries(codec, lines, lines[0].indent, map[])
  }

  // The value under a key or a dash that stands alone on its line: what is indented deeper.
  function Nested(codec: Codec, lines: seq<Line>, indent: nat): (r: Result<Parsed, YamlError>)
    ensures r.Ok? ==> IsTail(r.value.rest, lines)
    decreases |lines|, 3
  {
    if lines == [] || lines[0].indent <= indent then Ok(Parsed(Null, lines)) else Block(codec, lines, lines[0].indent)
  }

  // One entry of a mapping: its key, its value and the lines left.
  function Entry(codec: Codec, lines: seq<Line>, indent: nat): (r: Result<(string, Parsed), YamlError>)
    requires lines != []
    ensures r.Ok? ==> |r.value.1.rest| < |lines| && IsTail(r.value.1.rest, lines)
    decreases |lines|, 0, 0
  {
    match SplitMapKey(lines[0].text)
    case Err(e) => Err(e)
    case Ok((key, raw)) =>
      var rest := TrimSpace(raw);
      if rest == "" then
        match Nested(codec, lines[1..], indent)
        case Err(e) => Err(e)
        case Ok(p) =>
          TailOfTail(p.rest, lines[1..], lines);
          Ok((key, p))
      else
        match ParseScalarOrFlow(codec, rest)
        case Err(e) => Err(e)
        case Ok(v) => Ok((key, Parsed(v, lines[1..])))
  }

  // The entries of a mapping, added to those before.
  function Entries(codec: Codec, lines: seq<Line>, indent: nat, out: map<string, Json>): (r: Result<Parsed, YamlError>)
    ensures r.Ok? ==> IsTail(r.value.rest, lines)
    decreases |lines|, 0, 1
  {
    if lines == [] || lines[0].indent < indent then Ok(Parsed(Object(out), lines))
    else if lines[0].indent > indent then Err(IndentInMapping)
    else
      match Entry(codec, lines, indent)
      case Err(e) => Err(e)
      case Ok((key, p)) =>
        var r := Entries(codec, p.rest, indent, out[key := p.node]);
        if r.Err? then r else
        TailOfTail(r.value.rest, p.rest, lines);
        r
  }

  // A mapping that begins on the line of its dash, together with the deeper lines after it. The
  // line is first tried alone; what the mapping leaves of the deeper lines is not looked at.
  function CompactMapping(codec: Codec, first: Line, tail: seq<Line>): Result<Json, YamlError>
    decreases 1 + |tail|, 0, 2
  {
    match Entries(codec, [first], first.indent, map[])
    case Err(e) => Err(e)
    case Ok(alone) =>
      if tail == [] then Ok(alone.node)
      else
        match Entries(codec, [first] + tail, first.indent, map[])
        case Err(e) => Err(e)
        case Ok(p) => Ok(p.node)
  }

  // One item of a sequence.
  function Item(codec: Codec, lines: seq<Line>, indent: nat): (r: Result<Parsed, YamlError>)
    requires lines != [] && "-" <= lines[0].text
    ensures r.Ok? ==> |r.value.rest| < |lines| && IsTail(r.value.rest, lines)
    decreases |lines|, 1, 0
  {
    var body, after := TrimSpace(lines[0].text[1..]), lines[1..];
    if body == "" then
      var r := Nested(codec, after, indent);
      if r.Err? then r else
      TailOfTail(r.value.rest, after, lines);
      r
    else if Find(body, Outside, ':') < |body| then
      var k := Deeper(after, indent);
      match CompactMapping(codec, Line(indent + 2, body), after[..k])
      case Err(e) => Err(e)
      case Ok(v) => Ok(Parsed(v, after[k..]))
    else
      match ParseScalarOrFlow(codec, body)
      case Err(e) => Err(e)
      case Ok(v) => Ok(Parsed(v, after))
  }

  // The items of a sequence, added to those before.
  function Items(codec: Codec, lines: seq<Line>, indent: nat, out: seq<Json>): (r: Result<Parsed, YamlError>)
    ensures r.Ok? ==> IsTail(r.value.rest, lines)
    decreases |lines|, 1, 1
  {
    if lines == [] || lines[0].indent < indent then Ok(Parsed(Array(out), lines))
    else if lines[0].indent > indent then Err(IndentInSequence)
    else if !("-" <= lines[0].text) then Ok(Parsed(Array(out), lines))
    else
      match Item(codec, lines, indent)
      case Err(e) => Err(e)
      case Ok(p) =>
        var r := Items(codec, p.rest, indent, out + [p.node]);
        if r.Err? then r else
        TailOfTail(r.value.rest, p.rest, lines);
        r
  }

  // Whether a tree can be written as JSON: every number in it can.
  predicate Encodes(codec: Codec, t: Json)
    decreases t
  {
    match t
    case Number(text) => codec.finite(text)
    case Array(items) => forall i :: 0 <= i < |items| ==> Encodes(codec, items[i])
    case Object(fields) => forall k :: k in fields ==> Encodes(codec, fields[k])
    case _ => true
  }

  // The tree of a whole configuration file, which is handed on as JSON.
  function Tree(codec: Codec, text: string): Result<Json, YamlError> {
    match Block(codec, Preprocessed(text), 0)
    case Err(e) => Err(e)
    case Ok(p) =>
      var root := if p.node == Null then Object(map[]) else p.node;
      if Encodes(codec, root) then Ok(root) else Err(NotEncodable)
  }
}
