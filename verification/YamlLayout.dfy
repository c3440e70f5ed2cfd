/** Documents of the YAML subset as they are written: indentation, quotes, comments, blank lines. */
module YamlLayout {
  import opened Basics
  import opened Json
  import opened Text
  import opened YamlQuotes
  import opened YamlSubset

  // A value on one line, as it is meant: nothing, a truth value, a number or a word without quotes;
  // text in quotes, of which between double quotes some is no JSON string; or a flow collection.
  datatype Scalar =
    | Nothing(tilde: bool)
    | Truth(holds: bool)
    | Numeral(token: string, number: Json)
    | Word(token: string)
    | InDouble(text: string)
    | Unescaped(text: string)
    | InSingle(text: string)
    | Flow(token: string, tree: Json)

  datatype Key = Bare(token: string) | DoubleQuoted(text: string) | SingleQuoted(text: string)

  datatype Doc = Empty | Leaf(scalar: Scalar) | List(elems: seq<Elem>) | Mapping(fields: seq<Field>)

  // A compact element begins its mapping on the line of the dash.
  datatype Elem = Elem(compact: bool, value: Doc)

  datatype Field = Field(key: Key, value: Doc)

  // ----- what may be written -----

  // The inside of a double-quoted JSON string: a quote only after a backslash, and no backslash last.
  predicate EscapedBody(s: string)
    decreases |s|
  {
    if s == "" then true
    else if s[0] == '\\' then |s| >= 2 && EscapedBody(s[2..])
    else s[0] != '"' && EscapedBody(s[1..])
  }

  // Quoting is JSON's: one line, closed, and read back as the text that was quoted.
  ghost predicate Lawful(codec: Codec) {
    && (forall s :: QuotedShape(codec.quote(s)))
    && (forall s :: codec.json(codec.quote(s)) == Some(String(s)))
  }

  predicate QuotedShape(q: string) {
    |q| >= 2 && Wrapped(q, '"') && EscapedBody(q[1..|q| - 1]) && '\n' !in q
  }

  // Unquoted text with nothing in it that opens a quote, a comment or a line.
  predicate IsBare(s: string) {
    Tight(s, IsSpace) && '\'' !in s && '"' !in s && '#' !in s && '\n' !in s
  }

  // Read from outside quotes to outside quotes, without c in between.
  predicate Closed(s: string, c: char) {
    Crosses(s, Outside, c) && After(s, Outside) == Outside
  }

  // Text without quotes that means something else than the text.
  predicate IsReserved(s: string) {
    s in {"null", "~", "true", "false"}
  }

  // Text between brackets or between braces.
  predicate IsBracketed(s: string) {
    s != "" && ((s[0] == '[' && s[|s| - 1] == ']') || (s[0] == '{' && s[|s| - 1] == '}'))
  }

  predicate WfScalar(codec: Codec, s: Scalar) {
    match s
    case Nothing(_) => true
    case Truth(_) => true
    case Numeral(token, number) =>
      IsBare(token) && !IsBracketed(token) && !IsReserved(token) && codec.number(token) == Some(number)
    case Word(token) => IsBare(token) && !IsBracketed(token) && !IsReserved(token) && codec.number(token) == None
    case InDouble(_) => true
    case Unescaped(text) => EscapedBody(text) && '\n' !in text && !IsJsonString(codec, "\"" + text + "\"")
    case InSingle(text) => '\n' !in text
    case Flow(token, tree) =>
      IsBracketed(token) && '\n' !in token && Closed(token, '#') && codec.json(token) == Some(tree)
  }

  predicate IsJsonString(codec: Codec, s: string) {
    codec.json(s).Some? && codec.json(s).value.String?
  }

  // A key is used as it stands between its quotes: escapes in it are not undone.
  predicate WfKey(key: Key) {
    match key
    case Bare(token) => IsBare(token) && ':' !in token && !("- " <= token)
    case DoubleQuoted(text) => EscapedBody(text) && '\n' !in text
    case SingleQuoted(text) => '\'' !in text && '\n' !in text
  }

  predicate IsBlock(doc: Doc) {
    doc.List? || doc.Mapping?
  }

  predicate Wf(codec: Codec, doc: Doc)
    decreases doc
  {
    match doc
    case Empty => true
    case Leaf(s) => WfScalar(codec, s)
    case List(elems) => elems != [] && forall i :: 0 <= i < |elems| ==> WfElem(codec, elems[i])
    case Mapping(fields) => fields != [] && forall i :: 0 <= i < |fields| ==> WfField(codec, fields[i])
  }

  // An unquoted element with a colon in it would be taken for a mapping.
  predicate WfElem(codec: Codec, e: Elem)
    decreases e
  {
    Wf(codec, e.value) && (e.value.Leaf? ==> NoColon(e.value.scalar))
  }

  predicate NoColon(s: Scalar) {
    match s
    case Numeral(token, _) => ':' !in token
    case Word(token) => ':' !in token
    case Flow(token, _) => Closed(token, ':')
    case _ => true
  }

  predicate WfField(codec: Codec, f: Field)
    decreases f
  {
    WfKey(f.key) && Wf(codec, f.value)
  }

  // ----- how it is written -----

  function SingleEscaped(s: string): string {
    if s == "" then "" else (if s[0] == '\'' then "''" else [s[0]]) + SingleEscaped(s[1..])
  }

  function ScalarText(codec: Codec, s: Scalar): string {
    match s
    case Nothing(tilde) => if tilde then "~" else "null"
    case Truth(holds) => if holds then "true" else "false"
    case Numeral(token, _) => token
    case Word(token) => token
    case InDouble(text) => codec.quote(text)
    case Unescaped(text) => "\"" + text + "\""
    case InSingle(text) => "'" + SingleEscaped(text) + "'"
    case Flow(token, _) => token
  }

  function KeyText(key: Key): string {
    match key
    case Bare(token) => token
    case DoubleQuoted(text) => "\"" + text + "\""
    case SingleQuoted(text) => "'" + text + "'"
  }

  function InlineText(codec: Codec, value: Doc): string {
    if value.Leaf? then " " + ScalarText(codec, value.scalar) else ""
  }

  function HeadText(codec: Codec, f: Field): string {
    KeyText(f.key) + ":" + InlineText(codec, f.value)
  }

  ghost predicate AtLeast(lines: seq<Line>, n: nat) {
    forall i :: 0 <= i < |lines| ==> lines[i].indent >= n
  }

  function DocLines(codec: Codec, doc: Doc, n: nat): (r: seq<Line>)
    requires Wf(codec, doc)
    ensures AtLeast(r, n) && (IsBlock(doc) <==> r != [])
    ensures r != [] ==> r[0].indent == n
    decreases doc
  {
    match doc
    case List(elems) => ElemsLines(codec, elems, n)
    case Mapping(fields) => FieldsLines(codec, fields, n)
    case _ => []
  }

  function FieldsLines(codec: Codec, fields: seq<Field>, n: nat): (r: seq<Line>)
    requires forall i :: 0 <= i < |fields| ==> WfField(codec, fields[i])
    ensures AtLeast(r, n)
    ensures fields != [] <==> r != []
    ensures r != [] ==> r[0] == Line(n, HeadText(codec, fields[0]))
    decreases fields
  {
    if fields == [] then [] else FieldLines(codec, fields[0], n) + FieldsLines(codec, fields[1..], n)
  }

  function FieldLines(codec: Codec, f: Field, n: nat): (r: seq<Line>)
    requires WfField(codec, f)
    ensures AtLeast(r, n) && r != [] && r[0] == Line(n, HeadText(codec, f))
    decreases f
  {
    [Line(n, HeadText(codec, f))] + DocLines(codec, f.value, n + 2)
  }

  function ElemsLines(codec: Codec, elems: seq<Elem>, n: nat): (r: seq<Line>)
    requires forall i :: 0 <= i < |elems| ==> WfElem(codec, elems[i])
    ensures AtLeast(r, n)
    ensures elems != [] <==> r != []
    ensures r != [] ==> r[0].indent == n && IsDash(r[0].text)
    decreases elems
  {
    if elems == [] then [] else ElemLines(codec, elems[0], n) + ElemsLines(codec, elems[1..], n)
  }

  function ElemLines(codec: Codec, e: Elem, n: nat): (r: seq<Line>)
    requires WfElem(codec, e)
    ensures AtLeast(r, n) && r != [] && r[0].indent == n && IsDash(r[0].text)
    decreases e
  {
    var below := DocLines(codec, e.value, n + 2);
    if e.compact && e.value.Mapping? then [Line(n, "- " + below[0].text)] + below[1..]
    else [Line(n, "-" + InlineText(codec, e.value))] + below
  }

  // ----- what it says -----

  function ScalarValue(s: Scalar): Json {
    match s
    case Nothing(_) => Null
    case Truth(holds) => Json.Bool(holds)
    case Numeral(_, number) => number
    case Word(token) => String(token)
    case InDouble(text) => String(text)
    case Unescaped(text) => String(text)
    case InSingle(text) => String(text)
    case Flow(_, tree) => tree
  }

  function KeyName(key: Key): string {
    match key
    case Bare(token) => token
    case DoubleQuoted(text) => text
    case SingleQuoted(text) => text
  }

  function Denoted(doc: Doc): Json
    decreases doc
  {
    match doc
    case Empty => Null
    case Leaf(s) => ScalarValue(s)
    case List(elems) => Array(DenotedElems(elems))
    case Mapping(fields) => Object(DenotedFields(fields, map[]))
  }

  function DenotedElem(e: Elem): Json
    decreases e
  {
    Denoted(e.value)
  }

  function DenotedField(f: Field): Json
    decreases f
  {
    Denoted(f.value)
  }

  function DenotedElems(elems: seq<Elem>): seq<Json>
    decreases elems
  {
    if elems == [] then [] else [DenotedElem(elems[0])] + DenotedElems(elems[1..])
  }

  // A later field overrides an earlier one of the same name.
  function DenotedFields(fields: seq<Field>, out: map<string, Json>): map<string, Json>
    decreases fields
  {
    if fields == [] then out
    else DenotedFields(fields[1..], out[KeyName(fields[0].key) := DenotedField(fields[0])])
  }

  // ----- lines in a file -----

  // A physical line: one that holds something, or one that does not; either may end in blanks,
  // a comment and carriage returns.
  datatype Raw =
    | Held(line: Line, pad: string, note: Option<string>, crs: string)
    | Idle(pad: string, note: Option<string>, crs: string)

  function TailText(raw: Raw): string {
    (if raw.note.Some? then "#" + raw.note.value else "") + raw.crs
  }

  function RawText(raw: Raw): string {
    (if raw.Held? then Spaces(raw.line.indent) + (raw.line.text + raw.pad) else raw.pad) + TailText(raw)
  }

  ghost predicate WfRaw(raw: Raw) {
    && All(raw.pad, IsBlank)
    && All(raw.crs, IsReturn)
    && (raw.note.Some? ==> '\n' !in raw.note.value)
  }

  ghost predicate WfLayout(layout: seq<Raw>) {
    layout != [] && forall i :: 0 <= i < |layout| ==> WfRaw(layout[i])
  }

  function LayoutText(layout: seq<Raw>): string
    requires layout != []
  {
    Join(seq(|layout|, i requires 0 <= i < |layout| => RawText(layout[i])), '\n')
  }

  function HeldLines(layout: seq<Raw>): seq<Line> {
    if layout == [] then []
    else
      var before, last := HeldLines(layout[..|layout| - 1]), layout[|layout| - 1];
      if last.Held? then before + [last.line] else before
  }
}
