/** Whole files of the YAML subset: from text to tree, and which lines are read at all. */
module YamlDocument {
  import opened Basics
  import opened Json
  import Seqs
  import opened Text
  import opened YamlQuotes
  import opened YamlSubset
  import opened YamlLayout
  import opened YamlRoundTrip

  // ----- written lines survive preprocessing -----

  // A line's text as it is kept: nothing to trim, no comment in it, one line.
  ghost predicate IsLineText(s: string) {
    Tight(s, IsSpace) && Closed(s, '#') && '\n' !in s
  }

  ghost predicate AreLineTexts(lines: seq<Line>) {
    forall i :: 0 <= i < |lines| ==> IsLineText(lines[i].text)
  }

  lemma AreLineTextsConcat(a: seq<Line>, b: seq<Line>)
    requires AreLineTexts(a) && AreLineTexts(b)
    ensures AreLineTexts(a + b)
  {
  }

  // Text in front of a line's text.
  lemma LineTextConcat(a: string, b: string)
    requires a != "" && !IsSpace(a[0]) && Closed(a, '#') && '\n' !in a && Closed(b, '#') && '\n' !in b
    requires (a + b)[|a + b| - 1] == (if b == "" then a else b)[|if b == "" then a else b| - 1]
    requires !IsSpace((a + b)[|a + b| - 1])
    ensures IsLineText(a + b)
  {
    ClosedConcat(a, b, '#');
  }

  lemma InlineCloses(codec: Codec, value: Doc)
    requires Lawful(codec) && Wf(codec, value)
    ensures var s := InlineText(codec, value);
            Closed(s, '#') && '\n' !in s && (s != "" ==> !IsSpace(s[|s| - 1]))
  {
    if value.Leaf? {
      ScalarCloses(codec, value.scalar, '#');
      ScalarTight(codec, value.scalar);
      ClearCloses(" ", '#');
      ClosedConcat(" ", ScalarText(codec, value.scalar), '#');
    }
  }

  lemma HeadIsLineText(codec: Codec, f: Field)
    requires Lawful(codec) && WfField(codec, f)
    ensures IsLineText(HeadText(codec, f))
  {
    KeyCloses(f.key, '#');
    ClearCloses(":", '#');
    ClosedConcat(KeyText(f.key), ":", '#');
    InlineCloses(codec, f.value);
    LineTextConcat(KeyText(f.key) + ":", InlineText(codec, f.value));
  }

  lemma DashIsLineText(s: string)
    requires s == "" || (s[0] == ' ' && Closed(s, '#') && '\n' !in s && !IsSpace(s[|s| - 1]))
    ensures IsLineText("-" + s)
  {
    ClearCloses("-", '#');
    LineTextConcat("-", s);
  }

  lemma {:induction false} DocLineTexts(codec: Codec, doc: Doc, n: nat)
    requires Lawful(codec) && Wf(codec, doc)
    ensures AreLineTexts(DocLines(codec, doc, n))
    decreases doc
  {
    match doc {
      case List(elems) => ElemsLineTexts(codec, elems, n);
      case Mapping(fields) => FieldsLineTexts(codec, fields, n);
      case _ =>
    }
  }

  lemma {:induction false} FieldsLineTexts(codec: Codec, fields: seq<Field>, n: nat)
    requires Lawful(codec) && forall i :: 0 <= i < |fields| ==> WfField(codec, fields[i])
    ensures AreLineTexts(FieldsLines(codec, fields, n))
    decreases fields
  {
    if fields != [] {
      FieldLineTexts(codec, fields[0], n);
      FieldsLineTexts(codec, fields[1..], n);
      AreLineTextsConcat(FieldLines(codec, fields[0], n), FieldsLines(codec, fields[1..], n));
    }
  }

  lemma {:induction false} FieldLineTexts(codec: Codec, f: Field, n: nat)
    requires Lawful(codec) && WfField(codec, f)
    ensures AreLineTexts(FieldLines(codec, f, n))
    decreases f
  {
    HeadIsLineText(codec, f);
    DocLineTexts(codec, f.value, n + 2);
    AreLineTextsConcat([Line(n, HeadText(codec, f))], DocLines(codec, f.value, n + 2));
  }

  lemma {:induction false} ElemsLineTexts(codec: Codec, elems: seq<Elem>, n: nat)
    requires Lawful(codec) && forall i :: 0 <= i < |elems| ==> WfElem(codec, elems[i])
    ensures AreLineTexts(ElemsLines(codec, elems, n))
    decreases elems
  {
    if elems != [] {
      ElemLineTexts(codec, elems[0], n);
      ElemsLineTexts(codec, elems[1..], n);
      AreLineTextsConcat(ElemLines(codec, elems[0], n), ElemsLines(codec, elems[1..], n));
    }
  }

  lemma CompactIsLineText(body: string)
    requires IsLineText(body)
    ensures IsLineText("- " + body)
  {
    ClearCloses(" ", '#');
    ClosedConcat(" ", body, '#');
    DashIsLineText(" " + body);
    assert "-" + (" " + body) == "- " + body;
  }

  lemma {:induction false} ElemLineTexts(codec: Codec, e: Elem, n: nat)
    requires Lawful(codec) && WfElem(codec, e)
    ensures AreLineTexts(ElemLines(codec, e, n))
    decreases e
  {
    var below := DocLines(codec, e.value, n + 2);
    DocLineTexts(codec, e.value, n + 2);
    if e.compact && e.value.Mapping? {
      CompactIsLineText(below[0].text);
      AreLineTextsConcat([Line(n, "- " + below[0].text)], below[1..]);
    } else {
      InlineCloses(codec, e.value);
      DashIsLineText(InlineText(codec, e.value));
      AreLineTextsConcat([Line(n, "-" + InlineText(codec, e.value))], below);
    }
  }

  // ----- physical lines -----

  // A physical line without its carriage returns still has its comment.
  lemma TailTrims(head: string, raw: Raw) returns (note: string)
    requires WfRaw(raw) && (head == "" || !IsReturn(head[|head| - 1]))
    ensures note == "" || note[0] == '#'
    ensures TrimRight(head + TailText(raw), IsReturn) == head + note
  {
    if raw.note.None? {
      note := "";
      TrimRightOff(head, raw.crs, IsReturn);
      assert TailText(raw) == raw.crs && head + note == head;
    } else {
      var rest := raw.note.value + raw.crs;
      note := "#" + TrimRight(rest, IsReturn);
      assert TailText(raw) == "#" + rest;
      TrimRightKeepsMark(head, rest);
    }
  }

  lemma TrimRightKeepsMark(head: string, rest: string)
    ensures TrimRight(head + ("#" + rest), IsReturn) == head + ("#" + TrimRight(rest, IsReturn))
  {
    assert head + ("#" + rest) == (head + "#") + rest;
    TrimRightKeeps(head + "#", rest, IsReturn);
    assert (head + "#") + TrimRight(rest, IsReturn) == head + ("#" + TrimRight(rest, IsReturn));
  }

  // A comment is cut off, and the blanks before it.
  lemma BodyReads(text: string, pad: string, note: string)
    requires All(pad, IsBlank) && (note == "" || note[0] == '#')
    requires text == "" || (Closed(text, '#') && !IsBlank(text[|text| - 1]))
    ensures TrimRight(Uncommented(text + pad + note), IsBlank) == text
  {
    CommentCutOff(text, pad, note);
    TrimRightOff(text, pad, IsBlank);
  }

  lemma CommentCutOff(text: string, pad: string, note: string)
    requires All(pad, IsBlank) && (note == "" || note[0] == '#') && (text == "" || Closed(text, '#'))
    ensures Uncommented(text + pad + note) == text + pad
  {
    ClearCloses(pad, '#');
    ClosedConcat(text, pad, '#');
    CrossThen(text + pad, note, Outside, '#');
    Seqs.Prefix(text + pad, note);
  }

  lemma HeldReads(raw: Raw)
    requires raw.Held? && WfRaw(raw) && IsLineText(raw.line.text)
    ensures ReadLine(RawText(raw)) == Some(raw.line)
  {
    var spaces, text := Spaces(raw.line.indent), raw.line.text;
    var note := TailTrims(spaces + (text + raw.pad), raw);
    var body := text + raw.pad + note;
    assert spaces + (text + raw.pad) + note == spaces + body;
    TrimLeftOff(spaces, body, IsSpaceChar);
    BodyReads(text, raw.pad, note);
  }

  lemma IdleReads(raw: Raw)
    requires raw.Idle? && WfRaw(raw)
    ensures ReadLine(RawText(raw)) == None
  {
    var note := TailTrims(raw.pad, raw);
    var pad := PadTrims(raw.pad, note);
    BodyReads("", pad, note);
    assert "" + pad == pad;
  }

  lemma PadTrims(pad: string, note: string) returns (left: string)
    requires All(pad, IsBlank) && (note == "" || note[0] == '#')
    ensures All(left, IsBlank) && TrimLeft(pad + note, IsSpaceChar) == left + note
  {
    left := TrimLeft(pad, IsSpaceChar);
    TrimLeftParts(pad, IsSpaceChar);
    if note == "" {
      assert pad + note == pad && left + note == left;
    } else {
      TrimLeftKeeps(pad, note, IsSpaceChar);
    }
  }

  function RawTexts(layout: seq<Raw>): seq<string> {
    seq(|layout|, i requires 0 <= i < |layout| => RawText(layout[i]))
  }

  lemma {:induction false} LayoutReads(layout: seq<Raw>)
    requires (forall i :: 0 <= i < |layout| ==> WfRaw(layout[i])) && AreLineTexts(HeldLines(layout))
    ensures ReadLines(RawTexts(layout)) == HeldLines(layout)
  {
    if layout != [] {
      var n := |layout| - 1;
      var texts := RawTexts(layout);
      assert texts[..n] == RawTexts(layout[..n]) && texts[n] == RawText(layout[n]);
      var before := HeldLines(layout[..n]);
      assert forall i :: 0 <= i < |before| ==> before[i] == HeldLines(layout)[i];
      LayoutReads(layout[..n]);
      if layout[n].Held? {
        assert HeldLines(layout)[|before|] == layout[n].line;
        HeldReads(layout[n]);
      } else {
        IdleReads(layout[n]);
      }
    }
  }

  lemma RawOneLine(raw: Raw)
    requires WfRaw(raw) && (raw.Held? ==> '\n' !in raw.line.text)
    ensures '\n' !in RawText(raw)
  {
    assert forall i :: 0 <= i < |raw.pad| ==> raw.pad[i] != '\n';
    assert forall i :: 0 <= i < |raw.crs| ==> raw.crs[i] != '\n';
    assert '\n' !in TailText(raw);
  }

  lemma {:induction false} HeldTexts(layout: seq<Raw>, i: nat)
    requires i < |layout| && layout[i].Held? && AreLineTexts(HeldLines(layout))
    ensures IsLineText(layout[i].line.text)
  {
    var n := |layout| - 1;
    var before := HeldLines(layout[..n]);
    if i == n {
      assert HeldLines(layout)[|before|] == layout[n].line;
    } else {
      assert forall j :: 0 <= j < |before| ==> before[j] == HeldLines(layout)[j];
      HeldTexts(layout[..n], i);
    }
  }

  lemma LayoutPreprocessed(layout: seq<Raw>)
    requires WfLayout(layout) && AreLineTexts(HeldLines(layout))
    ensures Preprocessed(LayoutText(layout)) == HeldLines(layout)
  {
    forall i | 0 <= i < |layout| ensures '\n' !in RawText(layout[i]) {
      if layout[i].Held? {
        HeldTexts(layout, i);
      }
      RawOneLine(layout[i]);
    }
    assert LayoutText(layout) == Join(RawTexts(layout), '\n');
    SplitUndoesJoin(RawTexts(layout), '\n');
    LayoutReads(layout);
  }

  // However it is laid out (comments, blank lines, carriage returns), a document is read back
  // as the tree it denotes, unless that has a number in it that JSON cannot write. Lines after it
  // that are indented less are not looked at.
  lemma DocumentReads(codec: Codec, doc: Doc, n: nat, more: seq<Line>, layout: seq<Raw>)
    requires Lawful(codec) && Wf(codec, doc) && IsBlock(doc) && Below(more, n) && AreLineTexts(more)
    requires WfLayout(layout) && HeldLines(layout) == DocLines(codec, doc, n) + more
    ensures Tree(codec, LayoutText(layout)) ==
            if Encodes(codec, Denoted(doc)) then Ok(Denoted(doc)) else Err(NotEncodable)
  {
    DocLineTexts(codec, doc, n);
    AreLineTextsConcat(DocLines(codec, doc, n), more);
    LayoutPreprocessed(layout);
    BlockReads(codec, doc, n, 0, more);
  }

  // A file of comments and blank lines alone is an empty object.
  lemma EmptyDocumentReads(codec: Codec, layout: seq<Raw>)
    requires WfLayout(layout) && HeldLines(layout) == []
    ensures Tree(codec, LayoutText(layout)) == Ok(Object(map[]))
  {
    LayoutPreprocessed(layout);
  }

  // ----- numbers that JSON cannot write -----

  // Every scalar of the document can be written as JSON.
  ghost predicate AllFinite(codec: Codec, doc: Doc)
    decreases doc
  {
    match doc
    case Empty => true
    case Leaf(s) => Encodes(codec, ScalarValue(s))
    case List(elems) => forall i :: 0 <= i < |elems| ==> FiniteElem(codec, elems[i])
    case Mapping(fields) => forall i :: 0 <= i < |fields| ==> FiniteField(codec, fields[i])
  }

  ghost predicate FiniteElem(codec: Codec, e: Elem)
    decreases e
  {
    AllFinite(codec, e.value)
  }

  ghost predicate FiniteField(codec: Codec, f: Field)
    decreases f
  {
    AllFinite(codec, f.value)
  }

  lemma {:induction false} FiniteEncodes(codec: Codec, doc: Doc)
    requires AllFinite(codec, doc)
    ensures Encodes(codec, Denoted(doc))
    decreases doc
  {
    match doc
    case Empty =>
    case Leaf(s) =>
    case List(elems) => ElemsEncode(codec, elems);
    case Mapping(fields) => FieldsEncode(codec, fields, map[]);
  }

  lemma {:induction false} ElemsEncode(codec: Codec, elems: seq<Elem>)
    requires forall i :: 0 <= i < |elems| ==> FiniteElem(codec, elems[i])
    ensures Encodes(codec, Array(DenotedElems(elems)))
    decreases elems
  {
    if elems != [] {
      ElemEncodes(codec, elems[0]);
      ElemsEncode(codec, elems[1..]);
      var later := DenotedElems(elems[1..]);
      assert forall i :: 0 <= i < |later| ==> Encodes(codec, later[i]);
    }
  }

  lemma {:induction false} ElemEncodes(codec: Codec, e: Elem)
    requires FiniteElem(codec, e)
    ensures Encodes(codec, DenotedElem(e))
    decreases e
  {
    FiniteEncodes(codec, e.value);
  }

  lemma {:induction false} FieldEncodes(codec: Codec, f: Field)
    requires FiniteField(codec, f)
    ensures Encodes(codec, DenotedField(f))
    decreases f
  {
    FiniteEncodes(codec, f.value);
  }

  lemma {:induction false} FieldsEncode(codec: Codec, fields: seq<Field>, out: map<string, Json>)
    requires (forall i :: 0 <= i < |fields| ==> FiniteField(codec, fields[i])) && Encodes(codec, Object(out))
    ensures Encodes(codec, Object(DenotedFields(fields, out)))
    decreases fields
  {
    if fields != [] {
      FieldEncodes(codec, fields[0]);
      var out' := out[KeyName(fields[0].key) := DenotedField(fields[0])];
      assert forall k :: k in out' ==> Encodes(codec, out'[k]);
      FieldsEncode(codec, fields[1..], out');
    }
  }

  // One infinite number is enough, as in a mapping of one key to it.
  lemma InfinityIsRefused(codec: Codec, key: Key, token: string, number: string)
    requires WfKey(key) && WfScalar(codec, Numeral(token, Number(number))) && !codec.finite(number)
    ensures var doc := Mapping([Field(key, Leaf(Numeral(token, Number(number))))]);
            Wf(codec, doc) && IsBlock(doc) && !Encodes(codec, Denoted(doc))
  {
    var field := Field(key, Leaf(Numeral(token, Number(number))));
    assert WfField(codec, field);
    OneField(field);
    var fields := map[KeyName(key) := Number(number)];
    assert KeyName(key) in fields && !Encodes(codec, fields[KeyName(key)]);
  }

  lemma OneField(field: Field)
    ensures Denoted(Mapping([field])) == Object(map[KeyName(field.key) := Denoted(field.value)])
  {
    assert [field][1..] == [];
    assert DenotedFields([field][1..], map[KeyName(field.key) := DenotedField(field)]) ==
           map[KeyName(field.key) := DenotedField(field)];
  }

  // ----- which lines are read -----

  function Taken(lines: seq<Line>, rest: seq<Line>): int {
    |lines| - |rest|
  }

  // A mapping takes the lines up to the first that is indented less.
  predicate InMapping(line: Line, indent: nat) {
    line.indent >= indent
  }

  // A sequence also ends at a line on its own level that has no dash.
  predicate InSequence(line: Line, indent: nat) {
    line.indent > indent || (line.indent == indent && "-" <= line.text)
  }

  predicate InBlock(first: Line, line: Line) {
    if IsDash(first.text) then InSequence(line, first.indent) else InMapping(line, first.indent)
  }

  lemma {:induction false} BlockTakes(codec: Codec, lines: seq<Line>, base: nat)
    requires lines != [] && lines[0].indent >= base && Block(codec, lines, base).Ok?
    ensures var rest := Block(codec, lines, base).value.rest;
            (forall i :: 0 <= i < Taken(lines, rest) ==> InBlock(lines[0], lines[i]))
            && (rest != [] ==> !InBlock(lines[0], rest[0]))
    decreases |lines|, 2
  {
    if IsDash(lines[0].text) {
      ItemsTake(codec, lines, lines[0].indent, []);
    } else {
      EntriesTake(codec, lines, lines[0].indent, map[]);
    }
  }

  lemma {:induction false} NestedTakes(codec: Codec, lines: seq<Line>, indent: nat)
    requires Nested(codec, lines, indent).Ok?
    ensures forall i :: 0 <= i < Taken(lines, Nested(codec, lines, indent).value.rest) ==> lines[i].indent > indent
    decreases |lines|, 3
  {
    if lines != [] && lines[0].indent > indent {
      BlockTakes(codec, lines, lines[0].indent);
    }
  }

  // Besides its first line an entry or an item takes deeper lines only.
  lemma {:induction false} EntryTakes(codec: Codec, lines: seq<Line>, indent: nat)
    requires lines != [] && Entry(codec, lines, indent).Ok?
    ensures forall i :: 1 <= i < Taken(lines, Entry(codec, lines, indent).value.1.rest) ==> lines[i].indent > indent
    decreases |lines|, 0, 0
  {
    var after := lines[1..];
    if TrimSpace(SplitMapKey(lines[0].text).value.1) == "" {
      NestedTakes(codec, after, indent);
    }
    assert forall i :: 1 <= i < |lines| ==> lines[i] == after[i - 1];
  }

  lemma {:induction false} EntriesTake(codec: Codec, lines: seq<Line>, indent: nat, out: map<string, Json>)
    requires Entries(codec, lines, indent, out).Ok?
    ensures var rest := Entries(codec, lines, indent, out).value.rest;
            (forall i :: 0 <= i < Taken(lines, rest) ==> InMapping(lines[i], indent))
            && (rest != [] ==> !InMapping(rest[0], indent))
    decreases |lines|, 0, 1
  {
    if lines != [] && lines[0].indent == indent {
      EntryTakes(codec, lines, indent);
      var (key, p) := Entry(codec, lines, indent).value;
      var later := Entries(codec, p.rest, indent, out[key := p.node]);
      assert Entries(codec, lines, indent, out) == later;
      EntriesTake(codec, p.rest, indent, out[key := p.node]);
      MappingJoin(lines, p.rest, later.value.rest, indent);
    }
  }

  lemma MappingJoin(lines: seq<Line>, mid: seq<Line>, rest: seq<Line>, indent: nat)
    requires |rest| <= |mid| < |lines| && mid == lines[|lines| - |mid|..] && InMapping(lines[0], indent)
    requires forall i :: 1 <= i < Taken(lines, mid) ==> lines[i].indent > indent
    requires forall i :: 0 <= i < Taken(mid, rest) ==> InMapping(mid[i], indent)
    ensures forall i :: 0 <= i < Taken(lines, rest) ==> InMapping(lines[i], indent)
  {
    var k := Taken(lines, mid);
    assert forall i :: k <= i < |lines| ==> lines[i] == mid[i - k];
  }

  lemma {:induction false} ItemTakes(codec: Codec, lines: seq<Line>, indent: nat)
    requires lines != [] && "-" <= lines[0].text && Item(codec, lines, indent).Ok?
    ensures forall i :: 1 <= i < Taken(lines, Item(codec, lines, indent).value.rest) ==> lines[i].indent > indent
    decreases |lines|, 1, 0
  {
    var after := lines[1..];
    if TrimSpace(lines[0].text[1..]) == "" {
      NestedTakes(codec, after, indent);
    }
    assert forall i :: 1 <= i < |lines| ==> lines[i] == after[i - 1];
  }

  lemma {:induction false} ItemsTake(codec: Codec, lines: seq<Line>, indent: nat, out: seq<Json>)
    requires Items(codec, lines, indent, out).Ok?
    ensures var rest := Items(codec, lines, indent, out).value.rest;
            (forall i :: 0 <= i < Taken(lines, rest) ==> InSequence(lines[i], indent))
            && (rest != [] ==> !InSequence(rest[0], indent))
    decreases |lines|, 1, 1
  {
    if lines != [] && lines[0].indent == indent && "-" <= lines[0].text {
      ItemTakes(codec, lines, indent);
      var p := Item(codec, lines, indent).value;
      var later := Items(codec, p.rest, indent, out + [p.node]);
      assert Items(codec, lines, indent, out) == later;
      ItemsTake(codec, p.rest, indent, out + [p.node]);
      SequenceJoin(lines, p.rest, later.value.rest, indent);
    }
  }

  lemma SequenceJoin(lines: seq<Line>, mid: seq<Line>, rest: seq<Line>, indent: nat)
    requires |rest| <= |mid| < |lines| && mid == lines[|lines| - |mid|..] && InSequence(lines[0], indent)
    requires forall i :: 1 <= i < Taken(lines, mid) ==> lines[i].indent > indent
    requires forall i :: 0 <= i < Taken(mid, rest) ==> InSequence(mid[i], indent)
    ensures forall i :: 0 <= i < Taken(lines, rest) ==> InSequence(lines[i], indent)
  {
    var k := Taken(lines, mid);
    assert forall i :: k <= i < |lines| ==> lines[i] == mid[i - k];
  }

  // A file that parses is read to its end exactly when every line belongs to the block of the
  // first; from the first line that does not, everything is ignored without an error.
  lemma ReadsToTheEndExactlyWhen(codec: Codec, lines: seq<Line>)
    requires lines != [] && Block(codec, lines, 0).Ok?
    ensures var rest := Block(codec, lines, 0).value.rest;
            (rest == [] <==> forall i :: 0 <= i < |lines| ==> InBlock(lines[0], lines[i]))
  {
    BlockTakes(codec, lines, 0);
    var rest := Block(codec, lines, 0).value.rest;
    if rest != [] {
      assert lines[Taken(lines, rest)] == rest[0];
    }
  }

  // A mapping that starts on its dash's line is read with all of the deeper lines under it exactly
  // when none of them is indented less than its first line is taken to be; the others are dropped.
  lemma CompactReadsAllExactlyWhen(codec: Codec, first: Line, tail: seq<Line>)
    requires CompactMapping(codec, first, tail).Ok?
    ensures var r := Entries(codec, [first] + tail, first.indent, map[]);
            && r.Ok? && CompactMapping(codec, first, tail) == Ok(r.value.node)
            && (r.value.rest == [] <==> forall i :: 0 <= i < |tail| ==> tail[i].indent >= first.indent)
  {
    if tail == [] {
      assert [first] + tail == [first];
    }
    EntriesTake(codec, [first] + tail, first.indent, map[]);
    AllTaken(first, tail, Entries(codec, [first] + tail, first.indent, map[]).value.rest);
  }

  lemma AllTaken(first: Line, tail: seq<Line>, rest: seq<Line>)
    requires IsTail(rest, [first] + tail) && (rest != [] ==> !InMapping(rest[0], first.indent))
    requires forall i :: 0 <= i < Taken([first] + tail, rest) ==> InMapping(([first] + tail)[i], first.indent)
    ensures rest == [] <==> forall i :: 0 <= i < |tail| ==> tail[i].indent >= first.indent
  {
    var lines, k := [first] + tail, Taken([first] + tail, rest);
    assert forall i :: 0 <= i < |tail| ==> lines[i + 1] == tail[i];
    if rest != [] {
      assert lines[k] == rest[0] && lines[0] == first;
      assert tail[k - 1] == rest[0];
    }
  }

  // In a mapping a line without a colon outside quotes is an error.
  lemma MissingColonIsRefused(codec: Codec, lines: seq<Line>, out: map<string, Json>)
    requires lines != [] && Closed(lines[0].text, ':')
    ensures Entries(codec, lines, lines[0].indent, out) == Err(MissingColon)
  {
    CrossThen(lines[0].text, "", Outside, ':');
    Seqs.Nothing(lines[0].text);
  }

  // The key and the value of a mapping's line that has no lines under it.
  function LoneField(codec: Codec, body: string): Result<(string, Json), YamlError> {
    match SplitMapKey(body)
    case Err(e) => Err(e)
    case Ok((key, raw)) =>
      if TrimSpace(raw) == "" then Ok((key, Null))
      else
        match ParseScalarOrFlow(codec, TrimSpace(raw))
        case Err(e) => Err(e)
        case Ok(v) => Ok((key, v))
  }

  function LoneEntry(codec: Codec, body: string): Result<Json, YamlError> {
    match LoneField(codec, body)
    case Err(e) => Err(e)
    case Ok((key, v)) => Ok(Object(map[key := v]))
  }

  // An element on one line is read as a mapping exactly when a colon stands outside its quotes, be
  // it a URL, a time or a flow collection; otherwise it is a scalar or a flow collection.
  lemma ElementReadsExactly(codec: Codec, body: string, n: nat, more: seq<Line>)
    requires Tight(body, IsSpace) && Below(more, n + 1)
    ensures var value := (if Find(body, Outside, ':') < |body| then LoneEntry(codec, body)
                          else ParseScalarOrFlow(codec, body));
            Item(codec, [Line(n, "- " + body)] + more, n) ==
            (match value
             case Err(e) => Err(e)
             case Ok(v) => Ok(Parsed(v, more)))
  {
    if Find(body, Outside, ':') < |body| {
      LoneEntryReads(codec, Line(n + 2, body));
      Seqs.Nothing([Line(n, "- " + body)]);
      ElementOfMapping(codec, body, n, more);
    } else {
      ElementOfScalar(codec, body, n, more);
    }
  }

  // The dash's line taken apart.
  lemma DashLine(body: string, n: nat, more: seq<Line>)
    requires Tight(body, IsSpace)
    ensures var lines := [Line(n, "- " + body)] + more;
            "-" <= lines[0].text && TrimSpace(lines[0].text[1..]) == body && lines[1..] == more
  {
    TrimPadded(body);
    assert ("- " + body)[1..] == " " + body;
    Seqs.Cons(Line(n, "- " + body), more);
  }

  lemma ElementOfScalar(codec: Codec, body: string, n: nat, more: seq<Line>)
    requires Tight(body, IsSpace) && Find(body, Outside, ':') == |body|
    ensures Item(codec, [Line(n, "- " + body)] + more, n) ==
            (match ParseScalarOrFlow(codec, body)
             case Err(e) => Err(e)
             case Ok(v) => Ok(Parsed(v, more)))
  {
    DashLine(body, n, more);
  }

  lemma ElementOfMapping(codec: Codec, body: string, n: nat, more: seq<Line>)
    requires Tight(body, IsSpace) && Find(body, Outside, ':') < |body| && Below(more, n + 1)
    ensures Item(codec, [Line(n, "- " + body)] + more, n) ==
            (match CompactMapping(codec, Line(n + 2, body), [])
             case Err(e) => Err(e)
             case Ok(v) => Ok(Parsed(v, more)))
  {
    DashLine(body, n, more);
    NothingDeeper(more, n);
  }

  lemma NothingDeeper(more: seq<Line>, n: nat)
    requires Below(more, n + 1)
    ensures Deeper(more, n) == 0 && more[..0] == [] && more[0..] == more
  {
  }

  lemma LoneFieldReads(codec: Codec, first: Line)
    ensures Entry(codec, [first], first.indent) ==
            (match LoneField(codec, first.text)
             case Err(e) => Err(e)
             case Ok((key, v)) => Ok((key, Parsed(v, []))))
  {
    assert [first][1..] == [];
  }

  lemma LoneEntryReads(codec: Codec, first: Line)
    ensures CompactMapping(codec, first, []) == LoneEntry(codec, first.text)
  {
    LoneFieldReads(codec, first);
    Seqs.Nothing([first]);
    match LoneField(codec, first.text)
    case Err(e) =>
    case Ok((key, v)) => EntriesStep(codec, [first], [], first.indent, key, v, map[]);
  }

  // So an unquoted element with a colon in it, such as a URL, is a mapping ...
  lemma ColonMakesMapping(codec: Codec, key: Key, value: Scalar, n: nat, more: seq<Line>)
    requires Lawful(codec) && WfKey(key) && WfScalar(codec, value) && Below(more, n + 1)
    ensures Item(codec, [Line(n, "- " + (KeyText(key) + ":" + ScalarText(codec, value)))] + [] + more, n) ==
            Ok(Parsed(Object(map[KeyName(key) := ScalarValue(value)]), more))
  {
    var body := KeyText(key) + ":" + ScalarText(codec, value);
    KeyReads(key, ScalarText(codec, value));
    KeyCloses(key, ':');
    ScalarTight(codec, value);
    ScalarReads(codec, value);
    TrimTight(ScalarText(codec, value), IsSpace);
    assert body[0] == KeyText(key)[0] && body[|body| - 1] == ScalarText(codec, value)[|ScalarText(codec, value)| - 1];
    EntriesStep(codec, [Line(n + 2, body)], [], n + 2, KeyName(key), ScalarValue(value), map[]);
    assert [Line(n + 2, body)] + [] == [Line(n + 2, body)];
    CompactItem(codec, body, [], n, more);
  }

  lemma OpenIsKey(key: string)
    requires IsBare(key) && ':' !in key
    ensures WfKey(Bare("{" + key)) && KeyText(Bare("{" + key)) == "{" + key
  {
    var open := "{" + key;
    assert open[0] == '{' && open[|open| - 1] == key[|key| - 1] && "- "[0] == '-';
  }

  // Bare text as what it means.
  function Meant(codec: Codec, token: string): Scalar {
    match codec.number(token)
    case Some(n) => Numeral(token, n)
    case None => Word(token)
  }

  lemma CloseIsScalar(codec: Codec, value: string)
    requires IsBare(value) && value[0] != '{'
    ensures WfScalar(codec, Meant(codec, value + "}")) && ScalarText(codec, Meant(codec, value + "}")) == value + "}"
  {
    var close := value + "}";
    assert close[0] == value[0] && close[|close| - 1] == '}';
  }

  // ... and so is a flow mapping, under a key that begins with its brace.
  lemma FlowElementIsSplit(codec: Codec, key: string, value: string, n: nat)
    requires Lawful(codec) && IsBare(key) && ':' !in key && IsBare(value) && value[0] != '{'
    ensures var read := (match codec.number(value + "}")
                         case Some(number) => number
                         case None => String(value + "}"));
            Item(codec, [Line(n, "- {" + key + ":" + value + "}")], n) ==
            Ok(Parsed(Object(map["{" + key := read]), []))
  {
    var open, close := "{" + key, value + "}";
    OpenIsKey(key);
    CloseIsScalar(codec, value);
    assert "- {" + key + ":" + value + "}" == "- " + (open + ":" + close);
    Seqs.Nothing([Line(n, "- {" + key + ":" + value + "}")]);
    ColonMakesMapping(codec, Bare(open), Meant(codec, close), n, []);
  }
}
