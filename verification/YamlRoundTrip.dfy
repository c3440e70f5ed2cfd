/** A document written in the YAML subset is read back as the tree it denotes. */
module YamlRoundTrip {
  import opened Basics
  import Seqs
  import opened Json
  import opened Text
  import opened YamlQuotes
  import opened YamlSubset
  import opened YamlLayout

  // ----- text closed under quotes -----

  predicate Mark(c: char) {
    c == '\'' || c == '"'
  }

  lemma ClosedConcat(a: string, b: string, c: char)
    requires Closed(a, c) && Closed(b, c)
    ensures Closed(a + b, c)
  {
    CrossThen(a, b, Outside, c);
  }

  lemma {:induction false} ClearCloses(s: string, c: char)
    requires '\'' !in s && '"' !in s && c !in s
    ensures Closed(s, c)
  {
    if s != "" {
      assert s[0] in s;
      ClearCloses(s[1..], c);
    }
  }

  lemma {:induction false} EscapedCrosses(s: string, c: char)
    requires EscapedBody(s)
    ensures Crosses(s, Double, c) && After(s, Double) == Double
    decreases |s|
  {
    if s != "" {
      EscapedCrosses(if s[0] == '\\' then s[2..] else s[1..], c);
    }
  }

  lemma {:induction false} PlainCrosses(s: string, c: char)
    requires '\'' !in s
    ensures Crosses(s, Single, c) && After(s, Single) == Single
  {
    if s != "" {
      assert s[0] in s;
      PlainCrosses(s[1..], c);
    }
  }

  lemma {:induction false} SingleEscapedCrosses(s: string, c: char)
    requires !Mark(c)
    ensures Crosses(SingleEscaped(s), Single, c) && After(SingleEscaped(s), Single) == Single
  {
    if s != "" {
      SingleEscapedCrosses(s[1..], c);
      var e, rest := SingleEscaped(s), SingleEscaped(s[1..]);
      if s[0] == '\'' {
        assert e[1..][1..] == rest;
      } else {
        assert e[1..] == rest;
      }
    }
  }

  lemma {:induction false} SingleUnescapes(s: string)
    ensures SingleUnescaped(SingleEscaped(s)) == s
  {
    if s != "" {
      SingleUnescapes(s[1..]);
      var e, rest := SingleEscaped(s), SingleEscaped(s[1..]);
      if s[0] == '\'' {
        assert e[2..] == rest;
      } else {
        assert e[1..] == rest;
        if |e| < 2 {
          assert rest == "" && s[1..] == "";
        }
      }
    }
  }

  lemma MarkSteps(mark: char, q: Quote, c: char)
    requires Mark(mark) && !Mark(c)
    ensures Crosses([mark], q, c) && After([mark], q) == q.Next(mark)
  {
    assert [mark][1..] == "";
  }

  // A body between two marks is closed.
  lemma WrappedCloses(body: string, mark: char, c: char)
    requires Mark(mark) && !Mark(c)
    requires Crosses(body, Outside.Next(mark), c) && After(body, Outside.Next(mark)) == Outside.Next(mark)
    ensures Closed([mark] + body + [mark], c)
  {
    var inside := Outside.Next(mark);
    MarkSteps(mark, Outside, c);
    MarkSteps(mark, inside, c);
    CrossThen([mark], body, Outside, c);
    CrossThen([mark] + body, [mark], Outside, c);
  }

  lemma InsideWrapped(body: string, mark: char)
    ensures var s := [mark] + body + [mark]; Wrapped(s, mark) && |s| == |body| + 2 && s[1..|s| - 1] == body
  {
  }

  lemma WrappedIsInside(s: string, mark: char)
    requires |s| >= 2 && Wrapped(s, mark)
    ensures s == [mark] + s[1..|s| - 1] + [mark]
  {
  }

  // ----- scalars and keys -----

  // Text without quotes keeps clear of c.
  predicate Avoids(s: Scalar, c: char) {
    match s
    case Numeral(token, _) => c !in token
    case Word(token) => c !in token
    case Flow(token, _) => Closed(token, c)
    case _ => c == '#' || c == ':'
  }

  lemma ScalarCloses(codec: Codec, s: Scalar, c: char)
    requires Lawful(codec) && WfScalar(codec, s) && !Mark(c) && Avoids(s, c)
    ensures Closed(ScalarText(codec, s), c)
  {
    match s {
      case Nothing(_) => ClearCloses(ScalarText(codec, s), c);
      case Truth(_) => ClearCloses(ScalarText(codec, s), c);
      case Numeral(token, _) => ClearCloses(token, c);
      case Word(token) => ClearCloses(token, c);
      case InDouble(text) =>
        var q := codec.quote(text);
        assert QuotedShape(q);
        EscapedCrosses(q[1..|q| - 1], c);
        WrappedCloses(q[1..|q| - 1], '"', c);
        WrappedIsInside(q, '"');
      case Unescaped(text) =>
        EscapedCrosses(text, c);
        WrappedCloses(text, '"', c);
      case InSingle(text) =>
        SingleEscapedCrosses(text, c);
        WrappedCloses(SingleEscaped(text), '\'', c);
      case Flow(_, _) =>
    }
  }

  lemma FlowTight(s: string)
    requires IsBracketed(s)
    ensures Tight(s, IsSpace)
  {
  }

  lemma WrappedTight(body: string, mark: char)
    requires Mark(mark) && '\n' !in body
    ensures Tight([mark] + body + [mark], IsSpace) && '\n' !in [mark] + body + [mark]
  {
    InsideWrapped(body, mark);
  }

  lemma ScalarTight(codec: Codec, s: Scalar)
    requires Lawful(codec) && WfScalar(codec, s)
    ensures Tight(ScalarText(codec, s), IsSpace) && '\n' !in ScalarText(codec, s)
  {
    match s {
      case InDouble(text) => assert QuotedShape(codec.quote(text));
      case Unescaped(text) => WrappedTight(text, '"');
      case InSingle(text) =>
        SingleEscapedOneLine(text);
        WrappedTight(SingleEscaped(text), '\'');
      case Flow(token, _) => FlowTight(token);
      case _ =>
    }
  }

  lemma {:induction false} SingleEscapedOneLine(s: string)
    requires '\n' !in s
    ensures '\n' !in SingleEscaped(s)
  {
    if s != "" {
      SingleEscapedOneLine(s[1..]);
      assert s[0] in s && forall c :: c in s[1..] ==> c in s;
    }
  }

  // Unquoted text is a number or a word.
  lemma BareReads(codec: Codec, token: string)
    requires IsBare(token) && !IsBracketed(token) && !IsReserved(token)
    ensures ParseScalarOrFlow(codec, token) ==
            Ok(match codec.number(token)
               case Some(n) => n
               case None => String(token))
  {
    TrimTight(token, IsSpace);
    assert token[0] in token;
  }

  // Whatever is written is read back as what it means.
  lemma ScalarReads(codec: Codec, s: Scalar)
    requires Lawful(codec) && WfScalar(codec, s)
    ensures ParseScalarOrFlow(codec, ScalarText(codec, s)) == Ok(ScalarValue(s))
  {
    var text := ScalarText(codec, s);
    ScalarTight(codec, s);
    TrimTight(text, IsSpace);
    match s {
      case Numeral(token, _) => BareReads(codec, token);
      case Word(token) => BareReads(codec, token);
      case InDouble(t) => assert QuotedShape(codec.quote(t)) && codec.json(codec.quote(t)) == Some(String(t));
      case Unescaped(t) => InsideWrapped(t, '"');
      case InSingle(t) =>
        InsideWrapped(SingleEscaped(t), '\'');
        SingleUnescapes(t);
      case _ =>
    }
  }

  // A flow collection that is no JSON is an error.
  lemma BrokenFlowIsRefused(codec: Codec, token: string)
    requires IsBracketed(token) && codec.json(token) == None
    ensures ParseScalarOrFlow(codec, token) == Err(BadFlow)
  {
    TrimTight(token, IsSpace);
  }

  lemma KeyCloses(key: Key, c: char)
    requires WfKey(key) && (c == ':' || c == '#')
    ensures Closed(KeyText(key), c) && Tight(KeyText(key), IsSpace) && '\n' !in KeyText(key)
  {
    match key {
      case Bare(token) => ClearCloses(token, c);
      case DoubleQuoted(text) =>
        EscapedCrosses(text, c);
        WrappedCloses(text, '"', c);
        InsideWrapped(text, '"');
      case SingleQuoted(text) =>
        PlainCrosses(text, c);
        WrappedCloses(text, '\'', c);
        InsideWrapped(text, '\'');
    }
  }

  // The key is cut at its colon and loses its quotes.
  lemma KeyReads(key: Key, rest: string)
    requires WfKey(key)
    ensures var line := KeyText(key) + ":" + rest;
            Find(line, Outside, ':') == |KeyText(key)| && SplitMapKey(line) == Ok((KeyName(key), rest))
  {
    var text := KeyText(key);
    var line := text + ":" + rest;
    KeyCloses(key, ':');
    assert line == text + (":" + rest);
    CrossThen(text, ":" + rest, Outside, ':');
    assert line[..|text|] == text && line[|text| + 1..] == rest;
    TrimTight(text, IsSpace);
    match key {
      case Bare(token) => assert token[0] in token;
      case DoubleQuoted(t) => InsideWrapped(t, '"');
      case SingleQuoted(t) => InsideWrapped(t, '\'');
    }
  }

  lemma InlineReads(codec: Codec, value: Doc)
    requires Lawful(codec) && Wf(codec, value)
    ensures TrimSpace(InlineText(codec, value)) == if value.Leaf? then ScalarText(codec, value.scalar) else ""
    ensures value.Leaf? ==> ScalarText(codec, value.scalar) != ""
  {
    if value.Leaf? {
      ScalarTight(codec, value.scalar);
      TrimPadded(ScalarText(codec, value.scalar));
    }
  }

  lemma HeadTight(codec: Codec, f: Field)
    requires Lawful(codec) && WfField(codec, f)
    ensures Tight(HeadText(codec, f), IsSpace) && Find(HeadText(codec, f), Outside, ':') < |HeadText(codec, f)|
    ensures !IsDash(HeadText(codec, f))
            && SplitMapKey(HeadText(codec, f)) == Ok((KeyName(f.key), InlineText(codec, f.value)))
  {
    var text, head := KeyText(f.key), HeadText(codec, f);
    KeyReads(f.key, InlineText(codec, f.value));
    KeyCloses(f.key, ':');
    if f.value.Leaf? {
      ScalarTight(codec, f.value.scalar);
      assert head[|head| - 1] == ScalarText(codec, f.value.scalar)[|ScalarText(codec, f.value.scalar)| - 1];
    }
    assert head[0] == text[0] && head[|text|] == ':';
  }

  // ----- blocks -----

  // What follows a block: nothing, or a line indented less.
  predicate Below(more: seq<Line>, n: nat) {
    more == [] || more[0].indent < n
  }

  lemma {:induction false} BlockReads(codec: Codec, doc: Doc, n: nat, base: nat, more: seq<Line>)
    requires Lawful(codec) && Wf(codec, doc) && IsBlock(doc) && base <= n && Below(more, n)
    ensures Block(codec, DocLines(codec, doc, n) + more, base) == Ok(Parsed(Denoted(doc), more))
    decreases doc, 0
  {
    var lines := DocLines(codec, doc, n);
    assert (lines + more)[0] == lines[0];
    match doc {
      case List(elems) =>
        ElemsRead(codec, elems, n, more, []);
        Seqs.Nothing(DenotedElems(elems));
      case Mapping(fields) =>
        HeadTight(codec, fields[0]);
        FieldsRead(codec, fields, n, more, map[]);
    }
  }

  // The value after a key or a dash.
  lemma {:induction false} ValueReads(codec: Codec, value: Doc, n: nat, more: seq<Line>)
    requires Lawful(codec) && Wf(codec, value) && !value.Leaf? && Below(more, n + 1)
    ensures Nested(codec, DocLines(codec, value, n + 2) + more, n) == Ok(Parsed(Denoted(value), more))
    decreases value, 1
  {
    var lines := DocLines(codec, value, n + 2);
    if value.Empty? {
      assert lines + more == more;
    } else {
      assert (lines + more)[0] == lines[0];
      BlockReads(codec, value, n + 2, n + 2, more);
    }
  }

  // One entry, then the rest.
  lemma EntriesStep(codec: Codec, first: seq<Line>, after: seq<Line>, n: nat, key: string, node: Json,
                    out: map<string, Json>)
    requires first != [] && first[0].indent == n
    requires Entry(codec, first + after, n) == Ok((key, Parsed(node, after)))
    ensures Entries(codec, first + after, n, out) == Entries(codec, after, n, out[key := node])
  {
    assert (first + after)[0] == first[0];
  }

  lemma FieldsSplit(codec: Codec, fields: seq<Field>, n: nat, more: seq<Line>)
    requires fields != [] && (forall i :: 0 <= i < |fields| ==> WfField(codec, fields[i])) && Below(more, n + 1)
    ensures FieldsLines(codec, fields, n) + more ==
            FieldLines(codec, fields[0], n) + (FieldsLines(codec, fields[1..], n) + more)
    ensures Below(FieldsLines(codec, fields[1..], n) + more, n + 1)
  {
    var others := FieldsLines(codec, fields[1..], n);
    Seqs.Assoc(FieldLines(codec, fields[0], n), others, more);
    if others == [] {
      Seqs.Nothing(more);
    } else {
      assert (others + more)[0] == others[0];
    }
  }

  lemma {:induction false} FieldsRead(codec: Codec, fields: seq<Field>, n: nat, more: seq<Line>, out: map<string, Json>)
    requires Lawful(codec) && (forall i :: 0 <= i < |fields| ==> WfField(codec, fields[i])) && Below(more, n + 1)
    ensures Entries(codec, FieldsLines(codec, fields, n) + more, n, out) ==
            Entries(codec, more, n, DenotedFields(fields, out))
    decreases fields
  {
    if fields == [] {
      assert FieldsLines(codec, fields, n) + more == more;
    } else {
      var f, after := fields[0], FieldsLines(codec, fields[1..], n) + more;
      FieldsSplit(codec, fields, n, more);
      FieldReads(codec, f, n, after);
      EntriesStep(codec, FieldLines(codec, f, n), after, n, KeyName(f.key), DenotedField(f), out);
      FieldsRead(codec, fields[1..], n, more, out[KeyName(f.key) := DenotedField(f)]);
    }
  }

  // An entry, once its line is cut at the colon.
  lemma EntryOf(codec: Codec, lines: seq<Line>, n: nat, key: string, inline: string)
    requires lines != [] && SplitMapKey(lines[0].text) == Ok((key, inline))
    ensures TrimSpace(inline) == "" && Nested(codec, lines[1..], n).Ok? ==>
              Entry(codec, lines, n) == Ok((key, Nested(codec, lines[1..], n).value))
    ensures TrimSpace(inline) != "" && ParseScalarOrFlow(codec, TrimSpace(inline)).Ok? ==>
              Entry(codec, lines, n) == Ok((key, Parsed(ParseScalarOrFlow(codec, TrimSpace(inline)).value, lines[1..])))
  {
  }

  lemma {:induction false} FieldReads(codec: Codec, f: Field, n: nat, more: seq<Line>)
    requires Lawful(codec) && WfField(codec, f) && Below(more, n + 1)
    ensures Entry(codec, FieldLines(codec, f, n) + more, n) ==
            Ok((KeyName(f.key), Parsed(DenotedField(f), more)))
    decreases f
  {
    var lines := FieldLines(codec, f, n) + more;
    LinesSplit(Line(n, HeadText(codec, f)), DocLines(codec, f.value, n + 2), more);
    HeadTight(codec, f);
    InlineReads(codec, f.value);
    EntryOf(codec, lines, n, KeyName(f.key), InlineText(codec, f.value));
    if f.value.Leaf? {
      ScalarReads(codec, f.value.scalar);
    } else {
      ValueReads(codec, f.value, n, more);
    }
  }

  lemma LinesSplit(first: Line, below: seq<Line>, more: seq<Line>)
    ensures var lines := [first] + below + more;
            lines != [] && lines[0] == first && lines[1..] == below + more && (below == [] ==> lines[1..] == more)
  {
  }

  // One item, then the rest.
  lemma ItemsStep(codec: Codec, first: seq<Line>, after: seq<Line>, n: nat, node: Json, out: seq<Json>)
    requires first != [] && first[0].indent == n && IsDash(first[0].text)
    requires Item(codec, first + after, n) == Ok(Parsed(node, after))
    ensures Items(codec, first + after, n, out) == Items(codec, after, n, out + [node])
  {
    assert (first + after)[0] == first[0] && "-" <= first[0].text;
  }

  lemma ElemsSplit(codec: Codec, elems: seq<Elem>, n: nat, more: seq<Line>)
    requires elems != [] && (forall i :: 0 <= i < |elems| ==> WfElem(codec, elems[i])) && Below(more, n + 1)
    ensures ElemsLines(codec, elems, n) + more ==
            ElemLines(codec, elems[0], n) + (ElemsLines(codec, elems[1..], n) + more)
    ensures Below(ElemsLines(codec, elems[1..], n) + more, n + 1)
  {
    var others := ElemsLines(codec, elems[1..], n);
    Seqs.Assoc(ElemLines(codec, elems[0], n), others, more);
    if others == [] {
      Seqs.Nothing(more);
    } else {
      assert (others + more)[0] == others[0];
    }
  }

  lemma {:induction false} ElemsRead(codec: Codec, elems: seq<Elem>, n: nat, more: seq<Line>, out: seq<Json>)
    requires Lawful(codec) && (forall i :: 0 <= i < |elems| ==> WfElem(codec, elems[i])) && Below(more, n + 1)
    ensures Items(codec, ElemsLines(codec, elems, n) + more, n, out) ==
            Items(codec, more, n, out + DenotedElems(elems))
    decreases elems
  {
    if elems == [] {
      assert ElemsLines(codec, elems, n) + more == more;
      Seqs.Nothing(out);
    } else {
      var v, after := DenotedElem(elems[0]), ElemsLines(codec, elems[1..], n) + more;
      ElemsSplit(codec, elems, n, more);
      ElemReads(codec, elems[0], n, after);
      ItemsStep(codec, ElemLines(codec, elems[0], n), after, n, v, out);
      ElemsRead(codec, elems[1..], n, more, out + [v]);
      Seqs.Assoc(out, [v], DenotedElems(elems[1..]));
    }
  }

  // An item, once its dash is off.
  lemma ItemOf(codec: Codec, lines: seq<Line>, n: nat, inline: string)
    requires lines != [] && lines[0].text == "-" + inline
    ensures var body := TrimSpace(inline);
            && (body == "" ==> Item(codec, lines, n) == Nested(codec, lines[1..], n))
            && (body != "" && Find(body, Outside, ':') == |body| && ParseScalarOrFlow(codec, body).Ok? ==>
                  Item(codec, lines, n) == Ok(Parsed(ParseScalarOrFlow(codec, body).value, lines[1..])))
  {
    Seqs.Cons('-', inline);
  }

  lemma {:induction false} ElemReads(codec: Codec, e: Elem, n: nat, more: seq<Line>)
    requires Lawful(codec) && WfElem(codec, e) && Below(more, n + 1)
    ensures Item(codec, ElemLines(codec, e, n) + more, n) == Ok(Parsed(DenotedElem(e), more))
    decreases e
  {
    var below := DocLines(codec, e.value, n + 2);
    if e.compact && e.value.Mapping? {
      CompactDropsStrays(codec, e.value, n, [], more);
      Seqs.Nothing(below[1..]);
    } else {
      var inline := InlineText(codec, e.value);
      LinesSplit(Line(n, "-" + inline), below, more);
      ItemOf(codec, ElemLines(codec, e, n) + more, n, inline);
      InlineReads(codec, e.value);
      if e.value.Leaf? {
        ScalarHasNoColon(codec, e.value.scalar);
        ScalarReads(codec, e.value.scalar);
      } else {
        ValueReads(codec, e.value, n, more);
      }
    }
  }

  lemma ScalarHasNoColon(codec: Codec, s: Scalar)
    requires Lawful(codec) && WfScalar(codec, s) && NoColon(s)
    ensures var text := ScalarText(codec, s); Find(text, Outside, ':') == |text|
  {
    ScalarCloses(codec, s, ':');
    CrossThen(ScalarText(codec, s), "", Outside, ':');
    Seqs.Nothing(ScalarText(codec, s));
  }

  // Deeper lines after a compact mapping that are not on its level are dropped as well.
  lemma {:induction false} CompactDropsStrays(codec: Codec, doc: Doc, n: nat, stray: seq<Line>, more: seq<Line>)
    requires Lawful(codec) && Wf(codec, doc) && doc.Mapping?
    requires AtLeast(stray, n + 1) && Below(stray, n + 2) && Below(more, n + 1)
    ensures var below := DocLines(codec, doc, n + 2);
            Item(codec, [Line(n, "- " + below[0].text)] + (below[1..] + stray) + more, n) ==
            Ok(Parsed(Denoted(doc), more))
    decreases doc, 1
  {
    var below := DocLines(codec, doc, n + 2);
    HeadTight(codec, doc.fields[0]);
    CompactParses(codec, doc, n + 2, stray);
    TailAtLeast(below, stray, n + 1);
    CompactItem(codec, below[0].text, below[1..] + stray, n, more);
  }

  lemma TailAtLeast(below: seq<Line>, stray: seq<Line>, n: nat)
    requires below != [] && AtLeast(below, n) && AtLeast(stray, n)
    ensures AtLeast(below[1..] + stray, n)
  {
  }

  lemma CompactItem(codec: Codec, body: string, tail: seq<Line>, n: nat, more: seq<Line>)
    requires Tight(body, IsSpace) && Find(body, Outside, ':') < |body|
    requires AtLeast(tail, n + 1) && Below(more, n + 1) && CompactMapping(codec, Line(n + 2, body), tail).Ok?
    ensures Item(codec, [Line(n, "- " + body)] + tail + more, n) ==
            Ok(Parsed(CompactMapping(codec, Line(n + 2, body), tail).value, more))
  {
    var lines := [Line(n, "- " + body)] + tail + more;
    TrimPadded(body);
    assert lines[0].text[1..] == " " + body && lines[1..] == tail + more;
    YamlDeeper(tail, more, n);
    assert (tail + more)[..|tail|] == tail && (tail + more)[|tail|..] == more;
  }

  lemma YamlDeeper(tail: seq<Line>, more: seq<Line>, n: nat)
    requires AtLeast(tail, n + 1) && Below(more, n + 1)
    ensures Deeper(tail + more, n) == |tail|
  {
    var lines := tail + more;
    assert forall i :: 0 <= i < |tail| ==> lines[i] == tail[i];
    assert more != [] ==> lines[|tail|] == more[0];
  }

  lemma CompactFrom(codec: Codec, first: Line, tail: seq<Line>, node: Json, rest: seq<Line>)
    requires Entries(codec, [first], first.indent, map[]).Ok?
    requires Entries(codec, [first] + tail, first.indent, map[]) == Ok(Parsed(node, rest))
    ensures CompactMapping(codec, first, tail) == Ok(node)
  {
    if tail == [] {
      assert [first] + tail == [first];
    }
  }

  // Parsed alone the first line gives some mapping; with the lines below it gives the whole one,
  // whatever is left over on a level in between.
  lemma {:induction false} CompactParses(codec: Codec, doc: Doc, n: nat, stray: seq<Line>)
    requires Lawful(codec) && Wf(codec, doc) && doc.Mapping? && Below(stray, n)
    ensures var below := DocLines(codec, doc, n);
            CompactMapping(codec, below[0], below[1..] + stray) == Ok(Denoted(doc))
    decreases doc, 0
  {
    var below := DocLines(codec, doc, n);
    assert [below[0]] + (below[1..] + stray) == below + stray;
    FieldsRead(codec, doc.fields, n, stray, map[]);
    HeadAlone(codec, doc.fields[0], n);
    CompactFrom(codec, below[0], below[1..] + stray, Denoted(doc), stray);
  }

  lemma HeadAlone(codec: Codec, f: Field, n: nat)
    requires Lawful(codec) && WfField(codec, f)
    ensures Entries(codec, [Line(n, HeadText(codec, f))], n, map[]).Ok?
  {
    var lines := [Line(n, HeadText(codec, f))];
    HeadTight(codec, f);
    InlineReads(codec, f.value);
    assert lines[1..] == [];
    if f.value.Leaf? {
      ScalarReads(codec, f.value.scalar);
    }
    assert Entry(codec, lines, n).Ok? && Entry(codec, lines, n).value.1.rest == [];
  }
}
