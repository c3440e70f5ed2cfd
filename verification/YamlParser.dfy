/** The parser's loops over the lines of a file, by index. */
module YamlParser {
  import opened Basics
  import opened Json
  import opened Text
  import opened YamlQuotes
  import opened YamlSubset

  method PreprocessYaml(text: string) returns (out: seq<Line>)
    ensures out == Preprocessed(text)
  {
    var raws := Split(text, '\n');
    out := [];
    for i := 0 to |raws|
      invariant out == ReadLines(raws[..i])
    {
      assert raws[..i + 1][..i] == raws[..i];
      var line := ReadOneLine(raws[i]);
      if line.Some? {
        out := out + [line.value];
      }
    }
    assert raws[..|raws|] == raws;
  }

  method ReadOneLine(raw: string) returns (line: Option<Line>)
    ensures line == ReadLine(raw)
  {
    var ln := TrimRight(raw, IsReturn);
    var indent := 0;
    assert ln[0..] == ln;
    while indent < |ln| && ln[indent] == ' '
      invariant indent <= |ln| && TrimLeft(ln, IsSpaceChar) == TrimLeft(ln[indent..], IsSpaceChar)
    {
      assert ln[indent..][1..] == ln[indent + 1..];
      indent := indent + 1;
    }
    var body := StripComment(ln[indent..]);
    body := TrimRight(body, IsBlank);
    return if body == "" then None else Some(Line(indent, body));
  }

  // An index-based result tells the same as the value and the lines left.
  ghost predicate Agrees(spec: Result<Parsed, YamlError>, lines: seq<Line>, r: Result<Json, YamlError>, next: nat) {
    && next <= |lines|
    && (if spec.Ok? then r == Ok(spec.value.node) && lines[next..] == spec.value.rest else r == Err(spec.error))
  }

  method ParseBlock(codec: Codec, lines: seq<Line>, idx: nat, base: nat) returns (r: Result<Json, YamlError>, next: nat)
    requires idx <= |lines|
    ensures idx <= next && Agrees(Block(codec, lines[idx..], base), lines, r, next)
    decreases |lines| - idx, 2
  {
    if idx >= |lines| || lines[idx].indent < base {
      return Ok(Null), idx;
    }
    if IsDash(lines[idx].text) {
      r, next := ParseSequence(codec, lines, idx, lines[idx].indent);
    } else {
      r, next := ParseMapping(codec, lines, idx, lines[idx].indent);
    }
  }

  method ParseNested(codec: Codec, lines: seq<Line>, idx: nat, indent: nat)
    returns (r: Result<Json, YamlError>, next: nat)
    requires idx <= |lines|
    ensures idx <= next && Agrees(Nested(codec, lines[idx..], indent), lines, r, next)
    decreases |lines| - idx, 3
  {
    if idx >= |lines| || lines[idx].indent <= indent {
      return Ok(Null), idx;
    }
    r, next := ParseBlock(codec, lines, idx, lines[idx].indent);
  }

  ghost predicate EntryAgrees(spec: Result<(string, Parsed), YamlError>, lines: seq<Line>,
                              r: Result<(string, Json), YamlError>, next: nat) {
    && next <= |lines|
    && (if spec.Ok? then r == Ok((spec.value.0, spec.value.1.node))
                         && lines[next..] == spec.value.1.rest else r == Err(spec.error))
  }

  method ParseEntry(codec: Codec, lines: seq<Line>, idx: nat, indent: nat)
    returns (r: Result<(string, Json), YamlError>, next: nat)
    requires idx < |lines|
    ensures idx < next && EntryAgrees(Entry(codec, lines[idx..], indent), lines, r, next)
    decreases |lines| - idx, 0, 0
  {
    assert lines[idx..][1..] == lines[idx + 1..];
    next := idx + 1;
    var split := SplitMapKey(lines[idx].text);
    if split.Err? {
      r := Err(split.error);
      return;
    }
    var (key, raw) := split.value;
    var rest := TrimSpace(raw);
    var val;
    if rest == "" {
      val, next := ParseNested(codec, lines, next, indent);
    } else {
      val := ParseScalarOrFlow(codec, rest);
    }
    r := if val.Err? then Err(val.error) else Ok((key, val.value));
  }

  method ParseMapping(codec: Codec, lines: seq<Line>, start: nat, indent: nat)
    returns (r: Result<Json, YamlError>, next: nat)
    requires start <= |lines|
    ensures start <= next && Agrees(Entries(codec, lines[start..], indent, map[]), lines, r, next)
    decreases |lines| - start, 0, 1
  {
    var out: map<string, Json>, idx := map[], start;
    while idx < |lines| && lines[idx].indent >= indent
      invariant start <= idx <= |lines|
      invariant Entries(codec, lines[start..], indent, map[]) == Entries(codec, lines[idx..], indent, out)
      decreases |lines| - idx
    {
      if lines[idx].indent > indent {
        return Err(IndentInMapping), idx;
      }
      var entry, after := ParseEntry(codec, lines, idx, indent);
      if entry.Err? {
        return Err(entry.error), after;
      }
      out, idx := out[entry.value.0 := entry.value.1], after;
    }
    return Ok(Object(out)), idx;
  }

  method ParseItem(codec: Codec, lines: seq<Line>, idx: nat, indent: nat)
    returns (r: Result<Json, YamlError>, next: nat)
    requires idx < |lines| && "-" <= lines[idx].text
    ensures idx < next && Agrees(Item(codec, lines[idx..], indent), lines, r, next)
    decreases |lines| - idx, 1, 0
  {
    assert lines[idx..][1..] == lines[idx + 1..];
    var body := TrimSpace(lines[idx].text[1..]);
    next := idx + 1;
    if body == "" {
      r, next := ParseNested(codec, lines, next, indent);
      return;
    }
    var colon := IndexUnquoted(body, ':');
    if colon >= 0 {
      r, next := ParseCompact(codec, lines, next, indent, body);
    } else {
      r := ParseScalarOrFlow(codec, body);
    }
  }

  method ParseSequence(codec: Codec, lines: seq<Line>, start: nat, indent: nat)
    returns (r: Result<Json, YamlError>, next: nat)
    requires start <= |lines|
    ensures start <= next && Agrees(Items(codec, lines[start..], indent, []), lines, r, next)
    decreases |lines| - start, 1, 1
  {
    var out: seq<Json>, idx := [], start;
    while idx < |lines| && lines[idx].indent >= indent
      invariant start <= idx <= |lines|
      invariant Items(codec, lines[start..], indent, []) == Items(codec, lines[idx..], indent, out)
      decreases |lines| - idx
    {
      if lines[idx].indent > indent {
        return Err(IndentInSequence), idx;
      }
      if !("-" <= lines[idx].text) {
        break;
      }
      var item, after := ParseItem(codec, lines, idx, indent);
      if item.Err? {
        return item, after;
      }
      out, idx := out + [item.value], after;
    }
    return Ok(Array(out)), idx;
  }

  // A mapping item whose first entry stands on the line of the dash.
  method ParseCompact(codec: Codec, lines: seq<Line>, start: nat, indent: nat, body: string)
    returns (r: Result<Json, YamlError>, next: nat)
    requires start <= |lines|
    ensures next == start + Deeper(lines[start..], indent)
    ensures r == CompactMapping(codec, Line(indent + 2, body), lines[start..][..Deeper(lines[start..], indent)])
    decreases 1 + |lines| - start, 0, 2
  {
    var first := Line(indent + 2, body);
    var tail;
    tail, next := DeeperLines(lines, start, indent);
    assert [first][0..] == [first];
    var left;
    r, left := ParseMapping(codec, [first], 0, indent + 2);
    if r.Ok? && |tail| > 0 {
      var combined := [first] + tail;
      assert combined[0..] == combined;
      r, left := ParseMapping(codec, combined, 0, indent + 2);
    }
  }

  method DeeperLines(lines: seq<Line>, start: nat, indent: nat) returns (tail: seq<Line>, idx: nat)
    requires start <= |lines|
    ensures idx == start + Deeper(lines[start..], indent)
    ensures tail == lines[start..][..Deeper(lines[start..], indent)]
  {
    tail, idx := [], start;
    while idx < |lines| && lines[idx].indent > indent
      invariant start <= idx <= |lines| && tail == lines[start..idx]
      invariant forall i :: start <= i < idx ==> lines[i].indent > indent
    {
      tail := tail + [lines[idx]];
      idx := idx + 1;
    }
    DeeperIs(lines[start..], indent, idx - start);
  }

  lemma {:induction false} DeeperIs(lines: seq<Line>, indent: nat, k: nat)
    requires k <= |lines| && forall i :: 0 <= i < k ==> lines[i].indent > indent
    requires k < |lines| ==> lines[k].indent <= indent
    ensures Deeper(lines, indent) == k
  {
  }

  method YamlToTree(codec: Codec, text: string) returns (r: Result<Json, YamlError>)
    ensures r == Tree(codec, text)
  {
    var lines := PreprocessYaml(text);
    var next;
    r, next := ParseBlock(codec, lines, 0, 0);
    assert lines[0..] == lines;
    if r == Ok(Null) {
      r := Ok(Object(map[]));
    }
    if r.Ok? && !Encodes(codec, r.value) {
      r := Err(NotEncodable);
    }
  }
}
