/** Strings as the text-format code handles them: trimming, prefixes, line endings. */
module Text {
  import Seqs

  // Unicode white space.
  predicate IsSpace(c: char) {
    c in "\t\n\U{000B}\U{000C}\r \U{0085}\U{00A0}\U{1680}\U{2028}\U{2029}\U{202F}\U{205F}\U{3000}"
    || '\U{2000}' <= c <= '\U{200A}'
  }

  // White space as a regular expression's \s means it.
  predicate IsReSpace(c: char) {
    c in "\t\n\U{000C}\r "
  }

  predicate IsBlank(c: char) {
    c == ' ' || c == '\t'
  }

  predicate IsSpaceChar(c: char) {
    c == ' '
  }

  function Spaces(n: nat): string {
    seq(n, _ => ' ')
  }

  function TrimLeft(s: string, cut: char -> bool): string {
    if s != [] && cut(s[0]) then TrimLeft(s[1..], cut) else s
  }

  function TrimRight(s: string, cut: char -> bool): string {
    if s != [] && cut(s[|s| - 1]) then TrimRight(s[..|s| - 1], cut) else s
  }

  function Trim(s: string, cut: char -> bool): string {
    TrimRight(TrimLeft(s, cut), cut)
  }

  function TrimSpace(s: string): string {
    Trim(s, IsSpace)
  }

  ghost predicate All(s: string, p: char -> bool) {
    forall i :: 0 <= i < |s| ==> p(s[i])
  }

  // Nothing to trim at either end.
  predicate Tight(s: string, cut: char -> bool) {
    s != [] && !cut(s[0]) && !cut(s[|s| - 1])
  }

  lemma {:induction false} TrimLeftOff(pre: string, s: string, cut: char -> bool)
    requires All(pre, cut) && (s == [] || !cut(s[0]))
    ensures TrimLeft(pre + s, cut) == s
  {
    if pre == [] {
      assert pre + s == s;
    } else {
      assert (pre + s)[1..] == pre[1..] + s;
      TrimLeftOff(pre[1..], s, cut);
    }
  }

  lemma {:induction false} TrimRightOff(s: string, post: string, cut: char -> bool)
    requires All(post, cut) && (s == [] || !cut(s[|s| - 1]))
    ensures TrimRight(s + post, cut) == s
    decreases |post|
  {
    if post == [] {
      assert s + post == s;
    } else {
      assert (s + post)[..|s + post| - 1] == s + post[..|post| - 1];
      TrimRightOff(s, post[..|post| - 1], cut);
    }
  }

  lemma TrimOff(pre: string, s: string, post: string, cut: char -> bool)
    requires All(pre, cut) && All(post, cut) && Tight(s, cut)
    ensures Trim(pre + s + post, cut) == s
  {
    assert pre + s + post == pre + (s + post);
    TrimLeftOff(pre, s + post, cut);
    TrimRightOff(s, post, cut);
  }

  lemma TrimPadded(s: string)
    requires Tight(s, IsSpace)
    ensures TrimSpace(s + " ") == s && TrimSpace(" " + s) == s
  {
    TrimOff("", s, " ", IsSpace);
    assert "" + s + " " == s + " ";
    TrimOff(" ", s, "", IsSpace);
    assert " " + s + "" == " " + s;
  }

  lemma TrimTight(s: string, cut: char -> bool)
    requires Tight(s, cut)
    ensures Trim(s, cut) == s
  {
  }

  // Trimming splits a string into white space, what is kept, and white space.
  lemma {:induction false} TrimLeftParts(s: string, cut: char -> bool)
    ensures var t := TrimLeft(s, cut);
            |t| <= |s| && s[|s| - |t|..] == t && All(s[..|s| - |t|], cut) && (t != [] ==> !cut(t[0]))
  {
    if s != [] && cut(s[0]) {
      TrimLeftParts(s[1..], cut);
      var t := TrimLeft(s[1..], cut);
      assert s[..|s| - |t|] == [s[0]] + s[1..][..|s| - 1 - |t|];
    }
  }

  lemma {:induction false} TrimRightKeepsFirst(s: string, cut: char -> bool)
    requires s != [] && !cut(s[0])
    ensures TrimRight(s, cut) != [] && TrimRight(s, cut)[0] == s[0]
  {
    if cut(s[|s| - 1]) {
      TrimRightKeepsFirst(s[..|s| - 1], cut);
    }
  }

  lemma {:induction false} TrimRightPrefix(s: string, cut: char -> bool)
    ensures TrimRight(s, cut) <= s
  {
    if s != [] && cut(s[|s| - 1]) {
      TrimRightPrefix(s[..|s| - 1], cut);
    }
  }

  lemma {:induction false} TrimRightParts(s: string, cut: char -> bool)
    ensures var t := TrimRight(s, cut);
            |t| <= |s| && All(s[|t|..], cut) && (t != [] ==> !cut(t[|t| - 1]))
  {
    if s != [] && cut(s[|s| - 1]) {
      var front := s[..|s| - 1];
      TrimRightParts(front, cut);
      var t := TrimRight(front, cut);
      assert s[|t|..] == front[|t|..] + [s[|s| - 1]];
    }
  }

  lemma {:induction false} TrimRightKeeps(a: string, b: string, cut: char -> bool)
    requires a != "" && !cut(a[|a| - 1])
    ensures TrimRight(a + b, cut) == a + TrimRight(b, cut)
    decreases |b|
  {
    if b == "" {
      assert a + b == a;
    } else if cut(b[|b| - 1]) {
      assert (a + b)[..|a + b| - 1] == a + b[..|b| - 1];
      TrimRightKeeps(a, b[..|b| - 1], cut);
    }
  }

  lemma {:induction false} TrimLeftKeeps(a: string, b: string, cut: char -> bool)
    requires b != "" && !cut(b[0])
    ensures TrimLeft(a + b, cut) == TrimLeft(a, cut) + b
    decreases |a|
  {
    if a == "" {
      assert a + b == b;
    } else if cut(a[0]) {
      assert (a + b)[1..] == a[1..] + b;
      TrimLeftKeeps(a[1..], b, cut);
    }
  }

  // What trimming cuts off, on both sides.
  lemma TrimParts(s: string, cut: char -> bool) returns (pre: string, post: string)
    ensures s == pre + Trim(s, cut) + post && All(pre, cut) && All(post, cut)
  {
    var left := TrimLeft(s, cut);
    TrimLeftParts(s, cut);
    TrimRightParts(left, cut);
    TrimRightPrefix(left, cut);
    pre, post := s[..|s| - |left|], left[|Trim(s, cut)|..];
    assert left == Trim(s, cut) + post;
  }

  // ----- lines -----

  // How many spaces a line begins with.
  function Indent(line: string): nat {
    TrimLeftParts(line, IsSpaceChar);
    |line| - |TrimLeft(line, IsSpaceChar)|
  }

  // A line rebuilt with an indentation of its own and another's ending.
  lemma IndentedLine(n: nat, body: string, line: string)
    requires Tight(body, IsSpace)
    ensures var s := Spaces(n) + body + LineEnding(line);
            TrimSpace(s) == body && Indent(s) == n && LineEnding(s) == LineEnding(line)
  {
    RebuiltLine(Spaces(n), body, line);
    Seqs.Assoc(Spaces(n), body, LineEnding(line));
    TrimLeftOff(Spaces(n), body + LineEnding(line), IsSpaceChar);
  }

  function LineEnding(s: string): string {
    if |s| >= 2 && s[|s| - 2..] == "\r\n" then "\r\n"
    else if s != [] && s[|s| - 1] == '\n' then "\n"
    else ""
  }

  // Leading blanks, or nothing when there is nothing else.
  function LinePrefix(s: string): string {
    var rest := TrimLeft(s, IsBlank);
    TrimLeftParts(s, IsBlank);
    if rest == [] then "" else s[..|s| - |rest|]
  }

  // A line of blanks alone has no prefix.
  lemma BlanksAreNoPrefix(s: string)
    requires All(s, IsBlank)
    ensures LinePrefix(s) == ""
  {
    TrimLeftOff(s, "", IsBlank);
    Seqs.Nothing(s);
  }

  // The three endings a line can have.
  lemma EndingsAre(text: string)
    requires text == "" || (text[|text| - 1] != '\r' && text[|text| - 1] != '\n')
    ensures LineEnding(text + "\r\n") == "\r\n" && LineEnding(text + "\n") == "\n" && LineEnding(text) == ""
  {
    var dos, unix := text + "\r\n", text + "\n";
    assert dos[|dos| - 2..] == "\r\n" && unix[|unix| - 1] == '\n';
    assert |unix| >= 2 ==> unix[|unix| - 2] == text[|text| - 1];
  }

  lemma LinePrefixBlank(s: string)
    ensures All(LinePrefix(s), IsBlank) && All(LinePrefix(s), IsSpace)
  {
    TrimLeftParts(s, IsBlank);
  }

  lemma LineEndingSpace(s: string)
    ensures All(LineEnding(s), IsSpace)
  {
  }

  // A line rebuilt from another's prefix and ending around new text keeps both.
  lemma RebuiltLine(pre: string, body: string, line: string)
    requires All(pre, IsBlank) && Tight(body, IsSpace)
    ensures var s := pre + body + LineEnding(line);
            TrimSpace(s) == body && LinePrefix(s) == pre && LineEnding(s) == LineEnding(line)
  {
    LineEndingSpace(line);
    TrimOff(pre, body, LineEnding(line), IsSpace);
    PrefixStays(pre, body + LineEnding(line));
    Seqs.Assoc(pre, body, LineEnding(line));
    EndingStays(pre + body, line);
  }

  lemma PrefixStays(pre: string, rest: string)
    requires All(pre, IsBlank) && rest != "" && !IsBlank(rest[0])
    ensures LinePrefix(pre + rest) == pre
  {
    TrimLeftOff(pre, rest, IsBlank);
    Seqs.Prefix(pre, rest);
  }

  lemma EndingStays(text: string, line: string)
    requires text != "" && text[|text| - 1] != '\n' && text[|text| - 1] != '\r'
    ensures LineEnding(text + LineEnding(line)) == LineEnding(line)
  {
    var n := |text|;
    if LineEnding(line) == "" {
      Seqs.Nothing(text);
    } else if LineEnding(line) == "\n" {
      Seqs.Snoc(text, '\n');
    } else {
      var s := text + "\r\n";
      assert s[n] == '\r' && s[n + 1] == '\n' && |s| == n + 2;
    }
  }

  // One character more on the last string.
  function Grown(parts: seq<string>, c: char): seq<string>
    requires parts != []
  {
    parts[..|parts| - 1] + [parts[|parts| - 1] + [c]]
  }

  // ----- splitting a file into lines, endings kept -----

  function SplitLinesPreserve(s: string): seq<string> {
    if s == "" then []
    else
      var before, c := SplitLinesPreserve(s[..|s| - 1]), s[|s| - 1];
      if before == [] || Terminated(before[|before| - 1]) then before + [[c]] else Grown(before, c)
  }

  predicate Terminated(line: string) {
    line != "" && line[|line| - 1] == '\n'
  }

  lemma NoNewline(line: string)
    requires '\n' !in line
    ensures LineEnding(line) == ""
  {
    EndingTerminates(line);
  }

  lemma EndingTerminates(line: string)
    ensures Terminated(line) <==> LineEnding(line) != ""
  {
  }

  function JoinLines(lines: seq<string>): string {
    if lines == [] then "" else JoinLines(lines[..|lines| - 1]) + lines[|lines| - 1]
  }

  // Lines as a split yields them: none empty, a newline at the end of each and nowhere else,
  // except that the last may lack it.
  ghost predicate AreLines(lines: seq<string>) {
    forall i :: 0 <= i < |lines| ==>
                  && lines[i] != ""
                  && (forall j :: 0 <= j < |lines[i]| - 1 ==> lines[i][j] != '\n')
                  && (i < |lines| - 1 ==> Terminated(lines[i]))
  }

  // A line to stand in another's place: it ends with a newline exactly when that one does.
  ghost predicate IsLineLike(line: string, l: string) {
    l != "" && (Terminated(line) <==> Terminated(l)) && forall j :: 0 <= j < |l| - 1 ==> l[j] != '\n'
  }

  lemma JoinLinesSnoc(lines: seq<string>, line: string)
    ensures JoinLines(lines + [line]) == JoinLines(lines) + line
  {
    Seqs.Snoc(lines, line);
  }

  lemma JoinLinesGrown(lines: seq<string>, c: char)
    requires lines != []
    ensures JoinLines(Grown(lines, c)) == JoinLines(lines) + [c]
  {
    var n := |lines| - 1;
    JoinLinesSnoc(lines[..n], lines[n] + [c]);
    Seqs.Assoc(JoinLines(lines[..n]), lines[n], [c]);
  }

  lemma SplitNext(s: string, c: char)
    ensures var before := SplitLinesPreserve(s);
            SplitLinesPreserve(s + [c]) ==
            if before == [] || Terminated(before[|before| - 1]) then before + [[c]] else Grown(before, c)
  {
    Seqs.Snoc(s, c);
  }

  lemma LinesStart(lines: seq<string>, c: char)
    requires AreLines(lines) && (lines == [] || Terminated(lines[|lines| - 1]))
    ensures AreLines(lines + [[c]])
  {
  }

  lemma LinesGrown(lines: seq<string>, c: char)
    requires AreLines(lines) && lines != [] && !Terminated(lines[|lines| - 1])
    ensures AreLines(Grown(lines, c))
  {
  }

  lemma {:induction false} SplitYieldsLines(s: string)
    ensures AreLines(SplitLinesPreserve(s)) && JoinLines(SplitLinesPreserve(s)) == s
  {
    if s != "" {
      var front, c := s[..|s| - 1], s[|s| - 1];
      var before := SplitLinesPreserve(front);
      SplitYieldsLines(front);
      Seqs.FrontLast(s);
      if before == [] || Terminated(before[|before| - 1]) {
        LinesStart(before, c);
        JoinLinesSnoc(before, [c]);
      } else {
        LinesGrown(before, c);
        JoinLinesGrown(before, c);
      }
    }
  }

  // Lines without the last character: the last line is gone, or shorter.
  lemma LinesShrink(lines: seq<string>) returns (shorter: seq<string>, c: char)
    requires AreLines(lines) && lines != []
    ensures AreLines(shorter)
    ensures lines == if shorter == [] || Terminated(shorter[|shorter| - 1]) then shorter + [[c]] else Grown(shorter, c)
    ensures |shorter| < |lines| || (|shorter| == |lines| && |shorter[|shorter| - 1]| < |lines[|lines| - 1]|)
  {
    var n := |lines| - 1;
    var last := lines[n];
    c := last[|last| - 1];
    Seqs.FrontLast(last);
    Seqs.FrontLast(lines);
    if |last| == 1 {
      shorter := lines[..n];
    } else {
      shorter := lines[..n] + [last[..|last| - 1]];
      Seqs.Snoc(lines[..n], last[..|last| - 1]);
    }
  }

  // Joining lines and splitting again gives the same lines.
  lemma {:induction false} SplitJoin(lines: seq<string>)
    requires AreLines(lines)
    ensures SplitLinesPreserve(JoinLines(lines)) == lines
    decreases |lines|, if lines == [] then 0 else |lines[|lines| - 1]|
  {
    if lines != [] {
      var shorter, c := LinesShrink(lines);
      SplitJoin(shorter);
      SplitNext(JoinLines(shorter), c);
      if shorter == [] || Terminated(shorter[|shorter| - 1]) {
        JoinLinesSnoc(shorter, [c]);
      } else {
        JoinLinesGrown(shorter, c);
      }
    }
  }

  // ----- splitting at a separator -----

  function Split(s: string, sep: char): (parts: seq<string>)
    ensures parts != []
  {
    if s == "" then [""]
    else
      var before, c := Split(s[..|s| - 1], sep), s[|s| - 1];
      if c == sep then before + [""] else Grown(before, c)
  }

  function Join(parts: seq<string>, sep: char): string
    requires parts != []
  {
    if |parts| == 1 then parts[0] else Join(parts[..|parts| - 1], sep) + [sep] + parts[|parts| - 1]
  }

  lemma JoinGrown(parts: seq<string>, c: char, sep: char)
    requires parts != []
    ensures Join(Grown(parts, c), sep) == Join(parts, sep) + [c]
  {
    var n := |parts| - 1;
    Seqs.Snoc(parts[..n], parts[n] + [c]);
    if n > 0 {
      Seqs.Assoc(Join(parts[..n], sep) + [sep], parts[n], [c]);
    }
  }

  lemma JoinEmpty(parts: seq<string>, sep: char)
    requires parts != []
    ensures Join(parts + [""], sep) == Join(parts, sep) + [sep]
  {
    Seqs.Snoc(parts, "");
    Seqs.Nothing(Join(parts, sep) + [sep]);
  }

  // Splitting undoes joining when the separator is in none of the parts.
  lemma {:induction false} SplitUndoesJoin(parts: seq<string>, sep: char)
    requires parts != [] && forall i :: 0 <= i < |parts| ==> sep !in parts[i]
    ensures Split(Join(parts, sep), sep) == parts
    decreases |parts|, |parts[|parts| - 1]|
  {
    var n := |parts| - 1;
    var last := parts[n];
    Seqs.FrontLast(parts);
    if last == "" {
      if n > 0 {
        SplitUndoesJoin(parts[..n], sep);
        JoinEmpty(parts[..n], sep);
        Seqs.Snoc(Join(parts[..n], sep), sep);
      }
    } else {
      var m := |last| - 1;
      var shorter := parts[..n] + [last[..m]];
      Seqs.FrontLast(last);
      Seqs.Snoc(parts[..n], last[..m]);
      assert last[m] in last;
      SplitUndoesJoin(shorter, sep);
      JoinGrown(shorter, last[m], sep);
      Seqs.Snoc(Join(shorter, sep), last[m]);
    }
  }
}
