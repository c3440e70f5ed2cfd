/** Quotes, comments and keys on one line of the YAML subset. */
module YamlQuotes {
  import opened Basics
  import opened Text

  datatype YamlError = MissingColon | IndentInMapping | IndentInSequence | BadFlow | NotEncodable

  // Inside which quotes a character stands.
  datatype Quote = Outside | Single | Double
  {
    function Next(c: char): Quote {
      if c == '\'' && !Double? then (if Single? then Outside else Single)
      else if c == '"' && !Single? then (if Double? then Outside else Double)
      else this
    }
  }

  // Inside double quotes a backslash takes the next character along.
  predicate Escapes(s: string, q: Quote) {
    q.Double? && |s| >= 2 && s[0] == '\\'
  }

  // Where c first stands outside quotes, or the length of s.
  function Find(s: string, q: Quote, c: char): (i: nat)
    ensures i <= |s|
    decreases |s|
  {
    if s == "" then 0
    else if Escapes(s, q) then 2 + Find(s[2..], q, c)
    else if q.Next(s[0]).Outside? && s[0] == c then 0
    else 1 + Find(s[1..], q.Next(s[0]), c)
  }

  function After(s: string, q: Quote): Quote
    decreases |s|
  {
    if s == "" then q else if Escapes(s, q) then After(s[2..], q) else After(s[1..], q.Next(s[0]))
  }

  // s is read to its end without meeting c outside quotes, and leaves no backslash dangling.
  predicate Crosses(s: string, q: Quote, c: char)
    decreases |s|
  {
    if s == "" then true
    else if Escapes(s, q) then Crosses(s[2..], q, c)
    else
      && !(q.Double? && s == "\\")
      && !(q.Next(s[0]).Outside? && s[0] == c)
      && Crosses(s[1..], q.Next(s[0]), c)
  }

  lemma {:induction false} CrossThen(a: string, b: string, q: Quote, c: char)
    requires Crosses(a, q, c)
    ensures Find(a + b, q, c) == |a| + Find(b, After(a, q), c)
    ensures After(a + b, q) == After(b, After(a, q))
    ensures Crosses(b, After(a, q), c) ==> Crosses(a + b, q, c)
    decreases |a|
  {
    if a == "" {
      assert a + b == b;
    } else if Escapes(a, q) {
      assert (a + b)[2..] == a[2..] + b;
      CrossThen(a[2..], b, q, c);
    } else {
      assert (a + b)[1..] == a[1..] + b;
      CrossThen(a[1..], b, q.Next(a[0]), c);
    }
  }

  // What is found is the character itself, and the text before it is closed under quotes.
  lemma {:induction false} FoundOutside(s: string, q: Quote, c: char)
    requires Find(s, q, c) < |s| && c != '\'' && c != '"'
    ensures var i := Find(s, q, c); s[i] == c && Crosses(s[..i], q, c) && After(s[..i], q) == Outside
    decreases |s|
  {
    var i := Find(s, q, c);
    if Escapes(s, q) {
      FoundOutside(s[2..], q, c);
      assert s[..i][2..] == s[2..][..i - 2];
    } else if i > 0 {
      FoundOutside(s[1..], q.Next(s[0]), c);
      assert s[..i][1..] == s[1..][..i - 1];
      if s[..i] == "\\" {
        assert s[1..][..i - 1] == "" && q.Next('\\') == q;
      }
    }
  }

  // White space opens and closes nothing.
  lemma {:induction false} SpaceAfter(pre: string, s: string, q: Quote)
    requires All(pre, IsSpace)
    ensures After(pre + s, q) == After(s, q)
  {
    if pre == "" {
      assert pre + s == s;
    } else {
      assert (pre + s)[1..] == pre[1..] + s;
      SpaceAfter(pre[1..], s, q);
    }
  }

  predicate Wrapped(s: string, mark: char) {
    s != "" && s[0] == mark && s[|s| - 1] == mark
  }

  // One quote mark between white space leaves the quote open.
  lemma LoneQuoteOpens(pre: string, mark: char, post: string)
    requires (mark == '\'' || mark == '"') && All(pre, IsSpace) && All(post, IsSpace)
    ensures After(pre + [mark] + post, Outside) == Outside.Next(mark) != Outside
  {
    assert pre + [mark] + post == pre + ([mark] + post);
    SpaceAfter(pre, [mark] + post, Outside);
    assert ([mark] + post)[1..] == post && post + "" == post;
    SpaceAfter(post, "", Outside.Next(mark));
  }

  // A key that begins and ends with a quote has two of them: the text before an unquoted
  // colon never is a single quote mark.
  lemma NoLoneQuote(line: string, mark: char)
    requires mark == '\'' || mark == '"'
    requires Find(line, Outside, ':') < |line|
    ensures TrimSpace(line[..Find(line, Outside, ':')]) != [mark]
  {
    var head := line[..Find(line, Outside, ':')];
    FoundOutside(line, Outside, ':');
    var pre, post := TrimParts(head, IsSpace);
    if TrimSpace(head) == [mark] {
      LoneQuoteOpens(pre, mark, post);
      assert false;
    }
  }

  // Key and rest of a mapping line, at its first colon outside quotes.
  function SplitMapKey(line: string): Result<(string, string), YamlError> {
    var i := Find(line, Outside, ':');
    if i == |line| then Err(MissingColon)
    else
      var key := TrimSpace(line[..i]);
      NoLoneQuote(line, '"');
      NoLoneQuote(line, '\'');
      assert key != "" && |key| < 2 ==> key == [key[0]];
      Ok((if Wrapped(key, '"') || Wrapped(key, '\'') then key[1..|key| - 1] else key, line[i + 1..]))
  }

  function Uncommented(s: string): string {
    s[..Find(s, Outside, '#')]
  }

  // ----- the scanning loops -----

  function Flags(inSingle: bool, inDouble: bool): Quote {
    if inSingle then Single else if inDouble then Double else Outside
  }

  // The index of the first ch outside quotes, or -1.
  method IndexUnquoted(s: string, ch: char) returns (index: int)
    ensures index == if Find(s, Outside, ch) == |s| then -1 else Find(s, Outside, ch)
  {
    var inSingle, inDouble, i := false, false, 0;
    assert s[0..] == s;
    while i < |s|
      invariant i <= |s| && !(inSingle && inDouble)
      invariant Find(s, Outside, ch) == i + Find(s[i..], Flags(inSingle, inDouble), ch)
    {
      var c := s[i];
      assert s[i..][1..] == s[i + 1..];
      if c == '\\' && inDouble && i + 1 < |s| {
        assert s[i..][2..] == s[i + 2..];
        i := i + 2;
        continue;
      }
      if c == '\'' && !inDouble {
        inSingle := !inSingle;
      } else if c == '"' && !inSingle {
        inDouble := !inDouble;
      }
      if !inSingle && !inDouble && c == ch {
        return i;
      }
      i := i + 1;
    }
    return -1;
  }

  method StripComment(s: string) returns (r: string)
    ensures r == Uncommented(s)
  {
    var inSingle, inDouble, i := false, false, 0;
    assert s[0..] == s;
    while i < |s|
      invariant i <= |s| && !(inSingle && inDouble)
      invariant Find(s, Outside, '#') == i + Find(s[i..], Flags(inSingle, inDouble), '#')
    {
      assert s[i..][1..] == s[i + 1..];
      match s[i] {
        case '\\' =>
          if inDouble && i + 1 < |s| {
            assert s[i..][2..] == s[i + 2..];
            i := i + 1;
          }
        case '\'' =>
          if !inDouble {
            inSingle := !inSingle;
          }
        case '"' =>
          if !inSingle {
            inDouble := !inDouble;
          }
        case '#' =>
          if !inSingle && !inDouble {
            return s[..i];
          }
        case _ =>
      }
      i := i + 1;
    }
    assert s[..|s|] == s;
    return s;
  }
}
