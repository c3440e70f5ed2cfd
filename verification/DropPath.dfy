/** Dropping whatever a glob path names from a captured payload. */
module DropPath {
  import opened Basics
  import opened Json
  import Seqs
  import opened Text

  // ----- path syntax -----

  function SplitPath(p: string): seq<string> {
    if p == "" then [] else Split(p, '.')
  }

  predicate IsDigit(c: char) {
    '0' <= c <= '9'
  }

  predicate AllDigits(s: string) {
    forall i :: 0 <= i < |s| ==> IsDigit(s[i])
  }

  function Decimal(s: string): nat
    requires AllDigits(s)
  {
    if s == [] then 0
    else
      var d: nat := s[|s| - 1] as int - '0' as int;
      Decimal(s[..|s| - 1]) * 10 + d
  }

  // A signed 64-bit decimal, as the library parses it: leading zeros and a sign are accepted.
  function Atoi(s: string): Option<int> {
    var digits := if s != "" && (s[0] == '+' || s[0] == '-') then s[1..] else s;
    if digits == "" || !AllDigits(digits) then None
    else
      var magnitude: int := Decimal(digits);
      var n := if s[0] == '-' then -magnitude else magnitude;
      if -0x8000_0000_0000_0000 <= n < 0x8000_0000_0000_0000 then Some(n) else None
  }

  // ----- the operation -----

  function Dropped(t: Json, segs: seq<string>): Json
    decreases |segs|
  {
    if segs == [] then t
    else
      var first, rest := segs[0], segs[1..];
      match t
      case Object(m) =>
        if first == "*" then
          if rest == [] then Object(map[]) else Object(map k | k in m :: Dropped(m[k], rest))
        else if first !in m then t
        else if rest == [] then Object(m - {first})
        else Object(m[first := Dropped(m[first], rest)])
      case Array(xs) =>
        if first == "*" then Array(seq(|xs|, i requires 0 <= i < |xs| => Dropped(xs[i], rest)))
        else
          (match Atoi(first)
           case None => t
           case Some(i) =>
             if !(0 <= i < |xs|) then t
             else Array(xs[i := if rest == [] then Null else Dropped(xs[i], rest)]))
      case _ => t
  }

  // Whether anything was dropped.
  predicate Hits(t: Json, segs: seq<string>)
    decreases |segs|
  {
    if segs == [] then false
    else
      var first, rest := segs[0], segs[1..];
      match t
      case Object(m) =>
        if first == "*" then
          if rest == [] then m.Keys != {} else exists k :: k in m && Hits(m[k], rest)
        else first in m && (rest == [] || Hits(m[first], rest))
      case Array(xs) =>
        if first == "*" then exists i :: 0 <= i < |xs| && Hits(xs[i], rest)
        else
          (match Atoi(first)
           case None => false
           case Some(i) => 0 <= i < |xs| && (rest == [] || Hits(xs[i], rest)))
      case _ => false
  }

  // Recursion over the segments, replacing map entries and slice elements one at a time.
  method DropAt(t: Json, segs: seq<string>) returns (t': Json, hit: bool)
    ensures t' == Dropped(t, segs) && hit == Hits(t, segs)
    decreases |segs|, 0
  {
    if segs == [] {
      return t, false;
    }
    var first, rest := segs[0], segs[1..];
    match t {
      case Object(m) =>
        if first == "*" {
          if rest == [] {
            return Object(map[]), m.Keys != {};
          }
          t', hit := DropInAll(m, rest);
          return;
        }
        if first !in m {
          return t, false;
        }
        if rest == [] {
          return Object(m - {first}), true;
        }
        var child;
        child, hit := DropAt(m[first], rest);
        t' := Object(m[first := child]);
      case Array(xs) =>
        if first == "*" {
          t', hit := DropInEach(xs, rest);
          return;
        }
        var i := Atoi(first);
        if i.None? || i.value < 0 || i.value >= |xs| {
          return t, false;
        }
        if rest == [] {
          return Array(xs[i.value := Null]), true;
        }
        var child;
        child, hit := DropAt(xs[i.value], rest);
        t' := Array(xs[i.value := child]);
      case _ =>
        return t, false;
    }
  }

  // The loop over the keys of a map under "*".
  method DropInAll(m: map<string, Json>, rest: seq<string>) returns (t': Json, hit: bool)
    requires rest != []
    ensures t' == Object(map k | k in m :: Dropped(m[k], rest))
    ensures hit <==> exists k :: k in m && Hits(m[k], rest)
    decreases |rest|, 1
  {
    var v := m;
    hit := false;
    var todo := m.Keys;
    NothingDropped(m, rest);
    while todo != {}
      invariant DroppedButFor(m, rest, todo, v, hit)
      decreases |todo|
    {
      var k :| k in todo;
      var child, any := DropAt(v[k], rest);
      DroppedNext(m, rest, todo, v, hit, k);
      todo := todo - {k};
      if any {
        hit := true;
      }
      v := v[k := child];
    }
    DroppedAll(m, rest, v, hit);
    t' := Object(v);
  }

  lemma DroppedAll(m: map<string, Json>, rest: seq<string>, v: map<string, Json>, hit: bool)
    requires rest != [] && DroppedButFor(m, rest, {}, v, hit)
    ensures v == map k | k in m :: Dropped(m[k], rest)
    ensures hit <==> exists k :: k in m && Hits(m[k], rest)
  {
  }

  lemma NothingDropped(m: map<string, Json>, rest: seq<string>)
    requires rest != []
    ensures DroppedButFor(m, rest, m.Keys, m, false)
  {
  }

  // The loop over a map: what is done but for the keys to come.
  ghost predicate DroppedButFor(m: map<string, Json>, rest: seq<string>, todo: set<string>, v: map<string, Json>,
                                hit: bool)
    requires rest != []
  {
    && todo <= m.Keys && v.Keys == m.Keys
    && (forall k :: k in m ==> v[k] == if k in todo then m[k] else Dropped(m[k], rest))
    && (hit <==> exists k :: k in m && k !in todo && Hits(m[k], rest))
  }

  lemma DroppedNext(m: map<string, Json>, rest: seq<string>, todo: set<string>, v: map<string, Json>, hit: bool,
                    k: string)
    requires rest != [] && DroppedButFor(m, rest, todo, v, hit) && k in todo
    ensures v[k] == m[k]
    ensures DroppedButFor(m, rest, todo - {k}, v[k := Dropped(m[k], rest)], hit || Hits(m[k], rest))
  {
    if exists x :: x in m && x !in todo - {k} && Hits(m[x], rest) {
      var x :| x in m && x !in todo - {k} && Hits(m[x], rest);
      assert x == k || x !in todo;
    }
  }


  // The loop over the elements of a slice under "*".
  method DropInEach(xs: seq<Json>, rest: seq<string>) returns (t': Json, hit: bool)
    ensures t' == Array(seq(|xs|, i requires 0 <= i < |xs| => Dropped(xs[i], rest)))
    ensures hit <==> exists i :: 0 <= i < |xs| && Hits(xs[i], rest)
    decreases |rest|, 1
  {
    var v := xs;
    hit := false;
    for i := 0 to |xs|
      invariant |v| == |xs|
      invariant forall j :: 0 <= j < |xs| ==> v[j] == if j < i then Dropped(xs[j], rest) else xs[j]
      invariant hit <==> exists j :: 0 <= j < i && Hits(xs[j], rest)
    {
      var child, any := DropAt(v[i], rest);
      if any {
        hit := true;
      }
      v := v[i := child];
    }
    t' := Array(v);
  }

  method DropPath(t: Json, path: string) returns (t': Json, hit: bool)
    ensures t' == Dropped(t, SplitPath(path)) && hit == Hits(t, SplitPath(path))
  {
    t', hit := DropAt(t, SplitPath(path));
  }

  // ----- what is removed, by place -----

  predicate MatchesPos(seg: string, p: Pos) {
    seg == "*" ||
    match p
    case Key(k) => seg == k
    case Index(i) => Atoi(seg) == Some(i)
  }

  // As far as both go, the place follows the path.
  predicate Follows(segs: seq<string>, q: seq<Pos>) {
    segs != [] && q != [] ==> MatchesPos(segs[0], q[0]) && Follows(segs[1..], q[1..])
  }

  // A place the whole path leads to, where dropping has an effect: a key, or an element named
  // by its number. (A final "*" over an array drops nothing.)
  predicate IsDropped(segs: seq<string>, q: seq<Pos>) {
    |q| == |segs| > 0 && Follows(segs, q) && (q[|q| - 1].Key? || segs[|segs| - 1] != "*")
  }

  // What is found at a place afterwards.
  function Expected(t: Json, segs: seq<string>, q: seq<Pos>): Option<Json> {
    var n := |segs|;
    if |q| >= n && IsDropped(segs, q[..n]) then
      if |q| > n || q[n - 1].Key? || Lookup(t, q) == None then None else Some(Null)
    else if |q| < n && Follows(segs, q) then
      match Lookup(t, q) case None => None case Some(sub) => Some(Dropped(sub, segs[|q|..]))
    else Lookup(t, q)
  }

  // Dropping removes exactly what the path names: a named key is gone with everything below
  // it, a named element has become null, a place above a named one holds its old value with
  // the rest of the path dropped from it, and every other place is as it was.
  lemma {:induction false} DropsExactly(t: Json, segs: seq<string>, q: seq<Pos>)
    requires segs != []
    ensures Lookup(Dropped(t, segs), q) == Expected(t, segs, q)
    decreases |segs|
  {
    if q == [] {
    } else if !MatchesPos(segs[0], q[0]) {
      Untouched(t, segs, q[0]);
      ExpectedElsewhere(t, segs, q);
    } else if |segs| > 1 {
      DescendsInto(t, segs, q[0]);
      ExpectedBelow(t, segs, q);
      if Child(t, q[0]).Some? {
        DropsExactly(Child(t, q[0]).value, segs[1..], q[1..]);
      }
    } else {
      DropsLast(t, segs[0], q);
      assert segs == [segs[0]];
    }
  }

  lemma ExpectedElsewhere(t: Json, segs: seq<string>, q: seq<Pos>)
    requires segs != [] && q != [] && !MatchesPos(segs[0], q[0])
    ensures Expected(t, segs, q) == Lookup(t, q)
  {
  }

  lemma ExpectedBelow(t: Json, segs: seq<string>, q: seq<Pos>)
    requires |segs| > 1 && q != [] && MatchesPos(segs[0], q[0])
    ensures Expected(t, segs, q) ==
            match Child(t, q[0]) case None => None case Some(c) => Expected(c, segs[1..], q[1..])
  {
    var n := |segs|;
    if |q| >= n {
      assert q[..n][1..] == q[1..][..n - 1];
      assert IsDropped(segs, q[..n]) <==> IsDropped(segs[1..], q[1..][..n - 1]);
    } else {
      assert segs[|q|..] == segs[1..][|q| - 1..];
    }
  }

  lemma DropsLast(t: Json, seg: string, q: seq<Pos>)
    requires q != [] && MatchesPos(seg, q[0])
    ensures Lookup(Dropped(t, [seg]), q) == Expected(t, [seg], q)
  {
    var dropped := Dropped(t, [seg]);
    assert [seg][1..] == [];
    assert q[..1] == [q[0]];
    assert q[1..] != [] ==> Child(Null, q[1..][0]) == None;
    if q[0].Key? {
      assert Child(dropped, q[0]) == None;
      assert IsDropped([seg], q[..1]);
      assert Lookup(dropped, q) == None;
    } else if seg == "*" {
      DescendsInto(t, [seg], q[0]);
      assert Child(dropped, q[0]) == Child(t, q[0]);
    } else {
      Nullified(t, [seg], q[0]);
      assert IsDropped([seg], q[..1]);
      assert |q| == 1 ==> q[1..] == [];
      assert Child(dropped, q[0]).Some? ==> Lookup(dropped, q) == Lookup(Null, q[1..]);
      assert |q| == 1 ==> Lookup(Null, q[1..]) == Some(Null);
      assert |q| == 1 && Child(t, q[0]).Some? ==> Lookup(t, q).Some?;
    }
  }

  // A child the first segment does not match is not touched.
  lemma Untouched(t: Json, segs: seq<string>, p: Pos)
    requires segs != [] && !MatchesPos(segs[0], p)
    ensures Child(Dropped(t, segs), p) == Child(t, p)
  {
  }

  // A child it matches is replaced by itself with the rest of the path dropped.
  lemma DescendsInto(t: Json, segs: seq<string>, p: Pos)
    requires segs != [] && MatchesPos(segs[0], p) && (|segs| > 1 || (p.Index? && segs[0] == "*"))
    ensures Child(Dropped(t, segs), p) ==
            match Child(t, p) case None => None case Some(c) => Some(Dropped(c, segs[1..]))
  {
  }

  // A numbered element at the end of the path becomes null.
  lemma Nullified(t: Json, segs: seq<string>, p: Pos)
    requires |segs| == 1 && p.Index? && segs[0] != "*" && MatchesPos(segs[0], p)
    ensures Child(Dropped(t, segs), p) == match Child(t, p) case None => None case Some(_) => Some(Null)
  {
  }

  // ----- consequences -----

  // Dropping again drops nothing more.
  lemma {:induction false} DropIdempotent(t: Json, segs: seq<string>)
    ensures Dropped(Dropped(t, segs), segs) == Dropped(t, segs)
    decreases |segs|
  {
    if segs != [] {
      var once, twice := Dropped(t, segs), Dropped(Dropped(t, segs), segs);
      forall p ensures Child(twice, p) == Child(once, p) {
        if !MatchesPos(segs[0], p) {
          Untouched(once, segs, p);
        } else if |segs| > 1 || (p.Index? && segs[0] == "*") {
          DescendsInto(t, segs, p);
          DescendsInto(once, segs, p);
          if Child(t, p).Some? {
            DropIdempotent(Child(t, p).value, segs[1..]);
          }
        } else if p.Index? {
          Nullified(t, segs, p);
          Nullified(once, segs, p);
        }
      }
      SameChildren(once, twice);
    }
  }

  // Dropping keeps the kind of a tree, and trees of one kind with the same children are equal.
  lemma SameChildren(a: Json, b: Json)
    requires forall p :: Child(a, p) == Child(b, p)
    requires if a.Object? then b.Object? else if a.Array? then b.Array? && |b.items| == |a.items| else b == a
    ensures a == b
  {
    if a.Object? {
      forall k ensures (k in a.fields <==> k in b.fields) && (k in a.fields ==> a.fields[k] == b.fields[k]) {
        assert Child(a, Key(k)) == Child(b, Key(k));
      }
    } else if a.Array? {
      forall i | 0 <= i < |a.items| ensures a.items[i] == b.items[i] {
        assert Child(a, Index(i)) == Child(b, Index(i));
      }
    }
  }

  // The flag tells the truth: something was dropped exactly when the tree had a place the path
  // names.
  lemma {:induction false} HitsExactlyWhen(t: Json, segs: seq<string>)
    ensures Hits(t, segs) <==> exists q :: IsDropped(segs, q) && Lookup(t, q).Some?
    decreases |segs|
  {
    if Hits(t, segs) {
      var q := Witness(t, segs);
    }
    if q :| IsDropped(segs, q) && Lookup(t, q).Some? {
      DroppedPlaceHits(t, segs, q);
    }
  }

  lemma {:induction false} Witness(t: Json, segs: seq<string>) returns (q: seq<Pos>)
    requires Hits(t, segs)
    ensures IsDropped(segs, q) && Lookup(t, q).Some?
    decreases |segs|
  {
    var first, rest := segs[0], segs[1..];
    var p: Pos;
    match t {
      case Object(m) =>
        if first != "*" {
          p := Key(first);
        } else if rest == [] {
          var k :| k in m;
          p := Key(k);
        } else {
          var k :| k in m && Hits(m[k], rest);
          p := Key(k);
        }
      case Array(xs) =>
        if first == "*" {
          var i :| 0 <= i < |xs| && Hits(xs[i], rest);
          p := Index(i);
        } else {
          p := Index(Atoi(first).value);
        }
    }
    if rest == [] {
      q := [p];
    } else {
      var below := Witness(Child(t, p).value, rest);
      q := [p] + below;
      assert q[1..] == below;
    }
  }

  lemma {:induction false} DroppedPlaceHits(t: Json, segs: seq<string>, q: seq<Pos>)
    requires IsDropped(segs, q) && Lookup(t, q).Some?
    ensures Hits(t, segs)
    decreases |segs|
  {
    if |segs| > 1 {
      DroppedPlaceHits(Child(t, q[0]).value, segs[1..], q[1..]);
    }
  }

  // ----- reading a path -----

  // Segments joined by dots are the segments of the path.
  lemma PathReads(segs: seq<string>)
    requires segs != [] && segs != [""] && forall i :: 0 <= i < |segs| ==> '.' !in segs[i]
    ensures SplitPath(Join(segs, '.')) == segs && SplitPath("") == []
  {
    SplitUndoesJoin(segs, '.');
    assert Split("", '.') == [""];
  }

  function Digit(n: nat): char
    requires n < 10
  {
    "0123456789"[n]
  }

  function DecimalText(n: nat): string {
    if n < 10 then [Digit(n)] else DecimalText(n / 10) + [Digit(n % 10)]
  }

  lemma DecimalSnoc(s: string, d: nat)
    requires d < 10 && AllDigits(s)
    ensures AllDigits(s + [Digit(d)]) && Decimal(s + [Digit(d)]) == 10 * Decimal(s) + d
  {
    Seqs.Snoc(s, Digit(d));
  }

  lemma {:induction false} DecimalReads(n: nat)
    ensures var s := DecimalText(n); s != "" && AllDigits(s) && Decimal(s) == n
  {
    if n < 10 {
      assert DecimalText(n)[..0] == "";
    } else {
      DecimalReads(n / 10);
      DecimalSnoc(DecimalText(n / 10), n % 10);
    }
  }

  // An index is read in decimal, with or without a sign.
  lemma IndexReads(n: int)
    requires 0 <= n < 0x8000_0000_0000_0000
    ensures Atoi(DecimalText(n)) == Some(n) && Atoi("+" + DecimalText(n)) == Some(n)
    ensures Atoi("-" + DecimalText(n)) == Some(-n)
  {
    var s := DecimalText(n);
    DecimalReads(n);
    assert IsDigit(s[0]);
    Seqs.Cons('+', s);
    Seqs.Cons('-', s);
    assert "+" + s == ['+'] + s && "-" + s == ['-'] + s;
  }
}
