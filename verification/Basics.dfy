/** Vocabulary shared by every module of the model. */
module Basics {

  newtype byte = x: int | 0 <= x < 256

  type Bytes = seq<byte>

  datatype Option<+T> = None | Some(value: T)

  datatype Result<+T, +E> = Ok(value: T) | Err(error: E)

  ghost predicate Distinct<T>(s: seq<T>) {
    forall i, j :: 0 <= i < j < |s| ==> s[i] != s[j]
  }
}

/** Equalities of sequences, stated once so that proofs can name them. */
module Seqs {

  lemma Assoc<T>(a: seq<T>, b: seq<T>, c: seq<T>)
    ensures (a + b) + c == a + (b + c)
  {
  }

  lemma Nothing<T>(a: seq<T>)
    ensures a + [] == a && [] + a == a
  {
  }

  // The last element put on and taken off.
  lemma Snoc<T>(a: seq<T>, x: T)
    ensures (a + [x])[..|a|] == a && (a + [x])[|a|] == x && |a + [x]| == |a| + 1
  {
  }

  lemma FrontLast<T>(a: seq<T>)
    requires a != []
    ensures a == a[..|a| - 1] + [a[|a| - 1]]
  {
  }

  // The first element put on and taken off.
  lemma Cons<T>(x: T, a: seq<T>)
    ensures ([x] + a)[0] == x && ([x] + a)[1..] == a && |[x] + a| == |a| + 1
  {
  }

  lemma Halves<T>(a: seq<T>, k: nat)
    requires k <= |a|
    ensures a == a[..k] + a[k..]
  {
  }

  lemma Full<T>(a: seq<T>)
    ensures a[..|a|] == a
  {
  }

  // A prefix taken off.
  lemma Prefix<T>(a: seq<T>, b: seq<T>)
    ensures (a + b)[..|a|] == a && (a + b)[|a|..] == b
  {
  }
}

/** Sums of a weight over a finite set. */
module SetSums {

  ghost function Sum<T(!new)>(s: set<T>, w: T -> nat): nat {
    if s == {} then 0
    else
      var x :| x in s;
      w(x) + Sum(s - {x}, w)
  }

  // Any element may be the one split off.
  lemma {:induction false} SumSplit<T(!new)>(s: set<T>, w: T -> nat, y: T)
    requires y in s
    ensures Sum(s, w) == w(y) + Sum(s - {y}, w)
    decreases |s|
  {
    var x :| x in s && Sum(s, w) == w(x) + Sum(s - {x}, w);
    if x != y {
      SumSplit(s - {x}, w, y);
      SumSplit(s - {y}, w, x);
      assert s - {x} - {y} == s - {y} - {x};
    }
  }

  // A smaller set with smaller weights has a smaller sum.
  lemma {:induction false} SumMonotone<T(!new)>(s: set<T>, w: T -> nat, s': set<T>, w': T -> nat)
    requires s' <= s
    requires forall x :: x in s' ==> w'(x) <= w(x)
    ensures Sum(s', w') <= Sum(s, w)
    decreases |s|
  {
    if s' != {} {
      var x :| x in s';
      SumSplit(s', w', x);
      SumSplit(s, w, x);
      SumMonotone(s - {x}, w, s' - {x}, w');
    }
  }

  // ... and strictly so when one element lost weight or left.
  lemma {:induction false} SumStrict<T(!new)>(s: set<T>, w: T -> nat, s': set<T>, w': T -> nat, y: T)
    requires s' <= s
    requires forall x :: x in s' ==> w'(x) <= w(x)
    requires y in s && (if y in s' then w'(y) < w(y) else 0 < w(y))
    ensures Sum(s', w') < Sum(s, w)
  {
    SumSplit(s, w, y);
    SumMonotone(s - {y}, w, s' - {y}, w');
    if y in s' {
      SumSplit(s', w', y);
    } else {
      assert s' - {y} == s';
    }
  }
}
