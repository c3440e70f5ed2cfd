/** ULIDs: 26 base-32 digits of a 48-bit timestamp and 80 random bits. */
module Ulid {
  import opened Arithmetic
  import opened Basics
  import opened Lexicographic

  const ENCODING := "0123456789ABCDEFGHJKMNPQRSTVWXYZ"

  // Big-endian value of a byte string.
  function Big(b: seq<byte>): nat {
    if b == [] then 0 else Big(b[..|b| - 1]) * 256 + b[|b| - 1] as nat
  }

  function Pow(base: nat, k: nat): (p: nat)
    ensures base > 0 ==> p > 0
  {
    if k == 0 then 1 else base * Pow(base, k - 1)
  }

  // ----- the encoder -----

  // The ten five-bit groups of the timestamp. A shift right is a division, a mask of low bits
  // a remainder.
  function TimePart(ms: nat): seq<nat> {
    [ms / 0x2000_0000_0000 % 32, ms / 0x100_0000_0000 % 32, ms / 0x8_0000_0000 % 32, ms / 0x4000_0000 % 32,
     ms / 0x200_0000 % 32,
     ms / 0x10_0000 % 32, ms / 0x8000 % 32, ms / 0x400 % 32, ms / 0x20 % 32, ms % 32]
  }

  // The sixteen groups that straddle the first eight random bytes (r) and the last two (tail);
  // the or of the straddling group joins disjoint bits.
  function RandomPart(r: nat, tail: nat): seq<nat> {
    var hi5 := r % 16 * 2;
    [r / 0x800_0000_0000_0000 % 32, r / 0x40_0000_0000_0000 % 32, r / 0x2_0000_0000_0000 % 32,
     r / 0x1000_0000_0000 % 32,
     r / 0x80_0000_0000 % 32, r / 0x4_0000_0000 % 32, r / 0x2000_0000 % 32, r / 0x100_0000 % 32,
     r / 0x8_0000 % 32, r / 0x4000 % 32, r / 0x200 % 32, r / 0x10 % 32,
     hi5 + tail / 0x8000 % 2, tail / 0x400 % 32, tail / 0x20 % 32, tail % 32]
  }

  function Groups(ms: nat, rnd: seq<byte>): seq<nat>
    requires |rnd| == 10
  {
    TimePart(ms) + RandomPart(Big(rnd[..8]), Big(rnd[8..]))
  }

  function Encoded(digits: seq<nat>): string
    requires IsDigits(digits)
  {
    seq(|digits|, i requires 0 <= i < |digits| => ENCODING[digits[i]])
  }

  predicate IsDigits(digits: seq<nat>) {
    forall i :: 0 <= i < |digits| ==> digits[i] < 32
  }

  function EncodeUlid(ms: nat, rnd: seq<byte>): string
    requires |rnd| == 10
  {
    GroupsAreDigits(ms, rnd);
    Encoded(Groups(ms, rnd))
  }

  lemma GroupsAreDigits(ms: nat, rnd: seq<byte>)
    requires |rnd| == 10
    ensures IsDigits(Groups(ms, rnd))
  {
  }

  // ----- positional base 32 -----

  // The value of digits, most significant first.
  function Value(digits: seq<nat>): nat {
    if digits == [] then 0 else digits[0] * Pow(32, |digits| - 1) + Value(digits[1..])
  }

  // The k low base-32 digits of n.
  function Base32(n: nat, k: nat): seq<nat> {
    if k == 0 then [] else Base32(n / 32, k - 1) + [n % 32]
  }

  lemma {:induction false} Base32Length(n: nat, k: nat)
    ensures |Base32(n, k)| == k && IsDigits(Base32(n, k))
  {
    if k > 0 {
      Base32Length(n / 32, k - 1);
    }
  }

  lemma {:induction false} ValueSnoc(digits: seq<nat>, d: nat)
    ensures Value(digits + [d]) == Value(digits) * 32 + d
  {
    if digits == [] {
      assert [] + [d] == [d];
      assert Value([d][1..]) == 0;
      assert Pow(32, 0) == 1;
    } else {
      var rest := digits[1..];
      assert (digits + [d])[1..] == rest + [d];
      ValueSnoc(rest, d);
      assert digits[0] * Pow(32, |digits|) == digits[0] * Pow(32, |rest|) * 32;
    }
  }

  lemma {:induction false} ValueBase32(n: nat, k: nat)
    requires n < Pow(32, k)
    ensures Value(Base32(n, k)) == n
  {
    if k > 0 {
      assert n / 32 < Pow(32, k - 1);
      ValueBase32(n / 32, k - 1);
      ValueSnoc(Base32(n / 32, k - 1), n % 32);
    }
  }

  lemma {:induction false} ValueConcat(a: seq<nat>, b: seq<nat>)
    ensures Value(a + b) == Value(a) * Pow(32, |b|) + Value(b)
  {
    if b == [] {
      assert a + b == a;
      assert Pow(32, 0) == 1;
    } else {
      var front, last := b[..|b| - 1], b[|b| - 1];
      ValueConcat(a, front);
      assert a + b == (a + front) + [last];
      ValueSnoc(a + front, last);
      assert b == front + [last];
      ValueSnoc(front, last);
      assert Value(a) * Pow(32, |b|) == Value(a) * Pow(32, |front|) * 32;
    }
  }

  lemma {:induction false} ValueBound(digits: seq<nat>)
    requires IsDigits(digits)
    ensures Value(digits) < Pow(32, |digits|)
  {
    if digits != [] {
      ValueBound(digits[1..]);
      MulGap(digits[0], 32, Pow(32, |digits| - 1));
    }
  }

  lemma EncodedLess(a: seq<nat>, b: seq<nat>)
    requires IsDigits(a) && IsDigits(b) && a != [] && b != []
    ensures Less(Encoded(a), Encoded(b)) <==> a[0] < b[0] || (a[0] == b[0] && Less(Encoded(a[1..]), Encoded(b[1..])))
  {
    assert Encoded(a)[1..] == Encoded(a[1..]) && Encoded(b)[1..] == Encoded(b[1..]);
    EncodingAscends(a[0], b[0]);
  }

  // Digit strings of one length sort as their values do.
  lemma {:induction false} EncodedOrder(a: seq<nat>, b: seq<nat>)
    requires IsDigits(a) && IsDigits(b) && |a| == |b|
    ensures Less(Encoded(a), Encoded(b)) <==> Value(a) < Value(b)
  {
    if a != [] {
      var p := Pow(32, |a| - 1);
      EncodedLess(a, b);
      EncodedOrder(a[1..], b[1..]);
      ValueBound(a[1..]);
      ValueBound(b[1..]);
      if a[0] < b[0] {
        MulGap(a[0], b[0], p);
      } else if b[0] < a[0] {
        MulGap(b[0], a[0], p);
      }
    }
  }

  lemma EncodingAscends(i: nat, j: nat)
    requires i < 32 && j < 32
    ensures (ENCODING[i] < ENCODING[j] <==> i < j) && (ENCODING[i] == ENCODING[j] <==> i == j)
  {
    assert |ENCODING| == 32;
  }

  // ----- the text is the number -----

  // The i-th digit from the right.
  lemma {:induction false} Base32At(n: nat, k: nat, i: nat)
    requires i < k
    ensures |Base32(n, k)| == k && Pow(32, i) > 0 && Base32(n, k)[k - 1 - i] == n / Pow(32, i) % 32
  {
    Base32Length(n, k);
    if i == 0 {
      assert Pow(32, 0) == 1;
    } else {
      Base32At(n / 32, k - 1, i - 1);
      DivDiv(n, 32, Pow(32, i - 1));
    }
  }

  lemma LowPowers()
    ensures Pow(32, 0) == 1 && Pow(32, 1) == 0x20 && Pow(32, 2) == 0x400 && Pow(32, 3) == 0x8000
            && Pow(32, 4) == 0x10_0000
    ensures Pow(32, 5) == 0x200_0000 && Pow(32, 6) == 0x4000_0000 && Pow(32, 7) == 0x8_0000_0000
    ensures Pow(32, 8) == 0x100_0000_0000 && Pow(32, 9) == 0x2000_0000_0000
  {
    assert Pow(32, 3) == 0x8000;
    assert Pow(32, 6) == 0x4000_0000;
  }

  lemma HighPowers()
    ensures Pow(32, 10) == 0x4_0000_0000_0000 && Pow(32, 11) == 0x80_0000_0000_0000
            && Pow(32, 12) == 0x1000_0000_0000_0000
    ensures Pow(32, 13) == 0x2_0000_0000_0000_0000 && Pow(32, 14) == 0x40_0000_0000_0000_0000
    ensures Pow(32, 15) == 0x800_0000_0000_0000_0000 && Pow(32, 16) == 0x1_0000_0000_0000_0000_0000
  {
    LowPowers();
    assert Pow(32, 12) == 0x1000_0000_0000_0000;
  }

  lemma TimeGroups(ms: nat)
    ensures TimePart(ms) == Base32(ms, 10)
  {
    LowPowers();
    Base32Length(ms, 10);
    forall j | 0 <= j < 10 ensures TimePart(ms)[j] == Base32(ms, 10)[j] {
      Base32At(ms, 10, 9 - j);
    }
  }

  lemma {:induction false} BigConcat(a: seq<byte>, b: seq<byte>)
    ensures Big(a + b) == Big(a) * Pow(256, |b|) + Big(b)
  {
    if b == [] {
      assert a + b == a;
      assert Pow(256, 0) == 1;
    } else {
      var front := b[..|b| - 1];
      assert (a + b)[..|a + b| - 1] == a + front;
      BigConcat(a, front);
      assert Big(a) * Pow(256, |b|) == Big(a) * Pow(256, |front|) * 256;
    }
  }

  lemma {:induction false} BigBound(b: seq<byte>)
    ensures Big(b) < Pow(256, |b|)
  {
    if b != [] {
      BigBound(b[..|b| - 1]);
    }
  }

  // The sixteen random groups by place value: those of r alone, the one that straddles, those
  // of tail alone.
  function RandomGroup(r: nat, tail: nat, i: nat): nat {
    if i >= 4 then r / (Pow(32, i - 4) * 0x10) % 32
    else if i == 3 then r % 16 * 2 + tail / 0x8000 % 2
    else if i == 2 then tail / 0x400 % 32
    else if i == 1 then tail / 0x20 % 32
    else tail % 32
  }

  lemma HighDigit(r: nat, tail: nat, j: nat)
    requires tail < 0x1_0000
    ensures (r * 0x1_0000 + tail) / Pow(32, j + 4) % 32 == r / (Pow(32, j) * 0x10) % 32
  {
    PowShift(j);
    DivIgnoresLow(r, tail, 0x1_0000, Pow(32, j) * 0x10);
  }

  // What is left of the number above a low place of the tail.
  lemma LowPlace(r: nat, tail: nat, i: nat, unit: nat, k: nat)
    requires i < 4 && unit == [1, 0x20, 0x400, 0x8000][i] && k == [0x1_0000, 0x800, 0x40, 2][i]
    ensures Pow(32, i) == unit && (r * 0x1_0000 + tail) / unit == r * k + tail / unit
  {
    LowPowers();
    DivScales(r, tail, 0x1_0000, unit, k);
  }

  lemma MiddleDigit(r: nat, tail: nat, i: nat, unit: nat, h: nat)
    requires i < 3 && unit == [1, 0x20, 0x400][i] && h == [0x800, 0x40, 2][i]
    ensures (r * 0x1_0000 + tail) / Pow(32, i) % 32 == tail / unit % 32
  {
    LowPlace(r, tail, i, unit, h * 32);
    assert r * (h * 32) == r * h * 32;
    LowGroup(r * h, tail / unit);
  }

  lemma TopDigit(r: nat, tail: nat)
    requires tail < 0x1_0000
    ensures (r * 0x1_0000 + tail) / Pow(32, 3) % 32 == r % 16 * 2 + tail / 0x8000 % 2
  {
    LowPlace(r, tail, 3, 0x8000, 2);
    TopBit(tail);
    Straddle(r, tail / 0x8000);
  }

  lemma LowDigit(r: nat, tail: nat, i: nat)
    requires tail < 0x1_0000 && i < 3
    ensures (r * 0x1_0000 + tail) / Pow(32, i) % 32 == RandomGroup(r, tail, i)
  {
    if i == 2 {
      MiddleDigit(r, tail, i, 0x400, 2);
    } else if i == 1 {
      MiddleDigit(r, tail, i, 0x20, 0x40);
    } else {
      MiddleDigit(r, tail, i, 1, 0x800);
      assert tail / 1 == tail;
    }
  }

  lemma RandomDigit(r: nat, tail: nat, i: nat)
    requires tail < 0x1_0000
    ensures (r * 0x1_0000 + tail) / Pow(32, i) % 32 == RandomGroup(r, tail, i)
  {
    if i >= 4 {
      HighDigit(r, tail, i - 4);
    } else if i == 3 {
      TopDigit(r, tail);
    } else {
      LowDigit(r, tail, i);
    }
  }

  lemma PowShift(j: nat)
    ensures Pow(32, j + 4) == 0x1_0000 * (Pow(32, j) * 0x10) && Pow(32, j) > 0
  {
    assert Pow(32, j + 4) == 32 * Pow(32, j + 3) && Pow(32, j + 3) == 32 * Pow(32, j + 2)
           && Pow(32, j + 2) == 32 * Pow(32, j + 1);
  }

  lemma TopBit(tail: nat)
    requires tail < 0x1_0000
    ensures tail / 0x8000 < 2
  {
    DivRest(tail, 0x8000);
  }

  lemma Straddle(r: nat, bit: nat)
    requires bit < 2
    ensures (r * 2 + bit) % 32 == r % 16 * 2 + bit && bit % 2 == bit
  {
    var q, m := r / 16, r % 16;
    DivRest(r, 16);
    DivUnique(r * 2 + bit, 32, q, m * 2 + bit);
    DivUnique(bit, 2, 0, bit);
  }

  lemma LowGroup(high: nat, low: nat)
    ensures (high * 32 + low) % 32 == low % 32
  {
    var q, m := low / 32, low % 32;
    DivRest(low, 32);
    DivUnique(high * 32 + low, 32, high + q, m);
  }

  lemma RandomGroupAt(r: nat, tail: nat, j: nat)
    requires j < 16
    ensures RandomPart(r, tail)[j] == RandomGroup(r, tail, 15 - j)
  {
    LowPowers();
    HighPowers();
  }

  lemma BigParts(rnd: seq<byte>)
    requires |rnd| == 10
    ensures Big(rnd) == Big(rnd[..8]) * 0x1_0000 + Big(rnd[8..]) && Big(rnd[8..]) < 0x1_0000
  {
    assert rnd == rnd[..8] + rnd[8..];
    BigConcat(rnd[..8], rnd[8..]);
    BigBound(rnd[8..]);
    assert Pow(256, 2) == 0x1_0000;
  }

  lemma RandomGroupIsDigit(r: nat, tail: nat, j: nat)
    requires tail < 0x1_0000 && j < 16
    ensures |Base32(r * 0x1_0000 + tail, 16)| == 16 && RandomPart(r, tail)[j] == Base32(r * 0x1_0000 + tail, 16)[j]
  {
    Base32At(r * 0x1_0000 + tail, 16, 15 - j);
    RandomDigit(r, tail, 15 - j);
    RandomGroupAt(r, tail, j);
  }

  lemma RandomGroups(r: nat, tail: nat, n: nat)
    requires n == r * 0x1_0000 + tail && tail < 0x1_0000
    ensures RandomPart(r, tail) == Base32(n, 16)
  {
    Base32Length(n, 16);
    forall j | 0 <= j < 16 ensures RandomPart(r, tail)[j] == Base32(n, 16)[j] {
      RandomGroupIsDigit(r, tail, j);
    }
  }

  lemma SamePowers()
    ensures Pow(256, 10) == Pow(32, 16)
  {
    HighPowers();
    assert Pow(256, 5) == 0x100_0000_0000;
  }

  lemma TextGroups(ms: nat, rnd: seq<byte>)
    requires |rnd| == 10 && ms < Pow(32, 10)
    ensures Groups(ms, rnd) == Base32(ms, 10) + Base32(Big(rnd), 16)
    ensures Big(rnd) < Pow(32, 16) && |Groups(ms, rnd)| == 26
  {
    TimeGroups(ms);
    BigParts(rnd);
    RandomGroups(Big(rnd[..8]), Big(rnd[8..]), Big(rnd));
    BigBound(rnd);
    SamePowers();
  }

  // The text is the 26-digit base-32 form of ms * 2^80 + random; only the low 50 bits of the
  // timestamp fit.
  lemma TextIsNumber(ms: nat, rnd: seq<byte>)
    requires |rnd| == 10 && ms < Pow(32, 10)
    ensures Value(Groups(ms, rnd)) == ms * Pow(32, 16) + Big(rnd) && Big(rnd) < Pow(32, 16)
    ensures |EncodeUlid(ms, rnd)| == 26
  {
    TextGroups(ms, rnd);
    Base32Length(Big(rnd), 16);
    ValueConcat(Base32(ms, 10), Base32(Big(rnd), 16));
    ValueBase32(ms, 10);
    ValueBase32(Big(rnd), 16);
  }

  // Order embedding: texts compare as (timestamp, random) pairs do; in particular the encoding
  // is injective.
  lemma TextOrder(ms: nat, rnd: seq<byte>, ms': nat, rnd': seq<byte>)
    requires |rnd| == |rnd'| == 10 && ms < Pow(32, 10) && ms' < Pow(32, 10)
    ensures Less(EncodeUlid(ms, rnd), EncodeUlid(ms', rnd')) <==> ms < ms' || (ms == ms' && Big(rnd) < Big(rnd'))
  {
    GroupsAreDigits(ms, rnd);
    GroupsAreDigits(ms', rnd');
    EncodedOrder(Groups(ms, rnd), Groups(ms', rnd'));
    TextIsNumber(ms, rnd);
    TextIsNumber(ms', rnd');
    if ms < ms' {
      MulGap(ms, ms', Pow(32, 16));
    } else if ms' < ms {
      MulGap(ms', ms, Pow(32, 16));
    }
  }

  lemma {:induction false} BigInjective(a: seq<byte>, b: seq<byte>)
    requires |a| == |b| && Big(a) == Big(b)
    ensures a == b
  {
    if a != [] {
      var x, y := Big(a[..|a| - 1]), Big(b[..|b| - 1]);
      BigInjective(a[..|a| - 1], b[..|b| - 1]);
      assert a == a[..|a| - 1] + [a[|a| - 1]] && b == b[..|b| - 1] + [b[|b| - 1]];
    }
  }

  lemma TextInjective(ms: nat, rnd: seq<byte>, ms': nat, rnd': seq<byte>)
    requires |rnd| == |rnd'| == 10 && ms < Pow(32, 10) && ms' < Pow(32, 10)
    requires EncodeUlid(ms, rnd) == EncodeUlid(ms', rnd')
    ensures ms == ms' && rnd == rnd'
  {
    Irreflexive(EncodeUlid(ms, rnd));
    TextOrder(ms, rnd, ms', rnd');
    TextOrder(ms', rnd', ms, rnd);
    BigInjective(rnd, rnd');
  }

  // ----- the monotonic generator -----

  // Adding one to a big-endian counter, wrapping at its width.
  function Incremented(b: seq<byte>): (r: seq<byte>)
    ensures |r| == |b|
  {
    if b == [] then []
    else if b[|b| - 1] == 255 then Incremented(b[..|b| - 1]) + [0]
    else b[..|b| - 1] + [b[|b| - 1] + 1]
  }

  ghost predicate Exhausted(b: seq<byte>) {
    forall i :: 0 <= i < |b| ==> b[i] == 255
  }

  // The carry loop is +1 modulo 2^(8 * length); it wraps exactly when every byte is 255.
  lemma {:induction false} IncrementedIsPlusOne(b: seq<byte>)
    ensures Big(Incremented(b)) == (if Exhausted(b) then 0 else Big(b) + 1)
    ensures Exhausted(b) <==> Big(b) + 1 == Pow(256, |b|)
  {
    if b != [] {
      var front, last := b[..|b| - 1], b[|b| - 1];
      IncrementedIsPlusOne(front);
      BigBound(front);
      assert b == front + [last];
      assert Exhausted(b) <==> Exhausted(front) && last == 255;
      if last == 255 {
        assert (Incremented(front) + [0])[..|front|] == Incremented(front);
      } else {
        assert (front + [last + 1])[..|front|] == front;
      }
    }
  }

  // The random part for a new id: incremented within a millisecond, drawn anew otherwise.
  function NextRandom(lastMs: nat, lastRand: seq<byte>, ms: nat, drawn: seq<byte>): seq<byte> {
    if ms == lastMs then Incremented(lastRand) else drawn
  }

  // In a new millisecond the random part is what was drawn; in the same one it is the last plus one,
  // which wraps around.
  lemma RandomPartIs(lastMs: nat, lastRand: seq<byte>, ms: nat, drawn: seq<byte>)
    requires |lastRand| == 10 && |drawn| == 10
    ensures |NextRandom(lastMs, lastRand, ms, drawn)| == 10
    ensures Big(NextRandom(lastMs, lastRand, ms, drawn)) ==
            if ms == lastMs then (Big(lastRand) + 1) % Pow(256, 10) else Big(drawn)
  {
    IncrementedIsPlusOne(lastRand);
    BigBound(lastRand);
  }

  class Generator {
    var lastMs: nat
    const lastRand: array<byte>

    ghost predicate Valid() {
      lastRand.Length == 10
    }

    constructor ()
      ensures Valid() && fresh(lastRand) && lastMs == 0 && lastRand[..] == [0, 0, 0, 0, 0, 0, 0, 0, 0, 0]
    {
      lastMs := 0;
      lastRand := new byte[10](_ => 0);
    }

    // `drawn` is what the system's random source returns.
    method NewUlidAt(ms: nat, drawn: seq<byte>) returns (s: string)
      requires Valid() && |drawn| == 10
      modifies this`lastMs, lastRand
      ensures Valid() && lastMs == ms
      ensures lastRand[..] == NextRandom(old(lastMs), old(lastRand[..]), ms, drawn)
      ensures s == EncodeUlid(ms, lastRand[..])
    {
      var rnd := new byte[10](i requires 0 <= i < 10 => drawn[i]);
      assert rnd[..] == drawn;
      if ms == lastMs {
        forall i | 0 <= i < 10 {
          rnd[i] := lastRand[i];
        }
        assert rnd[..] == old(lastRand[..]);
        Increment(rnd);
      } else {
        lastMs := ms;
      }
      forall i | 0 <= i < 10 {
        lastRand[i] := rnd[i];
      }
      assert lastRand[..] == rnd[..];
      s := EncodeUlid(ms, lastRand[..]);
    }

    // The carry loop.
    method Increment(rnd: array<byte>)
      modifies rnd
      ensures rnd[..] == Incremented(old(rnd[..]))
    {
      var i := rnd.Length;
      assert rnd[..] == rnd[..i] && rnd[i..] == [];
      while i > 0
        invariant 0 <= i <= rnd.Length
        invariant rnd[..i] == old(rnd[..i])
        invariant Incremented(old(rnd[..])) == Incremented(old(rnd[..i])) + rnd[i..]
      {
        i := i - 1;
        ghost var before := old(rnd[..i + 1]);
        assert before[..i] == old(rnd[..i]) && before[i] == rnd[i];
        rnd[i] := if rnd[i] == 255 then 0 else rnd[i] + 1;
        if rnd[i] != 0 {
          assert Incremented(before) == before[..i] + [rnd[i]];
          assert rnd[..] == rnd[..i] + [rnd[i]] + rnd[i + 1..];
          return;
        }
        assert Incremented(before) == Incremented(before[..i]) + [0];
        assert rnd[i..] == [0] + rnd[i + 1..];
      }
      assert rnd[..] == rnd[0..];
      assert old(rnd[..0]) == [];
    }
  }

  // A new id sorts after the last one exactly when the clock advanced, or stood still and the
  // random part was not exhausted.
  lemma NextSortsAfterExactlyWhen(lastMs: nat, lastRand: seq<byte>, ms: nat, drawn: seq<byte>)
    requires |lastRand| == |drawn| == 10 && lastMs < Pow(32, 10) && ms < Pow(32, 10)
    ensures Less(EncodeUlid(lastMs, lastRand), EncodeUlid(ms, NextRandom(lastMs, lastRand, ms, drawn)))
       <==> lastMs < ms || (lastMs == ms && !Exhausted(lastRand))
  {
    TextOrder(lastMs, lastRand, ms, NextRandom(lastMs, lastRand, ms, drawn));
    IncrementedIsPlusOne(lastRand);
  }

  // ----- runs of the generator -----

  datatype Call = Call(ms: nat, drawn: seq<byte>)

  // What the generator holds, and encodes, after a call.
  datatype Stamp = Stamp(ms: nat, rnd: seq<byte>)
  {
    predicate Fits() {
      ms < Pow(32, 10) && |rnd| == 10
    }

    ghost predicate Before(other: Stamp) {
      ms < other.ms || (ms == other.ms && Big(rnd) < Big(other.rnd))
    }

    function Text(): string
      requires Fits()
    {
      EncodeUlid(ms, rnd)
    }
  }

  // The stamps of successive calls, given the one before the first.
  function Stamps(last: Stamp, calls: seq<Call>): (stamps: seq<Stamp>)
    ensures |stamps| == |calls|
    decreases |calls|
  {
    if calls == [] then []
    else
      var next := Stamp(calls[0].ms, NextRandom(last.ms, last.rnd, calls[0].ms, calls[0].drawn));
      [next] + Stamps(next, calls[1..])
  }

  // The clock never steps back and stays below 2^50 ms, and no millisecond exhausts its counter.
  ghost predicate WellBehaved(last: Stamp, calls: seq<Call>)
    decreases |calls|
  {
    calls != [] ==>
      && |calls[0].drawn| == 10
      && last.ms <= calls[0].ms < Pow(32, 10)
      && (last.ms == calls[0].ms ==> !Exhausted(last.rnd))
      && WellBehaved(Stamp(calls[0].ms, NextRandom(last.ms, last.rnd, calls[0].ms, calls[0].drawn)), calls[1..])
  }

  ghost predicate Increasing(last: Stamp, stamps: seq<Stamp>) {
    && (forall i :: 0 <= i < |stamps| ==> stamps[i].Fits() && last.Before(stamps[i]))
    && (forall i, j :: 0 <= i < j < |stamps| ==> stamps[i].Before(stamps[j]))
  }

  lemma IncreasingCons(last: Stamp, next: Stamp, rest: seq<Stamp>)
    requires next.Fits() && last.Before(next) && Increasing(next, rest)
    ensures Increasing(last, [next] + rest)
  {
    var stamps := [next] + rest;
    forall i | 0 <= i < |stamps| ensures stamps[i].Fits() && last.Before(stamps[i]) {
      if i > 0 {
        assert stamps[i] == rest[i - 1];
      }
    }
  }

  lemma {:induction false} StampsIncrease(last: Stamp, calls: seq<Call>)
    requires last.Fits() && WellBehaved(last, calls)
    ensures Increasing(last, Stamps(last, calls))
    decreases |calls|
  {
    if calls != [] {
      var next := Stamp(calls[0].ms, NextRandom(last.ms, last.rnd, calls[0].ms, calls[0].drawn));
      IncrementedIsPlusOne(last.rnd);
      StampsIncrease(next, calls[1..]);
      IncreasingCons(last, next, Stamps(next, calls[1..]));
    }
  }

  lemma TextsIncrease(a: Stamp, b: Stamp)
    requires a.Fits() && b.Fits() && a.Before(b)
    ensures Less(a.Text(), b.Text())
  {
    TextOrder(a.ms, a.rnd, b.ms, b.rnd);
  }

  // Every well-behaved run yields strictly increasing texts.
  lemma RunStrictlyIncreases(last: Stamp, calls: seq<Call>, i: nat, j: nat)
    requires last.Fits() && WellBehaved(last, calls) && i < j < |calls|
    ensures var stamps := Stamps(last, calls);
            stamps[i].Fits() && stamps[j].Fits() && Less(stamps[i].Text(), stamps[j].Text())
  {
    var stamps := Stamps(last, calls);
    StampsIncrease(last, calls);
    assert Increasing(last, stamps);
    TextsIncrease(stamps[i], stamps[j]);
  }

  // When the clock steps back, so do the ids.
  lemma ClockStepsBack()
    ensures var zeros := seq(10, _ => 0); Less(EncodeUlid(1, zeros), EncodeUlid(2, zeros))
                                          && !Less(EncodeUlid(2, zeros), EncodeUlid(1, zeros))
  {
    LowPowers();
    HighPowers();
    var zeros := seq(10, _ => 0);
    TextOrder(1, zeros, 2, zeros);
    TextOrder(2, zeros, 1, zeros);
  }
}
