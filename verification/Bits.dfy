/** Fixed-width bit sequences, least significant bit first, and the numbers and bytes they stand for. */
module Bits {
  import opened Common

  type Word = seq<bool>

  // ----- numbers

  function Pow2(n: nat): (p: nat)
    ensures p > 0
  {
    if n == 0 then 1 else 2 * Pow2(n - 1)
  }

  function Value(w: Word): nat {
    if w == [] then 0 else (if w[0] then 1 else 0) + 2 * Value(w[1..])
  }

  lemma {:induction false} ValueBelow(w: Word)
    ensures Value(w) < Pow2(|w|)
  {
    if w != [] { ValueBelow(w[1..]); }
  }

  lemma {:induction false} ValueConcat(a: Word, b: Word)
    ensures Value(a + b) == Value(a) + Pow2(|a|) * Value(b)
    decreases |a|
  {
    if a == [] {
      assert a + b == b;
    } else {
      ValueConcat(a[1..], b);
      assert (a + b)[1..] == a[1..] + b;
      TwiceProduct(Pow2(|a| - 1), Value(b));
    }
  }

  lemma TwiceProduct(p: nat, v: nat)
    ensures 2 * (p * v) == (2 * p) * v
  {
  }

  lemma {:induction false} SameValue(a: Word, b: Word)
    requires |a| == |b| && Value(a) == Value(b)
    ensures a == b
  {
    if a != [] {
      assert a[0] == b[0];
      SameValue(a[1..], b[1..]);
      assert a == [a[0]] + a[1..] && b == [b[0]] + b[1..];
    }
  }

  function Zeros(n: nat): Word {
    seq(n, _ => false)
  }

  lemma {:induction false} ZerosValue(n: nat)
    ensures Value(Zeros(n)) == 0
  {
    if n > 0 {
      assert Zeros(n)[1..] == Zeros(n - 1);
      ZerosValue(n - 1);
    }
  }

  // ----- bytes

  function ByteBits(v: nat, n: nat): (w: Word)
    requires v < Pow2(n)
    ensures |w| == n && Value(w) == v
  {
    if n == 0 then [] else [v % 2 == 1] + ByteBits(v / 2, n - 1)
  }

  function OfByte(b: byte): (w: Word)
    ensures |w| == 8 && Value(w) == b
  {
    assert Pow2(8) == 256 by { assert Pow2(4) == 16; }
    ByteBits(b, 8)
  }

  /** The bits of bytes of which the first is the most significant. */
  function OfBytes(bytes: seq<byte>): (w: Word)
    ensures |w| == 8 * |bytes|
  {
    if bytes == [] then []
    else OfByte(bytes[|bytes| - 1]) + OfBytes(bytes[..|bytes| - 1])
  }

  /** The number that bytes stand for, the first being the most significant. */
  function BigEndian(bytes: seq<byte>): nat {
    if bytes == [] then 0 else 256 * BigEndian(bytes[..|bytes| - 1]) + bytes[|bytes| - 1]
  }

  lemma PowerSum(m: nat, n: nat)
    ensures Pow2(m + n) == Pow2(m) * Pow2(n)
  {
    if m > 0 {
      PowerSum(m - 1, n);
      TwiceProduct(Pow2(m - 1), Pow2(n));
    }
  }

  lemma EightBits()
    ensures Pow2(8) == 256
  {
    assert Pow2(4) == 16;
  }

  lemma {:induction false} BytesValue(bytes: seq<byte>)
    ensures Value(OfBytes(bytes)) == BigEndian(bytes)
  {
    if bytes != [] {
      var n := |bytes| - 1;
      BytesValue(bytes[..n]);
      ValueConcat(OfByte(bytes[n]), OfBytes(bytes[..n]));
      EightBits();
    }
  }

  /** The first byte counts most. */
  lemma {:induction false} FirstByteMost(b: byte, rest: seq<byte>)
    ensures BigEndian([b] + rest) == b * Pow2(8 * |rest|) + BigEndian(rest)
    decreases |rest|
  {
    var bytes := [b] + rest;
    if rest == [] {
      assert bytes[..|bytes| - 1] == [];
    } else {
      var n := |rest| - 1;
      FirstByteMost(b, rest[..n]);
      assert bytes[..|bytes| - 1] == [b] + rest[..n];
      EightBits();
      PowerSum(8, 8 * n);
      TimesThree(256, b, Pow2(8 * n));
    }
  }

  lemma TimesThree(x: nat, b: nat, p: nat)
    ensures x * (b * p) == b * (x * p)
  {
  }

  lemma ByteOfBits(w: Word)
    requires |w| == 8
    ensures Value(w) < 256
  {
    ValueBelow(w);
    EightBits();
  }

  /** The bytes of a word, the most significant first. */
  function ToBytes(w: Word): (bytes: seq<byte>)
    requires |w| % 8 == 0
    ensures 8 * |bytes| == |w|
    decreases |w|
  {
    if w == [] then []
    else
      ByteOfBits(w[..8]);
      ToBytes(w[8..]) + [Value(w[..8])]
  }

  lemma {:induction false} ToBytesAndBack(w: Word)
    requires |w| % 8 == 0
    ensures OfBytes(ToBytes(w)) == w
    decreases |w|
  {
    if w != [] {
      var bytes := ToBytes(w);
      var n := |bytes| - 1;
      assert bytes[..n] == ToBytes(w[8..]);
      ToBytesAndBack(w[8..]);
      SameValue(OfByte(bytes[n]), w[..8]);
      assert w == w[..8] + w[8..];
    }
  }

  lemma {:induction false} FromBytesAndBack(bytes: seq<byte>)
    ensures ToBytes(OfBytes(bytes)) == bytes
  {
    if bytes != [] {
      var n := |bytes| - 1;
      var w := OfBytes(bytes);
      assert w[..8] == OfByte(bytes[n]) && w[8..] == OfBytes(bytes[..n]);
      FromBytesAndBack(bytes[..n]);
    }
  }

  lemma SliceOfRest(w: Word, a: nat, b: nat, k: nat)
    requires k <= a <= b <= |w|
    ensures w[k..][a - k..b - k] == w[a..b]
  {
  }

  lemma ToBytesLast(w: Word)
    requires |w| % 8 == 0 && w != []
    ensures var n := |ToBytes(w)| - 1; ToBytes(w)[n] == Value(w[..8]) && ToBytes(w)[..n] == ToBytes(w[8..])
  {
  }

  /** Byte `k` of a word of `n`, counted from the most significant one. */
  lemma {:induction false} ToBytesAt(w: Word, n: nat, k: nat)
    requires |w| == 8 * n && k < n
    ensures ToBytes(w)[k] == Value(w[8 * (n - 1 - k)..8 * (n - 1 - k) + 8])
    decreases n
  {
    ToBytesLast(w);
    if k < n - 1 {
      ToBytesAt(w[8..], n - 1, k);
      SliceOfRest(w, 8 * (n - 1 - k), 8 * (n - 1 - k) + 8, 8);
      assert ToBytes(w)[k] == ToBytes(w)[..n - 1][k];
    }
  }

  // ----- operations of a fixed-width word

  function And(a: Word, b: Word): (w: Word)
    requires |a| == |b|
    ensures |w| == |a|
  {
    seq(|a|, i requires 0 <= i < |a| => a[i] && b[i])
  }

  function Or(a: Word, b: Word): (w: Word)
    requires |a| == |b|
    ensures |w| == |a|
  {
    seq(|a|, i requires 0 <= i < |a| => a[i] || b[i])
  }

  function Flip(a: Word): (w: Word)
    ensures |w| == |a|
  {
    seq(|a|, i requires 0 <= i < |a| => !a[i])
  }

  function ShiftLeft(a: Word, k: nat): (w: Word)
    ensures |w| == |a|
  {
    seq(|a|, i requires 0 <= i < |a| => i >= k && a[i - k])
  }

  function ShiftRight(a: Word, k: nat): (w: Word)
    ensures |w| == |a|
  {
    seq(|a|, i requires 0 <= i < |a| => i + k < |a| && a[i + k])
  }

  /** A word widened with zeros. */
  function Widened(a: Word, n: nat): (w: Word)
    requires |a| <= n
    ensures |w| == n
  {
    a + Zeros(n - |a|)
  }
}
