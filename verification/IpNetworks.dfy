/** Prefix and mask arithmetic of an IP network. */
module IpNetworks {
  import opened Common
  import opened Bits

  const UNSET := 255

  // ----- masks

  /** The `p` most significant bits. */
  function MaskBits(n: nat, p: nat): (w: Word)
    requires p <= n
    ensures |w| == n
  {
    seq(n, i requires 0 <= i < n => i >= n - p)
  }

  /** Ones followed by zeros, from the most significant bit down. */
  predicate IsMask(w: Word) {
    exists p: nat :: p <= |w| && w == MaskBits(|w|, p)
  }

  function Ones(w: Word): (n: nat)
    ensures n <= |w|
  {
    if w == [] then 0 else (if w[0] then 1 else 0) + Ones(w[1..])
  }

  lemma {:induction false} OnesOfMask(n: nat, p: nat)
    requires p <= n
    ensures Ones(MaskBits(n, p)) == p
  {
    if n > 0 {
      if p < n {
        assert MaskBits(n, p)[1..] == MaskBits(n - 1, p);
        OnesOfMask(n - 1, p);
      } else {
        assert MaskBits(n, p)[1..] == MaskBits(n - 1, p - 1);
        OnesOfMask(n - 1, p - 1);
      }
    }
  }

  lemma ZeroAboveOne(w: Word, lo: nat, hi: nat)
    requires lo < hi < |w| && w[lo] && !w[hi]
    ensures !IsMask(w)
  {
  }

  /** The address with all but its first `p` bits cleared. */
  function Masked(w: Word, p: nat): (m: Word)
    requires p <= |w|
    ensures |m| == |w|
  {
    And(w, MaskBits(|w|, p))
  }

  function Network(bytes: seq<byte>, p: nat): seq<byte>
    requires p <= 8 * |bytes|
  {
    ToBytes(Masked(OfBytes(bytes), p))
  }

  // ----- the bytes of a word in memory

  function ByteOf(w: Word, k: nat): (b: Word)
    requires 8 * k + 8 <= |w|
    ensures |b| == 8
  {
    w[8 * k..8 * k + 8]
  }

  function ValueOf(b: Word): (v: byte)
    requires |b| == 8
    ensures v == Value(b)
  {
    ByteOfBits(b);
    Value(b)
  }

  /** What a printer that reads the word's memory, least significant byte first, is given. */
  function InMemory(w: Word): (bytes: seq<byte>)
    requires |w| % 8 == 0
    ensures 8 * |bytes| == |w|
  {
    seq(|w| / 8, k requires 0 <= k < |w| / 8 => ValueOf(ByteOf(w, k)))
  }

  /** The first `i` bytes of the host order moved to the upper end, the most significant one lowest. */
  ghost predicate Reversed(host: Word, net: Word, size: nat, i: nat) {
    && |host| == |net| == 8 * size && i <= size
    && (forall k: nat :: k < size - i ==> ByteOf(net, k) == Zeros(8))
    && (forall k: nat :: size - i <= k < size ==> ByteOf(net, k) == ByteOf(host, 2 * size - 1 - i - k))
  }

  function ReverseStep(host: Word, net: Word, size: nat, i: nat): (w: Word)
    requires |host| == |net| == 8 * size && i < size
    ensures |w| == |net|
  {
    Or(ShiftRight(net, 8), ShiftLeft(ShiftRight(host, 8 * (size - 1 - i)), 8 * (size - 1)))
  }

  lemma LowerBytes(host: Word, net: Word, size: nat, i: nat, k: nat)
    requires |host| == |net| == 8 * size && i < size && k < size - 1
    ensures ByteOf(ReverseStep(host, net, size, i), k) == ByteOf(net, k + 1)
  {
  }

  lemma TopByte(host: Word, net: Word, size: nat, i: nat)
    requires |host| == |net| == 8 * size && i < size
    ensures ByteOf(ReverseStep(host, net, size, i), size - 1) == ByteOf(host, size - 1 - i)
  {
  }

  lemma ReverseOneMore(host: Word, net: Word, size: nat, i: nat)
    requires Reversed(host, net, size, i) && i < size
    ensures Reversed(host, ReverseStep(host, net, size, i), size, i + 1)
  {
    var next := ReverseStep(host, net, size, i);
    TopByte(host, net, size, i);
    forall k: nat | k < size - 1 ensures ByteOf(next, k) == ByteOf(net, k + 1) {
      LowerBytes(host, net, size, i, k);
    }
  }

  /** Reversed in memory order is most significant byte first. */
  lemma AllReversed(host: Word, net: Word, size: nat)
    requires Reversed(host, net, size, size)
    ensures InMemory(net) == ToBytes(host)
  {
    forall k: nat | k < size ensures InMemory(net)[k] == ToBytes(host)[k] {
      ToBytesAt(host, size, k);
      assert ByteOf(net, k) == ByteOf(host, size - 1 - k);
    }
  }

  // ----- the network

  class IpNetwork {
    var bytes: seq<byte>  // four for IPv4, sixteen for IPv6, the most significant first
    var prefix: byte

    constructor (bytes: seq<byte>, prefix: byte)
      requires |bytes| == 4 || |bytes| == 16
      ensures Valid() && this.bytes == bytes && this.prefix == prefix
    {
      this.bytes := bytes;
      this.prefix := prefix;
    }

    predicate Valid()
      reads this
    {
      |bytes| == 4 || |bytes| == 16
    }

    predicate IsV4()
      reads this
    {
      |bytes| == 4
    }

    method AsBitset() returns (bits: Word)
      requires Valid()
      ensures bits == OfBytes(bytes)
    {
      var n := 8 * |bytes|;
      bits := Zeros(n);
      assert OfBytes(bytes[..0]) == [];
      for k := 0 to |bytes|
        invariant bits == Widened(OfBytes(bytes[..k]), n)
      {
        ByteAppended(bytes, k);
        bits := ShiftLeft(bits, 8);
        bits := Or(bits, Widened(OfByte(bytes[k]), n));
      }
      assert bytes[..|bytes|] == bytes;
    }

    /** The bytes of the network handed to the printer; the address itself when the prefix covers it. */
    method Convert() returns (printed: seq<byte>)
      requires Valid() && prefix <= 8 * |bytes|
      ensures printed == Network(bytes, prefix)
    {
      var n := 8 * |bytes|;
      if prefix == n {
        WholePrefix(bytes);
        return bytes;
      }
      var mask := Zeros(n);
      var i := n;
      while i > n - prefix
        invariant n - prefix <= i <= n
        invariant mask == MaskBits(n, n - i)
      {
        mask := mask[i - 1 := true];
        i := i - 1;
      }
      var addr := AsBitset();
      var host := And(addr, mask);
      var net := Zeros(n);
      var size := n / 8;
      for i := 0 to size
        invariant Reversed(host, net, size, i)
      {
        ReverseOneMore(host, net, size, i);
        ghost var next := ReverseStep(host, net, size, i);
        var temp := ShiftRight(host, 8 * (size - 1 - i));
        temp := ShiftLeft(temp, 8 * (size - 1));
        net := ShiftRight(net, 8);
        net := Or(net, temp);
        assert net == next;
      }
      AllReversed(host, net, size);
      printed := InMemory(net);
    }

    /** Nothing for a prefix longer than the address, unless it is the unset one. */
    method GetNetwork() returns (printed: Option<seq<byte>>)
      requires Valid()
      ensures printed.None? <==> 8 * |bytes| < prefix && prefix != 255
      ensures printed.Some? ==> printed.value == if prefix == 255 then bytes else Network(bytes, prefix)
    {
      if prefix == UNSET {
        return Some(bytes);
      } else if IsV4() {
        if 32 < prefix { return None; }
      } else {
        if 128 < prefix { return None; }
      }
      var network := Convert();
      printed := Some(network);
    }

    method SetPrefixFromMask(mask: IpNetwork, flipIt: bool) returns (isContiguous: bool)
      requires mask.Valid()
      modifies this`prefix
      ensures var w := if flipIt then Flip(OfBytes(mask.bytes)) else OfBytes(mask.bytes);
        (isContiguous <==> IsMask(w)) && prefix == if isContiguous then Ones(w) else |w|
    {
      var bits := mask.AsBitset();
      var n := |bits|;
      if flipIt { bits := Flip(bits); }
      var count: nat, seenZero := 0, false;
      isContiguous := true;
      for i := 1 to n + 1
        invariant isContiguous && !seenZero ==> count == i - 1
        invariant isContiguous ==> count <= i - 1
        invariant isContiguous ==> forall j :: n - count <= j < n ==> bits[j]
        invariant isContiguous ==> forall j :: n - i < j < n - count ==> !bits[j]
        invariant seenZero && isContiguous ==> count < i - 1
        invariant !isContiguous ==> seenZero && count == n && !IsMask(bits)
      {
        var isOne := bits[n - i];
        if isOne && seenZero {
          if isContiguous { ZeroAboveOne(bits, n - i, n - i + 1); }
          isContiguous := false;
          count := n;
        } else if isOne {
          count := count + 1;
        } else {
          seenZero := true;
        }
      }
      if isContiguous {
        assert bits == MaskBits(n, count);
        OnesOfMask(n, count);
      }
      prefix := count;
    }

    method SetNetmask(mask: IpNetwork) returns (ok: bool)
      requires mask.Valid()
      modifies this`prefix
      ensures ok <==> IsMask(OfBytes(mask.bytes))
      ensures prefix == if ok then Ones(OfBytes(mask.bytes)) else 8 * |mask.bytes|
    {
      ok := SetPrefixFromMask(mask, false);
    }

    method SetWildcardMask(mask: IpNetwork) returns (ok: bool)
      requires mask.Valid()
      modifies this`prefix
      ensures ok <==> IsMask(Flip(OfBytes(mask.bytes)))
      ensures prefix == if ok then Ones(Flip(OfBytes(mask.bytes))) else 8 * |mask.bytes|
    {
      ok := SetPrefixFromMask(mask, true);
    }

    /** Takes a mask that ends in a one for a wildcard mask. */
    method SetMask(mask: IpNetwork) returns (ok: bool)
      requires mask.Valid()
      modifies this`prefix
      ensures (ok, prefix as nat) == Guess(OfBytes(mask.bytes))
    {
      var bits := mask.AsBitset();
      if bits[0] {
        ok := SetWildcardMask(mask);
      } else {
        ok := SetNetmask(mask);
      }
    }
  }

  lemma ByteAppended(bytes: seq<byte>, k: nat)
    requires k < |bytes|
    ensures var n := 8 * |bytes|;
      Or(ShiftLeft(Widened(OfBytes(bytes[..k]), n), 8), Widened(OfByte(bytes[k]), n)) ==
      Widened(OfBytes(bytes[..k + 1]), n)
  {
    assert bytes[..k + 1][..k] == bytes[..k];
  }

  lemma WholePrefix(bytes: seq<byte>)
    ensures Network(bytes, 8 * |bytes|) == bytes
  {
    assert Masked(OfBytes(bytes), 8 * |bytes|) == OfBytes(bytes);
    FromBytesAndBack(bytes);
  }

  /** Whether a word is a mask, and the prefix kept for it. */
  function MaskPrefix(w: Word): (bool, nat) {
    if IsMask(w) then (true, Ones(w)) else (false, |w|)
  }

  function Guess(w: Word): (bool, nat)
    requires w != []
  {
    if w[0] then MaskPrefix(Flip(w)) else MaskPrefix(w)
  }

  // ----- networks and numbers

  lemma {:induction false} MaskedParts(w: Word, p: nat)
    requires p <= |w|
    ensures Masked(w, p) == Zeros(|w| - p) + w[|w| - p..]
  {
  }

  lemma DivModUnique(low: nat, high: nat, m: nat)
    requires low < m
    ensures (low + m * high) % m == low
  {
    var x := low + m * high;
    assert x == m * (x / m) + x % m;
    if x / m < high { LessTimes(m, x / m, high); }
    if x / m > high { LessTimes(m, high, x / m); }
  }

  lemma {:induction false} LessTimes(m: nat, a: nat, b: nat)
    requires a < b
    ensures m * a + m <= m * b
    decreases b
  {
    if a + 1 < b { LessTimes(m, a, b - 1); }
    assert m * b == m * (b - 1) + m;
  }

  /** The network's number is the address's, less its remainder modulo the size of the network. */
  lemma NetworkNumber(bytes: seq<byte>, p: nat)
    requires p <= 8 * |bytes|
    ensures |Network(bytes, p)| == |bytes|
    ensures BigEndian(Network(bytes, p)) == BigEndian(bytes) - BigEndian(bytes) % Pow2(8 * |bytes| - p)
  {
    var w := OfBytes(bytes);
    var k := |w| - p;
    var low, high := w[..k], w[k..];
    MaskedParts(w, p);
    ToBytesAndBack(Masked(w, p));
    BytesValue(Network(bytes, p));
    BytesValue(bytes);
    assert w == low + high;
    ValueConcat(low, high);
    ValueConcat(Zeros(k), high);
    ZerosValue(k);
    ValueBelow(low);
    DivModUnique(Value(low), Value(high), Pow2(k));
  }

  /** Masking twice is masking with the shorter prefix. */
  lemma NetworkOfNetwork(bytes: seq<byte>, p: nat, q: nat)
    requires p <= 8 * |bytes| && q <= 8 * |bytes|
    ensures |Network(bytes, p)| == |bytes|
    ensures Network(Network(bytes, p), q) == Network(bytes, if p < q then p else q)
  {
    var w := OfBytes(bytes);
    ToBytesAndBack(Masked(w, p));
    assert Masked(Masked(w, p), q) == Masked(w, if p < q then p else q);
  }

  predicate Agree(v: Word, w: Word, p: nat)
    requires |v| == |w|
  {
    forall i :: |v| - p <= i < |v| && 0 <= i ==> v[i] == w[i]
  }

  lemma SameMasked(v: Word, w: Word, p: nat)
    requires |v| == |w| && p <= |v|
    ensures Masked(v, p) == Masked(w, p) <==> Agree(v, w, p)
  {
    if Masked(v, p) == Masked(w, p) {
      forall i | |v| - p <= i < |v| && 0 <= i ensures v[i] == w[i] {
        assert Masked(v, p)[i] == Masked(w, p)[i];
      }
    }
  }

  /** Two addresses are in the same network exactly when their first `p` bits agree. */
  lemma SameNetwork(a: seq<byte>, b: seq<byte>, p: nat)
    requires |a| == |b| && p <= 8 * |a|
    ensures Network(a, p) == Network(b, p) <==> Agree(OfBytes(a), OfBytes(b), p)
  {
    ToBytesAndBack(Masked(OfBytes(a), p));
    ToBytesAndBack(Masked(OfBytes(b), p));
    SameMasked(OfBytes(a), OfBytes(b), p);
  }

  // ----- what the guess recovers

  lemma PrefixOfMask(n: nat, p: nat)
    requires p <= n
    ensures MaskPrefix(MaskBits(n, p)) == (true, p)
  {
    OnesOfMask(n, p);
  }

  /** Either kind of mask gives back its prefix, and zero when it is all ones or all zeros. */
  lemma GuessRecovers(n: nat, p: nat)
    requires 0 < n && p <= n
    ensures Guess(MaskBits(n, p)) == (true, if p < n then p else 0)
    ensures Guess(Flip(MaskBits(n, p))) == (true, if p < n then p else 0)
  {
    var mask := MaskBits(n, p);
    assert Flip(Flip(mask)) == mask;
    PrefixOfMask(n, p);
    if p == n {
      assert Flip(mask) == MaskBits(n, 0);
      PrefixOfMask(n, 0);
    }
  }

  /** The guess accepts the two kinds of masks and nothing else. */
  lemma GuessAccepts(w: Word)
    requires w != []
    ensures Guess(w).0 <==> IsMask(w) || IsMask(Flip(w))
    ensures !Guess(w).0 ==> Guess(w).1 == |w|
  {
    var n := |w|;
    assert Flip(Flip(w)) == w;
    if IsMask(w) {
      var p: nat :| p <= n && w == MaskBits(n, p);
      GuessRecovers(n, p);
    }
    if IsMask(Flip(w)) {
      var p: nat :| p <= n && Flip(w) == MaskBits(n, p);
      GuessRecovers(n, p);
    }
  }

  function GuessByTopBit(w: Word): (bool, nat)
    requires w != []
  {
    if w[|w| - 1] then MaskPrefix(Flip(w)) else MaskPrefix(w)
  }

  /** Looking at the most significant bit instead, as the header says, would refuse every other mask. */
  lemma TopBitRefuses(n: nat, p: nat)
    requires 0 < p < n
    ensures !GuessByTopBit(MaskBits(n, p)).0 && !GuessByTopBit(Flip(MaskBits(n, p))).0
  {
    var mask := MaskBits(n, p);
    ZeroAboveOne(Flip(mask), 0, n - 1);
  }
}
