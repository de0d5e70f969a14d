/** The Junos type 9 decoder. */
module Junos9 {
  import opened Common
  import opened Junos9Tables


  datatype Fault = Short | Foreign
  datatype Result = Done(bytes: seq<byte>) | Failed(fault: Fault)

  // ----- what an encoded text means

  function Num(t: Tables, c: char): nat
    requires t.num(c).Some?
  {
    t.num(c).value
  }

  predicate AllKnown(t: Tables, s: seq<char>) {
    s == [] || (t.num(s[0]).Some? && AllKnown(t, s[1..]))
  }

  lemma {:induction false} KnownConcat(t: Tables, a: seq<char>, b: seq<char>)
    ensures AllKnown(t, a + b) <==> AllKnown(t, a) && AllKnown(t, b)
    decreases |a|
  {
    if a == [] {
      assert a + b == b;
    } else {
      KnownConcat(t, a[1..], b);
      assert (a + b)[1..] == a[1..] + b;
    }
  }

  lemma {:induction false} KnownLast(t: Tables, s: seq<char>)
    requires AllKnown(t, s) && s != []
    ensures t.num(s[|s| - 1]).Some?
    decreases |s|
  {
    if |s| > 1 { KnownLast(t, s[1..]); }
  }

  /** The character's distance from the one before it, less one; repeated characters give minus one. */
  function Distance(t: Tables, prev: char, c: char): int
    requires t.num(prev).Some? && t.num(c).Some?
  {
    (Num(t, c) - Num(t, prev)) % KEY_SIZE - 1
  }

  /** The distances of characters that follow `prev`. */
  function Distances(t: Tables, prev: char, s: seq<char>): (d: seq<int>)
    requires t.num(prev).Some? && AllKnown(t, s)
    ensures |d| == |s|
    decreases s
  {
    if s == [] then [] else [Distance(t, prev, s[0])] + Distances(t, s[0], s[1..])
  }

  function Dot(gaps: seq<int>, moduli: seq<nat>): int
    requires |gaps| == |moduli|
  {
    if gaps == [] then 0 else gaps[0] * moduli[0] + Dot(gaps[1..], moduli[1..])
  }

  function Prepend(b: byte, r: Result): Result {
    match r
    case Done(bytes) => Done([b] + bytes)
    case Failed(_) => r
  }

  /** The bytes of a text from the `i`-th on: each is the sum of its characters' weighted distances,
      modulo 256, and ends where the next one's distances start. */
  function Groups(t: Tables, prev: char, body: seq<char>, i: nat): Result
    requires Sound(t) && t.num(prev).Some?
    decreases |body|
  {
    assert StepsAt(t, i);
    var k := |t.moduli(i)|;
    if body == [] then Done([])
    else if |body| < k then Failed(Short)
    else if !AllKnown(t, body[..k]) then Failed(Foreign)
    else
      KnownLast(t, body[..k]);
      Prepend(Dot(Distances(t, prev, body[..k]), t.moduli(i)) % 256, Groups(t, body[k - 1], body[k..], i + 1))
  }

  /** The salt says how much padding comes between it and the groups, which must not be empty together. */
  function Decoded(t: Tables, encoded: seq<char>): Result
    requires Sound(t)
  {
    if encoded == [] then Failed(Short)
    else
      var salt := encoded[0];
      if t.extra(salt).None? then Failed(Foreign)
      else if |encoded| == 1 || |encoded| - 1 < t.extra(salt).value then Failed(Short)
      else Groups(t, salt, encoded[1 + t.extra(salt).value..], 0)
  }

  // ----- the decoder

  /** Splits off `len` characters; nothing can be split off an empty text. */
  function GetNext(str: seq<char>, len: nat): Option<(seq<char>, seq<char>)> {
    if str == [] || |str| < len then None else Some((str[..len], str[len..]))
  }

  /** Gaps as eight-bit numbers. */
  function Wrapped(d: seq<int>): seq<byte> {
    seq(|d|, k requires 0 <= k < |d| => (d[k] % 256) as byte)
  }

  lemma SameMod(a: int, b: int, q: int)
    requires a == b + 256 * q
    ensures a % 256 == b % 256
  {
  }

  lemma AddMod(a: int, b: int, x: int, y: int)
    requires a % 256 == b % 256 && x % 256 == y % 256
    ensures (a + x) % 256 == (b + y) % 256
  {
    SameMod(a + x, b + y, a / 256 - b / 256 + x / 256 - y / 256);
  }

  lemma WrapMul(d: int, w: int, m: nat)
    requires w == d % 256
    ensures (w * m) % 256 == (d * m) % 256
  {
    var q := d / 256;
    assert w == d - 256 * q;
    assert w * m == d * m + 256 * (-q * m);
    SameMod(w * m, d * m, -q * m);
  }

  /** Wrapping the gaps to eight bits does not change the byte. */
  lemma {:induction false} WrappedDot(d: seq<int>, moduli: seq<nat>)
    requires |d| == |moduli|
    ensures Dot(Wrapped(d), moduli) % 256 == Dot(d, moduli) % 256
  {
    if d != [] {
      WrappedDot(d[1..], moduli[1..]);
      var w := Wrapped(d);
      assert w[1..] == Wrapped(d[1..]);
      WrapMul(d[0], w[0], moduli[0]);
      AddMod(w[0] * moduli[0], d[0] * moduli[0], Dot(w[1..], moduli[1..]), Dot(d[1..], moduli[1..]));
    }
  }

  /** Adds up from the first gap on, one eight-bit addition after the other. */
  function Sums(sum: byte, gaps: seq<byte>, moduli: seq<nat>): byte
    requires |gaps| == |moduli|
    decreases |gaps|
  {
    if gaps == [] then sum else Sums((sum + gaps[0] * moduli[0]) % 256, gaps[1..], moduli[1..])
  }

  lemma {:induction false} SumsAreDot(sum: byte, gaps: seq<byte>, moduli: seq<nat>)
    requires |gaps| == |moduli|
    ensures Sums(sum, gaps, moduli) == (sum + Dot(gaps, moduli)) % 256
    decreases |gaps|
  {
    if gaps != [] {
      var p := gaps[0] * moduli[0];
      SumsAreDot((sum + p) % 256, gaps[1..], moduli[1..]);
      AddMod((sum + p) % 256, sum + p, Dot(gaps[1..], moduli[1..]), Dot(gaps[1..], moduli[1..]));
    }
  }

  method GapDecode(gaps: seq<byte>, moduli: seq<nat>) returns (num: Option<byte>)
    ensures num.None? <==> |gaps| != |moduli|
    ensures num.Some? ==> num.value == Dot(gaps, moduli) % 256
  {
    if |gaps| != |moduli| { return None; }
    var sum: byte := 0;
    for x := 0 to |gaps|
      invariant Sums(0, gaps, moduli) == Sums(sum, gaps[x..], moduli[x..])
    {
      assert gaps[x..][1..] == gaps[x + 1..] && moduli[x..][1..] == moduli[x + 1..];
      sum := (sum + gaps[x] * moduli[x]) % 256;
    }
    SumsAreDot(0, gaps, moduli);
    num := Some(sum);
  }

  lemma {:induction false} DistancesSplit(t: Tables, prev: char, s: seq<char>, c: char)
    requires t.num(prev).Some? && AllKnown(t, s) && t.num(c).Some?
    requires s == [] || t.num(s[|s| - 1]).Some?
    ensures AllKnown(t, s + [c])
    ensures Distances(t, prev, s + [c]) ==
      Distances(t, prev, s) + [Distance(t, if s == [] then prev else s[|s| - 1], c)]
    decreases |s|
  {
    if s == [] {
      assert s + [c] == [c] && [c][1..] == [];
    } else {
      DistancesSplit(t, s[0], s[1..], c);
      assert (s + [c])[1..] == s[1..] + [c];
    }
  }

  lemma SameRemainder(d: int)
    ensures (KEY_SIZE + d) % KEY_SIZE == d % KEY_SIZE
  {
  }

  /** The gaps of one group, and its last character. */
  method GroupGaps(t: Tables, next: seq<char>, last: char) returns (gaps: Option<seq<byte>>, prev: char)
    requires t.num(last).Some?
    ensures gaps.Some? <==> AllKnown(t, next)
    ensures gaps.Some? ==> gaps.value == Wrapped(Distances(t, last, next))
    ensures gaps.Some? ==> prev == if next == [] then last else next[|next| - 1]
  {
    prev := last;
    var found: seq<byte> := [];
    for k := 0 to |next|
      invariant prev == if k == 0 then last else next[k - 1]
      invariant t.num(prev).Some? && AllKnown(t, next[..k])
      invariant found == Wrapped(Distances(t, last, next[..k]))
    {
      var c := next[k];
      assert next[..k + 1] == next[..k] + [c];
      KnownConcat(t, next[..k], [c]);
      if t.num(c).None? {
        KnownConcat(t, next[..k + 1], next[k + 1..]);
        assert next == next[..k + 1] + next[k + 1..];
        return None, prev;
      }
      var diff := KEY_SIZE + Num(t, c) - Num(t, prev);
      SameRemainder(Num(t, c) - Num(t, prev));
      DistancesSplit(t, last, next[..k], c);
      found := found + [(diff % KEY_SIZE - 1) % 256];
      prev := c;
    }
    assert next[..|next|] == next;
    gaps := Some(found);
  }

  function PrependAll(bytes: seq<byte>, r: Result): Result {
    match r
    case Done(more) => Done(bytes + more)
    case Failed(_) => r
  }

  lemma PrependOne(bytes: seq<byte>, b: byte, r: Result)
    ensures PrependAll(bytes, Prepend(b, r)) == PrependAll(bytes + [b], r)
  {
    if r.Done? { assert bytes + ([b] + r.bytes) == (bytes + [b]) + r.bytes; }
  }

  /** One group decoded, the rest is decoded as if it followed the group's last character. */
  lemma GroupsStep(t: Tables, prev: char, body: seq<char>, i: nat, b: byte)
    requires Sound(t) && t.num(prev).Some? && 0 < |t.moduli(i)| <= |body| && AllKnown(t, body[..|t.moduli(i)|])
    requires b == Dot(Wrapped(Distances(t, prev, body[..|t.moduli(i)|])), t.moduli(i)) % 256
    ensures var k := |t.moduli(i)|;
      t.num(body[k - 1]).Some? && Groups(t, prev, body, i) == Prepend(b, Groups(t, body[k - 1], body[k..], i + 1))
  {
    WrappedDot(Distances(t, prev, body[..|t.moduli(i)|]), t.moduli(i));
    KnownLast(t, body[..|t.moduli(i)|]);
  }

  /** The loop over the groups that follow salt and padding. */
  method DecodeGroups(t: Tables, salt: char, body: seq<char>) returns (r: Result)
    requires Sound(t) && t.num(salt).Some?
    ensures r == Groups(t, salt, body, 0)
  {
    var prev, rest := salt, body;
    var decoded: seq<byte> := [];
    while rest != []
      invariant t.num(prev).Some?
      invariant Groups(t, salt, body, 0) == PrependAll(decoded, Groups(t, prev, rest, |decoded|))
      decreases |rest|
    {
      var moduli := t.moduli(|decoded|);
      assert StepsAt(t, |decoded|);
      var split := GetNext(rest, |moduli|);
      if split.None? { return Failed(Short); }
      ghost var before, last := rest, prev;
      var next;
      next, rest := split.value.0, split.value.1;
      var gaps;
      gaps, prev := GroupGaps(t, next, prev);
      if gaps.None? { return Failed(Foreign); }
      var num := GapDecode(gaps.value, moduli);
      GroupsStep(t, last, before, |decoded|, num.value);
      PrependOne(decoded, num.value, Groups(t, prev, rest, |decoded| + 1));
      decoded := decoded + [num.value];
    }
    r := Done(decoded);
  }

  method Decode(t: Tables, encoded: seq<char>) returns (r: Result)
    requires Sound(t)
    ensures r == Decoded(t, encoded)
  {
    var split := GetNext(encoded, 1);
    if split.None? { return Failed(Short); }
    var (next, rest) := split.value;
    var prev := next[0];
    if t.extra(prev).None? { return Failed(Foreign); }
    split := GetNext(rest, t.extra(prev).value);
    if split.None? { return Failed(Short); }
    assert split.value.1 == encoded[1 + t.extra(prev).value..];
    r := DecodeGroups(t, prev, split.value.1);
  }

  // ----- what can be decoded

  /** So many characters, from the `i`-th group on, are whole groups. */
  predicate Whole(t: Tables, size: nat, i: nat)
    requires Sound(t)
    decreases size
  {
    assert StepsAt(t, i);
    size == 0 || (|t.moduli(i)| <= size && Whole(t, size - |t.moduli(i)|, i + 1))
  }

  lemma {:induction false} WhenGroupsDecode(t: Tables, prev: char, body: seq<char>, i: nat)
    requires Sound(t) && t.num(prev).Some?
    ensures Groups(t, prev, body, i).Done? <==> AllKnown(t, body) && Whole(t, |body|, i)
    decreases |body|
  {
    assert StepsAt(t, i);
    var k := |t.moduli(i)|;
    if k <= |body| && body != [] {
      assert body == body[..k] + body[k..];
      KnownConcat(t, body[..k], body[k..]);
      if AllKnown(t, body[..k]) {
        KnownLast(t, body[..k]);
        WhenGroupsDecode(t, body[k - 1], body[k..], i + 1);
      }
    }
  }
}
