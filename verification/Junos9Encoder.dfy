/** The greedy Junos type 9 encoding, which the decoder undoes, and which texts decode at all. */
module Junos9Encoder {
  import opened Common
  import opened Junos9Tables
  import opened Junos9

  // ----- the encoder

  lemma GapBack(x: nat, g: nat)
    requires x < KEY_SIZE && g + 1 < KEY_SIZE
    ensures ((x + g + 1) % KEY_SIZE - x) % KEY_SIZE - 1 == g
  {
  }

  /** The character at the given gap from another. */
  function At(t: Tables, last: char, gap: nat): (c: char)
    requires Consistent(t) && t.num(last).Some?
    ensures t.num(c).Some?
    ensures gap + 1 < KEY_SIZE ==> Distance(t, last, c) == gap
  {
    var n := (Num(t, last) + gap + 1) % KEY_SIZE;
    assert NumberedAt(t, n);
    assert gap + 1 < KEY_SIZE ==> (n - Num(t, last)) % KEY_SIZE - 1 == gap by {
      if gap + 1 < KEY_SIZE { GapBack(Num(t, last), gap); }
    }
    t.key[n]
  }

  // ----- the gaps of a greedy encoding

  /** A byte as a sum of the moduli, the largest first, each as often as it fits. */
  function Greedy(b: nat, moduli: seq<nat>): (g: seq<nat>)
    requires forall j :: 0 <= j < |moduli| ==> moduli[j] > 0
    ensures |g| == |moduli|
    decreases |moduli|
  {
    if moduli == [] then []
    else
      var n := |moduli| - 1;
      Greedy(b % moduli[n], moduli[..n]) + [b / moduli[n]]
  }

  /** The characters at the given gaps from `prev` on. */
  function Placed(t: Tables, prev: char, gaps: seq<nat>): (s: seq<char>)
    requires Consistent(t) && t.num(prev).Some?
    ensures |s| == |gaps| && AllKnown(t, s)
    decreases gaps
  {
    if gaps == [] then []
    else
      var c := At(t, prev, gaps[0]);
      [c] + Placed(t, c, gaps[1..])
  }

  lemma TimesGrows(m: nat, q: nat)
    ensures q >= 64 ==> m * q >= 64 * m
  {
  }

  lemma Divided(b: nat, m: nat)
    requires m > 0
    ensures b == (b / m) * m + b % m && b % m < m
    ensures b < 64 * m ==> b / m < 64
  {
    TimesGrows(m, b / m);
  }

  predicate Positive(moduli: seq<nat>) {
    forall j :: 0 <= j < |moduli| ==> moduli[j] > 0
  }

  predicate Small(gaps: seq<nat>) {
    forall j :: 0 <= j < |gaps| ==> gaps[j] + 1 < KEY_SIZE
  }

  /** Each greedy gap is small enough to tell from its remainder modulo 65. */
  lemma {:induction false} GreedyIsSmall(b: nat, moduli: seq<nat>)
    requires Steps(moduli) && Positive(moduli) && b < 64 * moduli[|moduli| - 1]
    ensures Small(Greedy(b, moduli))
    decreases |moduli|
  {
    var n := |moduli| - 1;
    Divided(b, moduli[n]);
    if n > 0 {
      assert moduli[..n][n - 1] == moduli[n - 1];
      GreedyIsSmall(b % moduli[n], moduli[..n]);
    }
  }

  lemma {:induction false} DotLast(gaps: seq<nat>, moduli: seq<nat>, g: nat, m: nat)
    requires |gaps| == |moduli|
    ensures Dot(gaps + [g], moduli + [m]) == Dot(gaps, moduli) + g * m
    decreases gaps
  {
    if gaps == [] {
      assert [g][1..] == [] && [m][1..] == [];
      assert gaps + [g] == [g] && moduli + [m] == [m];
    } else {
      DotLast(gaps[1..], moduli[1..], g, m);
      assert (gaps + [g])[1..] == gaps[1..] + [g] && (moduli + [m])[1..] == moduli[1..] + [m];
    }
  }

  /** The greedy gaps sum up to the byte. */
  lemma {:induction false} GreedySums(b: nat, moduli: seq<nat>)
    requires Positive(moduli) && moduli != [] && moduli[0] == 1
    ensures Dot(Greedy(b, moduli), moduli) == b
    decreases |moduli|
  {
    var n := |moduli| - 1;
    var m := moduli[n];
    Divided(b, m);
    DotLast(Greedy(b % m, moduli[..n]), moduli[..n], b / m, m);
    assert moduli[..n] + [m] == moduli;
    if n > 0 { GreedySums(b % m, moduli[..n]); }
  }

  /** Placed characters have the gaps they were placed at. */
  lemma {:induction false} PlacedDistances(t: Tables, prev: char, gaps: seq<nat>)
    requires Consistent(t) && t.num(prev).Some? && Small(gaps)
    ensures Distances(t, prev, Placed(t, prev, gaps)) == gaps
    decreases gaps
  {
    if gaps != [] {
      PlacedDistances(t, At(t, prev, gaps[0]), gaps[1..]);
    }
  }

  /** The characters of one byte, the `i`-th of the text: read back, they weigh what the byte is. */
  function Group(t: Tables, prev: char, b: byte, i: nat): (s: seq<char>)
    requires Consistent(t) && t.num(prev).Some?
    ensures |s| == |t.moduli(i)| > 0 && AllKnown(t, s) && t.num(s[|s| - 1]).Some?
    ensures Dot(Distances(t, prev, s), t.moduli(i)) == b
  {
    assert StepsAt(t, i);
    var gaps := Greedy(b, t.moduli(i));
    GreedySums(b, t.moduli(i));
    GreedyIsSmall(b, t.moduli(i));
    PlacedDistances(t, prev, gaps);
    KnownLast(t, Placed(t, prev, gaps));
    Placed(t, prev, gaps)
  }

  /** The groups of the bytes, of which the first is the `i`-th of the text. */
  function EncodedGroups(t: Tables, prev: char, bytes: seq<byte>, i: nat): (s: seq<char>)
    requires Consistent(t) && t.num(prev).Some?
    ensures |s| >= |bytes|
    decreases bytes
  {
    if bytes == [] then []
    else
      var group := Group(t, prev, bytes[0], i);
      group + EncodedGroups(t, group[|group| - 1], bytes[1..], i + 1)
  }

  /** The salt, as much padding as it asks for, and the groups. */
  function Encoded(t: Tables, salt: char, padding: seq<char>, bytes: seq<byte>): seq<char>
    requires Consistent(t) && t.num(salt).Some? && |padding| == t.extra(salt).value
  {
    [salt] + padding + EncodedGroups(t, salt, bytes, 0)
  }

  // ----- round trip

  lemma {:induction false} GroupsBack(t: Tables, prev: char, bytes: seq<byte>, i: nat)
    requires Consistent(t) && t.num(prev).Some?
    ensures Groups(t, prev, EncodedGroups(t, prev, bytes, i), i) == Done(bytes)
    decreases bytes
  {
    if bytes != [] {
      var group := Group(t, prev, bytes[0], i);
      GroupsBack(t, group[|group| - 1], bytes[1..], i + 1);
      FirstGroup(t, prev, group, EncodedGroups(t, group[|group| - 1], bytes[1..], i + 1), i, bytes[0]);
      assert [bytes[0]] + bytes[1..] == bytes;
    }
  }

  lemma FirstGroup(t: Tables, prev: char, group: seq<char>, more: seq<char>, i: nat, b: byte)
    requires Sound(t) && t.num(prev).Some? && AllKnown(t, group) && |group| == |t.moduli(i)| > 0
    requires Dot(Distances(t, prev, group), t.moduli(i)) == b
    ensures t.num(group[|group| - 1]).Some?
    ensures Groups(t, prev, group + more, i) == Prepend(b, Groups(t, group[|group| - 1], more, i + 1))
  {
    KnownLast(t, group);
    var body := group + more;
    assert body[..|group|] == group && body[|group|..] == more && body[|group| - 1] == group[|group| - 1];
    NextGroup(t, prev, body, i, |group|);
  }

  lemma NextGroup(t: Tables, prev: char, body: seq<char>, i: nat, k: nat)
    requires Sound(t) && t.num(prev).Some? && k == |t.moduli(i)| && 0 < k <= |body| && AllKnown(t, body[..k])
    ensures t.num(body[k - 1]).Some?
    ensures Groups(t, prev, body, i) ==
      Prepend(Dot(Distances(t, prev, body[..k]), t.moduli(i)) % 256, Groups(t, body[k - 1], body[k..], i + 1))
  {
    KnownLast(t, body[..k]);
  }

  /** Every non-empty byte string comes back, whatever the salt and the padding. */
  lemma RoundTrip(t: Tables, salt: char, padding: seq<char>, bytes: seq<byte>)
    requires Consistent(t) && t.num(salt).Some? && |padding| == t.extra(salt).value && bytes != []
    ensures Decoded(t, Encoded(t, salt, padding, bytes)) == Done(bytes)
  {
    var groups := EncodedGroups(t, salt, bytes, 0);
    assert ([salt] + padding + groups)[1 + |padding|..] == groups;
    GroupsBack(t, salt, bytes, 0);
  }

  /** With the decoder's own tables; the empty string comes back only if there is padding. */
  lemma JunosRoundTrip(salt: char, padding: seq<char>, bytes: seq<byte>)
    requires AlphaNum(salt).Some? && Extra(salt) == Some(|padding|)
    ensures Consistent(JUNOS)
    ensures Decoded(JUNOS, Encoded(JUNOS, salt, padding, bytes)) == Done(bytes) <==> bytes != [] || padding != []
  {
    JunosIsConsistent();
    if bytes != [] {
      RoundTrip(JUNOS, salt, padding, bytes);
    } else {
      assert [salt] + padding + [] == [salt] + padding;
    }
  }

  // ----- which texts decode

  predicate WholeLength(size: nat) {
    var r := size % 20;
    r == 0 || r == 3 || r == 6 || r == 9 || r == 11 || r == 13 || r == 17
  }

  /** The rows of moduli have these lengths, over and over. */
  lemma RowLengths(i: nat)
    ensures |JUNOS.moduli(i)| == RowLength(i)
  {
    ModuliShape(i);
  }

  /** What is left over at the start of row `i % 7` of a cycle of twenty characters. */
  function Left(i: nat): nat {
    match i % 7 case 0 => 20 case 1 => 17 case 2 => 14 case 3 => 11 case 4 => 9 case 5 => 7 case _ => 3
  }

  function RowLength(i: nat): nat {
    match i % 7 case 0 => 3 case 1 => 3 case 2 => 3 case 3 => 2 case 4 => 2 case 5 => 4 case _ => 3
  }

  lemma NextRow(i: nat)
    ensures Left(i) - RowLength(i) == Left(i + 1) || (Left(i) == RowLength(i) && Left(i + 1) == 20)
  {
    assert (i + 1) % 7 == if i % 7 == 6 then 0 else i % 7 + 1;
  }

  lemma SameLength(size: nat)
    ensures WholeLength(size + 20) == WholeLength(size)
  {
  }

  lemma BetweenRows(size: nat, i: nat)
    requires size < RowLength(i)
    ensures WholeLength(size + 20 - Left(i)) <==> size == 0
  {
  }

  lemma {:induction false} WholeIsLength(size: nat, i: nat)
    requires Sound(JUNOS)
    ensures Whole(JUNOS, size, i) <==> WholeLength(size + 20 - Left(i))
    decreases size
  {
    RowLengths(i);
    var k := |JUNOS.moduli(i)|;
    if size < k {
      BetweenRows(size, i);
    } else {
      WholeIsLength(size - k, i + 1);
      NextRow(i);
      SameLength(size - k);
    }
  }

  predicate HasBody(encoded: seq<char>) {
    |encoded| > 1 && Extra(encoded[0]).Some? && Extra(encoded[0]).value < |encoded|
  }

  /** A text decodes exactly when its salt is in the alphabet, something follows it, the padding fits,
      all after the padding is in the alphabet, and the length of that is right modulo twenty. */
  lemma WhatDecodes(encoded: seq<char>)
    ensures Sound(JUNOS)
    ensures Decoded(JUNOS, encoded).Done? <==>
      HasBody(encoded) &&
      var body := encoded[1 + Extra(encoded[0]).value..];
      AllKnown(JUNOS, body) && WholeLength(|body|)
  {
    JunosIsConsistent();
    if HasBody(encoded) {
      var body := encoded[1 + Extra(encoded[0]).value..];
      WhenGroupsDecode(JUNOS, encoded[0], body, 0);
      WholeIsLength(|body|, 0);
    }
  }
}
