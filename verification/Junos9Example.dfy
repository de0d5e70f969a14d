/** A published encoded text, decoded with the decoder's own tables. */
module Junos9Example {
  import opened Common
  import opened Junos9Tables
  import opened Junos9

  predicate IsNum(c: char, n: nat) {
    n < KEY_SIZE && AlphaNumOf(c) == n
  }

  /** The characters have the numbers. */
  predicate Spells(group: seq<char>, nums: seq<nat>) {
    |group| == |nums| && forall k :: 0 <= k < |nums| ==> IsNum(group[k], nums[k])
  }

  /** The number of places from one number to the next, less one. */
  function Gap(a: nat, b: nat): int {
    (b - a) % KEY_SIZE - 1
  }

  function Weighted(prev: nat, nums: seq<nat>, moduli: seq<nat>): int
    requires |nums| == |moduli|
    decreases |nums|
  {
    if nums == [] then 0 else Gap(prev, nums[0]) * moduli[0] + Weighted(nums[0], nums[1..], moduli[1..])
  }

  lemma {:induction false} SpelledDot(prev: char, p: nat, group: seq<char>, nums: seq<nat>, moduli: seq<nat>)
    requires IsNum(prev, p) && Spells(group, nums) && |nums| == |moduli|
    ensures AllKnown(JUNOS, group) && Dot(Distances(JUNOS, prev, group), moduli) == Weighted(p, nums, moduli)
    decreases |group|
  {
    if group != [] {
      assert IsNum(group[0], nums[0]);
      SpelledDot(group[0], nums[0], group[1..], nums[1..], moduli[1..]);
      var d := Distances(JUNOS, prev, group);
      assert d[1..] == Distances(JUNOS, group[0], group[1..]);
    }
  }

  lemma WeightedTwo(p: nat, a: nat, b: nat, m: nat, n: nat)
    ensures Weighted(p, [a, b], [m, n]) == Gap(p, a) * m + Gap(a, b) * n
  {
    assert [a, b][1..] == [b] && [m, n][1..] == [n];
    assert Weighted(a, [b], [n]) == Gap(a, b) * n + Weighted(b, [], []);
  }

  lemma WeightedThree(p: nat, a: nat, b: nat, c: nat, m: nat, n: nat, o: nat)
    ensures Weighted(p, [a, b, c], [m, n, o]) == Gap(p, a) * m + Gap(a, b) * n + Gap(b, c) * o
  {
    assert [a, b, c][1..] == [b, c] && [m, n, o][1..] == [n, o];
    WeightedTwo(a, b, c, n, o);
  }

  lemma WeightedFour(p: nat, a: nat, b: nat, c: nat, d: nat, m: nat, n: nat, o: nat, q: nat)
    ensures Weighted(p, [a, b, c, d], [m, n, o, q]) ==
      Gap(p, a) * m + Gap(a, b) * n + Gap(b, c) * o + Gap(c, d) * q
  {
    assert [a, b, c, d][1..] == [b, c, d] && [m, n, o, q][1..] == [n, o, q];
    WeightedThree(a, b, c, d, n, o, q);
  }

  /** From the `i`-th group on, the text after a character stands for the bytes. */
  ghost predicate Reads(prev: char, body: seq<char>, i: nat, bytes: seq<byte>) {
    Sound(JUNOS) && JUNOS.num(prev).Some? && Groups(JUNOS, prev, body, i) == Done(bytes)
  }

  lemma OneGroup(prev: char, p: nat, group: seq<char>, nums: seq<nat>, moduli: seq<nat>, i: nat, b: byte,
                 last: char, rest: seq<char>, bytes: seq<byte>)
    requires IsNum(prev, p) && Spells(group, nums) && Moduli(i) == moduli && |moduli| == |nums| && nums != []
    requires Weighted(p, nums, moduli) % 256 == b
    requires last == group[|group| - 1] && Reads(last, rest, i + 1, bytes)
    ensures Reads(prev, group + rest, i, [b] + bytes)
  {
    SpelledDot(prev, p, group, nums, moduli);
    assert (group + rest)[..|group|] == group && (group + rest)[|group|..] == rest;
  }

  lemma Salted(salt: char, padding: seq<char>, body: seq<char>, bytes: seq<byte>)
    requires Extra(salt) == Some(|padding|) && body != [] && Reads(salt, body, 0, bytes)
    ensures Decoded(JUNOS, [salt] + padding + body) == Done(bytes)
  {
    var encoded := [salt] + padding + body;
    assert encoded[1 + |padding|..] == body;
  }

  // ----- the example's groups

  lemma FirstGroup(rest: seq<char>, bytes: seq<byte>)
    requires Reads('j', rest, 1, bytes)
    ensures Reads('2', "gZj" + rest, 0, [112] + bytes)
  {
    FirstNumbers();
    WeightedThree(44, 45, 50, 54, 1, 4, 32);
    OneGroup('2', 44, "gZj", [45, 50, 54], [1, 4, 32], 0, 112, 'j', rest, bytes);
  }

  lemma FirstNumbers()
    ensures IsNum('2', 44) && Spells("gZj", [45, 50, 54])
  {
  }

  lemma SecondGroup(rest: seq<char>, bytes: seq<byte>)
    requires Reads('P', rest, 2, bytes)
    ensures Reads('j', "HkP" + rest, 1, [97] + bytes)
  {
    SecondNumbers();
    WeightedThree(54, 56, 57, 61, 1, 16, 32);
    OneGroup('j', 54, "HkP", [56, 57, 61], [1, 16, 32], 1, 97, 'P', rest, bytes);
  }

  lemma SecondNumbers()
    ensures IsNum('j', 54) && Spells("HkP", [56, 57, 61])
  {
  }

  lemma ThirdGroup(rest: seq<char>, bytes: seq<byte>)
    requires Reads('9', rest, 3, bytes)
    ensures Reads('P', "Q39" + rest, 2, [115] + bytes)
  {
    ThirdNumbers();
    WeightedThree(61, 0, 3, 7, 1, 8, 32);
    OneGroup('P', 61, "Q39", [0, 3, 7], [1, 8, 32], 2, 115, '9', rest, bytes);
  }

  lemma ThirdNumbers()
    ensures IsNum('P', 61) && Spells("Q39", [0, 3, 7])
  {
  }

  lemma FourthGroup(rest: seq<char>, bytes: seq<byte>)
    requires Reads('P', rest, 4, bytes)
    ensures Reads('9', ".P" + rest, 3, [115] + bytes)
  {
    FourthNumbers();
    WeightedTwo(7, 59, 61, 1, 64);
    OneGroup('9', 7, ".P", [59, 61], [1, 64], 3, 115, 'P', rest, bytes);
  }

  lemma FourthNumbers()
    ensures IsNum('9', 7) && Spells(".P", [59, 61])
  {
  }

  lemma FifthGroup(rest: seq<char>, bytes: seq<byte>)
    requires Reads('r', rest, 5, bytes)
    ensures Reads('P', "hr" + rest, 4, [119] + bytes)
  {
    FifthNumbers();
    WeightedTwo(61, 20, 24, 1, 32);
    OneGroup('P', 61, "hr", [20, 24], [1, 32], 4, 119, 'r', rest, bytes);
  }

  lemma FifthNumbers()
    ensures IsNum('P', 61) && Spells("hr", [20, 24])
  {
  }

  lemma SixthGroup(rest: seq<char>, bytes: seq<byte>)
    requires Reads('b', rest, 6, bytes)
    ensures Reads('r', "vLVb" + rest, 5, [111] + bytes)
  {
    SixthNumbers();
    WeightedFour(24, 28, 32, 39, 40, 1, 4, 16, 128);
    OneGroup('r', 24, "vLVb", [28, 32, 39, 40], [1, 4, 16, 128], 5, 111, 'b', rest, bytes);
  }

  lemma SixthNumbers()
    ensures IsNum('r', 24) && Spells("vLVb", [28, 32, 39, 40])
  {
  }

  lemma SeventhGroup(rest: seq<char>, bytes: seq<byte>)
    requires Reads('5', rest, 7, bytes)
    ensures Reads('b', ".P5" + rest, 6, [114] + bytes)
  {
    SeventhNumbers();
    WeightedThree(40, 59, 61, 63, 1, 32, 64);
    OneGroup('b', 40, ".P5", [59, 61, 63], [1, 32, 64], 6, 114, '5', rest, bytes);
  }

  lemma SeventhNumbers()
    ensures IsNum('b', 40) && Spells(".P5", [59, 61, 63])
  {
  }

  lemma EighthGroup(rest: seq<char>, bytes: seq<byte>)
    requires Reads('6', rest, 8, bytes)
    ensures Reads('5', "Tz6" + rest, 7, [100] + bytes)
  {
    EighthNumbers();
    WeightedThree(63, 64, 1, 5, 1, 4, 32);
    OneGroup('5', 63, "Tz6", [64, 1, 5], [1, 4, 32], 7, 100, '6', rest, bytes);
  }

  lemma EighthNumbers()
    ensures IsNum('5', 63) && Spells("Tz6", [64, 1, 5])
  {
  }

  lemma Nothing()
    ensures Reads('6', [], 8, [])
  {
    JunosIsConsistent();
  }

  lemma SecondHalf()
    ensures Reads('P', "hr" + ("vLVb" + (".P5" + ("Tz6" + []))), 4, [119] + ([111] + ([114] + ([100] + []))))
  {
    Nothing();
    EighthGroup([], []);
    SeventhGroup("Tz6" + [], [100] + []);
    SixthGroup(".P5" + ("Tz6" + []), [114] + ([100] + []));
    FifthGroup("vLVb" + (".P5" + ("Tz6" + [])), [111] + ([114] + ([100] + [])));
  }

  lemma FirstHalf(rest: seq<char>, bytes: seq<byte>)
    requires Reads('P', rest, 4, bytes)
    ensures Reads('2', "gZj" + ("HkP" + ("Q39" + (".P" + rest))), 0, [112] + ([97] + ([115] + ([115] + bytes))))
  {
    FourthGroup(rest, bytes);
    ThirdGroup(".P" + rest, [115] + bytes);
    SecondGroup("Q39" + (".P" + rest), [115] + ([115] + bytes));
    FirstGroup("HkP" + ("Q39" + (".P" + rest)), [97] + ([115] + ([115] + bytes)));
  }

  lemma Joined(a: seq<char>, b: seq<char>, c: seq<char>, d: seq<char>, e: seq<char>, f: seq<char>, g: seq<char>,
               h: seq<char>)
    ensures a + (b + (c + (d + (e + (f + (g + (h + []))))))) == a + b + c + d + e + f + g + h
  {
  }

  lemma JoinedBytes(a: byte, b: byte, c: byte, d: byte, e: byte, f: byte, g: byte, h: byte)
    ensures [a] + ([b] + ([c] + ([d] + ([e] + ([f] + ([g] + ([h] + []))))))) == [a, b, c, d, e, f, g, h]
  {
  }

  /** The example in the tool's instructions decodes to the bytes of "password". */
  lemma Published()
    ensures Sound(JUNOS)
    ensures Decoded(JUNOS, ['2'] + "G" + ("gZj" + "HkP" + "Q39" + ".P" + "hr" + "vLVb" + ".P5" + "Tz6")) ==
      Done([112, 97, 115, 115, 119, 111, 114, 100])
  {
    SecondHalf();
    FirstHalf("hr" + ("vLVb" + (".P5" + ("Tz6" + []))), [119] + ([111] + ([114] + ([100] + []))));
    Joined("gZj", "HkP", "Q39", ".P", "hr", "vLVb", ".P5", "Tz6");
    JoinedBytes(112, 97, 115, 115, 119, 111, 114, 100);
    Finish("gZj" + "HkP" + "Q39" + ".P" + "hr" + "vLVb" + ".P5" + "Tz6", [112, 97, 115, 115, 119, 111, 114, 100]);
  }

  lemma Finish(body: seq<char>, bytes: seq<byte>)
    requires body != [] && Reads('2', body, 0, bytes)
    ensures Decoded(JUNOS, ['2'] + "G" + body) == Done(bytes)
  {
    Salted('2', "G", body, bytes);
  }
}
