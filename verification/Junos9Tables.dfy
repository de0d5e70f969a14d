/** The tables of the Junos type 9 decoder. */
module Junos9Tables {
  import opened Common

  /** The key, the number of each of its characters, how much padding each asks for as a salt, and the
      moduli of the characters that stand for the byte at a place. */
  datatype Tables = Tables(
    key: seq<char>, num: char -> Option<nat>, extra: char -> Option<nat>, moduli: nat -> seq<nat>)

  const KEY_SIZE := 65

  const FIRST := "QzF3n6/9CAtpu0O"
  const SECOND := "B1IREhcSyrleKvMW8LXx"
  const THIRD := "7N-dVbwsY2g4oaJZGUDj"
  const FOURTH := "iHkq.mPf5T"

  /** The key's characters, family by family. */
  const KEY := FIRST + SECOND + THIRD + FOURTH

  function Family(n: nat): nat {
    if n < 15 then 0 else if n < 35 then 1 else if n < 55 then 2 else 3
  }

  function AlphaNum(c: char): Option<nat> {
    var n := AlphaNumOf(c);
    if n == KEY_SIZE then None else Some(n)
  }

  function Extra(c: char): Option<nat> {
    var n := ExtraOf(c);
    if n == 4 then None else Some(n)
  }

  function AlphaNumOf(c: char): nat {
    match c
    case '-' => 37 case '.' => 59 case '/' => 6 case '0' => 13 case '1' => 16 case '2' => 44 case '3' => 3
    case '4' => 46 case '5' => 63 case '6' => 5 case '7' => 35 case '8' => 31 case '9' => 7 case 'A' => 9
    case 'B' => 15 case 'C' => 8 case 'D' => 53 case 'E' => 19 case 'F' => 2 case 'G' => 51 case 'H' => 56
    case 'I' => 17 case 'J' => 49 case 'K' => 27 case 'L' => 32 case 'M' => 29 case 'N' => 36 case 'O' => 14
    case 'P' => 61 case 'Q' => 0 case 'R' => 18 case 'S' => 22 case 'T' => 64 case 'U' => 52 case 'V' => 39
    case 'W' => 30 case 'X' => 33 case 'Y' => 43 case 'Z' => 50 case 'a' => 48 case 'b' => 40 case 'c' => 21
    case 'd' => 38 case 'e' => 26 case 'f' => 62 case 'g' => 45 case 'h' => 20 case 'i' => 55 case 'j' => 54
    case 'k' => 57 case 'l' => 25 case 'm' => 60 case 'n' => 4 case 'o' => 47 case 'p' => 11 case 'q' => 58
    case 'r' => 24 case 's' => 42 case 't' => 10 case 'u' => 12 case 'v' => 28 case 'w' => 41 case 'x' => 34
    case 'y' => 23 case 'z' => 1
    case _ => KEY_SIZE
  }

  function ExtraOf(c: char): nat {
    match c
    case '-' => 1 case '.' => 0 case '/' => 3 case '0' => 3 case '1' => 2 case '2' => 1 case '3' => 3 case '4' => 1
    case '5' => 0 case '6' => 3 case '7' => 1 case '8' => 2 case '9' => 3 case 'A' => 3 case 'B' => 2 case 'C' => 3
    case 'D' => 1 case 'E' => 2 case 'F' => 3 case 'G' => 1 case 'H' => 0 case 'I' => 2 case 'J' => 1 case 'K' => 2
    case 'L' => 2 case 'M' => 2 case 'N' => 1 case 'O' => 3 case 'P' => 0 case 'Q' => 3 case 'R' => 2 case 'S' => 2
    case 'T' => 0 case 'U' => 1 case 'V' => 1 case 'W' => 2 case 'X' => 2 case 'Y' => 1 case 'Z' => 1 case 'a' => 1
    case 'b' => 1 case 'c' => 2 case 'd' => 1 case 'e' => 2 case 'f' => 0 case 'g' => 1 case 'h' => 2 case 'i' => 0
    case 'j' => 1 case 'k' => 0 case 'l' => 2 case 'm' => 0 case 'n' => 3 case 'o' => 1 case 'p' => 3 case 'q' => 0
    case 'r' => 2 case 's' => 1 case 't' => 3 case 'u' => 3 case 'v' => 2 case 'w' => 1 case 'x' => 2 case 'y' => 2
    case 'z' => 3
    case _ => 4
  }

  const ENCODING: seq<seq<nat>> := [[1, 4, 32], [1, 16, 32], [1, 8, 32], [1, 64], [1, 32], [1, 4, 16, 128], [1, 32, 64]]

  function Moduli(i: nat): seq<nat> {
    ENCODING[i % |ENCODING|]
  }

  const JUNOS := Tables(KEY, AlphaNum, Extra, Moduli)

  /** The moduli start with one, and none is more than 64 times the one before it. */
  predicate Steps(moduli: seq<nat>) {
    && |moduli| > 0 && moduli[0] == 1
    && forall j :: 0 < j < |moduli| ==> 0 < moduli[j] <= 64 * moduli[j - 1]
  }

  predicate StepsAt(t: Tables, i: nat) {
    Steps(t.moduli(i)) && 256 <= 64 * t.moduli(i)[|t.moduli(i)| - 1]
  }

  /** Numbers are below the key's size; the salts are the characters that have a number. */
  ghost predicate Sound(t: Tables) {
    && (forall c :: (t.num(c).Some? ==> t.num(c).value < KEY_SIZE) && (t.num(c).Some? <==> t.extra(c).Some?))
    && forall i :: StepsAt(t, i)
  }

  predicate NumberedAt(t: Tables, n: nat)
    requires n < |t.key|
  {
    t.num(t.key[n]) == Some(n)
  }

  /** The characters of the key are numbered by their places. */
  ghost predicate Consistent(t: Tables) {
    Sound(t) && |t.key| == KEY_SIZE && forall n: nat :: n < KEY_SIZE ==> NumberedAt(t, n)
  }

  predicate Fits(c: char, n: nat) {
    AlphaNumOf(c) == n && ExtraOf(c) == 3 - Family(n)
  }

  lemma First(n: nat)
    requires n < 15
    ensures |FIRST| == 15 && Fits(FIRST[n], n)
  {
  }

  lemma SecondFront(n: nat)
    requires 0 <= n < 10
    ensures |SECOND| == 20 && Fits(SECOND[n], 15 + n)
  {
  }

  lemma SecondBack(n: nat)
    requires 10 <= n < 20
    ensures |SECOND| == 20 && Fits(SECOND[n], 15 + n)
  {
  }

  lemma ThirdFront(n: nat)
    requires 0 <= n < 10
    ensures |THIRD| == 20 && Fits(THIRD[n], 35 + n)
  {
  }

  lemma ThirdBack(n: nat)
    requires 10 <= n < 20
    ensures |THIRD| == 20 && Fits(THIRD[n], 35 + n)
  {
  }

  lemma Fourth(n: nat)
    requires n < 10
    ensures |FOURTH| == 10 && Fits(FOURTH[n], 55 + n)
  {
  }

  lemma Lengths()
    ensures |FIRST| == 15 && |SECOND| == 20 && |THIRD| == 20 && |FOURTH| == 10 && |KEY| == KEY_SIZE
  {
  }

  lemma KeyAt(a: seq<char>, b: seq<char>, c: seq<char>, d: seq<char>, n: nat)
    requires |a| == 15 && |b| == 20 && |c| == 20 && |d| == 10 && n < KEY_SIZE
    ensures (a + b + c + d)[n] ==
      if n < 15 then a[n] else if n < 35 then b[n - 15] else if n < 55 then c[n - 35] else d[n - 55]
  {
  }

  lemma KeyFits(n: nat)
    requires n < KEY_SIZE
    ensures |KEY| == KEY_SIZE && Fits(KEY[n], n)
  {
    Lengths();
    KeyAt(FIRST, SECOND, THIRD, FOURTH, n);
    if n < 15 { First(n); }
    else if n < 25 { SecondFront(n - 15); }
    else if n < 35 { SecondBack(n - 15); }
    else if n < 45 { ThirdFront(n - 35); }
    else if n < 55 { ThirdBack(n - 35); }
    else { Fourth(n - 55); }
  }

  lemma SameAlphabet(c: char)
    ensures AlphaNumOf(c) <= KEY_SIZE && ExtraOf(c) <= 4
    ensures AlphaNumOf(c) < KEY_SIZE <==> ExtraOf(c) < 4
  {
  }

  /** A salt's padding is its family counted from the last. */
  lemma ExtraIsFamily(n: nat)
    requires n < KEY_SIZE
    ensures |KEY| == KEY_SIZE && Extra(KEY[n]) == Some(3 - Family(n))
  {
    KeyFits(n);
  }

  lemma JunosIsConsistent()
    ensures Consistent(JUNOS)
  {
    Lengths();
    forall n: nat | n < KEY_SIZE ensures NumberedAt(JUNOS, n) {
      KeyFits(n);
    }
    forall c
      ensures JUNOS.num(c).Some? ==> JUNOS.num(c).value < KEY_SIZE
      ensures JUNOS.num(c).Some? <==> JUNOS.extra(c).Some?
    {
      SameAlphabet(c);
    }
    forall i: nat ensures StepsAt(JUNOS, i) {
      ModuliShape(i);
    }
  }

  lemma ModuliShape(i: nat)
    ensures Steps(Moduli(i)) && 256 <= 64 * Moduli(i)[|Moduli(i)| - 1]
    ensures |Moduli(i)| == [3, 3, 3, 2, 2, 4, 3][i % 7]
  {
    var k := i % 7;
    assert k == 0 || k == 1 || k == 2 || k == 3 || k == 4 || k == 5 || k == 6;
  }
}
