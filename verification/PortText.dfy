/** Reading and writing the numbers in port range texts. */
module PortText {
  import opened Common

  predicate IsSpace(c: char) {
    c == ' ' || c == '\t' || c == '\n' || c == '\r' || c == 11 as char || c == 12 as char
  }

  /** Tab, line feed, vertical tab, form feed, carriage return and the space. */
  lemma SpaceCharacters(c: char)
    ensures IsSpace(c) <==> c as int in {9, 10, 11, 12, 13, 32}
  {
  }

  // ----- runs of one kind of character

  predicate All(p: char -> bool, s: string) {
    s == "" || (p(s[0]) && All(p, s[1..]))
  }

  predicate Starts(p: char -> bool, s: string) {
    s != "" && p(s[0])
  }

  function Run(p: char -> bool, s: string): (n: nat)
    ensures n <= |s|
  {
    if Starts(p, s) then 1 + Run(p, s[1..]) else 0
  }

  lemma {:induction false} RunOf(p: char -> bool, a: string, rest: string)
    requires All(p, a) && !Starts(p, rest)
    ensures Run(p, a + rest) == |a|
    decreases |a|
  {
    if a == "" {
      assert a + rest == rest;
    } else {
      RunOf(p, a[1..], rest);
      assert (a + rest)[1..] == a[1..] + rest;
    }
  }

  lemma {:induction false} RunSplits(p: char -> bool, s: string)
    ensures All(p, s[..Run(p, s)]) && !Starts(p, s[Run(p, s)..])
    decreases |s|
  {
    if Starts(p, s) {
      var n := Run(p, s);
      RunSplits(p, s[1..]);
      assert s[..n][1..] == s[1..][..n - 1] && s[n..] == s[1..][n - 1..];
    }
  }

  // ----- numbers

  /** A number of one to five digits. */
  predicate IsNumber(a: string) {
    1 <= |a| <= 5 && All(IsDigit, a)
  }

  function ReadNumber(s: string): Option<(string, string)> {
    var n := Run(IsDigit, s);
    if 1 <= n <= 5 then Some((s[..n], s[n..])) else None
  }

  function Skip(s: string): string {
    s[Run(IsSpace, s)..]
  }

  lemma ReadsNumber(a: string, rest: string)
    requires IsNumber(a) && !Starts(IsDigit, rest)
    ensures ReadNumber(a + rest) == Some((a, rest))
  {
    RunOf(IsDigit, a, rest);
    assert (a + rest)[..|a|] == a && (a + rest)[|a|..] == rest;
  }

  lemma NumberRead(s: string)
    requires ReadNumber(s).Some?
    ensures var (a, rest) := ReadNumber(s).value; s == a + rest && IsNumber(a) && !Starts(IsDigit, rest)
  {
    RunSplits(IsDigit, s);
  }

  lemma Skips(w: string, rest: string)
    requires All(IsSpace, w) && !Starts(IsSpace, rest)
    ensures Skip(w + rest) == rest
  {
    RunOf(IsSpace, w, rest);
  }

  /** What has been skipped. */
  function Spaces(s: string): string {
    s[..Run(IsSpace, s)]
  }

  lemma Skipped(s: string)
    ensures s == Spaces(s) + Skip(s) && All(IsSpace, Spaces(s)) && !Starts(IsSpace, Skip(s))
  {
    RunSplits(IsSpace, s);
  }

  // ----- tokens after spaces

  /** The text is a number after spaces, and then `rest`. */
  ghost predicate Field(s: string, a: string, rest: string) {
    IsNumber(a) && !Starts(IsDigit, rest) && exists w :: All(IsSpace, w) && s == w + (a + rest)
  }

  /** The text is the character `c` after spaces, and then `rest`. */
  ghost predicate Token(s: string, c: char, rest: string) {
    exists w :: All(IsSpace, w) && s == w + ([c] + rest)
  }

  lemma NumberFirst(a: string, rest: string)
    requires IsNumber(a)
    ensures !Starts(IsSpace, a + rest)
  {
  }

  lemma FieldRead(s: string, a: string, rest: string)
    ensures Field(s, a, rest) <==> ReadNumber(Skip(s)) == Some((a, rest))
  {
    if Field(s, a, rest) {
      var w :| All(IsSpace, w) && s == w + (a + rest);
      NumberFirst(a, rest);
      Skips(w, a + rest);
      ReadsNumber(a, rest);
    }
    if ReadNumber(Skip(s)) == Some((a, rest)) {
      Skipped(s);
      NumberRead(Skip(s));
    }
  }

  lemma TokenRead(s: string, c: char, rest: string)
    requires !IsSpace(c)
    ensures Token(s, c, rest) <==> Skip(s) == [c] + rest
  {
    if Token(s, c, rest) {
      var w :| All(IsSpace, w) && s == w + ([c] + rest);
      Skips(w, [c] + rest);
    }
    if Skip(s) == [c] + rest { Skipped(s); }
  }

  /** A field does not start with anything but a digit or a space, and a token with nothing but its character or a
      space. */
  lemma FieldStarts(s: string, a: string, rest: string)
    requires Field(s, a, rest)
    ensures s != "" && (IsDigit(s[0]) || IsSpace(s[0]))
  {
    var w :| All(IsSpace, w) && s == w + (a + rest);
    if w == "" { assert s[0] == a[0]; } else { assert s[0] == w[0]; }
  }

  lemma TokenStarts(s: string, c: char, rest: string)
    requires Token(s, c, rest)
    ensures s != "" && (s[0] == c || IsSpace(s[0]))
  {
    var w :| All(IsSpace, w) && s == w + ([c] + rest);
    if w == "" { assert s == [c] + rest; } else { assert s[0] == w[0]; }
  }

  function Value(a: string): nat
    requires All(IsDigit, a)
    decreases |a|
  {
    if a == "" then 0
    else
      AllButLast(a);
      10 * Value(a[..|a| - 1]) + (a[|a| - 1] as int - '0' as int)
  }

  lemma {:induction false} AllConcat(p: char -> bool, a: string, b: string)
    ensures All(p, a + b) <==> All(p, a) && All(p, b)
    decreases |a|
  {
    if a == "" {
      assert a + b == b;
    } else {
      AllConcat(p, a[1..], b);
      assert (a + b)[1..] == a[1..] + b;
    }
  }

  lemma AllButLast(a: string)
    requires a != "" && All(IsDigit, a)
    ensures All(IsDigit, a[..|a| - 1]) && IsDigit(a[|a| - 1])
  {
    AllConcat(IsDigit, a[..|a| - 1], [a[|a| - 1]]);
    assert a == a[..|a| - 1] + [a[|a| - 1]];
  }

  lemma {:induction false} DecimalValue(n: nat)
    ensures All(IsDigit, Decimal(n)) && Value(Decimal(n)) == n
  {
    var a := Decimal(n);
    if n < 10 {
      assert a[..|a| - 1] == "";
    } else {
      DecimalValue(n / 10);
      assert a[..|a| - 1] == Decimal(n / 10);
      AllConcat(IsDigit, Decimal(n / 10), [DigitChar(n % 10)]);
      assert [DigitChar(n % 10)][1..] == "";
    }
  }

  /** Zeros in front do not count. */
  lemma {:induction false} ZeroInFront(a: string)
    requires All(IsDigit, a)
    ensures All(IsDigit, "0" + a) && Value("0" + a) == Value(a)
    decreases |a|
  {
    var z := "0" + a;
    AllConcat(IsDigit, "0", a);
    if a == "" {
      assert z[..|z| - 1] == "";
    } else {
      AllButLast(a);
      ZeroInFront(a[..|a| - 1]);
      assert z[..|z| - 1] == "0" + a[..|a| - 1];
    }
  }

  lemma DecimalLength(n: nat)
    requires n < 100000
    ensures IsNumber(Decimal(n))
  {
    DecimalValue(n);
    DecimalShort(n, 5);
  }

  function Pow10(k: nat): nat {
    if k == 0 then 1 else 10 * Pow10(k - 1)
  }

  lemma {:induction false} ShortBelow(n: nat, k: nat)
    requires 0 < k && n < Pow10(k)
    ensures |Decimal(n)| <= k
  {
    if n >= 10 {
      ShortBelow(n / 10, k - 1);
    }
  }

  lemma DecimalShort(n: nat, k: nat)
    requires k == 5 && n < 100000
    ensures |Decimal(n)| <= k
  {
    assert Pow10(2) == 100;
    assert Pow10(4) == 10000;
    ShortBelow(n, 5);
  }

  lemma {:induction false} ValueBelow(a: string)
    requires All(IsDigit, a)
    ensures Value(a) < Pow10(|a|)
    decreases |a|
  {
    if a != "" {
      AllButLast(a);
      ValueBelow(a[..|a| - 1]);
    }
  }
}
