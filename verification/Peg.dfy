/** Ordered-choice grammars: expressions of sequence, choice and greedy bounded repetition, read the
    way a backtracking parser runs them. */
module Peg {
  import opened Common

  datatype Expr =
    | Text(text: string)
    | HexDigit
    | Octet  // a whole run of decimal digits whose value is at most 255
    | Then(first: Expr, second: Expr)
    | Or(first: Expr, second: Expr)
    | Repeat(lo: nat, hi: nat, body: Expr)

  predicate IsHex(c: char) {
    IsDigit(c) || 'a' <= c <= 'f' || 'A' <= c <= 'F'
  }

  /** The characters of decimal and of hexadecimal numbers. */
  lemma DigitCharacters(c: char)
    ensures IsDigit(c) <==> c in "0123456789"
    ensures IsHex(c) <==> c in "0123456789" || c in "abcdef" || c in "ABCDEF"
  {
    if IsDigit(c) { assert c == "0123456789"[c as int - '0' as int]; }
    if 'a' <= c <= 'f' { assert c == "abcdef"[c as int - 'a' as int]; }
    if 'A' <= c <= 'F' { assert c == "ABCDEF"[c as int - 'A' as int]; }
  }

  /** The number of decimal digits `s` starts with. */
  function DigitRun(s: string): (n: nat)
    ensures n <= |s|
  {
    if s != "" && IsDigit(s[0]) then 1 + DigitRun(s[1..]) else 0
  }

  function DecimalValue(s: string): nat
    requires forall i :: 0 <= i < |s| ==> IsDigit(s[i])
  {
    if s == "" then 0
    else
      assert IsDigit(s[|s| - 1]);
      10 * DecimalValue(s[..|s| - 1]) + (s[|s| - 1] as int - '0' as int)
  }

  /** A printed number has the number for its value. */
  lemma {:induction false} PrintedValue(n: nat)
    ensures (forall i :: 0 <= i < |Decimal(n)| ==> IsDigit(Decimal(n)[i])) && DecimalValue(Decimal(n)) == n
  {
    var a := Decimal(n);
    if n < 10 {
      assert a[..|a| - 1] == "";
    } else {
      PrintedValue(n / 10);
      assert a[..|a| - 1] == Decimal(n / 10);
    }
  }

  /** A zero in front does not count. */
  lemma {:induction false} ZeroInFront(s: string)
    requires forall i :: 0 <= i < |s| ==> IsDigit(s[i])
    ensures (forall i :: 0 <= i < |"0" + s| ==> IsDigit(("0" + s)[i])) && DecimalValue("0" + s) == DecimalValue(s)
    decreases |s|
  {
    var z := "0" + s;
    if s == "" {
      assert z[..|z| - 1] == "";
    } else {
      ZeroInFront(s[..|s| - 1]);
      assert z[..|z| - 1] == "0" + s[..|s| - 1];
    }
  }

  lemma {:induction false} DigitRunIsDigits(s: string)
    ensures forall i :: 0 <= i < DigitRun(s) ==> IsDigit(s[i])
    ensures DigitRun(s) < |s| ==> !IsDigit(s[DigitRun(s)])
  {
    if s != "" && IsDigit(s[0]) {
      DigitRunIsDigits(s[1..]);
      forall i | 0 <= i < DigitRun(s) ensures IsDigit(s[i]) {
        if i > 0 { assert s[i] == s[1..][i - 1]; }
      }
    }
  }

  function TakeOctet(s: string): Option<string> {
    var n := DigitRun(s);
    DigitRunIsDigits(s);
    if n > 0 && DecimalValue(s[..n]) <= 255 then Some(s[n..]) else None
  }

  /** What is left of `s` once `e` matched at its start, if it did. */
  function Parse(e: Expr, s: string): Option<string>
    decreases e, 0
  {
    match e
    case Text(text) => if text <= s then Some(s[|text|..]) else None
    case HexDigit => if s != "" && IsHex(s[0]) then Some(s[1..]) else None
    case Octet => TakeOctet(s)
    case Then(first, second) =>
      (match Parse(first, s)
       case None => None
       case Some(rest) => Parse(second, rest))
    case Or(first, second) =>
      var r := Parse(first, s);
      if r.Some? then r else Parse(second, s)
    case Repeat(lo, hi, body) => ParseRepeat(lo, hi, body, s)
  }

  /** At least `lo` and at most `hi` times, as often as possible. */
  function ParseRepeat(lo: nat, hi: nat, body: Expr, s: string): Option<string>
    decreases body, 1 + hi
  {
    if hi == 0 then Some(s)
    else
      match Parse(body, s)
      case None => if lo == 0 then Some(s) else None
      case Some(rest) => ParseRepeat(if lo == 0 then 0 else lo - 1, hi - 1, body, rest)
  }

  /** The whole of `s` is consumed. */
  predicate Accepts(e: Expr, s: string) {
    Parse(e, s) == Some("")
  }

  /** The first alternative that matches. */
  function FirstOf(alternatives: seq<Expr>): Expr
    requires alternatives != []
  {
    if |alternatives| == 1 then alternatives[0]
    else Or(alternatives[0], FirstOf(alternatives[1..]))
  }

  lemma {:induction false} FirstOfIsFirst(es: seq<Expr>, k: nat, s: string)
    requires k < |es| && Parse(es[k], s).Some?
    requires forall i :: 0 <= i < k ==> Parse(es[i], s) == None
    ensures Parse(FirstOf(es), s) == Parse(es[k], s)
  {
    if k > 0 {
      FirstOfIsFirst(es[1..], k - 1, s);
      assert Parse(es[0], s) == None;
    }
  }

  lemma {:induction false} FirstOfIsOne(es: seq<Expr>, s: string) returns (k: nat)
    requires es != [] && Parse(FirstOf(es), s).Some?
    ensures k < |es| && Parse(es[k], s) == Parse(FirstOf(es), s)
  {
    if |es| == 1 || Parse(es[0], s).Some? {
      k := 0;
    } else {
      k := FirstOfIsOne(es[1..], s);
      k := k + 1;
    }
  }
}
